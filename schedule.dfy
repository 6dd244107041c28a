/**
 * The schedule screen: the `HH:MM` label a new activity is stamped with,
 * the toggle request and its toast, and the defaults and colour of a
 * timeline entry.
 */
module Schedule {
  import opened Common
  import opened Text
  import opened Records
  import opened Gamification

  /** `hours.toString().padStart(2, '0') + ':' + minutes.toString().padStart(2, '0')`. */
  function TimeLabel(hours: nat, minutes: nat): (r: string)
    ensures |r| >= 5
    ensures hours < 100 && minutes < 100 ==> |r| == 5 && r[2] == ':'
  {
    var h, m := PadStart(DecimalString(hours), 2, '0'), PadStart(DecimalString(minutes), 2, '0');
    PaddedWidth(hours);
    PaddedWidth(minutes);
    ColonAt(h, m);
    h + ":" + m
  }

  /** A number padded to two places is at least two characters, and exactly two below 100. */
  lemma PaddedWidth(n: nat)
    ensures var p := PadStart(DecimalString(n), 2, '0');
            |p| >= 2 && (n < 100 ==> |p| == 2)
  {
  }

  /** In `h + ":" + m` the colon sits right after `h`. */
  lemma ColonAt(h: string, m: string)
    ensures |h + ":" + m| == |h| + 1 + |m| && (h + ":" + m)[|h|] == ':'
  {
  }

  /** A number below 100 padded to two digits: two digits that read back as the number. */
  lemma TwoDigits(n: nat)
    requires n < 100
    ensures var p := PadStart(DecimalString(n), 2, '0');
            |p| == 2 && IsDigit(p[0]) && IsDigit(p[1]) && ParseDecimal(p) == n
  {
    var d := DecimalString(n);
    var p := PadStart(d, 2, '0');
    DecimalRoundTrip(n);
    if n < 10 {
      assert p == "0" + d;
      ParseLeadingZero(d);
    } else {
      assert p == d;
    }
  }

  /** Joining two two-character halves with a colon: the halves sit at 0..2 and 3..5. */
  lemma JoinedHalves(h: string, m: string)
    requires |h| == 2 && |m| == 2
    ensures var r := h + ":" + m;
            |r| == 5 && r[2] == ':' && r[..2] == h && r[3..] == m
            && r[0] == h[0] && r[1] == h[1] && r[3] == m[0] && r[4] == m[1]
  {
    var r := h + ":" + m;
    assert r[..2] == h;
    assert r[3..] == m;
  }

  /**
   * For a clock time the label is five characters: two digits, a colon, two
   * digits, and the two halves read back as the hours and the minutes.
   */
  lemma TimeLabelShape(hours: nat, minutes: nat)
    requires hours < 24 && minutes < 60
    ensures var r := TimeLabel(hours, minutes);
            && |r| == 5 && r[2] == ':'
            && IsDigit(r[0]) && IsDigit(r[1]) && IsDigit(r[3]) && IsDigit(r[4])
            && ParseDecimal(r[..2]) == hours && ParseDecimal(r[3..]) == minutes
  {
    var h := PadStart(DecimalString(hours), 2, '0');
    var m := PadStart(DecimalString(minutes), 2, '0');
    TwoDigits(hours);
    TwoDigits(minutes);
    JoinedHalves(h, m);
    assert TimeLabel(hours, minutes) == h + ":" + m;
  }

  /** What `handleToggle` does: the state it sends and the toast it shows. */
  datatype ToggleRequest = ToggleRequest(newState: bool, toast: string)

  function HandleToggle(completed: bool): (r: ToggleRequest)
    ensures r.newState == !completed
  {
    var newState := !completed;
    ToggleRequest(newState, if newState then "Treino concluído! +50 pontos" else "Registro removido")
  }

  /** The "+50" toast shows exactly when the request is one the API rewards with 50 points. */
  lemma ToggleToastMatchesPoints(completed: bool)
    ensures HandleToggle(completed).toast == "Treino concluído! +50 pontos"
            <==> ActivityDelta(HandleToggle(completed).newState) == ActivityPoints
  {
  }

  /** `x || fallback` on an optional text column: missing or empty reads as the fallback. */
  function TextOr(x: Option<string>, fallback: string): (r: string)
    ensures x.Some? && x.value != [] ==> r == x.value
    ensures x.None? || x.value == [] ==> r == fallback
  {
    if x.Some? && x.value != [] then x.value else fallback
  }

  /** The props of one timeline entry as the schedule renders it; `locked` is never passed, so it is off. */
  datatype TimelineEntry = TimelineEntry(timeLabel: string, duration: string, icon: string, color: string, locked: bool)

  function TimelineOf(a: Activity): (r: TimelineEntry)
    ensures r.color == "blue" <==> a.kind == "cabin"
    ensures r.color == "orange" <==> a.kind != "cabin"
    ensures !r.locked
  {
    TimelineEntry(TextOr(a.timeLabel, "00:00"), TextOr(a.duration, "0 min"), TextOr(a.icon, "exercise"),
                  if a.kind == "cabin" then "blue" else "orange", false)
  }

  /** A click on a timeline entry: the toggle it starts, or nothing on a locked entry. */
  function Click(entry: TimelineEntry, completed: bool): (r: Option<ToggleRequest>)
    ensures r.None? <==> entry.locked
  {
    if entry.locked then None else Some(HandleToggle(completed))
  }

  /** On the schedule every entry is unlocked, so every click sends the negated state. */
  lemma ScheduleClicksAlwaysToggle(a: Activity)
    ensures Click(TimelineOf(a), a.completed) == Some(HandleToggle(a.completed))
    ensures Click(TimelineOf(a), a.completed).value.newState == !a.completed
  {
  }

  /** A missing time, duration or icon shows its fallback. */
  lemma TimelineDefaults(a: Activity)
    requires a.timeLabel.None? && a.duration.None? && a.icon.None?
    ensures TimelineOf(a).timeLabel == "00:00" && TimelineOf(a).duration == "0 min" && TimelineOf(a).icon == "exercise"
  {
  }
}
