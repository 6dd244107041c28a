/**
 * The profile screen: the password-change checks and the form they guard,
 * the earned-medal counter, and the form defaults filled from the stats.
 */
module Profile {
  import opened Common
  import opened Text
  import opened Gamification

  /** The verdict of the password checks. */
  datatype PasswordCheck = Mismatch | TooShort | Accepted

  /** `handleChangePassword`'s checks: the confirmation must match, then the length must be at least 6. */
  function CheckPassword(newPassword: string, confirmPassword: string): (r: PasswordCheck)
    ensures r == Mismatch <==> newPassword != confirmPassword
    ensures r == TooShort <==> newPassword == confirmPassword && Utf16Length(newPassword) < 6
    ensures r == Accepted <==> newPassword == confirmPassword && Utf16Length(newPassword) >= 6
  {
    if newPassword != confirmPassword then Mismatch
    else if Utf16Length(newPassword) < 6 then TooShort
    else Accepted
  }

  /** A short pair that does not match is reported as a mismatch, not as too short. */
  lemma MismatchCheckedFirst(newPassword: string, confirmPassword: string)
    requires newPassword != confirmPassword && Utf16Length(newPassword) < 6
    ensures CheckPassword(newPassword, confirmPassword) == Mismatch
  {
  }

  /** Six characters are enough; five are not. */
  lemma SixCharactersPass()
    ensures CheckPassword("abcdef", "abcdef") == Accepted
    ensures CheckPassword("abcde", "abcde") == TooShort
  {
    assert Utf16Length("abcdef") == 6 by {
      assert "abcdef"[1..] == "bcdef";
      assert "bcdef"[1..] == "cdef";
      assert "cdef"[1..] == "def";
      assert "def"[1..] == "ef";
      assert "ef"[1..] == "f";
      assert "f"[1..] == "";
    }
    assert Utf16Length("abcde") == 5 by {
      assert "abcde"[1..] == "bcde";
      assert "bcde"[1..] == "cde";
      assert "cde"[1..] == "de";
      assert "de"[1..] == "e";
      assert "e"[1..] == "";
    }
  }

  /** How a password change ends. */
  datatype ChangeOutcome = Rejected(reason: PasswordCheck) | Changed | Failed(message: string)

  class PasswordForm {
    var newPassword: string
    var confirmPassword: string
    var saving: bool

    constructor ()
      ensures newPassword == "" && confirmPassword == "" && !saving
    {
      newPassword := "";
      confirmPassword := "";
      saving := false;
    }

    /** The submit button is disabled while saving or while the new password is empty. */
    predicate SubmitDisabled()
      reads this
    {
      saving || newPassword == ""
    }

    /** An empty new password can never be submitted. */
    lemma EmptyPasswordIsBlocked()
      ensures newPassword == "" ==> SubmitDisabled()
      ensures !saving && newPassword != "" ==> !SubmitDisabled()
    {
    }

    /** The submit button: disabled, it sends nothing; enabled, it runs `handleChangePassword`. */
    method ClickSubmit(backendError: Option<string>) returns (outcome: Option<ChangeOutcome>)
      modifies this
      ensures old(SubmitDisabled()) ==>
                outcome.None? && newPassword == old(newPassword) && confirmPassword == old(confirmPassword)
                && saving == old(saving)
      ensures var check := CheckPassword(old(newPassword), old(confirmPassword));
              !old(SubmitDisabled()) ==>
                && outcome.Some?
                && !saving
                && (check != Accepted ==>
                      outcome.value == Rejected(check)
                      && newPassword == old(newPassword) && confirmPassword == old(confirmPassword))
                && (check == Accepted && backendError.None? ==>
                      outcome.value == Changed && newPassword == "" && confirmPassword == "")
                && (check == Accepted && backendError.Some? ==>
                      outcome.value == Failed(backendError.value)
                      && newPassword == old(newPassword) && confirmPassword == old(confirmPassword))
    {
      if SubmitDisabled() {
        return None;
      }
      var o := ChangePassword(backendError);
      outcome := Some(o);
    }

    /**
     * `handleChangePassword`: a rejected pair changes nothing; an accepted
     * one is sent, and both fields are cleared when the backend accepts it.
     */
    method ChangePassword(backendError: Option<string>) returns (outcome: ChangeOutcome)
      modifies this
      ensures var check := CheckPassword(old(newPassword), old(confirmPassword));
              check != Accepted ==>
                outcome == Rejected(check) && saving == old(saving)
                && newPassword == old(newPassword) && confirmPassword == old(confirmPassword)
      ensures var check := CheckPassword(old(newPassword), old(confirmPassword));
              check == Accepted && backendError.None? ==>
                outcome == Changed && newPassword == "" && confirmPassword == "" && !saving
      ensures var check := CheckPassword(old(newPassword), old(confirmPassword));
              check == Accepted && backendError.Some? ==>
                outcome == Failed(backendError.value) && !saving
                && newPassword == old(newPassword) && confirmPassword == old(confirmPassword)
    {
      var check := CheckPassword(newPassword, confirmPassword);
      if check != Accepted {
        return Rejected(check);
      }
      saving := true;
      if backendError.None? {
        newPassword := "";
        confirmPassword := "";
        outcome := Changed;
      } else {
        outcome := Failed(backendError.value);
      }
      saving := false;
    }
  }

  /** The number of medals flagged earned. */
  function EarnedCount(medals: seq<MedalView>): (n: nat)
    ensures n <= |medals|
  {
    if medals == [] then 0 else (if medals[0].earned then 1 else 0) + EarnedCount(medals[1..])
  }

  /** The counter `earned/total` above the medal collection; it reads back as the two counts. */
  function Counter(medals: seq<MedalView>): (r: string)
    ensures var k := FirstIndexOf(r, '/');
            k < |r| && ParseDecimal(r[..k]) == EarnedCount(medals) && ParseDecimal(r[k + 1..]) == |medals|
  {
    var earned, total := DecimalString(EarnedCount(medals)), DecimalString(|medals|);
    var r := earned + "/" + total;
    assert r[|earned|] == '/';
    assert forall i :: 0 <= i < |earned| ==> r[i] == earned[i] && IsDigit(r[i]);
    assert FirstIndexOf(r, '/') == |earned|;
    assert r[..|earned|] == earned;
    assert r[|earned| + 1..] == total;
    DecimalRoundTrip(EarnedCount(medals));
    DecimalRoundTrip(|medals|);
    r
  }

  /**
   * On the merged medal list the counter is full exactly when every catalog
   * medal has an earned row, and zero exactly when none has.
   */
  lemma {:induction false} EarnedCountOfMerge(all: seq<Medal>, rows: seq<EarnedRow>)
    ensures EarnedCount(MergeMedals(all, rows)) == |all| <==> forall k :: 0 <= k < |all| ==> all[k].id in EarnedIds(rows)
    ensures EarnedCount(MergeMedals(all, rows)) == 0 <==> forall k :: 0 <= k < |all| ==> all[k].id !in EarnedIds(rows)
  {
    if all != [] {
      var r := MergeMedals(all, rows);
      EarnedCountOfMerge(all[1..], rows);
      assert r[1..] == MergeMedals(all[1..], rows);
      assert forall k :: 0 < k < |all| ==> all[1..][k - 1] == all[k];
    }
  }

  /**
   * The fields of the object `getUserStats` returns that the form reads. Its
   * mapping of the row carries no age and no gender, so the form's
   * `data.age` and `data.gender` are always undefined.
   */
  datatype ProfileStats = ProfileStats(nickname: Option<string>, currentWeight: Option<real>, goalWeight: Option<real>)

  datatype ProfileForm = ProfileForm(nickname: string, age: string, gender: string)

  /** The form before any stats arrive. */
  const InitialForm: ProfileForm := ProfileForm("", "", "male")

  /** The age and gender the form falls back to. */
  const DefaultAge: string := "40"
  const DefaultGender: string := "male"

  /**
   * `loadData`, given what `getUserStats` and `getUserMedals` answered: with
   * stats, the form takes the nickname (or "") and the fallback age and
   * gender, since the stats hold neither; a null current or goal weight makes
   * `toString()` throw before anything is set; the medals are set last.
   */
  function LoadProfile(form: ProfileForm, medals: seq<MedalView>, stats: Option<ProfileStats>,
                       fetched: Option<seq<MedalView>>): (r: (ProfileForm, seq<MedalView>))
    ensures stats.None? ==> r == (form, OrEmpty(fetched))
    ensures stats.Some? && (stats.value.currentWeight.None? || stats.value.goalWeight.None?) ==> r == (form, medals)
    ensures stats.Some? && stats.value.currentWeight.Some? && stats.value.goalWeight.Some? ==>
              r.0 == ProfileForm(OrEmpty(stats.value.nickname), DefaultAge, DefaultGender) && r.1 == OrEmpty(fetched)
  {
    if stats.None? then (form, OrEmpty(fetched))
    else
      var data := stats.value;
      if data.currentWeight.None? || data.goalWeight.None? then (form, medals)
      else (ProfileForm(OrEmpty(data.nickname), DefaultAge, DefaultGender), OrEmpty(fetched))
  }

  /**
   * Whatever the stats hold, a form loaded from them shows age "40" and
   * gender "male", and loading the same answers again changes nothing.
   */
  lemma LoadedFormShowsDefaults(form: ProfileForm, medals: seq<MedalView>, stats: ProfileStats,
                                fetched: Option<seq<MedalView>>)
    ensures var r := LoadProfile(form, medals, Some(stats), fetched);
            (r.0 == form || (r.0.age == "40" && r.0.gender == "male"))
            && LoadProfile(r.0, r.1, Some(stats), fetched) == r
  {
  }
}
