/**
 * The daily-goal rows and stat cards of the dashboard: the increment each
 * goal type sends, the progress bar (computed in JavaScript number
 * arithmetic, where a zero target divides to an infinity or NaN), the add
 * button that a completed goal disables, and the "-" shown for missing
 * stats.
 */
module Dashboard {
  import opened Common
  import opened Text
  import opened Gamification

  /** A JavaScript number as far as the progress bar needs it. */
  datatype Num = Finite(v: real) | PosInfinity | NegInfinity | NaN

  /** `a / b` on numbers: a zero divisor gives a signed infinity, or NaN for `0 / 0`. */
  function Divide(a: real, b: real): Num
  {
    if b != 0.0 then Finite(a / b)
    else if a > 0.0 then PosInfinity
    else if a < 0.0 then NegInfinity
    else NaN
  }

  function Times100(n: Num): Num
  {
    if n.Finite? then Finite(n.v * 100.0) else n
  }

  /** `Math.max(0, n)`. */
  function AtLeastZero(n: Num): Num
  {
    match n
    case Finite(v) => Finite(MaxReal(0.0, v))
    case NegInfinity => Finite(0.0)
    case _ => n
  }

  /** `Math.min(100, n)`. */
  function AtMostHundred(n: Num): Num
  {
    match n
    case Finite(v) => Finite(MinReal(100.0, v))
    case PosInfinity => Finite(100.0)
    case _ => n
  }

  /** The `progress` a goal row receives: `(current / target) * 100`. */
  function GoalProgress(current: real, target: real): Num
  {
    Times100(Divide(current, target))
  }

  /** The rendered bar width: the progress clamped to [0, 100]; only NaN passes through. */
  function BarWidth(progress: Num): (r: Num)
    ensures r.NaN? <==> progress.NaN?
    ensures r.Finite? <==> !progress.NaN?
    ensures r.Finite? ==> 0.0 <= r.v <= 100.0
    ensures progress.Finite? && 0.0 <= progress.v <= 100.0 ==> r == progress
  {
    AtMostHundred(AtLeastZero(progress))
  }

  /**
   * For a stored goal (positive target, progress between 0 and the target)
   * the bar is the exact percentage, and it is full exactly when the goal
   * is completed.
   */
  lemma GoalBarIsExact(g: Goal)
    requires Consistent(g) && g.target > 0.0 && g.current >= 0.0
    ensures GoalProgress(g.current, g.target).Finite?
    ensures BarWidth(GoalProgress(g.current, g.target)) == GoalProgress(g.current, g.target)
    ensures BarWidth(GoalProgress(g.current, g.target)) == Finite(100.0) <==> g.completed
  {
    var x := g.current / g.target;
    assert 0.0 <= x <= 1.0;
    assert x == 1.0 <==> g.current == g.target;
  }

  /** A zero target fills the bar for positive progress, empties it for negative, and gives NaN for none. */
  lemma ZeroTargetBar(current: real)
    ensures current > 0.0 ==> BarWidth(GoalProgress(current, 0.0)) == Finite(100.0)
    ensures current < 0.0 ==> BarWidth(GoalProgress(current, 0.0)) == Finite(0.0)
    ensures current == 0.0 ==> BarWidth(GoalProgress(current, 0.0)) == NaN
  {
  }

  /** `handleAddGoal`: 0.5 for hydration, 5 for movement, 1 for any other type. */
  function GoalIncrement(kind: string): (r: real)
    ensures r > 0.0
    ensures kind == "hydration" <==> r == 0.5
    ensures kind == "movement" <==> r == 5.0
    ensures kind != "hydration" && kind != "movement" <==> r == 1.0
  {
    if kind == "hydration" then 0.5 else if kind == "movement" then 5.0 else 1.0
  }

  /** A click on a goal row's add button: the increment sent, or nothing when the button is disabled. */
  function ClickAdd(g: Goal): (r: Option<real>)
    ensures r.None? <==> g.completed
    ensures r.Some? ==> r.value > 0.0
  {
    if g.completed then None else Some(GoalIncrement(g.kind))
  }

  /** `n` clicks on one goal row, each followed by the update it sends; yields the goal and the bonus paid. */
  function Clicks(g: Goal, n: nat): (Goal, int)
    decreases n
  {
    if n == 0 then (g, 0)
    else
      match ClickAdd(g)
      case None => (g, 0)
      case Some(inc) =>
        var next := Advance(g, Some(inc));
        var rest := Clicks(next, n - 1);
        (rest.0, CompletionBonus(g, next) + rest.1)
  }

  /**
   * However often the add button is clicked, the completion bonus is paid
   * exactly once if the clicks complete the goal and never otherwise.
   */
  lemma {:induction false} ClicksPayBonusOnce(g: Goal, n: nat)
    requires Consistent(g)
    ensures Consistent(Clicks(g, n).0)
    ensures Clicks(g, n).1 == if Clicks(g, n).0.completed && !g.completed then GoalCompletionBonus else 0
    decreases n
  {
    if n > 0 && !g.completed {
      var next := Advance(g, ClickAdd(g));
      ClicksPayBonusOnce(next, n - 1);
      if next.completed {
        assert Clicks(next, n - 1) == (next, 0);
      }
    }
  }

  /** A stat card's value: the number's decimal text, or "-" when there are no stats. */
  function StatCardText(value: Option<int>): string
  {
    if value.None? then "-" else IntString(value.value)
  }

  /** A stat card shows "-" exactly when the stats are missing. */
  lemma StatCardDashIffMissing(value: Option<int>)
    ensures StatCardText(value) == "-" <==> value.None?
  {
    if value.Some? {
      var r := IntString(value.value);
      if value.value >= 0 {
        assert IsDigit(r[0]);
      } else {
        assert |r| >= 2;
      }
    }
  }
}
