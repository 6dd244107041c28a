/**
 * The scoring rules of the client API, as pure functions: point values,
 * daily-goal progression and its completion bonus, medal selection, like
 * counters, the earned-medal merge, the social-feed mapping and the default
 * daily goals. The store that applies them is the `Backend` module.
 */
module Gamification {
  import opened Common

  type UserId = string
  type MedalId = string

  // ---------------------------------------------------------------- points

  const ActivityPoints: int := 50
  const MealConsumedPoints: int := 20
  const WeightLogPoints: int := 20
  const SocialPostPoints: int := 10
  const GoalCompletionBonus: int := 30
  /** Stored on a workout recording row; never added to the user's points. */
  const WorkoutRecordingPoints: int := 200

  /** Point change of `toggleActivity`: a completion earns, an un-completion takes back. */
  function ActivityDelta(completed: bool): int
  {
    if completed then ActivityPoints else -ActivityPoints
  }

  /** Completing and then un-completing an activity (in either order) nets zero. */
  lemma ActivityDeltaSymmetric(completed: bool)
    ensures ActivityDelta(completed) + ActivityDelta(!completed) == 0
    ensures ActivityDelta(completed) > 0 <==> completed
  {
  }

  // ----------------------------------------------------------- daily goals

  datatype Goal = Goal(
    kind: string,
    name: string,
    target: real,
    current: real,
    unit: string,
    icon: string,
    color: string,
    completed: bool)

  /** The relation `updateDailyGoal` establishes between progress and the completed flag. */
  ghost predicate Consistent(g: Goal)
  {
    g.current <= g.target && (g.completed <==> g.current >= g.target)
  }

  /** One `updateDailyGoal` step: progress grows by the increment, clamped to the target. */
  function Advance(g: Goal, increment: Option<real>): (r: Goal)
    ensures r == g.(current := r.current, completed := r.completed)
    ensures r.current <= g.target
    ensures r.current == g.target || r.current == g.current + OrZeroReal(increment)
    ensures r.current >= g.target <==> g.current + OrZeroReal(increment) >= g.target
    ensures r.completed <==> r.current >= g.target
    ensures Consistent(r)
  {
    var newCurrent := MinReal(g.target, g.current + OrZeroReal(increment));
    g.(current := newCurrent, completed := newCurrent >= g.target)
  }

  /** Points `updateDailyGoal` awards for a step from `before` to `after`. */
  function CompletionBonus(before: Goal, after: Goal): int
  {
    if after.completed && !before.completed then GoalCompletionBonus else 0
  }

  /** A completed goal stays completed, unchanged and bonus-free under a non-negative increment. */
  lemma CompletedGoalIsStable(g: Goal, increment: Option<real>)
    requires Consistent(g) && g.completed && OrZeroReal(increment) >= 0.0
    ensures Advance(g, increment) == g
    ensures CompletionBonus(g, Advance(g, increment)) == 0
  {
  }

  /** Applies a series of increments; yields the final goal and the bonus points awarded. */
  function Run(g: Goal, increments: seq<Option<real>>): (Goal, int)
    decreases |increments|
  {
    if increments == [] then (g, 0)
    else
      var next := Advance(g, increments[0]);
      var rest := Run(next, increments[1..]);
      (rest.0, CompletionBonus(g, next) + rest.1)
  }

  predicate NonNegativeIncrements(increments: seq<Option<real>>)
  {
    forall k :: 0 <= k < |increments| ==> OrZeroReal(increments[k]) >= 0.0
  }

  /**
   * With non-negative increments the completion bonus is paid at most once
   * over any series of updates, and never for a goal already completed.
   */
  lemma {:induction false} BonusAtMostOnce(g: Goal, increments: seq<Option<real>>)
    requires Consistent(g) && NonNegativeIncrements(increments)
    ensures Run(g, increments).1 == 0 || Run(g, increments).1 == GoalCompletionBonus
    ensures g.completed ==> Run(g, increments).1 == 0 && Run(g, increments).0 == g
    ensures Run(g, increments).0.completed ==> g.completed || Run(g, increments).1 == GoalCompletionBonus
    ensures Run(g, increments).1 == GoalCompletionBonus ==> Run(g, increments).0.completed && !g.completed
    decreases |increments|
  {
    if increments != [] {
      var next := Advance(g, increments[0]);
      assert NonNegativeIncrements(increments[1..]) by {
        forall k | 0 <= k < |increments[1..]|
          ensures OrZeroReal(increments[1..][k]) >= 0.0
        {
          assert increments[1..][k] == increments[k + 1];
        }
      }
      BonusAtMostOnce(next, increments[1..]);
      if g.completed {
        CompletedGoalIsStable(g, increments[0]);
      } else if next.completed {
        assert CompletionBonus(g, next) == GoalCompletionBonus;
        assert Run(next, increments[1..]).1 == 0;
      } else {
        assert CompletionBonus(g, next) == 0;
      }
    }
  }

  /** The three goals `getDailyGoals` creates for a new day. */
  function DefaultGoals(): (r: seq<Goal>)
    ensures |r| == 3
    ensures forall k :: 0 <= k < |r| ==> r[k].current == 0.0 && r[k].target > 0.0 && !r[k].completed
  {
    [ Goal("hydration", "Hidratação", 3.0, 0.0, "L", "water_drop", "blue", false),
      Goal("movement", "Movimento", 15.0, 0.0, "min", "directions_walk", "orange", false),
      Goal("sleep", "Sono de Qualidade", 8.0, 0.0, "h", "bedtime", "purple", false) ]
  }

  /**
   * `getDailyGoals`: no list without a signed-in user, today's rows when
   * there are some, otherwise the defaults just created (or nothing when the
   * insert failed).
   */
  function DailyGoals(signedIn: bool, existing: seq<Goal>, insertSucceeded: bool): (r: seq<Goal>)
    ensures !signedIn ==> r == []
    ensures signedIn && existing != [] ==> r == existing
    ensures signedIn && existing == [] ==> r == (if insertSucceeded then DefaultGoals() else [])
    ensures |r| == 0 || |r| == |existing| || |r| == 3
  {
    if !signedIn then []
    else if |existing| > 0 then existing
    else if insertSucceeded then DefaultGoals()
    else []
  }

  /** Every goal a user is served is consistent, provided the stored ones are. */
  lemma DailyGoalsConsistent(signedIn: bool, existing: seq<Goal>, insertSucceeded: bool)
    requires forall k :: 0 <= k < |existing| ==> Consistent(existing[k])
    ensures forall k :: 0 <= k < |DailyGoals(signedIn, existing, insertSucceeded)| ==>
              Consistent(DailyGoals(signedIn, existing, insertSucceeded)[k])
  {
  }

  // ------------------------------------------------------------------ medals

  /** The `requirement_type` column; any other text is `Other`. */
  datatype Requirement = PointsReq | WeightLostReq | DaysReq | WorkoutsReq | OtherReq(kind: string)

  datatype Medal = Medal(id: MedalId, name: string, requirement: Requirement, threshold: real)

  /** The stats snapshot `checkAndAwardMedals` reads. */
  datatype MedalStats = MedalStats(points: Option<int>, weightLost: real, day: int)

  /**
   * The threshold test of one medal. A null point total compares as 0 (as a
   * relational comparison with null does), and so does a null workout count.
   */
  predicate Qualifies(m: Medal, s: MedalStats, workoutCount: Option<int>)
  {
    match m.requirement
    case PointsReq => OrZero(s.points) as real >= m.threshold
    case WeightLostReq => s.weightLost >= m.threshold
    case DaysReq => s.day as real >= m.threshold
    case WorkoutsReq => OrZero(workoutCount) as real >= m.threshold
    case OtherReq(_) => false
  }

  /** The medals `checkAndAwardMedals` awards: unearned catalog medals whose threshold is met. */
  function EligibleMedals(catalog: seq<Medal>, earnedIds: set<MedalId>, s: MedalStats, workoutCount: Option<int>): (r: seq<Medal>)
    ensures |r| <= |catalog|
    ensures forall m :: m in r <==> m in catalog && m.id !in earnedIds && Qualifies(m, s, workoutCount)
    ensures forall m :: m in r ==> !m.requirement.OtherReq?
  {
    if catalog == [] then []
    else
      var rest := EligibleMedals(catalog[1..], earnedIds, s, workoutCount);
      assert forall m :: m in catalog <==> m == catalog[0] || m in catalog[1..];
      if catalog[0].id !in earnedIds && Qualifies(catalog[0], s, workoutCount) then [catalog[0]] + rest
      else rest
  }

  function MedalIds(medals: seq<Medal>): set<MedalId>
  {
    set m | m in medals :: m.id
  }

  /** Once the awarded medals are recorded, the same stats select nothing more. */
  lemma SelectionIdempotent(catalog: seq<Medal>, earnedIds: set<MedalId>, s: MedalStats, workoutCount: Option<int>)
    ensures var chosen := EligibleMedals(catalog, earnedIds, s, workoutCount);
            EligibleMedals(catalog, earnedIds + MedalIds(chosen), s, workoutCount) == []
  {
    var chosen := EligibleMedals(catalog, earnedIds, s, workoutCount);
    var again := EligibleMedals(catalog, earnedIds + MedalIds(chosen), s, workoutCount);
    forall m | m in catalog && m.id !in earnedIds && Qualifies(m, s, workoutCount)
      ensures m.id in MedalIds(chosen)
    {
      assert m in chosen;
    }
    EmptyWhenNoMember(again);
  }

  /** Medal selection only grows as the stats grow (with the same earned set). */
  lemma SelectionMonotone(catalog: seq<Medal>, earnedIds: set<MedalId>, s: MedalStats, t: MedalStats, w: Option<int>, w': Option<int>)
    requires OrZero(s.points) <= OrZero(t.points) && s.weightLost <= t.weightLost && s.day <= t.day
    requires OrZero(w) <= OrZero(w')
    ensures forall m :: m in EligibleMedals(catalog, earnedIds, s, w) ==> m in EligibleMedals(catalog, earnedIds, t, w')
  {
  }

  // ------------------------------------------------------------ like counts

  /** Count written back after a like: `(count || 0) + 1`. */
  function LikedCount(count: Option<int>): (r: int)
    ensures r == OrZero(count) + 1
    ensures OrZero(count) >= 0 ==> r >= 1
  {
    OrZero(count) + 1
  }

  /** Count written back after an unlike: `max(0, (count || 0) - 1)`. */
  function UnlikedCount(count: Option<int>): (r: int)
    ensures r >= 0
    ensures OrZero(count) >= 1 ==> r == OrZero(count) - 1
    ensures OrZero(count) <= 0 ==> r == 0
  {
    Max(0, OrZero(count) - 1)
  }

  /** An unlike right after a like restores any non-negative count. */
  lemma UnlikeUndoesLike(count: Option<int>)
    requires OrZero(count) >= 0
    ensures UnlikedCount(Some(LikedCount(count))) == OrZero(count)
  {
  }

  // ---------------------------------------------------- earned-medal merge

  datatype EarnedRow = EarnedRow(medalId: MedalId, earnedAt: string)

  /** A catalog medal decorated for display. */
  datatype MedalView = MedalView(medal: Medal, earned: bool, earnedAt: Option<string>)

  function EarnedIds(rows: seq<EarnedRow>): set<MedalId>
  {
    set k | 0 <= k < |rows| :: rows[k].medalId
  }

  /** The earned date an object built from the rows maps `id` to: the last row wins. */
  function EarnedAt(rows: seq<EarnedRow>, id: MedalId): (r: Option<string>)
    ensures r.Some? <==> id in EarnedIds(rows)
    ensures r.Some? ==> exists k :: 0 <= k < |rows| && rows[k] == EarnedRow(id, r.value)
  {
    if rows == [] then None
    else
      var last := rows[|rows| - 1];
      var init := rows[..|rows| - 1];
      assert EarnedIds(rows) == EarnedIds(init) + {last.medalId} by {
        forall x | x in EarnedIds(rows) ensures x in EarnedIds(init) + {last.medalId} {
          var k :| 0 <= k < |rows| && rows[k].medalId == x;
          if k < |rows| - 1 { assert init[k] == rows[k]; }
        }
        forall x | x in EarnedIds(init) ensures x in EarnedIds(rows) {
          var k :| 0 <= k < |init| && init[k].medalId == x;
          assert rows[k] == init[k];
        }
      }
      if last.medalId == id then Some(last.earnedAt)
      else
        var r := EarnedAt(init, id);
        assert r.Some? ==> exists k :: 0 <= k < |init| && init[k] == EarnedRow(id, r.value);
        r
  }

  /** A later row for the same medal supersedes an earlier one. */
  lemma EarnedAtLastWins(rows: seq<EarnedRow>, row: EarnedRow)
    ensures EarnedAt(rows + [row], row.medalId) == Some(row.earnedAt)
  {
  }

  /** `getUserMedals`: every catalog medal, flagged earned with its date when a row exists. */
  function MergeMedals(all: seq<Medal>, rows: seq<EarnedRow>): (r: seq<MedalView>)
    ensures |r| == |all|
    ensures forall k :: 0 <= k < |all| ==> r[k].medal == all[k]
    ensures forall k :: 0 <= k < |all| ==> (r[k].earned <==> all[k].id in EarnedIds(rows))
    ensures forall k :: 0 <= k < |all| ==> r[k].earnedAt == EarnedAt(rows, all[k].id)
  {
    if all == [] then []
    else [MedalView(all[0], all[0].id in EarnedIds(rows), EarnedAt(rows, all[0].id))] + MergeMedals(all[1..], rows)
  }

  /** In the merged list a medal carries a date exactly when it is flagged earned. */
  lemma {:induction false} MergeDatedIffEarned(all: seq<Medal>, rows: seq<EarnedRow>)
    ensures forall k :: 0 <= k < |all| ==>
              (MergeMedals(all, rows)[k].earnedAt.Some? <==> MergeMedals(all, rows)[k].earned)
  {
    if all != [] {
      MergeDatedIffEarned(all[1..], rows);
      var r := MergeMedals(all, rows);
      forall k | 0 <= k < |all|
        ensures r[k].earnedAt.Some? <==> r[k].earned
      {
        if k > 0 {
          assert r[k] == MergeMedals(all[1..], rows)[k - 1];
        }
      }
    }
  }

  /** When a medal is earned again, the merged list shows the date of the newest row. */
  lemma MergeShowsNewestDate(all: seq<Medal>, rows: seq<EarnedRow>, row: EarnedRow, k: nat)
    requires k < |all| && all[k].id == row.medalId
    ensures MergeMedals(all, rows + [row])[k].earned
    ensures MergeMedals(all, rows + [row])[k].earnedAt == Some(row.earnedAt)
  {
    EarnedAtLastWins(rows, row);
  }

  /** `getUserMedals` for the current session: nothing without a user. */
  function UserMedals(user: Option<UserId>, all: seq<Medal>, rows: seq<EarnedRow>): (r: seq<MedalView>)
    ensures user.None? ==> r == []
    ensures user.Some? ==> |r| == |all|
  {
    if user.None? then [] else MergeMedals(all, rows)
  }

  // ------------------------------------------------------- social feed map

  datatype PostRow = PostRow(id: string, likers: seq<UserId>, likesCount: Option<int>, commentsCount: Option<int>)

  datatype PostView = PostView(id: string, isLiked: bool, likesCount: int, commentsCount: int)

  function PostViewOf(row: PostRow, user: Option<UserId>): PostView
  {
    PostView(row.id, user.Some? && user.value in row.likers, OrZero(row.likesCount), OrZero(row.commentsCount))
  }

  /** `getSocialPosts`: one view per row, in order, flagged liked iff the user liked it. */
  function SocialPosts(rows: seq<PostRow>, user: Option<UserId>): (r: seq<PostView>)
    ensures |r| == |rows|
    ensures forall k :: 0 <= k < |rows| ==> r[k].id == rows[k].id
    ensures forall k :: 0 <= k < |rows| ==> (r[k].isLiked <==> user.Some? && user.value in rows[k].likers)
    ensures forall k :: 0 <= k < |rows| ==> r[k].likesCount == OrZero(rows[k].likesCount)
    ensures forall k :: 0 <= k < |rows| ==> r[k].commentsCount == OrZero(rows[k].commentsCount)
  {
    if rows == [] then [] else [PostViewOf(rows[0], user)] + SocialPosts(rows[1..], user)
  }

  /** Signed out, no post in the feed shows as liked. */
  lemma SignedOutLikesNothing(rows: seq<PostRow>)
    ensures forall k :: 0 <= k < |rows| ==> !SocialPosts(rows, None)[k].isLiked
  {
  }
}
