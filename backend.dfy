/**
 * The state-changing operations of the client API over an abstract store.
 * Each table the operations read and write is a field of `Store`; a row
 * that is missing is a key that is absent from its map. Every backend call
 * is taken to succeed, so only the failures the API raises itself appear
 * as `Err` results.
 */
module Backend {
  import opened Common
  import opened Records
  import opened Gamification
  import opened Uploads

  /** One `user_stats` row; nullable columns are `Option`s. */
  datatype StatsRow = StatsRow(
    points: Option<int>,
    startWeight: Option<real>,
    currentWeight: Option<real>,
    weightLost: Option<real>,
    waistCm: Option<real>,
    day: int,
    nickname: Option<string>)

  /** The stats snapshot medal selection reads; a null weight loss compares as 0. */
  function MedalStatsOf(row: StatsRow): MedalStats
  {
    MedalStats(row.points, OrZeroReal(row.weightLost), row.day)
  }

  /** The point total a user's row shows with `points || 0`; 0 for a user without a row. */
  function PointsOf(stats: map<UserId, StatsRow>, u: UserId): int
  {
    if u in stats then OrZero(stats[u].points) else 0
  }

  /**
   * The read-modify-write `points = (points || 0) + delta` on the user's row;
   * an update of a missing row changes nothing.
   */
  function WithPoints(stats: map<UserId, StatsRow>, u: UserId, delta: int): (r: map<UserId, StatsRow>)
    ensures r.Keys == stats.Keys
    ensures u in stats ==> r[u] == stats[u].(points := Some(OrZero(stats[u].points) + delta))
    ensures forall v :: v in stats && v != u ==> r[v] == stats[v]
    ensures u !in stats ==> r == stats
  {
    if u in stats then stats[u := stats[u].(points := Some(OrZero(stats[u].points) + delta))] else stats
  }

  /** A point change moves the user's total by exactly `delta` when the row exists, and no other total. */
  lemma WithPointsMovesOneTotal(stats: map<UserId, StatsRow>, u: UserId, delta: int)
    ensures PointsOf(WithPoints(stats, u, delta), u) == PointsOf(stats, u) + (if u in stats then delta else 0)
    ensures forall v :: v != u ==> PointsOf(WithPoints(stats, u, delta), v) == PointsOf(stats, v)
  {
  }

  /** Two point changes add up, whatever their order. */
  lemma WithPointsAdds(stats: map<UserId, StatsRow>, u: UserId, d1: int, d2: int)
    ensures WithPoints(WithPoints(stats, u, d1), u, d2) == WithPoints(stats, u, d1 + d2)
    ensures WithPoints(WithPoints(stats, u, d1), u, d2) == WithPoints(WithPoints(stats, u, d2), u, d1)
  {
  }

  /** `nickname || 'Parceiro'`: the name put on a post; an empty nickname counts as missing. */
  function DisplayName(nickname: Option<string>): (r: string)
    ensures r != []
    ensures nickname.Some? && nickname.value != [] ==> r == nickname.value
    ensures nickname.None? || nickname.value == [] ==> r == "Parceiro"
  {
    if nickname.Some? && nickname.value != [] then nickname.value else "Parceiro"
  }

  /** The stats row `updateWeight` writes: weight, unclamped loss, and the waist when one is given. */
  function RecordWeight(row: StatsRow, weight: real, waist: Option<real>): (r: StatsRow)
    ensures r.currentWeight == Some(weight)
    ensures r.weightLost == Some(OrZeroReal(row.startWeight) - weight)
    ensures waist.Some? ==> r.waistCm == waist
    ensures waist.None? ==> r.waistCm == row.waistCm
    ensures r.points == row.points && r.startWeight == row.startWeight && r.day == row.day && r.nickname == row.nickname
  {
    row.(currentWeight := Some(weight),
         weightLost := Some(OrZeroReal(row.startWeight) - weight),
         waistCm := if waist.Some? then waist else row.waistCm)
  }

  /** Weighing in above the start weight records a negative loss: nothing clamps it. */
  lemma WeightGainIsNegativeLoss(row: StatsRow, weight: real, waist: Option<real>)
    requires row.startWeight.Some? && weight > row.startWeight.value
    ensures RecordWeight(row, weight, waist).weightLost.value < 0.0
  {
  }

  /** The text of a social post. */
  datatype PostBody =
    | UserText(text: string)          // written by the user
    | MealEcho(mealName: string)      // announces a logged meal
    | WorkoutEcho                     // announces a recorded workout

  datatype Post = Post(
    author: UserId,
    name: string,
    body: PostBody,
    weightTag: Option<real>,
    likesCount: Option<int>,
    commentsCount: Option<int>)

  datatype Recording = Recording(
    owner: UserId,
    activityId: Option<string>,
    caption: Option<string>,
    path: string,
    pointsEarned: int,
    likesCount: Option<int>)

  datatype WeightEntry = WeightEntry(owner: UserId, weight: real, waist: Option<real>)

  /** The like count written back by a like toggle: up by one on a like, down to no less than 0 on an unlike. */
  function ToggledCount(count: Option<int>, liked: bool): (r: int)
    ensures liked ==> r == OrZero(count) + 1
    ensures !liked ==> r == UnlikedCount(count)
    ensures OrZero(count) >= 0 ==> r >= 0
  {
    if liked then LikedCount(count) else UnlikedCount(count)
  }

  /** The set of likers recorded for an item (no likes when the item has no entry). */
  function LikersIn(likes: map<string, set<UserId>>, item: string): set<UserId>
  {
    if item in likes then likes[item] else {}
  }

  /** The medal ids recorded for a user. */
  function IdsIn(earned: map<UserId, set<MedalId>>, u: UserId): set<MedalId>
  {
    if u in earned then earned[u] else {}
  }

  class Store {
    var stats: map<UserId, StatsRow>
    var activities: map<string, Activity>
    var meals: map<string, Meal>
    var goals: map<string, Goal>
    var catalog: seq<Medal>
    var earned: map<UserId, set<MedalId>>
    var weightHistory: seq<WeightEntry>
    var posts: map<string, Post>
    var postLikes: map<string, set<UserId>>
    var recordings: map<string, Recording>
    var workoutLikes: map<string, set<UserId>>

    /** Every stored like count equals the number of likes recorded for its item. */
    ghost predicate Valid()
      reads this
    {
      && (forall p :: p in posts ==> OrZero(posts[p].likesCount) == |LikersIn(postLikes, p)|)
      && (forall w :: w in recordings ==> OrZero(recordings[w].likesCount) == |LikersIn(workoutLikes, w)|)
    }

    /** An empty store with a medal catalog. */
    constructor (medals: seq<Medal>)
      ensures Valid()
      ensures stats == map[] && activities == map[] && meals == map[] && goals == map[]
      ensures catalog == medals && earned == map[] && weightHistory == []
      ensures posts == map[] && postLikes == map[] && recordings == map[] && workoutLikes == map[]
    {
      stats := map[];
      activities := map[];
      meals := map[];
      goals := map[];
      catalog := medals;
      earned := map[];
      weightHistory := [];
      posts := map[];
      postLikes := map[];
      recordings := map[];
      workoutLikes := map[];
    }

    /** The exact count of a user's workout recordings. */
    function WorkoutCount(u: UserId): nat
      reads this
    {
      |set w | w in recordings && recordings[w].owner == u|
    }

    /** The medals a stats check would award `u` now. */
    function Due(u: UserId): seq<Medal>
      reads this
      requires u in stats
    {
      EligibleMedals(catalog, IdsIn(earned, u), MedalStatsOf(stats[u]), Some(WorkoutCount(u)))
    }

    /**
     * The outcome of one `checkAndAwardMedals` on the current stats, from the
     * earned table `before`: without a user or a stats row nothing happens;
     * otherwise the eligible medals are awarded and recorded.
     */
    ghost predicate AwardedFrom(before: map<UserId, set<MedalId>>, user: Option<UserId>, awarded: seq<Medal>)
      reads this
    {
      if user.None? || user.value !in stats then awarded == [] && earned == before
      else
        var u := user.value;
        && awarded == EligibleMedals(catalog, IdsIn(before, u), MedalStatsOf(stats[u]), Some(WorkoutCount(u)))
        && earned == before[u := IdsIn(before, u) + MedalIds(awarded)]
    }

    /** After a medal check, a second check on the same stats awards nothing. */
    lemma AwardLeavesNothingDue(before: map<UserId, set<MedalId>>, u: UserId, awarded: seq<Medal>)
      requires u in stats && AwardedFrom(before, Some(u), awarded)
      ensures Due(u) == []
    {
      SelectionIdempotent(catalog, IdsIn(before, u), MedalStatsOf(stats[u]), Some(WorkoutCount(u)));
    }

    /** A medal check never takes a medal away from anyone. */
    lemma AwardNeverRevokes(before: map<UserId, set<MedalId>>, user: Option<UserId>, awarded: seq<Medal>)
      requires AwardedFrom(before, user, awarded)
      ensures forall v :: IdsIn(before, v) <= IdsIn(earned, v)
    {
    }

    /** `checkAndAwardMedals`: awards every unearned catalog medal whose threshold the user meets. */
    method CheckAndAwardMedals(user: Option<UserId>) returns (awarded: seq<Medal>)
      modifies this`earned
      ensures AwardedFrom(old(earned), user, awarded)
    {
      if user.None? || user.value !in stats {
        return [];
      }
      var u := user.value;
      awarded := EligibleMedals(catalog, IdsIn(earned, u), MedalStatsOf(stats[u]), Some(WorkoutCount(u)));
      earned := earned[u := IdsIn(earned, u) + MedalIds(awarded)];
    }

    /** Stores a new feed post under an unused id; it starts with no likes. */
    method InsertPost(postId: string, post: Post)
      requires Valid() && postId !in posts && postId !in postLikes && post.likesCount.None?
      modifies this`posts
      ensures Valid()
      ensures posts == old(posts)[postId := post]
    {
      posts := posts[postId := post];
    }

    /** Stores a new workout recording under an unused id; it starts with no likes. */
    method InsertRecording(recordingId: string, recording: Recording)
      requires Valid() && recordingId !in recordings && recordingId !in workoutLikes && recording.likesCount.None?
      modifies this`recordings
      ensures Valid()
      ensures recordings == old(recordings)[recordingId := recording]
    {
      recordings := recordings[recordingId := recording];
    }

    /** `toggleActivity`: sets the flag, moves the user's points by ±50, then checks medals. */
    method ToggleActivity(user: Option<UserId>, id: string, completed: bool) returns (awarded: seq<Medal>)
      modifies this`activities, this`stats, this`earned
      ensures activities == if id in old(activities) then old(activities)[id := old(activities)[id].(completed := completed)] else old(activities)
      ensures stats == if user.Some? then WithPoints(old(stats), user.value, ActivityDelta(completed)) else old(stats)
      ensures AwardedFrom(old(earned), user, awarded)
    {
      if id in activities {
        activities := activities[id := activities[id].(completed := completed)];
      }
      if user.Some? {
        stats := WithPoints(stats, user.value, ActivityDelta(completed));
      }
      awarded := CheckAndAwardMedals(user);
    }

    /** `toggleMealConsumed`: sets the flag; only consuming earns 20 points; then checks medals. */
    method ToggleMealConsumed(user: Option<UserId>, id: string, consumed: bool) returns (awarded: seq<Medal>)
      modifies this`meals, this`stats, this`earned
      ensures meals == if id in old(meals) then old(meals)[id := old(meals)[id].(consumed := consumed)] else old(meals)
      ensures stats == if user.Some? && consumed then WithPoints(old(stats), user.value, MealConsumedPoints) else old(stats)
      ensures AwardedFrom(old(earned), user, awarded)
    {
      if id in meals {
        meals := meals[id := meals[id].(consumed := consumed)];
      }
      if user.Some? && consumed {
        stats := WithPoints(stats, user.value, MealConsumedPoints);
      }
      awarded := CheckAndAwardMedals(user);
    }

    /**
     * `updateWeight`: records the weight and the unclamped loss on the
     * user's row, appends a history entry whether or not the row exists,
     * adds 20 points when it does, then checks medals.
     */
    method UpdateWeight(user: Option<UserId>, weight: real, waist: Option<real>) returns (r: Result<seq<Medal>, ApiError>)
      modifies this`stats, this`weightHistory, this`earned
      ensures user.None? <==> r == Err(NotAuthenticated)
      ensures user.None? ==> stats == old(stats) && weightHistory == old(weightHistory) && earned == old(earned)
      ensures user.Some? ==>
                var u := user.value;
                && weightHistory == old(weightHistory) + [WeightEntry(u, weight, waist)]
                && stats == (if u in old(stats) then old(stats)[u := RecordWeight(old(stats)[u], weight, waist).(points := Some(OrZero(old(stats)[u].points) + WeightLogPoints))] else old(stats))
                && r.Ok? && AwardedFrom(old(earned), user, r.value)
    {
      if user.None? {
        return Err(NotAuthenticated);
      }
      var u := user.value;
      var found := u in stats;
      if found {
        var row := RecordWeight(stats[u], weight, waist);
        stats := stats[u := row];
        weightHistory := weightHistory + [WeightEntry(u, weight, waist)];
        stats := WithPoints(stats, u, WeightLogPoints);
        assert stats == old(stats)[u := row.(points := Some(OrZero(row.points) + WeightLogPoints))];
      } else {
        weightHistory := weightHistory + [WeightEntry(u, weight, waist)];
      }
      var awarded := CheckAndAwardMedals(user);
      r := Ok(awarded);
    }

    /**
     * `addSocialPost`: publishes the text under the user's display name,
     * tagged with the current weight when it is set and non-zero, and adds 10
     * points when the user has a stats row. No medal check follows.
     * `id` stands for the id the backend assigns, which no table uses yet.
     */
    method AddSocialPost(user: Option<UserId>, id: string, text: string) returns (r: Result<(), ApiError>)
      requires Valid() && id !in posts && id !in postLikes
      modifies this`posts, this`stats
      ensures Valid()
      ensures user.None? <==> r == Err(NotAuthenticated)
      ensures user.None? ==> posts == old(posts) && stats == old(stats)
      ensures user.Some? ==>
                var u := user.value;
                var row := if u in old(stats) then Some(old(stats)[u]) else None;
                && posts == old(posts)[id := Post(u, DisplayName(if row.Some? then row.value.nickname else None), UserText(text),
                                                  if row.Some? && row.value.currentWeight.Some? && row.value.currentWeight.value != 0.0 then row.value.currentWeight else None,
                                                  None, None)]
                && stats == WithPoints(old(stats), u, SocialPostPoints)
    {
      if user.None? {
        return Err(NotAuthenticated);
      }
      var u := user.value;
      var row := if u in stats then Some(stats[u]) else None;
      var name := DisplayName(if row.Some? then row.value.nickname else None);
      var tag := if row.Some? && row.value.currentWeight.Some? && row.value.currentWeight.value != 0.0 then row.value.currentWeight else None;
      InsertPost(id, Post(u, name, UserText(text), tag, None, None));
      stats := WithPoints(stats, u, SocialPostPoints);
      r := Ok(());
    }

    /**
     * `updateDailyGoal`: advances the goal (a missing goal is left alone) and
     * pays the completion bonus to the signed-in user when this step
     * completes it. No medal check follows.
     */
    method UpdateDailyGoal(user: Option<UserId>, id: string, increment: Option<real>)
      modifies this`goals, this`stats
      ensures id !in old(goals) ==> goals == old(goals) && stats == old(stats)
      ensures id in old(goals) ==>
                var before := old(goals)[id];
                var after := Advance(before, increment);
                && goals == old(goals)[id := after]
                && stats == (if user.Some? && CompletionBonus(before, after) > 0 then WithPoints(old(stats), user.value, GoalCompletionBonus) else old(stats))
    {
      if id !in goals {
        return;
      }
      var before := goals[id];
      var after := Advance(before, increment);
      goals := goals[id := after];
      if after.completed && !before.completed && user.Some? {
        stats := WithPoints(stats, user.value, GoalCompletionBonus);
      }
    }

    /**
     * `toggleLike`: removes the user's like if there is one, otherwise adds
     * it; the post's count follows. Returns whether the post is now liked.
     */
    method ToggleLike(user: Option<UserId>, postId: string) returns (r: Result<bool, ApiError>)
      requires Valid()
      modifies this`postLikes, this`posts
      ensures Valid()
      ensures user.None? <==> r == Err(NotAuthenticated)
      ensures user.None? ==> postLikes == old(postLikes) && posts == old(posts)
      ensures user.Some? ==>
                var u := user.value;
                var wasLiked := u in LikersIn(old(postLikes), postId);
                && r == Ok(!wasLiked)
                && postLikes == old(postLikes)[postId := if wasLiked then LikersIn(old(postLikes), postId) - {u} else LikersIn(old(postLikes), postId) + {u}]
                && posts == if postId in old(posts) then old(posts)[postId := old(posts)[postId].(likesCount := Some(ToggledCount(old(posts)[postId].likesCount, !wasLiked)))] else old(posts)
    {
      if user.None? {
        return Err(NotAuthenticated);
      }
      var u := user.value;
      var likers := LikersIn(postLikes, postId);
      var liked := u !in likers;
      postLikes := postLikes[postId := if liked then likers + {u} else likers - {u}];
      if postId in posts {
        posts := posts[postId := posts[postId].(likesCount := Some(ToggledCount(posts[postId].likesCount, liked)))];
      }
      r := Ok(liked);
    }

    /** `toggleWorkoutLike`: the same toggle on a workout recording and its count. */
    method ToggleWorkoutLike(user: Option<UserId>, workoutId: string) returns (r: Result<bool, ApiError>)
      requires Valid()
      modifies this`workoutLikes, this`recordings
      ensures Valid()
      ensures user.None? <==> r == Err(NotAuthenticated)
      ensures user.None? ==> workoutLikes == old(workoutLikes) && recordings == old(recordings)
      ensures user.Some? ==>
                var u := user.value;
                var wasLiked := u in LikersIn(old(workoutLikes), workoutId);
                && r == Ok(!wasLiked)
                && workoutLikes == old(workoutLikes)[workoutId := if wasLiked then LikersIn(old(workoutLikes), workoutId) - {u} else LikersIn(old(workoutLikes), workoutId) + {u}]
                && recordings == if workoutId in old(recordings) then old(recordings)[workoutId := old(recordings)[workoutId].(likesCount := Some(ToggledCount(old(recordings)[workoutId].likesCount, !wasLiked)))] else old(recordings)
    {
      if user.None? {
        return Err(NotAuthenticated);
      }
      var u := user.value;
      var likers := LikersIn(workoutLikes, workoutId);
      var liked := u !in likers;
      workoutLikes := workoutLikes[workoutId := if liked then likers + {u} else likers - {u}];
      if workoutId in recordings {
        recordings := recordings[workoutId := recordings[workoutId].(likesCount := Some(ToggledCount(recordings[workoutId].likesCount, liked)))];
      }
      r := Ok(liked);
    }

    /**
     * `logMeal`: stores the meal as the user's own (not a suggestion) and
     * announces it in the feed. It awards no points. `mealId` and `postId`
     * stand for the ids the backend assigns.
     */
    method LogMeal(user: Option<UserId>, mealId: string, postId: string, meal: Meal) returns (r: Result<(), ApiError>)
      requires Valid() && postId !in posts && postId !in postLikes
      modifies this`meals, this`posts
      ensures Valid()
      ensures user.None? <==> r == Err(NotAuthenticated)
      ensures user.None? ==> meals == old(meals) && posts == old(posts)
      ensures user.Some? ==>
                var u := user.value;
                && meals == old(meals)[mealId := meal.(owner := Some(u), isSuggestion := false)]
                && posts == old(posts)[postId := Post(u, DisplayName(if u in stats then stats[u].nickname else None), MealEcho(meal.name), None, None, None)]
      ensures stats == old(stats)
    {
      if user.None? {
        return Err(NotAuthenticated);
      }
      var u := user.value;
      meals := meals[mealId := meal.(owner := Some(u), isSuggestion := false)];
      var name := DisplayName(if u in stats then stats[u].nickname else None);
      InsertPost(postId, Post(u, name, MealEcho(meal.name), None, None, None));
      r := Ok(());
    }

    /**
     * `uploadWorkoutVideo`: rejects a signed-out caller, then a video over
     * 50 MiB, before anything is stored; otherwise records the video with
     * 200 points on the recording row, announces it, and checks medals. The
     * user's own point total never changes. Returns the storage path and
     * the medals awarded.
     * `recordingId` and `postId` stand for the ids the backend assigns.
     */
    method UploadWorkoutVideo(user: Option<UserId>, size: nat, timestamp: nat, fileName: string,
                              caption: Option<string>, activityId: Option<string>,
                              recordingId: string, postId: string) returns (r: Result<string, ApiError>, awarded: seq<Medal>)
      requires Valid() && recordingId !in recordings && recordingId !in workoutLikes
      requires postId !in posts && postId !in postLikes
      modifies this`recordings, this`posts, this`earned
      ensures Valid()
      ensures r.Err? <==> CheckVideo(user, size).Err?
      ensures r.Err? ==> r.error == CheckVideo(user, size).error && awarded == []
                         && recordings == old(recordings) && posts == old(posts) && earned == old(earned)
      ensures r.Ok? ==>
                var u := user.value;
                && r.value == VideoPath(u, timestamp, fileName)
                && recordings == old(recordings)[recordingId := Recording(u, activityId, caption, r.value, WorkoutRecordingPoints, None)]
                && posts == old(posts)[postId := Post(u, DisplayName(if u in stats then stats[u].nickname else None), WorkoutEcho, None, None, None)]
                && AwardedFrom(old(earned), user, awarded)
      ensures stats == old(stats)
    {
      var check := CheckVideo(user, size);
      if check.Err? {
        return Err(check.error), [];
      }
      var u := check.value;
      var path := VideoPath(u, timestamp, fileName);
      InsertRecording(recordingId, Recording(u, activityId, caption, path, WorkoutRecordingPoints, None));
      var name := DisplayName(if u in stats then stats[u].nickname else None);
      InsertPost(postId, Post(u, name, WorkoutEcho, None, None, None));
      awarded := CheckAndAwardMedals(user);
      r := Ok(path);
    }
  }
}
