/**
 * The ranking screen: the leaderboard derived from all users (a stable sort
 * of a copy by points, descending, cut to the first ten), the podium and the
 * numbered tail that render it, and the optimistic like updates of the
 * social and workout feeds.
 */
module Ranking {
  import opened Common
  import opened Backend

  /** A user as the user list delivers it. */
  datatype User = User(id: string, nickname: Option<string>, avatarUrl: Option<string>,
                       points: Option<int>, currentWeight: Option<real>, day: int)

  /** A leaderboard row: the fields of a user the podium and the tail show. */
  datatype Entry = Entry(nickname: Option<string>, avatarUrl: Option<string>,
                         points: Option<int>, currentWeight: Option<real>)

  function EntryOf(u: User): Entry
  {
    Entry(u.nickname, u.avatarUrl, u.points, u.currentWeight)
  }

  /** The sort key `points || 0`. */
  function Key(u: User): int
  {
    OrZero(u.points)
  }

  predicate SortedDesc(s: seq<User>)
  {
    forall i, j :: 0 <= i < j < |s| ==> Key(s[i]) >= Key(s[j])
  }

  /** The users after the first of a descending list are still descending. */
  lemma SortedTail(s: seq<User>)
    requires s != [] && SortedDesc(s)
    ensures SortedDesc(s[1..])
  {
    forall i, j | 0 <= i < j < |s[1..]|
      ensures Key(s[1..][i]) >= Key(s[1..][j])
    {
      assert s[1..][i] == s[i + 1] && s[1..][j] == s[j + 1];
    }
  }

  /** Inserts `x` into a descending list after every user whose key is at least its own. */
  function InsertDesc(x: User, s: seq<User>): (r: seq<User>)
    ensures |r| == |s| + 1
  {
    if s == [] then [x]
    else if Key(s[0]) >= Key(x) then [s[0]] + InsertDesc(x, s[1..])
    else [x] + s
  }

  /** Insertion keeps every user and adds the new one. */
  lemma {:induction false} InsertPermutes(x: User, s: seq<User>)
    ensures multiset(InsertDesc(x, s)) == multiset(s) + multiset{x}
  {
    if s != [] && Key(s[0]) >= Key(x) {
      InsertPermutes(x, s[1..]);
      assert s == [s[0]] + s[1..];
    }
  }

  /** Every user of `s` has a key of at most `b`. */
  predicate AllAtMost(s: seq<User>, b: int)
  {
    forall i :: 0 <= i < |s| ==> Key(s[i]) <= b
  }

  /** Insertion keeps a common upper bound on the keys. */
  lemma {:induction false} InsertAtMost(x: User, s: seq<User>, b: int)
    requires AllAtMost(s, b) && Key(x) <= b
    ensures AllAtMost(InsertDesc(x, s), b)
  {
    if s != [] && Key(s[0]) >= Key(x) {
      assert AllAtMost(s[1..], b) by {
        forall i | 0 <= i < |s[1..]| ensures Key(s[1..][i]) <= b {
          assert s[1..][i] == s[i + 1];
        }
      }
      InsertAtMost(x, s[1..], b);
      var r := InsertDesc(x, s);
      forall i | 0 <= i < |r| ensures Key(r[i]) <= b {
        if i > 0 {
          assert r[i] == InsertDesc(x, s[1..])[i - 1];
        }
      }
    }
  }

  /** A user with a key at least every key of a descending list can lead it. */
  lemma ConsSorted(h: User, t: seq<User>)
    requires SortedDesc(t) && AllAtMost(t, Key(h))
    ensures SortedDesc([h] + t)
  {
    var r := [h] + t;
    forall i, j | 0 <= i < j < |r|
      ensures Key(r[i]) >= Key(r[j])
    {
      assert r[j] == t[j - 1];
      if i > 0 {
        assert r[i] == t[i - 1];
      }
    }
  }

  /** Inserting into a descending list keeps it descending. */
  lemma {:induction false} InsertSorted(x: User, s: seq<User>)
    requires SortedDesc(s)
    ensures SortedDesc(InsertDesc(x, s))
  {
    if s != [] && Key(s[0]) >= Key(x) {
      SortedTail(s);
      InsertSorted(x, s[1..]);
      assert AllAtMost(s[1..], Key(s[0])) by {
        forall i | 0 <= i < |s[1..]| ensures Key(s[1..][i]) <= Key(s[0]) {
          assert s[1..][i] == s[i + 1];
        }
      }
      InsertAtMost(x, s[1..], Key(s[0]));
      ConsSorted(s[0], InsertDesc(x, s[1..]));
    } else {
      assert AllAtMost(s, Key(x)) by {
        forall i | 0 <= i < |s| ensures Key(s[i]) <= Key(x) {
          assert i == 0 || Key(s[0]) >= Key(s[i]);
        }
      }
      ConsSorted(x, s);
      assert InsertDesc(x, s) == [x] + s;
    }
  }

  /** `[...users].sort((a, b) => (b.points || 0) - (a.points || 0))`: a stable descending sort by points, by insertion. */
  function SortDesc(s: seq<User>): (r: seq<User>)
    ensures |r| == |s|
  {
    if s == [] then [] else InsertDesc(s[|s| - 1], SortDesc(s[..|s| - 1]))
  }

  /** The sorted copy holds exactly the users of the input. */
  lemma {:induction false} SortPermutes(s: seq<User>)
    ensures multiset(SortDesc(s)) == multiset(s)
  {
    if s != [] {
      var init, last := s[..|s| - 1], s[|s| - 1];
      SortPermutes(init);
      InsertPermutes(last, SortDesc(init));
      assert s == init + [last];
      assert multiset(s) == multiset(init) + multiset{last};
    }
  }

  /** The sorted copy is in descending order of points. */
  lemma {:induction false} SortSorted(s: seq<User>)
    ensures SortedDesc(SortDesc(s))
  {
    if s != [] {
      SortSorted(s[..|s| - 1]);
      InsertSorted(s[|s| - 1], SortDesc(s[..|s| - 1]));
    }
  }

  /** The users of `s` whose key is `k`, in their order in `s`. */
  function WithKey(s: seq<User>, k: int): seq<User>
  {
    if s == [] then [] else (if Key(s[0]) == k then [s[0]] else []) + WithKey(s[1..], k)
  }

  lemma {:induction false} WithKeyAppend(a: seq<User>, b: seq<User>, k: int)
    ensures WithKey(a + b, k) == WithKey(a, k) + WithKey(b, k)
  {
    if a != [] {
      assert (a + b)[0] == a[0];
      assert (a + b)[1..] == a[1..] + b;
      WithKeyAppend(a[1..], b, k);
    } else {
      assert a + b == b;
    }
  }

  lemma {:induction false} WithKeyAbsent(s: seq<User>, k: int)
    requires forall i :: 0 <= i < |s| ==> Key(s[i]) < k
    ensures WithKey(s, k) == []
  {
    if s != [] {
      WithKeyAbsent(s[1..], k);
    }
  }

  /** Peeling the first user off a list for `WithKey`. */
  lemma WithKeyCons(y: User, s: seq<User>, k: int)
    ensures WithKey([y] + s, k) == (if Key(y) == k then [y] else []) + WithKey(s, k)
  {
    assert ([y] + s)[0] == y && ([y] + s)[1..] == s;
  }

  /** A user placed in front of a list whose keys are all below its own. */
  lemma {:induction false} InsertFrontTies(x: User, s: seq<User>, k: int)
    requires SortedDesc(s) && (s == [] || Key(s[0]) < Key(x))
    ensures WithKey([x] + s, k) == WithKey(s, k) + (if Key(x) == k then [x] else [])
  {
    WithKeyCons(x, s, k);
    if Key(x) == k {
      forall i | 0 <= i < |s|
        ensures Key(s[i]) < k
      {
        assert i == 0 || Key(s[0]) >= Key(s[i]);
      }
      WithKeyAbsent(s, k);
    }
  }

  /** Insertion puts the new user after every user with an equal key. */
  lemma {:induction false} InsertKeepsTies(x: User, s: seq<User>, k: int)
    requires SortedDesc(s)
    ensures WithKey(InsertDesc(x, s), k) == WithKey(s, k) + (if Key(x) == k then [x] else [])
  {
    if s == [] || Key(s[0]) < Key(x) {
      assert InsertDesc(x, s) == [x] + s;
      InsertFrontTies(x, s, k);
    } else {
      SortedTail(s);
      InsertKeepsTies(x, s[1..], k);
      assert InsertDesc(x, s) == [s[0]] + InsertDesc(x, s[1..]);
      WithKeyCons(s[0], InsertDesc(x, s[1..]), k);
      assert s == [s[0]] + s[1..];
      WithKeyCons(s[0], s[1..], k);
    }
  }

  /** The last step of the sort: the sorted prefix with the last user inserted. */
  lemma SortDescUnfold(s: seq<User>)
    requires s != []
    ensures SortDesc(s) == InsertDesc(s[|s| - 1], SortDesc(s[..|s| - 1]))
  {
  }

  /** `WithKey` of a single user. */
  lemma WithKeySingle(y: User, k: int)
    ensures WithKey([y], k) == if Key(y) == k then [y] else []
  {
    assert [y][1..] == [];
  }

  /** The sort is stable: users with equal points keep their relative order. */
  lemma {:induction false} SortIsStable(s: seq<User>, k: int)
    ensures WithKey(SortDesc(s), k) == WithKey(s, k)
  {
    if s != [] {
      var init := s[..|s| - 1];
      var last := s[|s| - 1];
      var sorted := SortDesc(init);
      var tail: seq<User> := if Key(last) == k then [last] else [];
      SortIsStable(init, k);
      assert WithKey(sorted, k) == WithKey(init, k);
      SortDescUnfold(s);
      assert SortDesc(s) == InsertDesc(last, sorted);
      SortSorted(init);
      InsertKeepsTies(last, sorted, k);
      assert WithKey(SortDesc(s), k) == WithKey(init, k) + tail;
      WithKeySingle(last, k);
      WithKeyAppend(init, [last], k);
      assert WithKey(init + [last], k) == WithKey(init, k) + tail;
      assert init + [last] == s;
    }
  }

  /** The leaderboard: the first ten of the sorted copy, as rows. */
  function Leaderboard(users: seq<User>): (r: seq<Entry>)
    ensures |r| == Min(10, |users|)
    ensures forall i, j :: 0 <= i < j < |r| ==> OrZero(r[i].points) >= OrZero(r[j].points)
    ensures forall k :: 0 <= k < |r| ==> r[k] == EntryOf(SortDesc(users)[k])
  {
    var sorted := SortDesc(users);
    SortSorted(users);
    var n := Min(10, |users|);
    seq(n, k requires 0 <= k < n => EntryOf(sorted[k]))
  }

  /** Every leaderboard row is the row of some listed user. */
  lemma LeaderboardRowsFromUsers(users: seq<User>)
    ensures forall k :: 0 <= k < |Leaderboard(users)| ==> exists u :: u in users && Leaderboard(users)[k] == EntryOf(u)
  {
    var sorted := SortDesc(users);
    var r := Leaderboard(users);
    SortPermutes(users);
    forall k | 0 <= k < |r|
      ensures exists u :: u in users && r[k] == EntryOf(u)
    {
      var u := sorted[k];
      assert u in multiset(sorted);
      assert u in multiset(users);
      assert u in users && r[k] == EntryOf(u);
    }
  }

  /** No user left off the leaderboard has more points than any row on it. */
  lemma LeaderboardIsTop(users: seq<User>, u: User)
    requires u in users
    ensures var r := Leaderboard(users);
            EntryOf(u) in r || forall k :: 0 <= k < |r| ==> OrZero(r[k].points) >= Key(u)
  {
    var sorted := SortDesc(users);
    var r := Leaderboard(users);
    SortPermutes(users);
    SortSorted(users);
    assert u in multiset(sorted);
    var i :| 0 <= i < |sorted| && sorted[i] == u;
    if i < |r| {
      assert r[i] == EntryOf(u);
    } else {
      forall k | 0 <= k < |r|
        ensures OrZero(r[k].points) >= Key(u)
      {
        assert r[k] == EntryOf(sorted[k]);
      }
    }
  }

  /** A podium place as rendered: its place number and its row. */
  datatype Place = Place(rank: nat, entry: Entry)

  /** The podium, in render order (second, first, third); empty while loading or with no rows. */
  function Podium(loading: bool, lb: seq<Entry>): (r: seq<Place>)
    ensures loading || lb == [] ==> r == []
    ensures !loading && |lb| >= 1 ==> Place(1, lb[0]) in r
    ensures !loading && |lb| >= 2 ==> Place(2, lb[1]) in r
    ensures !loading && |lb| >= 3 ==> Place(3, lb[2]) in r
    ensures forall p :: p in r ==> 1 <= p.rank <= 3 && p.rank <= |lb| && p.entry == lb[p.rank - 1]
  {
    if loading || lb == [] then []
    else
      (if |lb| >= 2 then [Place(2, lb[1])] else [])
      + [Place(1, lb[0])]
      + (if |lb| >= 3 then [Place(3, lb[2])] else [])
  }

  /** The tail under the podium: row `i` of `slice(3)` carries rank `i + 4`. */
  function Tail(loading: bool, lb: seq<Entry>): (r: seq<Place>)
    ensures loading || |lb| <= 3 ==> r == []
    ensures !loading && |lb| > 3 ==> |r| == |lb| - 3
    ensures forall i :: 0 <= i < |r| ==> r[i] == Place(i + 4, lb[i + 3])
  {
    if loading || |lb| <= 3 then [] else seq(|lb| - 3, i requires 0 <= i < |lb| - 3 => Place(i + 4, lb[i + 3]))
  }

  /** Once loaded, every leaderboard row is shown, with its position as its rank. */
  lemma EveryRowRanked(lb: seq<Entry>, j: nat)
    requires j < |lb|
    ensures Place(j + 1, lb[j]) in Podium(false, lb) + Tail(false, lb)
  {
    if j >= 3 {
      assert Tail(false, lb)[j - 3] == Place(j + 1, lb[j]);
    }
  }

  /** A feed item as the screen holds it: a post or a workout recording. */
  datatype FeedItem = FeedItem(id: string, isLiked: bool, likesCount: Option<int>)

  /** The optimistic update after a like toggle: the matching items flip to `liked` and move by one, with no floor. */
  function ApplyLike(items: seq<FeedItem>, id: string, liked: bool): (r: seq<FeedItem>)
    ensures |r| == |items|
    ensures forall k :: 0 <= k < |items| && items[k].id != id ==> r[k] == items[k]
    ensures forall k :: 0 <= k < |items| && items[k].id == id ==>
              r[k] == FeedItem(id, liked, Some(OrZero(items[k].likesCount) + (if liked then 1 else -1)))
  {
    seq(|items|, k requires 0 <= k < |items| =>
      if items[k].id == id
      then items[k].(isLiked := liked, likesCount := Some(OrZero(items[k].likesCount) + (if liked then 1 else -1)))
      else items[k])
  }

  /**
   * The optimistic count agrees with the count the server writes, except for
   * an unlike of an item the screen shows at 0 or less, where the screen
   * goes below the server's floor.
   */
  lemma OptimisticMatchesServer(count: Option<int>, liked: bool)
    ensures OrZero(count) + (if liked then 1 else -1) == ToggledCount(count, liked)
            <==> liked || OrZero(count) >= 1
  {
  }

  /** The state of the ranking screen. */
  class RankingView {
    var leaderboard: seq<Entry>
    var allUsers: seq<User>
    var recentWorkouts: seq<FeedItem>
    var socialPosts: seq<FeedItem>
    var loading: bool

    constructor ()
      ensures leaderboard == [] && allUsers == [] && recentWorkouts == [] && socialPosts == [] && loading
    {
      leaderboard := [];
      allUsers := [];
      recentWorkouts := [];
      socialPosts := [];
      loading := true;
    }

    /**
     * `loadData`: each of the three loads that fails contributes an empty
     * list (`None` stands for a failed load) without stopping the others; the
     * user list is kept in its delivered order and the leaderboard is
     * derived from a sorted copy.
     */
    method LoadData(users: Option<seq<User>>, workouts: Option<seq<FeedItem>>, posts: Option<seq<FeedItem>>)
      modifies this
      ensures allUsers == OrEmpty(users)
      ensures leaderboard == Leaderboard(OrEmpty(users))
      ensures recentWorkouts == OrEmpty(workouts)
      ensures socialPosts == OrEmpty(posts)
      ensures !loading
    {
      loading := true;
      var au := OrEmpty(users);
      leaderboard := Leaderboard(au);
      allUsers := au;
      recentWorkouts := OrEmpty(workouts);
      socialPosts := OrEmpty(posts);
      loading := false;
    }

    /** `handleLike`: applies the toggle's answer to the social feed; a failed toggle changes nothing. */
    method HandleLike(postId: string, answer: Result<bool, ApiError>)
      modifies this`socialPosts
      ensures answer.Ok? ==> socialPosts == ApplyLike(old(socialPosts), postId, answer.value)
      ensures answer.Err? ==> socialPosts == old(socialPosts)
    {
      if answer.Ok? {
        socialPosts := ApplyLike(socialPosts, postId, answer.value);
      }
    }

    /** `handleWorkoutLike`: the same update on the workout feed. */
    method HandleWorkoutLike(workoutId: string, answer: Result<bool, ApiError>)
      modifies this`recentWorkouts
      ensures answer.Ok? ==> recentWorkouts == ApplyLike(old(recentWorkouts), workoutId, answer.value)
      ensures answer.Err? ==> recentWorkouts == old(recentWorkouts)
    {
      if answer.Ok? {
        recentWorkouts := ApplyLike(recentWorkouts, workoutId, answer.value);
      }
    }
  }
}
