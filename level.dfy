/**
 * The level classifier of the progress card: a fixed chain of point
 * thresholds picks one of six tiers, and the bar shows how far the points
 * are through the current tier, clamped to [0, 100].
 */
module LevelProgress {
  import opened Common

  datatype Tier = Tier(level: nat, name: string, min: int, max: int, icon: string)

  /** The six tiers, in the order the chain tests them (highest first). */
  function Tiers(): (r: seq<Tier>)
    ensures |r| == 6
  {
    [ Tier(6, "Lenda da Estrada", 8000, 99999, "\U{1F451}"),
      Tier(5, "Rei do Asfalto", 5000, 8000, "\U{1F981}"),
      Tier(4, "Veterano", 3000, 5000, "\U{1F985}"),
      Tier(3, "Rodagem Alta", 1500, 3000, "\U{1F69B}"),
      Tier(2, "Estradeiro", 500, 1500, "\U{1F6E3}\U{FE0F}"),
      Tier(1, "Iniciante", 0, 500, "\U{1F95A}") ]
  }

  /** `getLevel`: the first tier of the chain whose minimum the points reach; tier 1 otherwise. */
  function GetLevel(points: int): (r: Tier)
    ensures r in Tiers()
    ensures 1 <= r.level <= 6 && r.min < r.max
    ensures r.level > 1 ==> r.min <= points
    ensures r.level < 6 ==> points < r.max
    ensures points >= 0 ==> r.min <= points
  {
    var t := Tiers();
    if points >= 8000 then t[0]
    else if points >= 5000 then t[1]
    else if points >= 3000 then t[2]
    else if points >= 1500 then t[3]
    else if points >= 500 then t[4]
    else t[5]
  }

  /** The thresholds of levels 2 to 6, ascending. */
  const Thresholds: seq<int> := [500, 1500, 3000, 5000, 8000]

  /** How many of the thresholds `points` reaches. */
  function CountReached(thresholds: seq<int>, points: int): (n: nat)
    ensures n <= |thresholds|
  {
    if thresholds == [] then 0
    else (if thresholds[0] <= points then 1 else 0) + CountReached(thresholds[1..], points)
  }

  /** The level is one more than the number of thresholds reached. */
  lemma LevelCountsThresholds(points: int)
    ensures GetLevel(points).level == 1 + CountReached(Thresholds, points)
  {
    var t := Thresholds;
    assert t[1..] == [1500, 3000, 5000, 8000];
    assert t[1..][1..] == [3000, 5000, 8000];
    assert t[1..][1..][1..] == [5000, 8000];
    assert t[1..][1..][1..][1..] == [8000];
    assert t[1..][1..][1..][1..][1..] == [];
    var c5 := CountReached([8000], points);
    assert c5 == if 8000 <= points then 1 else 0;
    var c4 := CountReached([5000, 8000], points);
    assert c4 == (if 5000 <= points then 1 else 0) + c5;
    var c3 := CountReached([3000, 5000, 8000], points);
    assert c3 == (if 3000 <= points then 1 else 0) + c4;
    var c2 := CountReached([1500, 3000, 5000, 8000], points);
    assert c2 == (if 1500 <= points then 1 else 0) + c3;
    assert CountReached(t, points) == (if 500 <= points then 1 else 0) + c2;
  }

  /** More points never reach fewer thresholds. */
  lemma {:induction false} CountReachedMonotone(thresholds: seq<int>, p: int, q: int)
    requires p <= q
    ensures CountReached(thresholds, p) <= CountReached(thresholds, q)
  {
    if thresholds != [] {
      CountReachedMonotone(thresholds[1..], p, q);
    }
  }

  /** The level never drops as points grow. */
  lemma LevelMonotone(p: int, q: int)
    requires p <= q
    ensures GetLevel(p).level <= GetLevel(q).level
  {
    LevelCountsThresholds(p);
    LevelCountsThresholds(q);
    CountReachedMonotone(Thresholds, p, q);
  }

  /** The tier boundaries fall exactly on the thresholds; negative points are level 1. */
  lemma LevelBoundaries()
    ensures GetLevel(-1).level == 1 && GetLevel(0).level == 1 && GetLevel(499).level == 1
    ensures GetLevel(500).level == 2 && GetLevel(1499).level == 2
    ensures GetLevel(1500).level == 3 && GetLevel(2999).level == 3
    ensures GetLevel(3000).level == 4 && GetLevel(4999).level == 4
    ensures GetLevel(5000).level == 5 && GetLevel(7999).level == 5
    ensures GetLevel(8000).level == 6
  {
  }

  /** Each tier's ceiling is the next tier's floor, so the tiers cover the points without gaps. */
  lemma TiersContiguous()
    ensures forall k :: 0 <= k < 5 ==> Tiers()[k + 1].max == Tiers()[k].min
    ensures forall k :: 0 <= k < 6 ==> Tiers()[k].level == 6 - k
  {
  }

  /** Every tier is returned for exactly the points in [min, max) (for level 1 also below 0, for level 6 also above max). */
  lemma TierOfPoints(points: int, k: nat)
    requires k < 6
    ensures GetLevel(points) == Tiers()[k] <==>
              (k == 5 || Tiers()[k].min <= points) && (k == 0 || points < Tiers()[k].max)
  {
  }

  /** `progress`: the share of the current tier's span covered, as a percentage clamped to [0, 100]. */
  function Progress(points: int): (r: real)
    ensures 0.0 <= r <= 100.0
  {
    var t := GetLevel(points);
    MinReal(100.0, MaxReal(0.0, ((points - t.min) as real / (t.max - t.min) as real) * 100.0))
  }

  /** Within tiers 1 to 5 and from 0 points up, the clamp never binds and the bar is below full. */
  lemma ProgressUnclamped(points: int)
    requires points >= 0 && GetLevel(points).level < 6
    ensures var t := GetLevel(points);
            Progress(points) == ((points - t.min) as real / (t.max - t.min) as real) * 100.0
    ensures Progress(points) < 100.0
    ensures Progress(points) == 0.0 <==> points == GetLevel(points).min
  {
    var t := GetLevel(points);
    var span := (t.max - t.min) as real;
    var x := (points - t.min) as real;
    assert 0.0 <= x < span;
    assert x / span < 1.0 by {
      assert x < span;
    }
  }

  /** Negative points sit at the start of level 1. */
  lemma NegativePointsShowEmptyBar(points: int)
    requires points < 0
    ensures GetLevel(points).level == 1 && Progress(points) == 0.0
  {
  }

  /** The "max level" banner condition. */
  predicate MaxBanner(points: int)
  {
    points >= 8000
  }

  /** The banner shows exactly at level 6. */
  lemma MaxBannerIffTopLevel(points: int)
    ensures MaxBanner(points) <==> GetLevel(points).level == 6
  {
  }
}
