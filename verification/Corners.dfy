/** Scoring a recorded lap: the closest approach to each dot, searched forward in
    bounded windows. The distance function is a parameter; nothing is asked of it. */
module Corners {
  import opened Field
  import opened Options
  import opened Texts

  datatype Row = Row(t: real, at: Point, yaw: real)

  type Metric = (Point, Point) -> real

  const BLIND_SLACK := 0.5
  const TRUSTED := 3.0

  /** What one corner's search did: the window it saw and the sample it took. */
  datatype Pick = Pick(from: nat, end: nat, best: nat, distance: real)

  predicate Near(dist: Metric, row: Row, dot: Point, radius: real) {
    dist(row.at, dot) <= radius
  }

  /** `end` is the first sample from `start` on to come within `radius` of `dot`. */
  ghost predicate FirstApproach(dist: Metric, rows: seq<Row>, start: nat, dot: Point, radius: real, end: nat) {
    && start <= end <= |rows|
    && (end < |rows| ==> Near(dist, rows[end], dot, radius))
    && (forall i :: start <= i < end ==> !Near(dist, rows[i], dot, radius))
  }

  method FindFirstApproach(dist: Metric, rows: seq<Row>, start: nat, dot: Point, radius: real) returns (end: nat)
    requires start <= |rows|
    ensures FirstApproach(dist, rows, start, dot, radius, end)
  {
    for i := start to |rows|
      invariant forall j :: start <= j < i ==> !Near(dist, rows[j], dot, radius)
    {
      if Near(dist, rows[i], dot, radius) {
        return i;
      }
    }
    end := |rows|;
  }

  /** `best` is the first of the closest samples of the window. */
  ghost predicate Closest(dist: Metric, rows: seq<Row>, from: nat, end: nat, dot: Point, best: nat) {
    && from <= best < end <= |rows|
    && (forall i :: from <= i < end ==> dist(rows[best].at, dot) <= dist(rows[i].at, dot))
    && (forall i :: from <= i < best ==> dist(rows[best].at, dot) < dist(rows[i].at, dot))
  }

  method FindClosest(dist: Metric, rows: seq<Row>, from: nat, end: nat, dot: Point) returns (best: nat)
    requires from < end <= |rows|
    ensures Closest(dist, rows, from, end, dot, best)
  {
    best := from;
    for i := from to end
      invariant best < end && (i == from ==> best == from)
      invariant i > from ==> Closest(dist, rows, from, i, dot, best)
    {
      if dist(rows[i].at, dot) < dist(rows[best].at, dot) {
        best := i;
      }
    }
  }

  /** Tracking was lost between samples `i` and `i + 1`, close to time `t`. */
  predicate BlindAt(rows: seq<Row>, gap: real, t: real, i: nat) {
    && i + 1 < |rows| && rows[i + 1].t - rows[i].t > gap
    && rows[i].t - BLIND_SLACK <= t <= rows[i + 1].t + BLIND_SLACK
  }

  ghost predicate Blind(rows: seq<Row>, gap: real, t: real) {
    exists i :: 0 <= i < |rows| && BlindAt(rows, gap, t, i)
  }

  method FindBlind(rows: seq<Row>, gap: real, t: real) returns (blind: bool)
    ensures blind <==> Blind(rows, gap, t)
  {
    for i := 0 to |rows|
      invariant forall j :: 0 <= j < i ==> !BlindAt(rows, gap, t, j)
    {
      if BlindAt(rows, gap, t, i) {
        return true;
      }
    }
    blind := false;
  }

  // ---- a whole lap --------------------------------------------------------------------

  datatype Lap = Lap(dist: Metric, rows: seq<Row>, order: seq<string>, dots: map<string, Point>,
                     gap: real, radius: real)
  {
    predicate Valid() {
      forall k :: 0 <= k < |order| ==> order[k] in dots
    }

    function Dot(k: nat): Point
      requires Valid() && k < |order|
    {
      dots[order[k]]
    }
  }

  /** A pick is trusted unless it sits beside a tracking gap and is not plainly there. */
  ghost function Score(lap: Lap, pick: Pick): Option<real>
    requires pick.best < |lap.rows|
  {
    if Blind(lap.rows, lap.gap, lap.rows[pick.best].t) && pick.distance > TRUSTED then None
    else Some(pick.distance)
  }

  /** Corner `k` was searched from `from` to the first approach of the next dot, or
      to the end of the run, and took the closest sample of that window. */
  ghost predicate GoodPick(lap: Lap, k: nat, p: Pick, from: nat)
    requires lap.Valid() && k < |lap.order|
  {
    && p.from == from < |lap.rows|
    && (if k + 1 < |lap.order|
        then FirstApproach(lap.dist, lap.rows, from + 1, lap.Dot(k + 1), lap.radius, p.end)
        else p.end == |lap.rows|)
    && Closest(lap.dist, lap.rows, from, p.end, lap.Dot(k), p.best)
    && p.distance == lap.dist(lap.rows[p.best].at, lap.Dot(k))
  }

  /** The first sample the corner after these may use. */
  ghost function Used(picks: seq<Pick>): nat {
    if picks == [] then 0 else picks[|picks| - 1].best + 1
  }

  ghost predicate GoodPicks(lap: Lap, picks: seq<Pick>)
    requires lap.Valid() && |picks| <= |lap.order|
  {
    forall k :: 0 <= k < |picks| ==> GoodPick(lap, k, picks[k], Used(picks[..k]))
  }

  /** Every corner in turn until the samples run out. */
  ghost predicate Picked(lap: Lap, picks: seq<Pick>) {
    && lap.Valid() && |picks| <= |lap.order| && GoodPicks(lap, picks)
    && (|picks| < |lap.order| ==> Used(picks) >= |lap.rows|)
  }

  lemma PicksExtend(lap: Lap, picks: seq<Pick>, p: Pick)
    requires lap.Valid() && |picks| < |lap.order| && GoodPicks(lap, picks)
    requires GoodPick(lap, |picks|, p, Used(picks))
    ensures GoodPicks(lap, picks + [p])
  {
    hide GoodPick;
    forall k | 0 <= k < |picks| + 1
      ensures GoodPick(lap, k, (picks + [p])[k], Used((picks + [p])[..k]))
    {
      assert (picks + [p])[..k] == picks[..k];
      assert picks[..|picks|] == picks;
    }
  }

  /** What a tag ends up with: the score of its last pick, if it had one. */
  ghost function Report(lap: Lap, picks: seq<Pick>, tag: string): Option<real>
    requires |picks| <= |lap.order| && forall k :: 0 <= k < |picks| ==> picks[k].best < |lap.rows|
  {
    if picks == [] then None
    else if lap.order[|picks| - 1] == tag then Score(lap, picks[|picks| - 1])
    else Report(lap, picks[..|picks| - 1], tag)
  }

  ghost predicate Reported(lap: Lap, picks: seq<Pick>, res: map<string, Option<real>>)
    requires |picks| <= |lap.order| && forall k :: 0 <= k < |picks| ==> picks[k].best < |lap.rows|
  {
    && (forall tag :: tag in res <==> tag in lap.order)
    && (forall tag :: tag in lap.order ==> res[tag] == Report(lap, picks, tag))
  }

  /** score_corners(), with the picks it went by. `best is None` cannot happen: no
      window is ever empty. */
  method ScoreCorners(lap: Lap) returns (res: map<string, Option<real>>, picks: seq<Pick>)
    requires lap.Valid()
    ensures Picked(lap, picks)
    ensures forall k :: 0 <= k < |picks| ==> picks[k].best < |lap.rows|
    ensures Reported(lap, picks, res)
  {
    res := map tag | tag in lap.order :: None;
    picks := [];
    var used := 0;
    hide FirstApproach, Closest, GoodPicks, Blind;
    assert GoodPicks(lap, []) by { NoPicks(lap); }
    for k := 0 to |lap.order|
      invariant |picks| == k && used == Used(picks) && GoodPicks(lap, picks)
      invariant forall j :: 0 <= j < k ==> picks[j].best < |lap.rows|
      invariant Reported(lap, picks, res)
    {
      if used >= |lap.rows| {
        return;
      }
      var end := |lap.rows|;
      if k + 1 < |lap.order| {
        end := FindFirstApproach(lap.dist, lap.rows, used + 1, lap.Dot(k + 1), lap.radius);
        ApproachIsInside(lap.dist, lap.rows, used + 1, lap.Dot(k + 1), lap.radius, end);
      }
      var best := FindClosest(lap.dist, lap.rows, used, end, lap.Dot(k));
      ClosestIsInside(lap.dist, lap.rows, used, end, lap.Dot(k), best);
      var distance := lap.dist(lap.rows[best].at, lap.Dot(k));
      var blind := FindBlind(lap.rows, lap.gap, lap.rows[best].t);
      var score := if blind && distance > TRUSTED then None else Some(distance);
      var pick := Pick(used, end, best, distance);
      var more := picks + [pick];
      assert score == Score(lap, pick);
      PicksExtend(lap, picks, pick);
      assert more[..k] == picks;
      assert forall j :: 0 <= j < k ==> more[j] == picks[j];
      res := res[lap.order[k] := score];
      picks := more;
      used := best + 1;
    }
  }

  lemma NoPicks(lap: Lap)
    requires lap.Valid()
    ensures GoodPicks(lap, [])
  {}

  lemma ApproachIsInside(dist: Metric, rows: seq<Row>, start: nat, dot: Point, radius: real, end: nat)
    requires FirstApproach(dist, rows, start, dot, radius, end)
    ensures start <= end <= |rows|
  {}

  lemma ClosestIsInside(dist: Metric, rows: seq<Row>, from: nat, end: nat, dot: Point, best: nat)
    requires Closest(dist, rows, from, end, dot, best)
    ensures from <= best < end <= |rows|
  {}

  // ---- what a report says ----------------------------------------------------------------

  lemma PickIsInside(lap: Lap, picks: seq<Pick>, k: nat)
    requires Picked(lap, picks) && k < |picks|
    ensures GoodPick(lap, k, picks[k], Used(picks[..k]))
    ensures picks[k].from <= picks[k].best < picks[k].end <= |lap.rows|
    ensures picks[k].from == if k == 0 then 0 else picks[k - 1].best + 1
  {}

  /** No two corners share a sample, and later corners take later samples. */
  lemma {:induction false} PicksAscend(lap: Lap, picks: seq<Pick>, i: nat, j: nat)
    requires Picked(lap, picks) && i < j < |picks|
    ensures picks[i].best < picks[j].best
    decreases j
  {
    PickIsInside(lap, picks, j);
    hide GoodPicks, GoodPick;
    if i + 1 < j {
      PicksAscend(lap, picks, i, j - 1);
    }
  }

  lemma {:induction false} ReportOfCorner(lap: Lap, picks: seq<Pick>, k: nat)
    requires Distinct(lap.order) && k < |lap.order| && |picks| <= |lap.order|
    requires forall j :: 0 <= j < |picks| ==> picks[j].best < |lap.rows|
    ensures Report(lap, picks, lap.order[k]) == if k < |picks| then Score(lap, picks[k]) else None
    decreases |picks|
  {
    if picks != [] && k != |picks| - 1 {
      ReportOfCorner(lap, picks[..|picks| - 1], k);
    }
  }

  /** A corner that is scored at all gets the least distance to its dot over its window:
      from just past the sample the corner before it took, up to the first approach of
      the next dot past that start, or else to the end. */
  lemma ScoreIsLeastDistance(lap: Lap, picks: seq<Pick>, k: nat)
    requires Picked(lap, picks) && Distinct(lap.order) && k < |picks|
    requires forall j :: 0 <= j < |picks| ==> picks[j].best < |lap.rows|
    requires Report(lap, picks, lap.order[k]).Some?
    ensures var v, p, dot := Report(lap, picks, lap.order[k]).value, picks[k], lap.Dot(k);
      && p.from == (if k == 0 then 0 else picks[k - 1].best + 1)
      && p.from <= p.best < p.end <= |lap.rows| && v == lap.dist(lap.rows[p.best].at, dot)
      && (forall i :: p.from <= i < p.end ==> v <= lap.dist(lap.rows[i].at, dot))
      && (k + 1 < |lap.order| ==>
            && (forall i :: p.from < i < p.end ==> lap.dist(lap.rows[i].at, lap.Dot(k + 1)) > lap.radius)
            && (p.end < |lap.rows| ==> lap.dist(lap.rows[p.end].at, lap.Dot(k + 1)) <= lap.radius))
      && (k + 1 == |lap.order| ==> p.end == |lap.rows|)
  {
    ReportOfCorner(lap, picks, k);
    PickIsInside(lap, picks, k);
    hide Blind, GoodPicks, Picked, Report;
  }

  /** Tracking was lost for over `gap` seconds somewhere within half a second of `t`. */
  ghost predicate BesideGap(rows: seq<Row>, gap: real, t: real) {
    exists i :: 0 <= i < |rows| - 1 && GapNear(rows[i].t, rows[i + 1].t, gap, t)
  }

  predicate GapNear(before: real, after: real, gap: real, t: real) {
    after - before > gap && before - 0.5 <= t && t - 0.5 <= after
  }

  lemma BlindIsBesideGap(rows: seq<Row>, gap: real, t: real)
    ensures Blind(rows, gap, t) <==> BesideGap(rows, gap, t)
  {
    if BesideGap(rows, gap, t) {
      var i :| 0 <= i < |rows| - 1 && GapNear(rows[i].t, rows[i + 1].t, gap, t);
      assert BlindAt(rows, gap, t, i);
    }
    if Blind(rows, gap, t) {
      var i :| 0 <= i < |rows| && BlindAt(rows, gap, t, i);
      assert GapNear(rows[i].t, rows[i + 1].t, gap, t);
    }
  }

  /** A corner goes unscored exactly when the samples ran out before it, or its
      closest sample is over 3 cm off beside a tracking gap. */
  lemma UnscoredIff(lap: Lap, picks: seq<Pick>, k: nat)
    requires Picked(lap, picks) && Distinct(lap.order) && k < |lap.order|
    requires forall j :: 0 <= j < |picks| ==> picks[j].best < |lap.rows|
    ensures Report(lap, picks, lap.order[k]) == None <==>
      (k >= |picks| ||
       (picks[k].distance > 3.0 && BesideGap(lap.rows, lap.gap, lap.rows[picks[k].best].t)))
    ensures k >= |picks| ==> Used(picks) >= |lap.rows|
  {
    ReportOfCorner(lap, picks, k);
    if k < |picks| {
      BlindIsBesideGap(lap.rows, lap.gap, lap.rows[picks[k].best].t);
    }
    hide Blind, BesideGap, GoodPicks;
  }

  // ---- an orderly lap -----------------------------------------------------------------------

  /** The lap comes within the radius of each dot in turn: `visits[k]` is inside
      dot `k`'s circle, and no sample since the visit before last was. */
  ghost predicate Orderly(lap: Lap, visits: seq<nat>)
    requires lap.Valid()
  {
    |visits| == |lap.order| && forall k :: 0 <= k < |visits| ==> VisitsInTurn(lap, visits, k)
  }

  ghost predicate VisitsInTurn(lap: Lap, visits: seq<nat>, k: nat)
    requires lap.Valid() && k < |visits| == |lap.order|
  {
    && visits[k] < |lap.rows|
    && (k > 0 ==> visits[k - 1] < visits[k])
    && Near(lap.dist, lap.rows[visits[k]], lap.Dot(k), lap.radius)
    && (forall i :: (if k < 2 then 0 else visits[k - 2] + 1) <= i < visits[k] ==>
          !Near(lap.dist, lap.rows[i], lap.Dot(k), lap.radius))
  }

  lemma ApproachIsUnique(dist: Metric, rows: seq<Row>, start: nat, dot: Point, radius: real, end: nat, v: nat)
    requires FirstApproach(dist, rows, start, dot, radius, end)
    requires start <= v < |rows| && Near(dist, rows[v], dot, radius)
    requires forall i :: start <= i < v ==> !Near(dist, rows[i], dot, radius)
    ensures end == v
  {}

  lemma ClosestIsNear(dist: Metric, rows: seq<Row>, from: nat, end: nat, dot: Point, radius: real, best: nat, v: nat)
    requires Closest(dist, rows, from, end, dot, best)
    requires from <= v < end && Near(dist, rows[v], dot, radius)
    requires forall i :: from <= i < v ==> !Near(dist, rows[i], dot, radius)
    ensures v <= best && Near(dist, rows[best], dot, radius)
  {}

  lemma {:induction false} OrderlyPick(lap: Lap, picks: seq<Pick>, visits: seq<nat>, k: nat)
    requires Picked(lap, picks) && Orderly(lap, visits) && k < |picks|
    ensures visits[k] <= picks[k].best && (k + 1 < |visits| ==> picks[k].best < visits[k + 1])
    ensures picks[k].distance <= lap.radius
  {
    PickIsInside(lap, picks, k);
    assert VisitsInTurn(lap, visits, k);
    assert k + 1 < |visits| ==> VisitsInTurn(lap, visits, k + 1);
    if k > 0 {
      OrderlyPick(lap, picks, visits, k - 1);
      assert VisitsInTurn(lap, visits, k - 1);
    }
    hide Picked, Orderly, FirstApproach, Closest, Near, GoodPick, VisitsInTurn;
    PickAtVisit(lap, picks[k], visits, k);
  }

  /** The window of corner `k` closes exactly at the visit to the next dot, so the
      corner's own sample is taken between the two visits. */
  lemma PickAtVisit(lap: Lap, p: Pick, visits: seq<nat>, k: nat)
    requires lap.Valid() && k < |lap.order| == |visits| && VisitsInTurn(lap, visits, k)
    requires k + 1 < |visits| ==> VisitsInTurn(lap, visits, k + 1)
    requires GoodPick(lap, k, p, p.from)
    requires if k == 0 then p.from == 0 else visits[k - 1] < p.from <= visits[k]
    requires k > 1 ==> visits[k - 2] < visits[k - 1]
    ensures visits[k] <= p.best && (k + 1 < |visits| ==> p.best < visits[k + 1])
    ensures p.distance <= lap.radius
  {
    hide FirstApproach, Closest, Near;
    ClosestIsInside(lap.dist, lap.rows, p.from, p.end, lap.Dot(k), p.best);
    if k + 1 < |visits| {
      ApproachIsUnique(lap.dist, lap.rows, p.from + 1, lap.Dot(k + 1), lap.radius, p.end, visits[k + 1]);
    }
    ClosestIsNear(lap.dist, lap.rows, p.from, p.end, lap.Dot(k), lap.radius, p.best, visits[k]);
    NearIsWithin(lap, p, k);
  }

  lemma NearIsWithin(lap: Lap, p: Pick, k: nat)
    requires lap.Valid() && k < |lap.order| && p.best < |lap.rows|
    requires p.distance == lap.dist(lap.rows[p.best].at, lap.Dot(k))
    requires Near(lap.dist, lap.rows[p.best], lap.Dot(k), lap.radius)
    ensures p.distance <= lap.radius
  {}

  /** A lap that visits the dots in order loses none of them, and scores each within
      the radius of its own visit, however often it comes by again. */
  lemma {:induction false} OrderlyLapScoresEveryCorner(lap: Lap, picks: seq<Pick>, visits: seq<nat>, k: nat)
    requires Picked(lap, picks) && Orderly(lap, visits) && k < |lap.order|
    ensures |picks| == |lap.order|
    ensures visits[k] <= picks[k].best && (k + 1 < |visits| ==> picks[k].best < visits[k + 1])
    ensures picks[k].distance <= lap.radius
  {
    hide Near, GoodPicks;
    assert |picks| < |lap.order| ==> VisitsInTurn(lap, visits, |picks|);
    assert |picks| < |lap.order| ==> visits[|picks|] < |lap.rows| <= Used(picks);
    hide Picked, Orderly, VisitsInTurn;
    if picks != [] {
      OrderlyPick(lap, picks, visits, |picks| - 1);
    }
    assert |picks| == |lap.order|;
    OrderlyPick(lap, picks, visits, k);
  }
}
