/** The playfield: the gate every planned path passes through. Coordinates are
    reals, in centimetres. */
module Field {
  import opened Angles
  import opened Reals

  const LIMIT_X := 67.15
  const LIMIT_Y := 44.65
  const MARGIN := 12.0

  datatype Point = Point(x: real, y: real)

  /** Half-extents left once the margin is taken off the field. */
  function UsableHalfExtent(): Point {
    Point(LIMIT_X - MARGIN, LIMIT_Y - MARGIN)
  }

  predicate Within(p: Point) {
    Abs(p.x) <= UsableHalfExtent().x && Abs(p.y) <= UsableHalfExtent().y
  }

  function Between(a: Point, b: Point, t: real): Point {
    Point(a.x + Times(t, b.x - a.x), a.y + Times(t, b.y - a.y))
  }

  /** A real point of the path: on the segment leaving some waypoint. A path of
      one waypoint is that point. */
  predicate On(p: Point, waypoints: seq<Point>, i: nat, t: real) {
    && i < |waypoints| && 0.0 <= t <= 1.0
    && p == Between(waypoints[i], waypoints[if i + 1 < |waypoints| then i + 1 else i], t)
  }

  ghost predicate StaysInside(waypoints: seq<Point>) {
    forall p, i: nat, t :: On(p, waypoints, i, t) ==> Within(p)
  }

  /** At least a margin of 12 cm from each edge of the field, 134.3 cm by 89.3 cm around
      its middle with x along the long side. */
  predicate KeepsOff(p: Point) {
    -55.15 <= p.x <= 55.15 && -32.65 <= p.y <= 32.65
  }

  lemma WithinKeepsOff(p: Point)
    ensures Within(p) <==> KeepsOff(p)
    ensures KeepsOff(p) <==>
      && p.x - (-67.15) >= 12.0 && 67.15 - p.x >= 12.0
      && p.y - (-44.65) >= 12.0 && 44.65 - p.y >= 12.0
  {}

  /** Every real point of the path does. */
  ghost predicate PathKeepsOff(waypoints: seq<Point>) {
    forall p, i: nat, t :: On(p, waypoints, i, t) ==> KeepsOff(p)
  }

  lemma InsideKeepsOff(waypoints: seq<Point>)
    ensures StaysInside(waypoints) <==> PathKeepsOff(waypoints)
  {
    hide On, Within, KeepsOff;
    forall p ensures Within(p) <==> KeepsOff(p) {
      WithinKeepsOff(p);
    }
  }

  // ---- the sampled check ---------------------------------------------------------------

  function Fraction(k: nat, n: int): real
    requires n > 0
  {
    k as real / n as real
  }

  lemma FractionIsShare(k: nat, n: int)
    requires 0 < n && k <= n
    ensures 0.0 <= Fraction(k, n) <= 1.0 && Fraction(n, n) == 1.0
  {}

  function Outside(points: seq<Point>): seq<Point> {
    if points == [] then []
    else Outside(points[..|points| - 1]) +
         if Within(points[|points| - 1]) then [] else [points[|points| - 1]]
  }

  /** The first `k` samples of a segment cut into `n`: its end but not its start. */
  function Samples(a: Point, b: Point, n: int, k: nat): seq<Point>
    requires k > 0 ==> n > 0
  {
    if k == 0 then [] else Samples(a, b, n, k - 1) + [Between(a, b, Fraction(k, n))]
  }

  function SegmentSamples(a: Point, b: Point, n: int): seq<Point> {
    if n <= 0 then [] else Samples(a, b, n, n)
  }

  /** Everything the check looks at on the first `m` segments. */
  function Probed(waypoints: seq<Point>, n: int, m: nat): seq<Point>
    requires m < |waypoints|
  {
    if m == 0 then [waypoints[0]]
    else Probed(waypoints, n, m - 1) + SegmentSamples(waypoints[m - 1], waypoints[m], n)
  }

  lemma {:induction false} OutsideAppends(a: seq<Point>, b: seq<Point>)
    ensures Outside(a + b) == Outside(a) + Outside(b)
    decreases |b|
  {
    if b == [] {
      assert a + b == a;
    } else {
      var init, last := b[..|b| - 1], b[|b| - 1];
      OutsideAppends(a, init);
      assert (a + b)[..|a + b| - 1] == a + init;
    }
  }

  lemma {:induction false} OutsideIsEmptyIff(points: seq<Point>)
    ensures Outside(points) == [] <==> forall p :: p in points ==> Within(p)
    decreases |points|
  {
    if points != [] {
      var init, last := points[..|points| - 1], points[|points| - 1];
      OutsideIsEmptyIff(init);
      assert forall p :: p in points <==> p in init || p == last;
    }
  }

  method CheckPath(waypoints: seq<Point>, samplesPerSegment: int := 20) returns (offenders: seq<Point>)
    ensures waypoints == [] ==> offenders == []
    ensures waypoints != [] ==>
              offenders == Outside(Probed(waypoints, samplesPerSegment, |waypoints| - 1))
  {
    hide Within, Between, Outside, Fraction, Samples;
    offenders := [];
    if waypoints == [] {
      return;
    }
    OutsideOne(waypoints[0]);
    if !Within(waypoints[0]) {
      offenders := offenders + [waypoints[0]];
    }
    for m := 0 to |waypoints| - 1
      invariant offenders == Outside(Probed(waypoints, samplesPerSegment, m))
    {
      var here := CheckSegment(waypoints[m], waypoints[m + 1], samplesPerSegment);
      OutsideAppends(Probed(waypoints, samplesPerSegment, m),
                     SegmentSamples(waypoints[m], waypoints[m + 1], samplesPerSegment));
      offenders := offenders + here;
    }
  }

  method CheckSegment(a: Point, b: Point, n: int) returns (offenders: seq<Point>)
    ensures offenders == Outside(SegmentSamples(a, b, n))
  {
    hide Within, Between, Outside, Fraction;
    OutsideOne(a);
    offenders := [];
    var i := 1;
    while i <= n
      invariant i == 1 || 1 < i <= n + 1
      invariant offenders == Outside(Samples(a, b, n, i - 1))
      decreases n - i
    {
      var p := Between(a, b, Fraction(i, n));
      OutsideAppends(Samples(a, b, n, i - 1), [p]);
      OutsideOne(p);
      if !Within(p) {
        offenders := offenders + [p];
      }
      i := i + 1;
    }
  }

  lemma OutsideOne(p: Point)
    ensures Outside([p]) == if Within(p) then [] else [p]
    ensures Outside([]) == []
  {
    assert [p][..0] == [];
  }

  // ---- why twenty samples are enough ---------------------------------------------------------

  /** The usable field is convex. */
  lemma BetweenStaysWithin(a: Point, b: Point, t: real)
    requires Within(a) && Within(b) && 0.0 <= t <= 1.0
    ensures Within(Between(a, b, t))
  {
    Interpolates(a.x, b.x, t, UsableHalfExtent().x);
    Interpolates(a.y, b.y, t, UsableHalfExtent().y);
  }

  lemma Interpolates(a: real, b: real, t: real, m: real)
    requires Abs(a) <= m && Abs(b) <= m && 0.0 <= t <= 1.0
    ensures Abs(a + Times(t, b - a)) <= m
  {
    ProductNotNegative(1.0 - t, m - a);
    ProductNotNegative(t, m - b);
    ProductNotNegative(1.0 - t, m + a);
    ProductNotNegative(t, m + b);
    assert a + t * (b - a) == m - (1.0 - t) * (m - a) - t * (m - b);
    assert a + t * (b - a) == (1.0 - t) * (m + a) + t * (m + b) - m;
  }

  lemma {:induction false} SampleIsBetween(a: Point, b: Point, n: int, k: nat, p: Point)
    requires 0 < n && k <= n && p in Samples(a, b, n, k)
    ensures exists t :: 0.0 <= t <= 1.0 && p == Between(a, b, t)
  {
    hide Between;
    if p in Samples(a, b, n, k - 1) {
      SampleIsBetween(a, b, n, k - 1, p);
    } else {
      var t := Fraction(k, n);
      FractionIsShare(k, n);
      assert 0.0 <= t <= 1.0 && p == Between(a, b, t);
    }
  }

  lemma {:induction false} SampleAt(a: Point, b: Point, n: int, k: nat, j: nat)
    requires j < k && 0 < n
    ensures |Samples(a, b, n, k)| == k && Samples(a, b, n, k)[j] == Between(a, b, Fraction(j + 1, n))
  {
    hide Between, Fraction;
    if j < k - 1 {
      SampleAt(a, b, n, k - 1, j);
    } else if j > 0 {
      SampleAt(a, b, n, k - 1, j - 1);
    }
  }

  /** The samples lie evenly: the j-th of `n` is j n-ths of the way, and the last the end. */
  lemma SamplesAreEven(a: Point, b: Point, n: int, j: nat)
    requires 0 < j <= n
    ensures |SegmentSamples(a, b, n)| == n
    ensures var p := SegmentSamples(a, b, n)[j - 1];
      && n as real * (p.x - a.x) == j as real * (b.x - a.x)
      && n as real * (p.y - a.y) == j as real * (b.y - a.y)
  {
    SampleAt(a, b, n, n, j - 1);
    FractionScales(j, n, b.x - a.x);
    FractionScales(j, n, b.y - a.y);
    hide Samples, Fraction, Times;
  }

  lemma FractionScales(k: nat, n: int, v: real)
    requires n > 0
    ensures n as real * Times(Fraction(k, n), v) == k as real * v
  {
    var f := Fraction(k, n);
    assert n as real * f == k as real;
    assert n as real * (f * v) == (n as real * f) * v;
  }

  lemma LastSampleIsTheEnd(a: Point, b: Point, n: int)
    requires n > 0
    ensures b in SegmentSamples(a, b, n)
  {
    var s := Samples(a, b, n, n);
    FractionIsShare(n, n);
    assert Between(a, b, 1.0) == b;
    assert s[|s| - 1] == b;
  }

  lemma {:induction false} WaypointsAreProbed(waypoints: seq<Point>, n: int, m: nat, i: nat)
    requires n > 0 && i <= m < |waypoints|
    ensures waypoints[i] in Probed(waypoints, n, m)
  {
    hide Samples;
    if i < m {
      WaypointsAreProbed(waypoints, n, m - 1, i);
    } else if m > 0 {
      LastSampleIsTheEnd(waypoints[m - 1], waypoints[m], n);
    }
  }

  lemma {:induction false} ProbedOnPath(waypoints: seq<Point>, n: int, m: nat, p: Point)
    requires n > 0 && m < |waypoints| && p in Probed(waypoints, n, m)
    ensures exists i: nat, t :: On(p, waypoints, i, t)
  {
    hide Samples;
    if m == 0 {
      Ring(0.0, 0.0, 0.0);
      assert p == Between(p, waypoints[if 1 < |waypoints| then 1 else 0], 0.0);
      assert On(p, waypoints, 0, 0.0);
    } else if p in Probed(waypoints, n, m - 1) {
      ProbedOnPath(waypoints, n, m - 1, p);
    } else {
      hide Between;
      var a, b := waypoints[m - 1], waypoints[m];
      SampleIsBetween(a, b, n, n, p);
      var t :| 0.0 <= t <= 1.0 && p == Between(a, b, t);
      assert On(p, waypoints, m - 1, t);
    }
  }

  lemma WaypointsWithinSuffices(waypoints: seq<Point>)
    requires forall i :: 0 <= i < |waypoints| ==> Within(waypoints[i])
    ensures StaysInside(waypoints)
  {
    forall p, i: nat, t | On(p, waypoints, i, t)
      ensures Within(p)
    {
      BetweenStaysWithin(waypoints[i], waypoints[if i + 1 < |waypoints| then i + 1 else i], t);
    }
  }

  /** The finite check decides the infinite question, whatever the sample count. */
  lemma CheckIsExact(waypoints: seq<Point>, n: int)
    requires n > 0 && waypoints != []
    ensures Outside(Probed(waypoints, n, |waypoints| - 1)) == [] <==> StaysInside(waypoints)
  {
    var m := |waypoints| - 1;
    var probed := Probed(waypoints, n, m);
    OutsideIsEmptyIff(probed);
    hide Within, On, Outside, Probed;
    if Outside(probed) == [] {
      forall i: nat | i < |waypoints|
        ensures Within(waypoints[i])
      {
        WaypointsAreProbed(waypoints, n, m, i);
      }
      WaypointsWithinSuffices(waypoints);
    }
    if StaysInside(waypoints) {
      forall p | p in probed
        ensures Within(p)
      {
        ProbedOnPath(waypoints, n, m, p);
        var i: nat, t :| On(p, waypoints, i, t);
      }
    }
  }

  /** With no samples asked for, only the start is looked at: the gate then means
      less than its documentation says. */
  lemma {:induction false} NoSamplesChecksOnlyTheStart(waypoints: seq<Point>, n: int, m: nat)
    requires n <= 0 && m < |waypoints|
    ensures Probed(waypoints, n, m) == [waypoints[0]]
  {
    if m > 0 {
      NoSamplesChecksOnlyTheStart(waypoints, n, m - 1);
    }
  }

  lemma GateDecides(waypoints: seq<Point>, n: int)
    requires waypoints != []
    ensures var offenders := Outside(Probed(waypoints, n, |waypoints| - 1));
      if n > 0
      then (offenders == [] <==> StaysInside(waypoints)) && (offenders == [] <==> PathKeepsOff(waypoints))
      else offenders == [] <==> KeepsOff(waypoints[0])
  {
    hide *;
    if n > 0 {
      CheckIsExact(waypoints, n);
      InsideKeepsOff(waypoints);
    } else {
      NoSamplesChecksOnlyTheStart(waypoints, n, |waypoints| - 1);
      OutsideOne(waypoints[0]);
      WithinKeepsOff(waypoints[0]);
    }
  }

  datatype Gate = Clear | Refused(shown: seq<Point>, more: nat)

  /** The gate a planner passes before its first byte. A refusal names up to four
      of the offending points and counts the rest. */
  method RequireClearPath(waypoints: seq<Point>, samplesPerSegment: int := 20) returns (gate: Gate)
    ensures waypoints == [] ==> gate == Clear
    ensures waypoints != [] && samplesPerSegment > 0 ==> (gate == Clear <==> StaysInside(waypoints))
    ensures waypoints != [] && samplesPerSegment > 0 ==> (gate == Clear <==> PathKeepsOff(waypoints))
    ensures waypoints != [] && samplesPerSegment <= 0 ==> (gate == Clear <==> KeepsOff(waypoints[0]))
    ensures gate.Refused? ==>
      var offenders := Outside(Probed(waypoints, samplesPerSegment, |waypoints| - 1));
      && 0 < |gate.shown| <= 4 && gate.shown <= offenders
      && |gate.shown| + gate.more == |offenders| && (gate.more > 0 ==> |gate.shown| == 4)
  {
    hide *;
    var offenders := CheckPath(waypoints, samplesPerSegment);
    if waypoints != [] {
      GateDecides(waypoints, samplesPerSegment);
    }
    if offenders == [] {
      return Clear;
    }
    var shown := if |offenders| <= 4 then offenders else offenders[..4];
    gate := Refused(shown, |offenders| - |shown|);
  }
}
