/** Cutting a recorded run into legs: the maximal runs of moving samples. */
module Legs {
  import opened Angles
  import opened Reals

  datatype Sample = Sample(x: real, y: real, h: real)

  /** Samples the two tolerances cannot tell apart. */
  predicate Close(a: Sample, b: Sample, epsCm: real, epsDeg: real) {
    Abs(a.x - b.x) <= epsCm && Abs(a.y - b.y) <= epsCm && Abs(Wrap(a.h - b.h)) <= epsDeg
  }

  datatype Capture = Capture(samples: seq<Sample>, epsCm: real, epsDeg: real)
  {
    /** Sample `i` has moved away from its predecessor. */
    predicate Moving(i: int) {
      0 < i < |samples| && !Close(samples[i - 1], samples[i], epsCm, epsDeg)
    }
  }

  datatype Leg = Leg(start: nat, end: nat)

  /** From the last sample before a maximal moving run to the first held one after
      it, or to the last sample of the capture when the data ends mid-move. */
  ghost predicate IsLeg(c: Capture, leg: Leg) {
    && leg.start < leg.end < |c.samples|
    && !c.Moving(leg.start)
    && c.Moving(leg.start + 1)
    && (forall i :: leg.start < i < leg.end ==> c.Moving(i))
    && (c.Moving(leg.end) ==> leg.end == |c.samples| - 1)
  }

  /** The moving samples of a leg. */
  predicate Covers(c: Capture, leg: Leg, i: int) {
    leg.start < i <= leg.end && c.Moving(i)
  }

  ghost predicate AreLegs(c: Capture, legs: seq<Leg>) {
    && (forall k :: 0 <= k < |legs| ==> IsLeg(c, legs[k]))
    && (forall j, k :: 0 <= j < k < |legs| ==> legs[j].end <= legs[k].start)
  }

  ghost predicate Covered(c: Capture, legs: seq<Leg>, i: int) {
    exists k :: 0 <= k < |legs| && Covers(c, legs[k], i)
  }

  /** All the legs, in order. */
  ghost predicate Segmented(c: Capture, legs: seq<Leg>) {
    AreLegs(c, legs) && forall i :: c.Moving(i) ==> Covered(c, legs, i)
  }

  method MovingFlags(c: Capture) returns (moving: seq<bool>)
    requires c.samples != []
    ensures |moving| == |c.samples| && forall i :: 0 <= i < |moving| ==> moving[i] == c.Moving(i)
  {
    hide Close;
    moving := seq(|c.samples|, _ => false);
    for i := 1 to |c.samples|
      invariant |moving| == |c.samples| && !moving[0]
      invariant forall j :: 1 <= j < i ==> moving[j] == c.Moving(j)
    {
      moving := moving[i := !Close(c.samples[i - 1], c.samples[i], c.epsCm, c.epsDeg)];
    }
  }

  method RunEnd(moving: seq<bool>, from: nat) returns (i: nat)
    requires from < |moving| && moving[from]
    ensures from < i <= |moving| && (i < |moving| ==> !moving[i])
    ensures forall j :: from <= j < i ==> moving[j]
  {
    i := from;
    while i < |moving| && moving[i]
      invariant from <= i <= |moving|
      invariant forall j :: from <= j < i ==> moving[j]
    {
      i := i + 1;
    }
  }

  method Segment(c: Capture) returns (legs: seq<Leg>)
    ensures Segmented(c, legs)
  {
    var n := |c.samples|;
    legs := [];
    if n < 2 {
      return;
    }
    var moving := MovingFlags(c);
    hide Capture.Moving, AreLegs, Covered;
    var i := 1;
    NoLegs(c);
    while i < n
      invariant 1 <= i <= n
      invariant AreLegs(c, legs)
      invariant forall k :: 0 <= k < |legs| ==> legs[k].end < i || (legs[k].end == i < n && !moving[i])
      invariant i < n && moving[i] ==> !moving[i - 1]
      invariant forall j :: 0 <= j < i && c.Moving(j) ==> Covered(c, legs, j)
    {
      if moving[i] {
        var start := i - 1;
        i := RunEnd(moving, i);
        var leg := Leg(start, if i < n then i else n - 1);
        assert IsLeg(c, leg);
        LegExtends(c, legs, leg, i);
        legs := legs + [leg];
      } else {
        i := i + 1;
      }
    }
    OnlyInside(c);
  }

  lemma NoLegs(c: Capture)
    ensures AreLegs(c, []) && !c.Moving(0)
  {}

  lemma OnlyInside(c: Capture)
    ensures forall i :: c.Moving(i) ==> 0 < i < |c.samples|
  {}

  lemma LegExtends(c: Capture, legs: seq<Leg>, leg: Leg, upTo: nat)
    requires AreLegs(c, legs) && IsLeg(c, leg) && (forall k :: 0 <= k < |legs| ==> legs[k].end <= leg.start)
    requires forall j :: 0 <= j <= leg.start && c.Moving(j) ==> Covered(c, legs, j)
    requires upTo <= leg.end + 1
    ensures AreLegs(c, legs + [leg])
    ensures forall j :: 0 <= j < upTo && c.Moving(j) ==> Covered(c, legs + [leg], j)
  {
    var more := legs + [leg];
    hide Capture.Moving;
    forall j | 0 <= j < upTo && c.Moving(j)
      ensures Covered(c, more, j)
    {
      if j <= leg.start {
        var k :| 0 <= k < |legs| && Covers(c, legs[k], j);
        assert Covers(c, more[k], j);
      } else {
        assert Covers(c, more[|legs|], j);
      }
    }
  }

  /** A heading change of `d` exceeds `eps` however it is counted in revolutions. */
  ghost predicate TurnsBeyond(d: real, eps: real) {
    forall turn :: SameDirection(turn, d) ==> turn > eps || -turn > eps
  }

  /** A sample moves exactly when either axis, or the heading, changes by more than
      its tolerance. */
  lemma MovingIff(c: Capture, i: nat)
    requires 0 < i < |c.samples|
    ensures var a, b := c.samples[i - 1], c.samples[i];
      c.Moving(i) <==>
        || b.x - a.x > c.epsCm || a.x - b.x > c.epsCm
        || b.y - a.y > c.epsCm || a.y - b.y > c.epsCm
        || TurnsBeyond(b.h - a.h, c.epsDeg)
    ensures !c.Moving(0) && !c.Moving(|c.samples|)
  {
    TurnsBeyondIff(c.samples[i].h - c.samples[i - 1].h, c.epsDeg);
    hide Wrap, TurnsBeyond;
  }

  lemma TurnsBeyondIff(d: real, eps: real)
    ensures TurnsBeyond(d, eps) <==> Abs(Wrap(-d)) > eps
  {
    WrapLands(-d);
    var w := Wrap(-d);
    SameDirectionNegates(w, -d);
    assert SameDirection(-w, d);
    forall turn | SameDirection(turn, d)
      ensures Abs(w) <= Abs(turn)
    {
      SameDirectionNegates(turn, d);
      WrapIsLeast(-d, -turn);
    }
    hide Wrap, SameDirection;
  }

  lemma SameDirectionNegates(a: real, b: real)
    requires SameDirection(a, b)
    ensures SameDirection(-a, -b)
  {
    var j :| Apart(a, b, j);
    assert Apart(-a, -b, -j);
  }

  // ---- what any cutting into legs must be -------------------------------------------------------

  lemma LegsAscend(c: Capture, legs: seq<Leg>, j: nat, k: nat)
    requires AreLegs(c, legs) && j < k < |legs|
    ensures legs[j].start < legs[j].end <= legs[k].start < legs[k].end
  {
    assert IsLeg(c, legs[j]) && IsLeg(c, legs[k]);
  }

  /** Two legs share at most an endpoint, and then it is a held sample. */
  lemma LegsShareOnlyHeldEnds(c: Capture, legs: seq<Leg>, j: nat, k: nat, i: int)
    requires AreLegs(c, legs) && j < k < |legs|
    requires legs[j].start <= i <= legs[j].end && legs[k].start <= i <= legs[k].end
    ensures i == legs[j].end == legs[k].start && !c.Moving(i)
  {
    LegsAscend(c, legs, j, k);
  }

  /** Every moving sample belongs to one leg and no other. */
  lemma MovingInExactlyOneLeg(c: Capture, legs: seq<Leg>, i: int)
    requires Segmented(c, legs) && c.Moving(i)
    ensures Covered(c, legs, i)
    ensures forall j, k :: 0 <= j < k < |legs| ==> !(Covers(c, legs[j], i) && Covers(c, legs[k], i))
  {
    forall j, k | 0 <= j < k < |legs|
      ensures !(Covers(c, legs[j], i) && Covers(c, legs[k], i))
    {
      LegsAscend(c, legs, j, k);
    }
  }

  /** A run still moving when the data ends is a leg all the same, up to the last sample. */
  lemma CutOffRunEndsAtLastSample(c: Capture, legs: seq<Leg>)
    requires Segmented(c, legs) && c.Moving(|c.samples| - 1)
    ensures legs != [] && legs[|legs| - 1].end == |c.samples| - 1
  {
    var n := |c.samples| - 1;
    hide Close, Covered, AreLegs;
    assert n > 0 && AreLegs(c, legs) && Covered(c, legs, n);
    LegEndingAt(c, legs, n);
  }

  lemma LegEndingAt(c: Capture, legs: seq<Leg>, n: nat)
    requires AreLegs(c, legs) && Covered(c, legs, n) && n == |c.samples| - 1
    ensures legs != [] && legs[|legs| - 1].end == n
  {
    hide Capture.Moving;
    var k: nat :| 0 <= k < |legs| && Covers(c, legs[k], n);
    var last := legs[|legs| - 1];
    assert IsLeg(c, legs[k]) && IsLeg(c, last);
    hide IsLeg;
    assert last.start < n && legs[k].end == n;
  }

  /** Two legs that cover a common sample are the same leg. */
  lemma RunsAreMaximal(c: Capture, a: Leg, b: Leg, i: int)
    requires IsLeg(c, a) && IsLeg(c, b) && Covers(c, a, i) && Covers(c, b, i)
    ensures a == b
  {
    hide Capture.Moving;
    assert a.start < b.start ==> c.Moving(b.start);
    assert b.start < a.start ==> c.Moving(a.start);
    assert a.end < b.end ==> c.Moving(a.end);
    assert b.end < a.end ==> c.Moving(b.end);
  }

  lemma LegIsFound(c: Capture, legs: seq<Leg>, leg: Leg) returns (k: nat)
    requires Segmented(c, legs) && IsLeg(c, leg)
    ensures k < |legs| && legs[k] == leg
  {
    var i := leg.start + 1;
    assert Covers(c, leg, i) && AreLegs(c, legs) && Covered(c, legs, i);
    hide Capture.Moving, Segmented;
    k :| 0 <= k < |legs| && Covers(c, legs[k], i);
    RunsAreMaximal(c, legs[k], leg, i);
  }

  lemma {:induction false} SameLegs(c: Capture, a: seq<Leg>, b: seq<Leg>, k: nat)
    requires Segmented(c, a) && Segmented(c, b) && k <= |a|
    ensures k <= |b| && a[..k] == b[..k]
  {
    hide Capture.Moving, IsLeg;
    if k > 0 {
      SameLegs(c, a, b, k - 1);
      var j := LegIsFound(c, b, a[k - 1]);
      if j < k - 1 {
        assert b[..k - 1][j] == a[..k - 1][j];
        LegsAscend(c, a, j, k - 1);
      }
      var m := LegIsFound(c, a, b[k - 1]);
      if m < k - 1 {
        assert b[..k - 1][m] == a[..k - 1][m];
        LegsAscend(c, b, m, k - 1);
      }
      if k - 1 < m {
        LegsAscend(c, a, k - 1, m);
      }
      if k - 1 < j {
        LegsAscend(c, b, k - 1, j);
      }
      assert a[k - 1] == b[k - 1];
      assert a[..k] == a[..k - 1] + [a[k - 1]] && b[..k] == b[..k - 1] + [b[k - 1]];
    }
  }

  /** A capture can be cut into legs in one way only. */
  lemma SegmentationIsUnique(c: Capture, a: seq<Leg>, b: seq<Leg>)
    requires Segmented(c, a) && Segmented(c, b)
    ensures a == b
  {
    SameLegs(c, a, b, |a|);
    SameLegs(c, b, a, |b|);
    assert a[..|a|] == a && b[..|b|] == b;
  }
}
