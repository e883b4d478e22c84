/** The repository's one angle wrap, and the two ways of unwrapping it again. */
module Angles {
  import opened Reals

  /** Half-open the other way from the usual: exactly half a turn is +180. */
  predicate InTurn(d: real) {
    -180.0 < d <= 180.0
  }

  /** `a` and `b` name the same direction, `turns` revolutions apart. */
  predicate Apart(a: real, b: real, turns: int) {
    a == b + 360.0 * turns as real
  }

  ghost predicate SameDirection(a: real, b: real) {
    exists turns :: Apart(a, b, turns)
  }

  function Wrap(d: real): (w: real) {
    d + 360.0 * ((180.0 - d) / 360.0).Floor as real
  }

  lemma WrapLands(d: real)
    ensures InTurn(Wrap(d)) && Apart(Wrap(d), d, ((180.0 - d) / 360.0).Floor)
    ensures SameDirection(Wrap(d), d)
  {
    var q := (180.0 - d) / 360.0;
    assert q.Floor as real <= q < q.Floor as real + 1.0;
    assert 360.0 * q == 180.0 - d;
    assert Apart(Wrap(d), d, q.Floor);
  }

  lemma RevolutionsAreApart(turns: int)
    requires turns != 0
    ensures 360.0 * turns as real >= 360.0 || 360.0 * turns as real <= -360.0
  {}

  /** Wrap is the only value in the interval naming the direction. */
  lemma WrapIsUnique(d: real, w: real)
    requires InTurn(w) && SameDirection(w, d)
    ensures w == Wrap(d)
  {
    WrapLands(d);
    var j :| Apart(w, d, j);
    var k := ((180.0 - d) / 360.0).Floor;
    assert w - Wrap(d) == 360.0 * (j - k) as real;
    if j != k {
      RevolutionsAreApart(j - k);
    }
  }

  /** Wrap is the least way round: no other name of the direction is smaller. */
  lemma WrapIsLeast(d: real, other: real)
    requires SameDirection(other, d)
    ensures Abs(Wrap(d)) <= Abs(other)
  {
    if Abs(other) < 180.0 {
      WrapIsUnique(d, other);
    } else {
      WrapLands(d);
    }
  }

  lemma SameDirectionShifts(a: real, b: real, c: real)
    requires SameDirection(a, b)
    ensures SameDirection(a + c, b + c) && SameDirection(b, a)
  {
    var j :| Apart(a, b, j);
    assert Apart(a + c, b + c, j);
    assert Apart(b, a, -j);
  }

  lemma SameDirectionTrans(a: real, b: real, c: real)
    requires SameDirection(a, b) && SameDirection(b, c)
    ensures SameDirection(a, c)
  {
    var j :| Apart(a, b, j);
    var k :| Apart(b, c, k);
    assert Apart(a, c, j + k);
  }

  lemma WrapOfSame(a: real, b: real)
    requires SameDirection(a, b)
    ensures Wrap(a) == Wrap(b)
  {
    WrapLands(a);
    SameDirectionTrans(Wrap(a), a, b);
    WrapIsUnique(b, Wrap(a));
  }

  /** The loop the tools run. */
  method WrapDegrees(d: real) returns (w: real)
    ensures w == Wrap(d)
  {
    w := d;
    assert Apart(w, d, 0);
    ghost var turns := 0;
    while w <= -180.0
      invariant Apart(w, d, turns) && (w <= 180.0 || w == d)
      decreases 180.0 - w
    {
      w := w + 360.0;
      turns := turns + 1;
    }
    while w > 180.0
      invariant Apart(w, d, turns) && w > -180.0
      decreases w
    {
      w := w - 360.0;
      turns := turns - 1;
    }
    WrapIsUnique(d, w);
  }

  // ---- one pivot against its command ------------------------------------------------

  function TurnTotal(commanded: real, measured: real): real {
    commanded + Wrap(measured - commanded)
  }

  /** The measured difference names the true turn up to revolutions; the total is
      the true turn exactly when it is within half a revolution of the command,
      the positive half included. */
  lemma TurnTotalIsTrueIff(commanded: real, measured: real, truth: real)
    requires SameDirection(measured, truth)
    ensures TurnTotal(commanded, measured) == truth <==> InTurn(truth - commanded)
  {
    SameDirectionShifts(measured, truth, -commanded);
    WrapOfSame(measured - commanded, truth - commanded);
    WrapLands(truth - commanded);
    if InTurn(truth - commanded) {
      assert Apart(truth - commanded, truth - commanded, 0);
      WrapIsUnique(truth - commanded, truth - commanded);
    }
  }

  // ---- the unwrapping accumulator ---------------------------------------------------

  function Marked(yaws: seq<real>): real {
    if |yaws| < 2 then 0.0
    else Marked(yaws[..|yaws| - 1]) + Wrap(yaws[|yaws| - 1] - yaws[|yaws| - 2])
  }

  /** _yaw_mark(): total yaw over the recorded samples. */
  method YawMark(samples: seq<real>) returns (total: real)
    ensures total == Marked(samples)
  {
    total := 0.0;
    var prev: real := 0.0;
    var seen := false;
    for i := 0 to |samples|
      invariant total == Marked(samples[..i])
      invariant seen <==> i > 0
      invariant seen ==> prev == samples[i - 1]
    {
      var yaw := samples[i];
      assert samples[..i + 1][..i] == samples[..i];
      if seen {
        var step := WrapDegrees(yaw - prev);
        total := total + step;
      }
      prev, seen := yaw, true;
    }
    assert samples[..|samples|] == samples;
  }

  /** The camera reports the true headings only up to revolutions. */
  ghost predicate Reads(yaws: seq<real>, truth: seq<real>) {
    |yaws| == |truth| && forall i :: 0 <= i < |yaws| ==> SameDirection(yaws[i], truth[i])
  }

  ghost predicate SmallSteps(truth: seq<real>) {
    forall i :: 0 < i < |truth| ==> InTurn(truth[i] - truth[i - 1])
  }

  lemma StepReadsTrue(yaw: real, prev: real, truth: real, before: real)
    requires SameDirection(yaw, truth) && SameDirection(prev, before)
    ensures Wrap(yaw - prev) == Wrap(truth - before)
    ensures Wrap(truth - before) == truth - before <==> InTurn(truth - before)
  {
    var j :| Apart(yaw, truth, j);
    var k :| Apart(prev, before, k);
    assert Apart(yaw - prev, truth - before, j - k);
    WrapOfSame(yaw - prev, truth - before);
    WrapLands(truth - before);
    if InTurn(truth - before) {
      assert Apart(truth - before, truth - before, 0);
      WrapIsUnique(truth - before, truth - before);
    }
  }

  ghost predicate MarksTrue(yaws: seq<real>, truth: seq<real>)
    requires |yaws| == |truth|
  {
    forall i :: 0 < i <= |yaws| ==> Marked(yaws[..i]) == truth[i - 1] - truth[0]
  }

  lemma MarksTrueGrows(yaws: seq<real>, truth: seq<real>)
    requires |yaws| == |truth| > 1
    ensures var n := |yaws| - 1;
      MarksTrue(yaws, truth) <==> MarksTrue(yaws[..n], truth[..n]) && Marked(yaws) == truth[n] - truth[0]
  {
    var n := |yaws| - 1;
    var y, t := yaws[..n], truth[..n];
    assert yaws[..n + 1] == yaws;
    hide Marked;
    forall i | 0 < i <= n ensures y[..i] == yaws[..i] && t[i - 1] == truth[i - 1] {}
  }

  lemma SmallStepsGrow(truth: seq<real>)
    requires |truth| > 1
    ensures var n := |truth| - 1;
      SmallSteps(truth) <==> SmallSteps(truth[..n]) && InTurn(truth[n] - truth[n - 1])
  {
    hide InTurn;
    var n := |truth| - 1;
    assert forall i :: 0 < i < n ==> truth[..n][i] - truth[..n][i - 1] == truth[i] - truth[i - 1];
  }

  /** Every mark of a session is the true rotation so far, over any number of
      revolutions, exactly when no true step leaves (-180, 180]. */
  lemma {:induction false} MarksAreTrueIff(yaws: seq<real>, truth: seq<real>)
    requires Reads(yaws, truth)
    ensures SmallSteps(truth) <==> MarksTrue(yaws, truth)
  {
    if |yaws| > 1 {
      var n := |yaws| - 1;
      var y, t := yaws[..n], truth[..n];
      MarksAreTrueIff(y, t);
      MarksTrueGrows(yaws, truth);
      StepReadsTrue(yaws[n], yaws[n - 1], truth[n], truth[n - 1]);
      assert Marked(yaws) == Marked(y) + Wrap(truth[n] - truth[n - 1]);
      assert MarksTrue(y, t) ==> Marked(y) == truth[n - 1] - truth[0] by { assert y[..n] == y; }
      hide MarksTrue, Marked, SmallSteps, Wrap, InTurn;
      SmallStepsGrow(truth);
    } else if |yaws| == 1 {
      assert yaws[..1] == yaws;
    }
  }

  /** So is the difference of any two marks. */
  lemma MarkToMark(yaws: seq<real>, truth: seq<real>, a: nat, b: nat)
    requires Reads(yaws, truth) && SmallSteps(truth) && 0 < a <= b <= |yaws|
    ensures Marked(yaws[..b]) - Marked(yaws[..a]) == truth[b - 1] - truth[a - 1]
  {
    MarksAreTrueIff(yaws, truth);
  }
}
