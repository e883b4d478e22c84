/** The pivot sweep: the sensor's fixes, the linear model they obey, and the
    fit that recovers the centre of rotation and the lever arm from them. */
module LeverArm {
  import opened LinearAlgebra
  import opened LeastSquares
  import opened Reals

  /** One fix of the sensor: position, and the cosine and sine of its heading. */
  datatype Pose = Pose(x: real, y: real, c: real, s: real)

  /** The fit's four unknowns, in the order the solver carries them. */
  datatype Arm = Arm(cx: real, cy: real, ox: real, oy: real) {
    function Vector(): (v: Vec)
      ensures |v| == 4
    {
      [cx, cy, ox, oy]
    }
  }

  datatype Outcome = Fitted(arm: Arm) | TooFewFixes | SingularFit

  function XRow(p: Pose): (v: Vec) ensures |v| == 4 { [1.0, 0.0, p.c, -p.s] }

  function YRow(p: Pose): (v: Vec) ensures |v| == 4 { [0.0, 1.0, p.s, p.c] }

  function Rows(fixes: seq<Pose>): (rows: seq<Vec>)
    ensures |rows| == 2 * |fixes| && forall k :: 0 <= k < |rows| ==> |rows[k]| == 4
    ensures forall i :: 0 <= i < |fixes| ==>
              rows[2 * i] == XRow(fixes[i]) && rows[2 * i + 1] == YRow(fixes[i])
  {
    if |fixes| == 0 then []
    else
      var f, last := fixes[..|fixes| - 1], fixes[|fixes| - 1];
      Rows(f) + [XRow(last), YRow(last)]
  }

  function Readings(fixes: seq<Pose>): (rhs: Vec)
    ensures |rhs| == 2 * |fixes|
    ensures forall i :: 0 <= i < |fixes| ==> rhs[2 * i] == fixes[i].x && rhs[2 * i + 1] == fixes[i].y
  {
    if |fixes| == 0 then []
    else
      var f, last := fixes[..|fixes| - 1], fixes[|fixes| - 1];
      Readings(f) + [last.x, last.y]
  }

  /** The sensor sits at the centre plus the arm rotated by the heading. */
  ghost predicate Obeys(p: Pose, a: Arm) {
    && p.x == PredictedX(p, a)
    && p.y == PredictedY(p, a)
  }

  function PredictedX(p: Pose, a: Arm): real { a.cx + Times(p.c, a.ox) - Times(p.s, a.oy) }

  function PredictedY(p: Pose, a: Arm): real { a.cy + Times(p.s, a.ox) + Times(p.c, a.oy) }

  ghost predicate AllObey(fixes: seq<Pose>, a: Arm) {
    forall i :: 0 <= i < |fixes| ==> Obeys(fixes[i], a)
  }

  ghost predicate SameHeading(p: Pose, q: Pose) {
    p.c == q.c && p.s == q.s
  }

  /** Some two fixes were taken at different headings. */
  ghost predicate Pivoted(fixes: seq<Pose>) {
    exists i, j :: 0 <= i < j < |fixes| && !SameHeading(fixes[i], fixes[j])
  }

  lemma DotFour(u: Vec, v: Vec)
    requires |u| == |v| == 4
    ensures Dot(u, v) == Times(u[0], v[0]) + Times(u[1], v[1]) + Times(u[2], v[2]) + Times(u[3], v[3])
  {
    hide Times;
    var u1, v1 := u[1..], v[1..];
    var u2, v2 := u1[1..], v1[1..];
    var u3, v3 := u2[1..], v2[1..];
    assert Dot(u3, v3) == Times(u3[0], v3[0]) + Dot(u3[1..], v3[1..]);
    assert Dot(u2, v2) == Times(u2[0], v2[0]) + Dot(u3, v3);
    assert Dot(u1, v1) == Times(u1[0], v1[0]) + Dot(u2, v2);
  }

  lemma RowReadings(p: Pose, a: Arm)
    ensures Dot(XRow(p), a.Vector()) == PredictedX(p, a)
    ensures Dot(YRow(p), a.Vector()) == PredictedY(p, a)
  {
    hide Times;
    DotFour(XRow(p), a.Vector());
    DotFour(YRow(p), a.Vector());
    Ring(a.cx, 0.0, 0.0);
    Ring(a.cy, 0.0, 0.0);
    Ring(p.s, a.oy, 0.0);
  }

  /** Both rows of fix i, read against an arm. */
  lemma RowsRead(fixes: seq<Pose>, a: Arm, i: nat)
    requires i < |fixes|
    ensures Dot(Rows(fixes)[2 * i], a.Vector()) == PredictedX(fixes[i], a)
    ensures Dot(Rows(fixes)[2 * i + 1], a.Vector()) == PredictedY(fixes[i], a)
    ensures Readings(fixes)[2 * i] == fixes[i].x && Readings(fixes)[2 * i + 1] == fixes[i].y
  {
    hide Times;
    RowReadings(fixes[i], a);
  }

  lemma VectorIsInjective(a: Arm, b: Arm)
    requires a.Vector() == b.Vector()
    ensures a == b
  {
    var v, w := a.Vector(), b.Vector();
    assert v[0] == w[0] && v[1] == w[1] && v[2] == w[2] && v[3] == w[3];
  }

  /** Residuals vanish together, row by row. */
  lemma {:induction false} NoResiduals(rows: seq<Vec>, rhs: Vec, x: Vec)
    requires Shaped(rows, rhs, |x|)
    requires forall k :: 0 <= k < |rows| ==> Dot(rows[k], x) == rhs[k]
    ensures Stationary(rows, rhs, x) && SquaredResiduals(rows, rhs, x) == 0.0
  {
    hide Times;
    Ring(0.0, 0.0, 0.0);
    if |rows| > 0 {
      NoResiduals(rows[1..], rhs[1..], x);
      forall i | 0 <= i < |x| ensures Gradient(rows, rhs, x)[i] == 0.0 {
        Ring(rows[0][i], 0.0, 0.0);
      }
      assert Gradient(rows, rhs, x) == Zero(|x|);
    }
  }

  lemma ExactFixesLeaveNoResidual(fixes: seq<Pose>, a: Arm)
    requires AllObey(fixes, a)
    ensures Stationary(Rows(fixes), Readings(fixes), a.Vector())
  {
    hide Times;
    var rows, rhs := Rows(fixes), Readings(fixes);
    forall k | 0 <= k < |rows| ensures Dot(rows[k], a.Vector()) == rhs[k] {
      var i := k / 2;
      RowsRead(fixes, a, i);
      assert Obeys(fixes[i], a) && (k == 2 * i || k == 2 * i + 1);
    }
    NoResiduals(rows, rhs, a.Vector());
  }

  /** If the robot never turned, moving the arm by (1, 0) and the centre the
      opposite way changes no prediction: no solution can be the only one. */
  lemma NoPivotNoUniqueFit(fixes: seq<Pose>, x: Vec) returns (y: Vec)
    requires |fixes| > 0 && |x| == 4 && !Pivoted(fixes)
    requires Stationary(Rows(fixes), Readings(fixes), x)
    ensures |y| == 4 && y != x && Stationary(Rows(fixes), Readings(fixes), y)
  {
    hide Times;
    var p := fixes[0];
    var drift := Arm(-p.c, -p.s, 1.0, 0.0);
    y := Add(x, drift.Vector());
    assert y[2] == x[2] + 1.0;
    assert Minus(y, x) == drift.Vector();
    var rows := Rows(fixes);
    forall k | 0 <= k < |rows| ensures Dot(rows[k], drift.Vector()) == 0.0 {
      var i := k / 2;
      RowsRead(fixes, drift, i);
      assert (i == 0 || SameHeading(p, fixes[i])) && (k == 2 * i || k == 2 * i + 1);
      Ring(1.0, p.c, 0.0);
      Ring(1.0, p.s, 0.0);
      Ring(p.c, 0.0, 0.0);
      Ring(p.s, 0.0, 0.0);
      Ring(p.c, 1.0, 0.0);
      Ring(p.s, 1.0, 0.0);
    }
    NoEnergy(rows, drift.Vector());
    NoEnergyNoChange(rows, Readings(fixes), x, y);
  }

  lemma {:induction false} NoEnergy(rows: seq<Vec>, d: Vec)
    requires forall k :: 0 <= k < |rows| ==> |rows[k]| == |d| && Dot(rows[k], d) == 0.0
    ensures Energy(rows, d) == 0.0
  {
    hide Times;
    if |rows| > 0 {
      Ring(0.0, 0.0, 0.0);
      NoEnergy(rows[1..], d);
    }
  }

  lemma {:induction false} EnergyVanishes(rows: seq<Vec>, d: Vec, k: nat)
    requires forall k :: 0 <= k < |rows| ==> |rows[k]| == |d|
    requires k < |rows| && Energy(rows, d) == 0.0
    ensures Dot(rows[k], d) == 0.0
  {
    hide Times;
    var v := Dot(rows[0], d);
    if v != 0.0 {
      SquarePositive(v);
    }
    Ring(0.0, 0.0, 0.0);
    if k > 0 {
      EnergyVanishes(rows[1..], d, k - 1);
    }
  }

  /** Two fixes at different headings pin all four unknowns. */
  lemma PivotPinsTheFit(fixes: seq<Pose>, x: Vec, y: Vec)
    requires |x| == |y| == 4 && Pivoted(fixes)
    requires Stationary(Rows(fixes), Readings(fixes), x)
    requires Stationary(Rows(fixes), Readings(fixes), y)
    ensures x == y
  {
    hide Times;
    var rows, rhs, d := Rows(fixes), Readings(fixes), Minus(y, x);
    StationaryMinimises(rows, rhs, x, y);
    StationaryMinimises(rows, rhs, y, x);
    ResidualsExpand(rows, rhs, x, y);
    DotZero(Gradient(rows, rhs, x), d);
    var i, j :| 0 <= i < j < |fixes| && !SameHeading(fixes[i], fixes[j]);
    var a := Arm(d[0], d[1], d[2], d[3]);
    assert a.Vector() == d;
    forall k | 0 <= k < |fixes|
      ensures PredictedX(fixes[k], a) == PredictedY(fixes[k], a) == 0.0
    {
      EnergyVanishes(rows, d, 2 * k);
      EnergyVanishes(rows, d, 2 * k + 1);
      RowReadings(fixes[k], a);
    }
    RotationIsInjective(fixes[i], fixes[j], a);
    assert d[0] == d[1] == d[2] == d[3] == 0.0;
    assert forall k :: 0 <= k < 4 ==> x[k] == y[k];
  }

  /** Offsets invisible at two different headings are no offsets. */
  lemma RotationIsInjective(p: Pose, q: Pose, a: Arm)
    requires !SameHeading(p, q)
    requires PredictedX(p, a) == PredictedY(p, a) == PredictedX(q, a) == PredictedY(q, a) == 0.0
    ensures a == Arm(0.0, 0.0, 0.0, 0.0)
  {
    hide Times;
    var dc, ds := p.c - q.c, p.s - q.s;
    Ring(p.c, -q.c, a.ox);
    Ring(p.c, -q.c, a.oy);
    Ring(p.s, -q.s, a.ox);
    Ring(p.s, -q.s, a.oy);
    Ring(q.c, a.ox, 0.0);
    Ring(q.c, a.oy, 0.0);
    Ring(q.s, a.ox, 0.0);
    Ring(q.s, a.oy, 0.0);
    Cramer(dc, ds, a.ox, a.oy);
    Ring(p.c, 0.0, 0.0);
    Ring(p.s, 0.0, 0.0);
  }

  lemma Cramer(c: real, s: real, u: real, v: real)
    requires c != 0.0 || s != 0.0
    requires Times(c, u) - Times(s, v) == 0.0 && Times(s, u) + Times(c, v) == 0.0
    ensures u == 0.0 && v == 0.0
  {
    var det := Times(c, c) + Times(s, s);
    assert det > 0.0 by {
      if c != 0.0 { SquarePositive(c); }
      if s != 0.0 { SquarePositive(s); }
    }
    assert det * u == c * (c * u - s * v) + s * (s * u + c * v);
    assert det * v == c * (s * u + c * v) - s * (c * u - s * v);
  }

  ghost predicate IsFit(fixes: seq<Pose>, x: Vec) {
    |x| == 4 && Stationary(Rows(fixes), Readings(fixes), x)
  }

  lemma PivotLeavesOneFit(fixes: seq<Pose>, x: Vec, y: Vec)
    requires Pivoted(fixes) && IsFit(fixes, x) && IsFit(fixes, y)
    ensures x == y
  {
    PivotPinsTheFit(fixes, x, y);
    hide Pivoted, Rows, Readings, Stationary;
  }

  lemma NoPivotLeavesTwoFits(fixes: seq<Pose>, x: Vec) returns (y: Vec)
    requires |fixes| > 0 && !Pivoted(fixes) && IsFit(fixes, x)
    ensures IsFit(fixes, y) && y != x
  {
    y := NoPivotNoUniqueFit(fixes, x);
    hide Pivoted, Rows, Readings, Stationary;
  }

  /** A fit is the only one exactly when the robot turned between two of the fixes. */
  lemma UniqueFitIffPivoted(fixes: seq<Pose>, x: Vec)
    requires |fixes| > 0 && IsFit(fixes, x)
    ensures Pivoted(fixes) <==> forall y :: IsFit(fixes, y) ==> y == x
  {
    hide IsFit, Pivoted;
    if Pivoted(fixes) {
      forall y | IsFit(fixes, y)
        ensures y == x
      {
        PivotLeavesOneFit(fixes, x, y);
      }
    } else {
      var y := NoPivotLeavesTwoFits(fixes, x);
    }
  }

  method BuildRows(fixes: seq<Pose>) returns (rows: seq<Vec>, rhs: Vec)
    ensures rows == Rows(fixes) && rhs == Readings(fixes)
  {
    hide Times;
    rows, rhs := [], [];
    for i := 0 to |fixes|
      invariant rows == Rows(fixes[..i]) && rhs == Readings(fixes[..i])
    {
      var p := fixes[i];
      ghost var was, read := rows, rhs;
      rows := rows + [[1.0, 0.0, p.c, -p.s]];
      rhs := rhs + [p.x];
      rows := rows + [[0.0, 1.0, p.s, p.c]];
      rhs := rhs + [p.y];
      assert fixes[..i + 1][..i] == fixes[..i];
      assert rows == was + [XRow(p), YRow(p)] && rhs == read + [p.x, p.y];
    }
    assert fixes[..|fixes|] == fixes;
  }

  ghost predicate OnlySolution(fixes: seq<Pose>, x: Vec) {
    forall y: Vec | |y| == 4 :: Solves(NormalSystem(Rows(fixes), Readings(fixes), 4), y) <==> y == x
  }

  lemma ExactFixesGiveTheArm(fixes: seq<Pose>, arm: Arm, a: Arm)
    requires OnlySolution(fixes, arm.Vector()) && AllObey(fixes, a)
    ensures arm == a
  {
    hide Times, Rows, Readings, NormalSystem, Solves, Stationary, AllObey;
    ExactFixesLeaveNoResidual(fixes, a);
    NormalSystemIsStationarity(Rows(fixes), Readings(fixes), a.Vector());
    VectorIsInjective(arm, a);
  }

  lemma OnlySolutionNeedsPivot(fixes: seq<Pose>, x: Vec)
    requires |x| == 4 && |fixes| > 0 && OnlySolution(fixes, x)
    ensures Pivoted(fixes)
  {
    hide Times, Rows, Readings, NormalSystem, Solves, Stationary, Pivoted;
    if !Pivoted(fixes) {
      NormalSystemIsStationarity(Rows(fixes), Readings(fixes), x);
      var y := NoPivotNoUniqueFit(fixes, x);
      NormalSystemIsStationarity(Rows(fixes), Readings(fixes), y);
    }
  }

  // ---- which sweeps are refused -----------------------------------------------------

  ghost predicate AllUnit(fixes: seq<Pose>) {
    forall i :: 0 <= i < |fixes| ==> Times(fixes[i].c, fixes[i].c) + Times(fixes[i].s, fixes[i].s) == 1.0
  }

  lemma SquareNotNegative(v: real)
    ensures Times(v, v) >= 0.0
  {
    if v != 0.0 {
      SquarePositive(v);
    }
  }

  /** The squared chord between two headings: 0 for one heading, 4 for opposite ones. */
  function Chord(p: Pose, q: Pose): (d: real)
    ensures d >= 0.0
  {
    SquareNotNegative(p.c - q.c);
    SquareNotNegative(p.s - q.s);
    Times(p.c - q.c, p.c - q.c) + Times(p.s - q.s, p.s - q.s)
  }

  function ChordsTo(fixes: seq<Pose>, p: Pose): (d: real)
    ensures d >= 0.0
  {
    if |fixes| == 0 then 0.0 else ChordsTo(fixes[..|fixes| - 1], p) + Chord(fixes[|fixes| - 1], p)
  }

  /** How far the headings spread: the squared chords of all pairs of fixes together. */
  function Spread(fixes: seq<Pose>): (d: real)
    ensures d >= 0.0
  {
    if |fixes| == 0 then 0.0
    else Spread(fixes[..|fixes| - 1]) + ChordsTo(fixes[..|fixes| - 1], fixes[|fixes| - 1])
  }

  function SumC(fixes: seq<Pose>): real {
    if |fixes| == 0 then 0.0 else SumC(fixes[..|fixes| - 1]) + fixes[|fixes| - 1].c
  }

  function SumS(fixes: seq<Pose>): real {
    if |fixes| == 0 then 0.0 else SumS(fixes[..|fixes| - 1]) + fixes[|fixes| - 1].s
  }

  lemma ChordOfUnits(p: Pose, q: Pose)
    requires p.c * p.c + p.s * p.s == 1.0 && q.c * q.c + q.s * q.s == 1.0
    ensures Chord(p, q) == 2.0 - 2.0 * (p.c * q.c + p.s * q.s)
  {
    assert Chord(p, q) == p.c * p.c - 2.0 * (p.c * q.c) + q.c * q.c + (p.s * p.s - 2.0 * (p.s * q.s) + q.s * q.s);
  }

  lemma OneMoreChord(n: real, c: real, s: real, p: Pose, q: Pose)
    requires p.c * p.c + p.s * p.s == 1.0 && q.c * q.c + q.s * q.s == 1.0
    ensures 2.0 * n - 2.0 * (Times(c, p.c) + Times(s, p.s)) + Chord(q, p)
      == 2.0 * (n + 1.0) - 2.0 * (Times(c + q.c, p.c) + Times(s + q.s, p.s))
  {
    ChordOfUnits(q, p);
  }

  lemma {:induction false} ChordsAre(fixes: seq<Pose>, p: Pose)
    requires AllUnit(fixes) && Times(p.c, p.c) + Times(p.s, p.s) == 1.0
    ensures ChordsTo(fixes, p)
      == 2.0 * |fixes| as real - 2.0 * (Times(SumC(fixes), p.c) + Times(SumS(fixes), p.s))
  {
    if |fixes| > 0 {
      var f, q := fixes[..|fixes| - 1], fixes[|fixes| - 1];
      ChordsAre(f, p);
      OneMoreChord(|f| as real, SumC(f), SumS(f), p, q);
      hide Chord, Times;
    }
  }

  lemma SquareOfSum(a: real, b: real)
    ensures Times(a + b, a + b) == Times(a, a) + 2.0 * Times(a, b) + Times(b, b)
  {}

  /** n unit headings with vector sum (C, S) spread by n^2 - C^2 - S^2. */
  lemma {:induction false} SpreadIs(fixes: seq<Pose>)
    requires AllUnit(fixes)
    ensures Spread(fixes) == Times(|fixes| as real, |fixes| as real)
      - Times(SumC(fixes), SumC(fixes)) - Times(SumS(fixes), SumS(fixes))
  {
    hide Times;
    Ring(0.0, 0.0, 0.0);
    if |fixes| > 0 {
      var f, p := fixes[..|fixes| - 1], fixes[|fixes| - 1];
      SpreadIs(f);
      ChordsAre(f, p);
      SquareOfSum(SumC(f), p.c);
      SquareOfSum(SumS(f), p.s);
      SquareOfSum(|f| as real, 1.0);
      Ring(1.0, 1.0, 0.0);
      Ring(|f| as real, 1.0, 0.0);
      Ring(1.0, |f| as real, 0.0);
    }
  }

  lemma {:induction false} GramAppends(rows: seq<Vec>, a: Vec, b: Vec, i: nat, j: nat)
    requires |a| == |b| == 4 && i < 4 && j < 4 && forall k :: 0 <= k < |rows| ==> |rows[k]| == 4
    ensures Gram(rows + [a, b], 4, i, j) == Gram(rows, 4, i, j) + Times(a[i], a[j]) + Times(b[i], b[j])
  {
    hide Times;
    var all := rows + [a, b];
    if |rows| == 0 {
      assert all[1..] == [b] && all[1..][1..] == [];
      assert Gram([b], 4, i, j) == Times(b[i], b[j]) + Gram([], 4, i, j);
    } else {
      assert all[1..] == rows[1..] + [a, b];
      GramAppends(rows[1..], a, b, i, j);
    }
  }

  /** The coefficients of the sweep's normal equations. */
  function Coefficient(n: real, c: real, s: real, i: nat, j: nat): real
    requires i < 4 && j < 4
  {
    if i == j then n
    else match (i, j)
      case (0, 2) => c
      case (2, 0) => c
      case (1, 3) => c
      case (3, 1) => c
      case (1, 2) => s
      case (2, 1) => s
      case (0, 3) => -s
      case (3, 0) => -s
      case _ => 0.0
  }

  lemma OneFixAdds(p: Pose, i: nat, j: nat)
    requires i < 4 && j < 4 && Times(p.c, p.c) + Times(p.s, p.s) == 1.0
    ensures Times(XRow(p)[i], XRow(p)[j]) + Times(YRow(p)[i], YRow(p)[j]) == Coefficient(1.0, p.c, p.s, i, j)
  {
    var x, y := XRow(p), YRow(p);
    assert x[0] == 1.0 && x[1] == 0.0 && x[2] == p.c && x[3] == -p.s;
    assert y[0] == 0.0 && y[1] == 1.0 && y[2] == p.s && y[3] == p.c;
  }

  lemma {:induction false} GramIs(fixes: seq<Pose>, i: nat, j: nat)
    requires i < 4 && j < 4 && AllUnit(fixes)
    ensures Gram(Rows(fixes), 4, i, j) == Coefficient(|fixes| as real, SumC(fixes), SumS(fixes), i, j)
  {
    if |fixes| > 0 {
      var f, p := fixes[..|fixes| - 1], fixes[|fixes| - 1];
      GramIs(f, i, j);
      GramAppends(Rows(f), XRow(p), YRow(p), i, j);
      OneFixAdds(p, i, j);
      hide Gram, Times;
    }
  }

  ghost predicate Quarter(row: Vec, a: real, b: real, c: real, d: real) {
    |row| == 5 && row[0] == a && row[1] == b && row[2] == c && row[3] == d
  }

  /** The left half of the system before column `k` is taken, with n on the diagonal,
      (c, s) the vector sum of the headings and d what is left of n once it is gone. */
  ghost predicate Stage(m: seq<Vec>, n: real, c: real, s: real, d: real, k: nat)
    requires n != 0.0
  {
    WellFormed(m, 4) &&
    match k
    case 0 => Quarter(m[0], n, 0.0, c, -s) && Quarter(m[1], 0.0, n, s, c)
           && Quarter(m[2], c, s, n, 0.0) && Quarter(m[3], -s, c, 0.0, n)
    case 1 => Quarter(m[1], 0.0, n, s, c)
           && Quarter(m[2], 0.0, s, n - Times(c, c / n), Times(c, s / n))
           && Quarter(m[3], 0.0, c, Times(s, c / n), n - Times(s, s / n))
    case 2 => Quarter(m[2], 0.0, 0.0, d, 0.0) && Quarter(m[3], 0.0, 0.0, 0.0, d)
    case _ => Quarter(m[3], 0.0, 0.0, 0.0, d)
  }

  /** In each of the first three columns the pivot is the row already there. */
  lemma PivotStays(m: seq<Vec>, n: real, c: real, s: real, d: real, k: nat, piv: nat)
    requires n > 0.0 && k < 3 && Stage(m, n, c, s, d, k) && Abs(c) <= n && Abs(s) <= n
    requires FirstLargest(m, 4, k, piv)
    ensures piv == k
  {
    assert Abs(m[k][k]) >= 0.0;
  }

  lemma ClearedRow(m: seq<Vec>, k: nat, r: nat, j: nat)
    requires WellFormed(m, 4) && k < 4 && m[k][k] != 0.0 && r < 4 && r != k && j < 5
    ensures Cleared(Taken(m, 4, k, k), 4, k)[r][j] == m[r][j] - Times(m[r][k], m[k][j] / m[k][k])
  {}

  lemma NextStage(m: seq<Vec>, w: seq<Vec>, n: real, c: real, s: real, d: real, k: nat)
    requires n > 0.0 && k < 3 && Stage(m, n, c, s, d, k) && m[k][k] != 0.0
    requires d == n - Times(c, c / n) - Times(s, s / n)
    requires w == Cleared(Taken(m, 4, k, k), 4, k)
    ensures Stage(w, n, c, s, d, k + 1)
  {
    hide Times, Taken, Cleared;
    forall r, j | k < r < 4 && 0 <= j < 4 ensures w[r][j] == m[r][j] - Times(m[r][k], m[k][j] / m[k][k]) {
      ClearedRow(m, k, r, j);
    }
    if k == 0 {
      FirstColumn(n, c, s);
    } else if k == 1 {
      SecondColumn(n, c, s);
    } else {
      Ring(0.0, 0.0, 0.0);
      Ring(0.0, 0.0 / d, 0.0);
      Ring(0.0, d / d, 0.0);
    }
  }

  lemma FirstColumn(n: real, c: real, s: real)
    requires n > 0.0
    ensures c - Times(c, n / n) == 0.0 && -s - Times(-s, n / n) == 0.0
    ensures Times(c, 0.0 / n) == 0.0 && Times(-s, 0.0 / n) == 0.0 && Times(0.0, c / n) == 0.0
    ensures Times(0.0, n / n) == 0.0 && Times(0.0, 0.0 / n) == 0.0 && Times(0.0, -s / n) == 0.0
    ensures Times(c, -s / n) == -Times(c, s / n) && Times(-s, c / n) == -Times(s, c / n)
    ensures Times(-s, -s / n) == Times(s, s / n)
  {}

  lemma SecondColumn(n: real, c: real, s: real)
    requires n > 0.0
    ensures s - Times(s, n / n) == 0.0 && c - Times(c, n / n) == 0.0
    ensures Times(s, 0.0 / n) == 0.0 && Times(c, 0.0 / n) == 0.0
    ensures Times(c, s / n) - Times(s, c / n) == 0.0 && Times(s, c / n) - Times(c, s / n) == 0.0
  {}

  /** Up to the third column, every step of the elimination is known. */
  lemma {:induction false} StageReached(sys: seq<Vec>, m: seq<Vec>, n: real, c: real, s: real, d: real, k: nat)
    requires n > 0.0 && k <= 3 && Stage(sys, n, c, s, d, 0) && Eliminates(sys, m, 4, k)
    requires Abs(c) <= n && Abs(s) <= n && d == n - Times(c, c / n) - Times(s, s / n)
    ensures Stage(m, n, c, s, d, k) && (k == 3 ==> Abs(d) >= PIVOT_FLOOR)
    decreases k
  {
    hide Stage, Times, Taken, Cleared, Eliminates;
    if k == 0 {
      EliminatesNothing(sys, m, 4);
    } else {
      var p, piv := LastStep(sys, m, 4, k);
      StageReached(sys, p, n, c, s, d, k - 1);
      PivotStays(p, n, c, s, d, k - 1, piv);
      NextStage(p, m, n, c, s, d, k - 1);
      ThirdPivot(p, n, c, s, d, k - 1);
    }
  }

  lemma ThirdPivot(m: seq<Vec>, n: real, c: real, s: real, d: real, k: nat)
    requires n != 0.0 && Stage(m, n, c, s, d, k)
    ensures k == 2 ==> m[2][2] == d
  {}

  /** The elimination refuses the sweep exactly when what is left of n is too little. */
  lemma RefusedIff(sys: seq<Vec>, m: seq<Vec>, n: real, c: real, s: real, d: real, k: nat)
    requires n >= 1.0 && Stage(sys, n, c, s, d, 0) && Abs(c) <= n && Abs(s) <= n
    requires d == n - Times(c, c / n) - Times(s, s / n) && d >= 0.0
    ensures RefusesAt(sys, m, 4, k) ==> d < PIVOT_FLOOR
    ensures Eliminates(sys, m, 4, 4) ==> d >= PIVOT_FLOOR
  {
    hide Times, Taken, Cleared, Eliminates, StepsTo;
    if RefusesAt(sys, m, 4, k) {
      StageReached(sys, m, n, c, s, d, k);
      assert Abs(m[if k < 3 then k else 3][k]) < PIVOT_FLOOR;
    }
    if Eliminates(sys, m, 4, 4) {
      var p, next, piv := StepBefore(sys, m, 4, 4, 2);
      StageReached(sys, next, n, c, s, d, 3);
    }
  }

  lemma SumsAreShort(n: real, c: real, s: real)
    requires n > 0.0 && n * n - c * c - s * s >= 0.0
    ensures Abs(c) <= n && Abs(s) <= n
  {
    SquareNotNegative(c);
    SquareNotNegative(s);
    ShortBySquare(n, c);
    ShortBySquare(n, s);
  }

  lemma ShortBySquare(n: real, c: real)
    requires n > 0.0 && c * c <= n * n
    ensures Abs(c) <= n
  {
    var x, d := Abs(c), Abs(c) - n;
    assert x * x == c * c && x * x == n * n + 2.0 * (n * d) + d * d;
    if d > 0.0 {
      ProductNotNegative(n, d);
      SquarePositive(d);
    }
  }

  lemma LeftOfN(n: real, c: real, s: real, d: real)
    requires n > 0.0 && d == n - c * (c / n) - s * (s / n)
    ensures n * d == n * n - c * c - s * s
  {
    assert n * (c * (c / n)) == c * c && n * (s * (s / n)) == s * s;
  }

  function LeftOver(n: real, c: real, s: real): real
    requires n != 0.0
  {
    n - Times(c, c / n) - Times(s, s / n)
  }

  lemma SpreadIsLeftOver(fixes: seq<Pose>)
    requires |fixes| >= 4 && AllUnit(fixes)
    ensures var n, c, s := |fixes| as real, SumC(fixes), SumS(fixes);
      Abs(c) <= n && Abs(s) <= n && Spread(fixes) == Times(n, LeftOver(n, c, s))
  {
    hide Spread, SumC, SumS, AllUnit;
    var n, c, s := |fixes| as real, SumC(fixes), SumS(fixes);
    SpreadIs(fixes);
    SumsAreShort(n, c, s);
    LeftOfN(n, c, s, LeftOver(n, c, s));
  }

  /** The least spread a fit is worth, per fix. */
  lemma SpreadDecides(fixes: seq<Pose>, sys: seq<Vec>, m: seq<Vec>, k: nat)
    requires |fixes| >= 4 && AllUnit(fixes) && sys == NormalSystem(Rows(fixes), Readings(fixes), 4)
    ensures RefusesAt(sys, m, 4, k) ==> Spread(fixes) < |fixes| as real * 0.000000000001
    ensures Eliminates(sys, m, 4, 4) ==> Spread(fixes) >= |fixes| as real * 0.000000000001
  {
    hide *;
    var n, c, s := |fixes| as real, SumC(fixes), SumS(fixes);
    SpreadIsLeftOver(fixes);
    SystemIsStaged(fixes);
    FloorPerFix(n, LeftOver(n, c, s));
    LeftOverIs(n, c, s);
    RefusedIff(sys, m, n, c, s, LeftOver(n, c, s), k);
  }

  lemma LeftOverIs(n: real, c: real, s: real)
    requires n != 0.0
    ensures LeftOver(n, c, s) == n - Times(c, c / n) - Times(s, s / n)
  {}

  lemma FloorPerFix(n: real, d: real)
    requires n > 0.0 && Times(n, d) >= 0.0
    ensures d >= 0.0 && (d < PIVOT_FLOOR <==> Times(n, d) < n * 0.000000000001)
  {}

  lemma EntryIs(fixes: seq<Pose>, i: nat, j: nat)
    requires AllUnit(fixes) && i < 4 && j < 4
    ensures var sys := NormalSystem(Rows(fixes), Readings(fixes), 4);
      |sys[i]| == 5 && sys[i][j] == Coefficient(|fixes| as real, SumC(fixes), SumS(fixes), i, j)
  {
    hide Rows, Readings, Gram, Cross, AllUnit, Coefficient, SumC, SumS;
    GramIs(fixes, i, j);
  }

  lemma StagedByEntries(m: seq<Vec>, n: real, c: real, s: real, d: real)
    requires n != 0.0 && WellFormed(m, 4)
    requires forall i: nat, j: nat :: i < 4 && j < 4 ==> m[i][j] == Coefficient(n, c, s, i, j)
    ensures Stage(m, n, c, s, d, 0)
  {}

  lemma SystemIsStaged(fixes: seq<Pose>)
    requires |fixes| >= 4 && AllUnit(fixes)
    ensures var n, c, s := |fixes| as real, SumC(fixes), SumS(fixes);
      Stage(NormalSystem(Rows(fixes), Readings(fixes), 4), n, c, s, LeftOver(n, c, s), 0)
  {
    hide Rows, Readings, Gram, Cross, AllUnit, Coefficient, SumC, SumS, Stage, LeftOver, Times;
    var sys := NormalSystem(Rows(fixes), Readings(fixes), 4);
    var n, c, s := |fixes| as real, SumC(fixes), SumS(fixes);
    forall i: nat, j: nat | i < 4 && j < 4 ensures |sys[i]| == 5 && sys[i][j] == Coefficient(n, c, s, i, j) {
      EntryIs(fixes, i, j);
    }
    StagedByEntries(sys, n, c, s, LeftOver(n, c, s));
  }

  lemma FitIsDecided(fixes: seq<Pose>, sys: seq<Vec>, refused: bool)
    requires |fixes| >= 4 && sys == NormalSystem(Rows(fixes), Readings(fixes), 4)
    requires if refused then exists m, col :: RefusesAt(sys, m, 4, col) else exists m :: Eliminates(sys, m, 4, 4)
    ensures AllUnit(fixes) ==> (refused <==> Spread(fixes) < |fixes| as real * 0.000000000001)
  {
    hide *;
    if AllUnit(fixes) {
      if refused {
        var m, col: nat :| RefusesAt(sys, m, 4, col);
        SpreadDecides(fixes, sys, m, col);
      } else {
        var m :| Eliminates(sys, m, 4, 4);
        SpreadDecides(fixes, sys, m, 0);
      }
    }
  }

  /** The sweep's fit. A returned arm is the strict least-squares fit of the
      fixes; it is the true arm whenever the fixes obey the model exactly;
      a robot that never turned is always refused; and exactly those sweeps are, whose
      headings spread by less than a millionth of a millionth per fix. */
  method FitLeverArm(fixes: seq<Pose>) returns (out: Outcome)
    ensures out.TooFewFixes? <==> |fixes| < 4
    ensures out.Fitted? ==> UniqueMinimiser(Rows(fixes), Readings(fixes), out.arm.Vector())
    ensures out.Fitted? ==> forall a: Arm :: AllObey(fixes, a) ==> out.arm == a
    ensures out.Fitted? ==> Pivoted(fixes)
    ensures out.SingularFit? ==> exists d: Vec, col: nat ::
              NearlyFlat(NormalSystem(Rows(fixes), Readings(fixes), 4), 4, d, col)
    ensures |fixes| >= 4 && AllUnit(fixes) ==>
              (out.SingularFit? <==> Spread(fixes) < |fixes| as real * 0.000000000001)
  {
    hide Times, Rows, Readings, NormalSystem, Solves, AllObey, Pivoted, UniqueMinimiser;
    hide RefusesAt, Eliminates, NearlyFlat, AllUnit, Spread;
    if |fixes| < 4 {
      return TooFewFixes;
    }
    var rows, rhs := BuildRows(fixes);
    var fit := SolveLstsq(rows, rhs);
    FitIsDecided(fixes, NormalSystem(rows, rhs, 4), fit.Singular?);
    if fit.Singular? {
      return SingularFit;
    }
    var arm := Arm(fit.x[0], fit.x[1], fit.x[2], fit.x[3]);
    assert arm.Vector() == fit.x;
    OnlySolutionNeedsPivot(fixes, fit.x);
    forall a: Arm | AllObey(fixes, a) ensures arm == a {
      ExactFixesGiveTheArm(fixes, arm, a);
    }
    return Fitted(arm);
  }
}
