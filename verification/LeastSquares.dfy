/** The lever-arm fit's least-squares solver: normal equations reduced in
    place by Gauss-Jordan elimination with partial pivoting, over the reals.

    The method is proved against two independent definitions: the solution
    set of a linear system, which every row operation must keep, and the sum
    of squared residuals, which the returned vector must minimise. */
module LinearAlgebra {
  import opened Reals

  type Vec = seq<real>

  function Dot(u: Vec, v: Vec): real
    requires |u| == |v|
  {
    if |u| == 0 then 0.0 else Times(u[0], v[0]) + Dot(u[1..], v[1..])
  }

  function Scale(c: real, u: Vec): (w: Vec)
    ensures |w| == |u| && forall i :: 0 <= i < |u| ==> w[i] == Times(c, u[i])
  {
    seq(|u|, i requires 0 <= i < |u| => Times(c, u[i]))
  }

  function Add(u: Vec, v: Vec): (w: Vec)
    requires |u| == |v|
    ensures |w| == |u| && forall i :: 0 <= i < |u| ==> w[i] == u[i] + v[i]
  {
    seq(|u|, i requires 0 <= i < |u| => u[i] + v[i])
  }

  function Zero(n: nat): (w: Vec)
    ensures |w| == n && forall i :: 0 <= i < n ==> w[i] == 0.0
  {
    seq(n, _ => 0.0)
  }

  lemma {:induction false} DotAdd(u: Vec, v: Vec, x: Vec)
    requires |u| == |v| == |x|
    ensures Dot(Add(u, v), x) == Dot(u, x) + Dot(v, x)
  {
    hide Times;
    if |u| > 0 {
      assert Add(u, v)[1..] == Add(u[1..], v[1..]);
      DotAdd(u[1..], v[1..], x[1..]);
      Ring(u[0], v[0], x[0]);
    }
  }

  lemma {:induction false} DotScale(c: real, u: Vec, x: Vec)
    requires |u| == |x|
    ensures Dot(Scale(c, u), x) == Times(c, Dot(u, x))
  {
    hide Times;
    if |u| == 0 {
      Ring(c, 0.0, 0.0);
    } else {
      assert Scale(c, u)[1..] == Scale(c, u[1..]);
      DotScale(c, u[1..], x[1..]);
      Ring(c, u[0], x[0]);
      Ring(c, Times(u[0], x[0]), Dot(u[1..], x[1..]));
    }
  }

  lemma {:induction false} DotCommutes(u: Vec, v: Vec)
    requires |u| == |v|
    ensures Dot(u, v) == Dot(v, u)
  {
    hide Times;
    if |u| > 0 {
      DotCommutes(u[1..], v[1..]);
      Ring(u[0], v[0], 0.0);
    }
  }

  lemma {:induction false} DotZero(u: Vec, x: Vec)
    requires |u| == |x|
    requires forall i :: 0 <= i < |u| ==> u[i] == 0.0
    ensures Dot(u, x) == 0.0
  {
    hide Times;
    if |u| > 0 {
      DotZero(u[1..], x[1..]);
      Ring(x[0], 0.0, 0.0);
    }
  }

  /** A row that is zero except for a 1 at position k reads off x[k]. */
  lemma {:induction false} DotUnit(u: Vec, x: Vec, k: nat)
    requires k < |u| == |x|
    requires forall i :: 0 <= i < |u| ==> u[i] == if i == k then 1.0 else 0.0
    ensures Dot(u, x) == x[k]
  {
    hide Times;
    Ring(x[0], 0.0, 0.0);
    if k == 0 {
      DotZero(u[1..], x[1..]);
    } else {
      DotUnit(u[1..], x[1..], k - 1);
    }
  }

  // ---- augmented systems ----------------------------------------------

  /** Row `row` is `coefficients + [right-hand side]`. */
  ghost predicate RowHolds(row: Vec, x: Vec)
    requires |row| == |x| + 1
  {
    Dot(row[..|x|], x) == row[|x|]
  }

  ghost predicate WellFormed(m: seq<Vec>, n: nat) {
    |m| == n && forall i :: 0 <= i < n ==> |m[i]| == n + 1
  }

  ghost predicate Solves(m: seq<Vec>, x: Vec)
    requires WellFormed(m, |x|)
  {
    forall i :: 0 <= i < |m| ==> RowHolds(m[i], x)
  }

  /** Same unknowns, same solution set. */
  ghost predicate Equivalent(a: seq<Vec>, b: seq<Vec>, n: nat) {
    WellFormed(a, n) && WellFormed(b, n) &&
    forall x: Vec | |x| == n :: Solves(a, x) <==> Solves(b, x)
  }

  function Divided(row: Vec, p: real): (w: Vec)
    requires p != 0.0
    ensures |w| == |row| && forall i :: 0 <= i < |row| ==> w[i] == row[i] / p
  {
    seq(|row|, i requires 0 <= i < |row| => row[i] / p)
  }

  function Eliminated(row: Vec, f: real, pivot: Vec): (w: Vec)
    requires |row| == |pivot|
    ensures |w| == |row| && forall i :: 0 <= i < |row| ==> w[i] == row[i] - Times(f, pivot[i])
  {
    seq(|row|, i requires 0 <= i < |row| => row[i] - Times(f, pivot[i]))
  }

  lemma Quotient(v: real, p: real)
    requires p != 0.0
    ensures v / p == Times(1.0 / p, v)
    ensures Times(p, v / p) == v
    ensures p / p == 1.0
  {}

  /** The left side of a row, at `x`. */
  function Slope(row: Vec, x: Vec): real
    requires |row| == |x| + 1
  {
    Dot(row[..|x|], x)
  }

  lemma DividedSlope(row: Vec, p: real, x: Vec)
    requires |row| == |x| + 1 && p != 0.0
    ensures Slope(Divided(row, p), x) == Times(1.0 / p, Slope(row, x))
  {
    hide Times;
    var n, c := |x|, 1.0 / p;
    var s, t := Divided(row, p)[..n], Scale(c, row[..n]);
    forall i | 0 <= i < n ensures s[i] == t[i] {
      Quotient(row[i], p);
    }
    assert s == t;
    DotScale(c, row[..n], x);
  }

  lemma DividedHolds(row: Vec, p: real, x: Vec)
    requires |row| == |x| + 1 && p != 0.0
    ensures RowHolds(Divided(row, p), x) <==> RowHolds(row, x)
  {
    hide Times;
    DividedSlope(row, p, x);
    Quotient(Slope(row, x), p);
    Quotient(row[|x|], p);
  }

  lemma EliminatedSlope(row: Vec, f: real, pivot: Vec, x: Vec)
    requires |row| == |pivot| == |x| + 1
    ensures Slope(Eliminated(row, f, pivot), x) == Slope(row, x) - Times(f, Slope(pivot, x))
  {
    hide Times;
    var n := |x|;
    var s, t := Eliminated(row, f, pivot)[..n], Add(row[..n], Scale(-f, pivot[..n]));
    forall i | 0 <= i < n ensures s[i] == t[i] {
      Ring(f, pivot[i], 0.0);
    }
    assert s == t;
    DotAdd(row[..n], Scale(-f, pivot[..n]), x);
    DotScale(-f, pivot[..n], x);
    Ring(f, Slope(pivot, x), 0.0);
  }

  lemma EliminatedHolds(row: Vec, f: real, pivot: Vec, x: Vec)
    requires |row| == |pivot| == |x| + 1
    requires RowHolds(pivot, x)
    ensures RowHolds(Eliminated(row, f, pivot), x) <==> RowHolds(row, x)
  {
    hide Times;
    EliminatedSlope(row, f, pivot, x);
  }

  // The three elementary row operations keep the solution set.

  lemma SwapKeepsSolutions(m: seq<Vec>, n: nat, a: nat, b: nat)
    requires WellFormed(m, n) && a < n && b < n
    ensures Equivalent(m, m[a := m[b]][b := m[a]], n)
  {
    var w := m[a := m[b]][b := m[a]];
    forall x: Vec | |x| == n ensures Solves(m, x) <==> Solves(w, x) {
      if Solves(w, x) {
        forall i | 0 <= i < n ensures RowHolds(m[i], x) {
          assert m[i] == w[if i == a then b else if i == b then a else i];
        }
      }
    }
  }

  lemma DivideKeepsSolutions(m: seq<Vec>, n: nat, a: nat, p: real)
    requires WellFormed(m, n) && a < n && p != 0.0
    ensures Equivalent(m, m[a := Divided(m[a], p)], n)
  {
    var w := m[a := Divided(m[a], p)];
    forall x: Vec | |x| == n ensures Solves(m, x) <==> Solves(w, x) {
      DividedHolds(m[a], p, x);
      if Solves(w, x) {
        forall i | 0 <= i < n ensures RowHolds(m[i], x) {
          assert RowHolds(w[i], x);
        }
      }
    }
  }

  lemma EliminateKeepsSolutions(m: seq<Vec>, n: nat, r: nat, c: nat, f: real)
    requires WellFormed(m, n) && r < n && c < n && r != c
    ensures Equivalent(m, m[r := Eliminated(m[r], f, m[c])], n)
  {
    var w := m[r := Eliminated(m[r], f, m[c])];
    forall x: Vec | |x| == n ensures Solves(m, x) <==> Solves(w, x) {
      assert w[c] == m[c];
      if RowHolds(m[c], x) {
        EliminatedHolds(m[r], f, m[c], x);
        if Solves(w, x) {
          forall i | 0 <= i < n ensures RowHolds(m[i], x) {
            assert RowHolds(w[i], x);
          }
        }
      }
    }
  }

  lemma EquivalentTrans(a: seq<Vec>, b: seq<Vec>, c: seq<Vec>, n: nat)
    requires Equivalent(a, b, n) && Equivalent(b, c, n)
    ensures Equivalent(a, c, n)
  {}

  /** Columns 0..col of the coefficient part are the identity's. */
  ghost predicate UnitColumns(m: seq<Vec>, n: nat, col: nat)
    requires WellFormed(m, n) && col <= n
  {
    forall i, j :: 0 <= i < n && 0 <= j < col ==> m[i][j] == if i == j then 1.0 else 0.0
  }

  /** An identity system has exactly one solution: its last column. */
  lemma IdentitySolved(m: seq<Vec>, n: nat, x: Vec)
    requires WellFormed(m, n) && UnitColumns(m, n, n) && |x| == n
    ensures Solves(m, x) <==> forall i :: 0 <= i < n ==> x[i] == m[i][n]
  {
    forall i | 0 <= i < n ensures RowHolds(m[i], x) <==> x[i] == m[i][n] {
      DotUnit(m[i][..n], x, i);
    }
  }

  // ---- one step of the elimination, as a whole ------------------------------

  /** Row `piv` brought up to `col` and divided by its entry there. */
  function Taken(m: seq<Vec>, n: nat, col: nat, piv: nat): (w: seq<Vec>)
    requires WellFormed(m, n) && col <= piv < n && m[piv][col] != 0.0
    ensures WellFormed(w, n)
  {
    m[col := m[piv]][piv := m[col]][col := Divided(m[piv], m[piv][col])]
  }

  /** Column `col` cleared from every row but its own. */
  function Cleared(m: seq<Vec>, n: nat, col: nat): (w: seq<Vec>)
    requires WellFormed(m, n) && col < n
    ensures WellFormed(w, n)
    ensures w[col] == m[col] && forall r :: 0 <= r < n && r != col ==> w[r] == Eliminated(m[r], m[r][col], m[col])
  {
    seq(n, r requires 0 <= r < n => if r == col then m[r] else Eliminated(m[r], m[r][col], m[col]))
  }

  lemma NothingEliminated(row: Vec, pivot: Vec)
    requires |row| == |pivot|
    ensures Eliminated(row, 0.0, pivot) == row
  {
    var w := Eliminated(row, 0.0, pivot);
    assert forall i :: 0 <= i < |row| ==> w[i] == row[i];
  }

  // ---- what is left of the system below the pivots -----------------------------

  /** The first `k` rows do not move along `d`. */
  ghost predicate FlatAlong(m: seq<Vec>, d: Vec, k: nat)
    requires WellFormed(m, |d|) && k <= |d|
  {
    forall j :: 0 <= j < k ==> Slope(m[j], d) == 0.0
  }

  /** Row `i` of the original system moves along `d` as some row not yet taken does,
      or not at all. */
  ghost predicate Survives(sys: seq<Vec>, m: seq<Vec>, d: Vec, col: nat, i: nat)
    requires WellFormed(sys, |d|) && WellFormed(m, |d|) && i < |d|
  {
    Slope(sys[i], d) == 0.0 || exists r :: col <= r < |d| && Slope(m[r], d) == Slope(sys[i], d)
  }

  ghost predicate AllSurvive(sys: seq<Vec>, m: seq<Vec>, d: Vec, col: nat)
    requires WellFormed(sys, |d|) && WellFormed(m, |d|)
  {
    forall i :: 0 <= i < |d| ==> Survives(sys, m, d, col, i)
  }

  /** Along every direction in which the pivots are flat, the rows not yet taken
      are rows of the original system. */
  ghost predicate Accounted(sys: seq<Vec>, m: seq<Vec>, n: nat, col: nat) {
    WellFormed(sys, n) && WellFormed(m, n) && col <= n &&
    forall d: Vec | |d| == n && FlatAlong(m, d, col) :: AllSurvive(sys, m, d, col)
  }

  lemma NothingTakenYet(sys: seq<Vec>, n: nat)
    requires WellFormed(sys, n)
    ensures Accounted(sys, sys, n, 0)
  {}

  /** Along a direction in which the new pivot is flat, its step changes no row. */
  lemma StepAlong(m: seq<Vec>, n: nat, col: nat, piv: nat, d: Vec, r: nat)
    requires WellFormed(m, n) && col <= piv < n && m[piv][col] != 0.0 && |d| == n && r < n
    requires Slope(Cleared(Taken(m, n, col, piv), n, col)[col], d) == 0.0
    ensures Slope(m[piv], d) == 0.0
    ensures r != col ==>
              Slope(Cleared(Taken(m, n, col, piv), n, col)[r], d) == Slope(m[if r == piv then col else r], d)
  {
    hide Times, Slope, Divided, Eliminated;
    var t := Taken(m, n, col, piv);
    var p := m[piv][col];
    DividedSlope(m[piv], p, d);
    var slope := Slope(m[piv], d);
    Quotient(slope, p);
    Ring(p, 0.0, 0.0);
    if r != col {
      EliminatedSlope(t[r], t[r][col], t[col], d);
      Ring(t[r][col], 0.0, 0.0);
      Ring(0.0, t[r][col], 0.0);
    }
  }

  lemma StepSurvives(sys: seq<Vec>, m: seq<Vec>, n: nat, col: nat, piv: nat, d: Vec, i: nat)
    requires Accounted(sys, m, n, col) && col <= piv < n && m[piv][col] != 0.0 && |d| == n && i < n
    requires FlatAlong(Cleared(Taken(m, n, col, piv), n, col), d, col + 1)
    ensures Survives(sys, Cleared(Taken(m, n, col, piv), n, col), d, col + 1, i)
  {
    var w := Cleared(Taken(m, n, col, piv), n, col);
    hide Taken, Cleared, Slope;
    forall j | 0 <= j < col ensures Slope(m[j], d) == 0.0 {
      StepAlong(m, n, col, piv, d, j);
    }
    assert FlatAlong(m, d, col) && AllSurvive(sys, m, d, col) && Survives(sys, m, d, col, i);
    StepAlong(m, n, col, piv, d, piv);
    if Slope(sys[i], d) != 0.0 {
      var r :| col <= r < n && Slope(m[r], d) == Slope(sys[i], d);
      StepAlong(m, n, col, piv, d, r);
      assert Slope(w[if r == col then piv else r], d) == Slope(sys[i], d);
    }
  }

  lemma StepAllSurvive(sys: seq<Vec>, m: seq<Vec>, w: seq<Vec>, n: nat, col: nat, piv: nat, d: Vec)
    requires Accounted(sys, m, n, col) && col <= piv < n && m[piv][col] != 0.0 && |d| == n
    requires w == Cleared(Taken(m, n, col, piv), n, col) && FlatAlong(w, d, col + 1)
    ensures AllSurvive(sys, w, d, col + 1)
  {
    var next := col + 1;
    forall i | 0 <= i < n ensures Survives(sys, w, d, next, i) {
      StepSurvives(sys, m, n, col, piv, d, i);
    }
  }

  lemma StepAccounts(sys: seq<Vec>, m: seq<Vec>, n: nat, col: nat, piv: nat)
    requires Accounted(sys, m, n, col) && col <= piv < n && m[piv][col] != 0.0
    ensures Accounted(sys, Cleared(Taken(m, n, col, piv), n, col), n, col + 1)
  {
    var w := Cleared(Taken(m, n, col, piv), n, col);
    forall d: Vec | |d| == n && FlatAlong(w, d, col + 1)
      ensures AllSurvive(sys, w, d, col + 1)
    {
      StepAllSurvive(sys, m, w, n, col, piv, d);
    }
  }

  // ---- the direction a missing pivot leaves flat ----------------------------------

  function Unit(n: nat, k: nat): (u: Vec)
    ensures |u| == n && forall i :: 0 <= i < n ==> u[i] == if i == k then 1.0 else 0.0
  {
    seq(n, i => if i == k then 1.0 else 0.0)
  }

  /** One unit of unknown `col`, undone in each of the first `k` pivot rows. */
  function Undone(m: seq<Vec>, n: nat, col: nat, k: nat): (d: Vec)
    requires WellFormed(m, n) && k <= col < n
    ensures |d| == n && d[col] == 1.0 && forall j :: col < j < n ==> d[j] == 0.0
  {
    if k == 0 then Unit(n, col)
    else
      var d, u := Undone(m, n, col, k - 1), Scale(-m[k - 1][col], Unit(n, k - 1));
      Ring(m[k - 1][col], 0.0, 0.0);
      Ring(0.0, m[k - 1][col], 0.0);
      Add(d, u)
  }

  lemma DotWithUnit(u: Vec, k: nat)
    requires k < |u|
    ensures Dot(Unit(|u|, k), u) == u[k] && Dot(u, Unit(|u|, k)) == u[k]
  {
    DotUnit(Unit(|u|, k), u, k);
    DotCommutes(u, Unit(|u|, k));
  }

  lemma {:induction false} UndoneSlope(m: seq<Vec>, n: nat, col: nat, k: nat, r: nat)
    requires WellFormed(m, n) && k <= col < n && r < n && UnitColumns(m, n, col)
    ensures Slope(m[r], Undone(m, n, col, k)) == if r < k then 0.0 else m[r][col]
  {
    hide Times;
    var left := m[r][..n];
    if k == 0 {
      DotWithUnit(left, col);
    } else {
      var j := k - 1;
      var c, d := m[j][col], Undone(m, n, col, j);
      UndoneSlope(m, n, col, j, r);
      var u := Scale(-c, Unit(n, j));
      DotCommutes(left, Add(d, u));
      DotAdd(d, u, left);
      DotCommutes(d, left);
      DotScale(-c, Unit(n, j), left);
      DotWithUnit(left, j);
      assert left[j] == if r == j then 1.0 else 0.0;
      Ring(-c, 1.0, 0.0);
      Ring(1.0, -c, 0.0);
      Ring(-c, 0.0, 0.0);
      Ring(0.0, -c, 0.0);
    }
  }
}

module LeastSquares {
  import opened LinearAlgebra
  import opened Reals

  datatype Fit = Solved(x: Vec) | Singular

  const PIVOT_FLOOR: real := 0.000000000001

  ghost predicate Shaped(rows: seq<Vec>, rhs: Vec, n: nat) {
    |rows| == |rhs| && forall k :: 0 <= k < |rows| ==> |rows[k]| == n
  }

  // ---- what a fit is ----------------------------------------------------

  function SquaredResiduals(rows: seq<Vec>, rhs: Vec, x: Vec): real
    requires Shaped(rows, rhs, |x|)
  {
    if |rows| == 0 then 0.0
    else var e := Dot(rows[0], x) - rhs[0]; Times(e, e) + SquaredResiduals(rows[1..], rhs[1..], x)
  }

  ghost predicate UniqueMinimiser(rows: seq<Vec>, rhs: Vec, x: Vec)
    requires Shaped(rows, rhs, |x|)
  {
    forall y: Vec | |y| == |x| && y != x ::
      SquaredResiduals(rows, rhs, x) < SquaredResiduals(rows, rhs, y)
  }

  /** Half the gradient of the squared residuals: sum of residual * row. */
  function Gradient(rows: seq<Vec>, rhs: Vec, x: Vec): (g: Vec)
    requires Shaped(rows, rhs, |x|)
    ensures |g| == |x|
  {
    if |rows| == 0 then Zero(|x|)
    else Add(Scale(Dot(rows[0], x) - rhs[0], rows[0]), Gradient(rows[1..], rhs[1..], x))
  }

  ghost predicate Stationary(rows: seq<Vec>, rhs: Vec, x: Vec)
    requires Shaped(rows, rhs, |x|)
  {
    Gradient(rows, rhs, x) == Zero(|x|)
  }

  // ---- the normal equations as the solver builds them --------------------

  function Gram(rows: seq<Vec>, n: nat, i: nat, j: nat): real
    requires forall k :: 0 <= k < |rows| ==> |rows[k]| == n
    requires i < n && j < n
  {
    if |rows| == 0 then 0.0 else Times(rows[0][i], rows[0][j]) + Gram(rows[1..], n, i, j)
  }

  function Cross(rows: seq<Vec>, rhs: Vec, n: nat, i: nat): real
    requires Shaped(rows, rhs, n) && i < n
  {
    if |rows| == 0 then 0.0 else Times(rows[0][i], rhs[0]) + Cross(rows[1..], rhs[1..], n, i)
  }

  function NormalRow(rows: seq<Vec>, rhs: Vec, n: nat, i: nat): (row: Vec)
    requires Shaped(rows, rhs, n) && i < n
    ensures |row| == n + 1
  {
    seq(n, j requires 0 <= j < n => Gram(rows, n, i, j)) + [Cross(rows, rhs, n, i)]
  }

  function NormalSystem(rows: seq<Vec>, rhs: Vec, n: nat): (m: seq<Vec>)
    requires Shaped(rows, rhs, n)
    ensures WellFormed(m, n)
    ensures forall i :: 0 <= i < n ==> m[i] == NormalRow(rows, rhs, n, i)
  {
    seq(n, i requires 0 <= i < n => NormalRow(rows, rhs, n, i))
  }

  /** Row i of the normal system states that component i of the gradient is 0. */
  lemma {:induction false} NormalRowIsGradient(rows: seq<Vec>, rhs: Vec, x: Vec, i: nat)
    requires Shaped(rows, rhs, |x|) && i < |x|
    ensures Dot(NormalRow(rows, rhs, |x|, i)[..|x|], x) - Cross(rows, rhs, |x|, i)
         == Gradient(rows, rhs, x)[i]
  {
    hide Times;
    var n := |x|;
    var left := NormalRow(rows, rhs, n, i)[..n];
    if |rows| == 0 {
      DotZero(left, x);
    } else {
      var r, d, b := rows[0][i], Dot(rows[0], x), rhs[0];
      var rest := NormalRow(rows[1..], rhs[1..], n, i)[..n];
      assert left == Add(Scale(r, rows[0]), rest);
      DotAdd(Scale(r, rows[0]), rest, x);
      DotScale(r, rows[0], x);
      NormalRowIsGradient(rows[1..], rhs[1..], x, i);
      Ring(d, -b, r);
      Ring(b, r, 0.0);
      Ring(r, d, 0.0);
    }
  }

  lemma NormalSystemIsStationarity(rows: seq<Vec>, rhs: Vec, x: Vec)
    requires Shaped(rows, rhs, |x|)
    ensures Solves(NormalSystem(rows, rhs, |x|), x) <==> Stationary(rows, rhs, x)
  {
    var m, g := NormalSystem(rows, rhs, |x|), Gradient(rows, rhs, x);
    forall i | 0 <= i < |x| ensures RowHolds(m[i], x) <==> g[i] == 0.0 {
      NormalRowIsGradient(rows, rhs, x, i);
    }
    if forall i :: 0 <= i < |x| ==> g[i] == 0.0 {
      assert g == Zero(|x|);
    }
  }

  // ---- stationary points minimise -----------------------------------------

  function Minus(y: Vec, x: Vec): (d: Vec)
    requires |x| == |y|
    ensures |d| == |x| && forall i :: 0 <= i < |x| ==> d[i] == y[i] - x[i]
  {
    seq(|x|, i requires 0 <= i < |x| => y[i] - x[i])
  }

  /** The squared length of the design matrix times d. */
  function Energy(rows: seq<Vec>, d: Vec): (e: real)
    requires forall k :: 0 <= k < |rows| ==> |rows[k]| == |d|
    ensures e >= 0.0
  {
    if |rows| == 0 then 0.0
    else var v := Dot(rows[0], d); Times(v, v) + Energy(rows[1..], d)
  }

  lemma DotShift(r: Vec, x: Vec, y: Vec)
    requires |r| == |x| == |y|
    ensures Dot(r, y) == Dot(r, x) + Dot(r, Minus(y, x))
  {
    var d := Minus(y, x);
    assert Add(x, d) == y;
    DotAdd(x, d, r);
    DotCommutes(x, r);
    DotCommutes(d, r);
    DotCommutes(y, r);
  }

  lemma Square(e: real, v: real)
    ensures Times(e + v, e + v) == Times(e, e) + 2.0 * Times(e, v) + Times(v, v)
  {}

  lemma SquarePositive(v: real)
    requires v != 0.0
    ensures Times(v, v) > 0.0
  {
    var w := if v < 0.0 then -v else v;
    assert w > 0.0 && w * w > 0.0;
    Ring(v, v, 0.0);
    Ring(v, -v, 0.0);
  }

  /** Taylor's identity for the squared residuals, exact because they are quadratic. */
  lemma {:induction false} ResidualsExpand(rows: seq<Vec>, rhs: Vec, x: Vec, y: Vec)
    requires |x| == |y| && Shaped(rows, rhs, |x|)
    ensures SquaredResiduals(rows, rhs, y)
         == SquaredResiduals(rows, rhs, x)
          + 2.0 * Dot(Gradient(rows, rhs, x), Minus(y, x)) + Energy(rows, Minus(y, x))
  {
    hide Times;
    var d := Minus(y, x);
    if |rows| == 0 {
      DotZero(Gradient(rows, rhs, x), d);
    } else {
      var e, v := Dot(rows[0], x) - rhs[0], Dot(rows[0], d);
      DotShift(rows[0], x, y);
      Square(e, v);
      DotAdd(Scale(e, rows[0]), Gradient(rows[1..], rhs[1..], x), d);
      DotScale(e, rows[0], d);
      ResidualsExpand(rows[1..], rhs[1..], x, y);
    }
  }

  lemma {:induction false} NoEnergyNoChange(rows: seq<Vec>, rhs: Vec, x: Vec, y: Vec)
    requires |x| == |y| && Shaped(rows, rhs, |x|)
    requires Energy(rows, Minus(y, x)) == 0.0
    ensures Gradient(rows, rhs, y) == Gradient(rows, rhs, x)
  {
    hide Times;
    if |rows| > 0 {
      var v := Dot(rows[0], Minus(y, x));
      if v != 0.0 {
        SquarePositive(v);
      }
      Ring(0.0, 0.0, 0.0);
      DotShift(rows[0], x, y);
      NoEnergyNoChange(rows[1..], rhs[1..], x, y);
    }
  }

  /** A stationary point minimises, and strictly beats every point that is
      not itself stationary. */
  lemma StationaryMinimises(rows: seq<Vec>, rhs: Vec, x: Vec, y: Vec)
    requires |x| == |y| && Shaped(rows, rhs, |x|) && Stationary(rows, rhs, x)
    ensures SquaredResiduals(rows, rhs, x) <= SquaredResiduals(rows, rhs, y)
    ensures SquaredResiduals(rows, rhs, x) == SquaredResiduals(rows, rhs, y)
         ==> Stationary(rows, rhs, y)
  {
    ResidualsExpand(rows, rhs, x, y);
    DotZero(Gradient(rows, rhs, x), Minus(y, x));
    if Energy(rows, Minus(y, x)) == 0.0 {
      NoEnergyNoChange(rows, rhs, x, y);
    }
  }

  // ---- the solver -----------------------------------------------------------

  /** The first row at or below `col` whose entry in that column is largest. */
  method PivotRow(m: array<Vec>, col: nat) returns (piv: nat)
    requires WellFormed(m[..], m.Length) && col < m.Length
    ensures col <= piv < m.Length
    ensures forall r :: col <= r < m.Length ==> Abs(m[r][col]) <= Abs(m[piv][col])
    ensures forall r :: col <= r < piv ==> Abs(m[r][col]) < Abs(m[piv][col])
  {
    piv := col;
    forall i | 0 <= i < m.Length ensures |m[i]| == m.Length + 1 { assert m[..][i] == m[i]; }
    for r := col + 1 to m.Length
      invariant col <= piv < r
      invariant forall k :: col <= k < r ==> Abs(m[k][col]) <= Abs(m[piv][col])
      invariant forall k :: col <= k < piv ==> Abs(m[k][col]) < Abs(m[piv][col])
    {
      if Abs(m[r][col]) > Abs(m[piv][col]) {
        piv := r;
      }
    }
  }

  // ---- which elimination it is ------------------------------------------------

  /** Row `piv` is the first with the largest entry of column `col`, from `col` down. */
  ghost predicate FirstLargest(m: seq<Vec>, n: nat, col: nat, piv: nat) {
    && WellFormed(m, n) && col <= piv < n
    && (forall r :: col <= r < n ==> Abs(m[r][col]) <= Abs(m[piv][col]))
    && (forall r :: col <= r < piv ==> Abs(m[r][col]) < Abs(m[piv][col]))
  }

  /** One more column: `p` offers a pivot, and taking and clearing it leaves `m`. */
  ghost predicate StepsTo(p: seq<Vec>, m: seq<Vec>, n: nat, col: nat, piv: nat) {
    && FirstLargest(p, n, col, piv) && Abs(p[piv][col]) >= PIVOT_FLOOR
    && p[piv][col] != 0.0 && m == Cleared(Taken(p, n, col, piv), n, col)
  }

  /** `m` is what the first `k` columns of the elimination make of `sys`. */
  ghost predicate Eliminates(sys: seq<Vec>, m: seq<Vec>, n: nat, k: nat)
    decreases k
  {
    && k <= n && WellFormed(m, n)
    && if k == 0 then m == sys
       else var col := k - 1; exists p, piv: nat :: Eliminates(sys, p, n, col) && StepsTo(p, m, n, col, piv)
  }

  /** And there no row offers a pivot for the next column. */
  ghost predicate RefusesAt(sys: seq<Vec>, m: seq<Vec>, n: nat, col: nat) {
    col < n && Eliminates(sys, m, n, col) && forall r :: col <= r < n ==> Abs(m[r][col]) < PIVOT_FLOOR
  }

  lemma StepIsDetermined(p: seq<Vec>, m: seq<Vec>, w: seq<Vec>, n: nat, col: nat, i: nat, j: nat)
    requires StepsTo(p, m, n, col, i) && StepsTo(p, w, n, col, j)
    ensures i == j && m == w
  {
    hide Taken, Cleared;
  }

  lemma EliminatesNothing(sys: seq<Vec>, m: seq<Vec>, n: nat)
    requires Eliminates(sys, m, n, 0)
    ensures m == sys
  {}

  lemma LastStep(sys: seq<Vec>, m: seq<Vec>, n: nat, k: nat) returns (p: seq<Vec>, piv: nat)
    requires 0 < k && Eliminates(sys, m, n, k)
    ensures k <= n && Eliminates(sys, p, n, k - 1) && StepsTo(p, m, n, k - 1, piv)
  {
    hide StepsTo;
    var col := k - 1;
    p, piv :| Eliminates(sys, p, n, col) && StepsTo(p, m, n, col, piv);
  }

  lemma {:induction false} EliminationIsDetermined(sys: seq<Vec>, m: seq<Vec>, w: seq<Vec>, n: nat, k: nat)
    requires Eliminates(sys, m, n, k) && Eliminates(sys, w, n, k)
    ensures m == w
    decreases k
  {
    hide *;
    if k == 0 {
      EliminatesNothing(sys, m, n);
      EliminatesNothing(sys, w, n);
    } else {
      var p, i := LastStep(sys, m, n, k);
      var q, j := LastStep(sys, w, n, k);
      EliminationIsDetermined(sys, p, q, n, k - 1);
      StepIsDetermined(p, m, w, n, k - 1, i, j);
    }
  }

  /** An elimination that gets past column `col` found a pivot there. */
  lemma {:induction false} StepBefore(sys: seq<Vec>, w: seq<Vec>, n: nat, k: nat, col: nat)
    returns (p: seq<Vec>, m: seq<Vec>, piv: nat)
    requires Eliminates(sys, w, n, k) && col < k
    ensures Eliminates(sys, p, n, col) && StepsTo(p, m, n, col, piv) && Eliminates(sys, m, n, col + 1)
    decreases k
  {
    hide *;
    p, piv := LastStep(sys, w, n, k);
    m := w;
    if col < k - 1 {
      p, m, piv := StepBefore(sys, p, n, k - 1, col);
    }
  }

  /** A system is refused or solved, never either way. */
  lemma NotBoth(sys: seq<Vec>, w: seq<Vec>, m: seq<Vec>, n: nat, col: nat)
    requires Eliminates(sys, w, n, n)
    ensures !RefusesAt(sys, m, n, col)
  {
    hide Eliminates, Taken, Cleared;
    if RefusesAt(sys, m, n, col) {
      var p, next, piv := StepBefore(sys, w, n, n, col);
      EliminationIsDetermined(sys, p, m, n, col);
    }
  }

  lemma EliminatesOn(sys: seq<Vec>, p: seq<Vec>, m: seq<Vec>, n: nat, col: nat, piv: nat)
    requires col < n && Eliminates(sys, p, n, col) && StepsTo(p, m, n, col, piv)
    ensures Eliminates(sys, m, n, col + 1)
  {
    StepsAreWellFormed(p, m, n, col, piv);
    hide StepsTo;
  }

  lemma StepsAreWellFormed(p: seq<Vec>, m: seq<Vec>, n: nat, col: nat, piv: nat)
    requires StepsTo(p, m, n, col, piv)
    ensures WellFormed(m, n)
  {}

  lemma NothingEliminatedYet(sys: seq<Vec>, n: nat)
    requires WellFormed(sys, n)
    ensures Eliminates(sys, sys, n, 0)
  {}

  /** A direction with exactly one unit of unknown `col` and nothing beyond it, along
      which no equation of the system moves by as much as PIVOT_FLOOR. */
  ghost predicate NearlyFlat(sys: seq<Vec>, n: nat, d: Vec, col: nat) {
    && WellFormed(sys, n) && |d| == n && col < n
    && d[col] == 1.0 && (forall j :: col < j < n ==> d[j] == 0.0)
    && forall i :: 0 <= i < n ==> Abs(Slope(sys[i], d)) < PIVOT_FLOOR
  }

  /** Where no row offers a pivot, the original system is nearly flat. */
  lemma NoPivotNearlyFlat(sys: seq<Vec>, m: seq<Vec>, n: nat, col: nat)
    requires Accounted(sys, m, n, col) && col < n && UnitColumns(m, n, col)
    requires forall r :: col <= r < n ==> Abs(m[r][col]) < PIVOT_FLOOR
    ensures NearlyFlat(sys, n, Undone(m, n, col, col), col)
  {
    var d := Undone(m, n, col, col);
    hide Slope, Undone;
    forall r | 0 <= r < n ensures Slope(m[r], d) == if r < col then 0.0 else m[r][col] {
      UndoneSlope(m, n, col, col, r);
    }
    assert FlatAlong(m, d, col) && AllSurvive(sys, m, d, col);
    forall i | 0 <= i < n ensures Abs(Slope(sys[i], d)) < PIVOT_FLOOR {
      assert Survives(sys, m, d, col, i);
    }
  }

  /** Clears column `col` from every row but its own. */
  method ClearColumn(m: array<Vec>, col: nat)
    requires WellFormed(m[..], m.Length) && col < m.Length
    requires UnitColumns(m[..], m.Length, col) && m[col][col] == 1.0
    modifies m
    ensures m[..] == Cleared(old(m[..]), m.Length, col)
    ensures Equivalent(old(m[..]), m[..], m.Length)
    ensures UnitColumns(m[..], m.Length, col + 1)
  {
    var n := m.Length;
    ghost var cleared := Cleared(m[..], n, col);
    for r := 0 to n
      invariant Equivalent(old(m[..]), m[..], n)
      invariant UnitColumns(m[..], n, col) && m[..][col][col] == 1.0
      invariant forall i :: 0 <= i < r && i != col ==> m[..][i][col] == 0.0
      invariant forall i :: 0 <= i < n ==> m[..][i] == if i < r then cleared[i] else old(m[..])[i]
    {
      ghost var was := m[..];
      assert |was[r]| == |was[col]| == n + 1;
      assert was[col] == old(m[..])[col] && was[r] == old(m[..])[r];
      if r == col {
        continue;
      }
      var f := m[r][col];
      if f != 0.0 {
        m[r] := Eliminated(m[r], f, m[col]);
        assert m[..] == was[r := Eliminated(was[r], f, was[col])];
        EliminateKeepsSolutions(was, n, r, col, f);
        EquivalentTrans(old(m[..]), was, m[..], n);
      } else {
        NothingEliminated(was[r], was[col]);
      }
    }
    assert m[..] == cleared;
  }

  /** Brings row `piv` up to `col` and scales its entry there to 1. */
  method TakePivot(m: array<Vec>, col: nat, piv: nat)
    requires WellFormed(m[..], m.Length) && col <= piv < m.Length
    requires UnitColumns(m[..], m.Length, col) && m[..][piv][col] != 0.0
    modifies m
    ensures m[..] == Taken(old(m[..]), m.Length, col, piv)
    ensures Equivalent(old(m[..]), m[..], m.Length)
    ensures UnitColumns(m[..], m.Length, col) && m[..][col][col] == 1.0
  {
    var n := m.Length;
    ghost var was := m[..];
    assert |was[piv]| == |was[col]| == n + 1;
    m[col], m[piv] := m[piv], m[col];
    ghost var swapped := was[col := was[piv]][piv := was[col]];
    assert m[..] == swapped;
    SwapKeepsSolutions(was, n, col, piv);
    var p := m[col][col];
    m[col] := Divided(m[col], p);
    assert m[..] == swapped[col := Divided(swapped[col], p)];
    DivideKeepsSolutions(swapped, n, col, p);
    EquivalentTrans(was, swapped, m[..], n);
    Quotient(0.0, p);
    assert m[..][col][col] == p / p;
  }

  /** One column of the elimination, or nothing at all when no row offers a pivot. */
  method ReduceColumn(m: array<Vec>, col: nat) returns (reduced: bool, ghost piv: nat)
    requires WellFormed(m[..], m.Length) && col < m.Length && UnitColumns(m[..], m.Length, col)
    modifies m
    ensures !reduced ==> m[..] == old(m[..]) && forall r :: col <= r < m.Length ==> Abs(m[..][r][col]) < PIVOT_FLOOR
    ensures reduced ==> col <= piv < m.Length && old(m[..])[piv][col] != 0.0
    ensures reduced ==> m[..] == Cleared(Taken(old(m[..]), m.Length, col, piv), m.Length, col)
    ensures reduced ==> Equivalent(old(m[..]), m[..], m.Length) && UnitColumns(m[..], m.Length, col + 1)
    ensures reduced ==> StepsTo(old(m[..]), m[..], m.Length, col, piv)
  {
    hide Equivalent, Taken, Cleared;
    ghost var was := m[..];
    var best := PivotRow(m, col);
    piv := best;
    assert was[best] == m[best] && |was[best]| == m.Length + 1;
    forall r | col <= r < m.Length ensures was[r] == m[r] {}
    assert FirstLargest(was, m.Length, col, best);
    if Abs(m[best][col]) < PIVOT_FLOOR {
      forall r | col <= r < m.Length ensures Abs(was[r][col]) < PIVOT_FLOOR {
        assert was[r] == m[r];
      }
      return false, piv;
    }
    TakePivot(m, col, best);
    ghost var taken := m[..];
    assert |taken[col]| == m.Length + 1;
    ClearColumn(m, col);
    EquivalentTrans(was, taken, m[..], m.Length);
    reduced := true;
  }

  method SolveLstsq(rows: seq<Vec>, rhs: Vec) returns (fit: Fit)
    requires |rows| > 0 && Shaped(rows, rhs, |rows[0]|)
    // the answer is the one solution of the normal equations ...
    ensures fit.Solved? ==> |fit.x| == |rows[0]|
    ensures fit.Solved? ==> forall y: Vec | |y| == |rows[0]| ::
              Solves(NormalSystem(rows, rhs, |rows[0]|), y) <==> y == fit.x
    // ... and hence the strict minimiser of the squared residuals
    ensures fit.Solved? ==> UniqueMinimiser(rows, rhs, fit.x)
    // it is refused exactly where the elimination finds no pivot
    ensures var sys := NormalSystem(rows, rhs, |rows[0]|);
      if fit.Singular? then exists m, col :: RefusesAt(sys, m, |rows[0]|, col)
      else exists m :: Eliminates(sys, m, |rows[0]|, |rows[0]|)
    // and then some unknown has a whole unit that the equations barely see
    ensures fit.Singular? ==> exists d: Vec, col: nat ::
              NearlyFlat(NormalSystem(rows, rhs, |rows[0]|), |rows[0]|, d, col)
  {
    var n := |rows[0]|;
    var sys := NormalSystem(rows, rhs, n);
    var m := new Vec[n](i requires 0 <= i < n => sys[i]);
    assert m[..] == sys;
    NothingTakenYet(sys, n);
    NothingEliminatedYet(sys, n);
    hide Eliminates, StepsTo, Accounted, Equivalent, Slope, Taken, Cleared, NearlyFlat;
    for col := 0 to n
      invariant WellFormed(m[..], n) && UnitColumns(m[..], n, col)
      invariant Equivalent(sys, m[..], n) && Accounted(sys, m[..], n, col) && Eliminates(sys, m[..], n, col)
    {
      ghost var was := m[..];
      var reduced;
      ghost var piv;
      reduced, piv := ReduceColumn(m, col);
      if !reduced {
        NoPivotNearlyFlat(sys, was, n, col);
        assert RefusesAt(sys, was, n, col);
        return Singular;
      }
      StepAccounts(sys, was, n, col, piv);
      EliminatesOn(sys, was, m[..], n, col, piv);
      EquivalentTrans(sys, was, m[..], n);
    }
    var reduced := m[..];
    var x := seq(n, i requires 0 <= i < n => reduced[i][n]);
    OnlyAnswer(sys, reduced, n, x);
    SolutionMinimises(rows, rhs, x);
    return Solved(x);
  }

  lemma OnlyAnswer(sys: seq<Vec>, m: seq<Vec>, n: nat, x: Vec)
    requires Equivalent(sys, m, n) && UnitColumns(m, n, n)
    requires |x| == n && forall i :: 0 <= i < n ==> x[i] == m[i][n]
    ensures forall y: Vec | |y| == n :: Solves(sys, y) <==> y == x
  {
    forall y: Vec | |y| == n ensures Solves(sys, y) <==> y == x {
      IdentitySolved(m, n, y);
    }
  }

  /** Equations that each see their own unknown alone, by at least the floor, are
      never refused. */
  lemma DiagonalIsNeverRefused(sys: seq<Vec>, n: nat, d: Vec, col: nat)
    requires WellFormed(sys, n)
    requires forall i, j :: 0 <= i < n && 0 <= j < n && i != j ==> sys[i][j] == 0.0
    requires forall i :: 0 <= i < n ==> Abs(sys[i][i]) >= PIVOT_FLOOR
    ensures !NearlyFlat(sys, n, d, col)
  {
    hide Times;
    if |d| == n && col < n && d[col] == 1.0 {
      var c, left := sys[col][col], sys[col][..n];
      var u := Scale(c, Unit(n, col));
      Ring(c, 1.0, 0.0);
      Ring(1.0, c, 0.0);
      Ring(c, 0.0, 0.0);
      assert left == u;
      DotScale(c, Unit(n, col), d);
      DotWithUnit(d, col);
      assert Slope(sys[col], d) == c;
    }
  }

  /** A system that does not move at all along some direction has no only solution,
      so the solver always refuses it. */
  lemma FlatSystemIsRefused(sys: seq<Vec>, x: Vec, d: Vec, k: nat)
    requires WellFormed(sys, |x|) && k < |d| == |x| && d[k] != 0.0
    requires forall i :: 0 <= i < |x| ==> Slope(sys[i], d) == 0.0
    ensures !(forall y: Vec | |y| == |x| :: Solves(sys, y) <==> y == x)
  {
    var y := Add(x, d);
    assert y[k] == x[k] + d[k];
    forall i | 0 <= i < |x| ensures RowHolds(sys[i], y) <==> RowHolds(sys[i], x) {
      var left := sys[i][..|x|];
      DotCommutes(left, y);
      DotAdd(x, d, left);
      DotCommutes(x, left);
      DotCommutes(d, left);
    }
  }

  /** The only solution of the normal equations is the only minimiser. */
  lemma SolutionMinimises(rows: seq<Vec>, rhs: Vec, x: Vec)
    requires Shaped(rows, rhs, |x|)
    requires forall y: Vec | |y| == |x| :: Solves(NormalSystem(rows, rhs, |x|), y) <==> y == x
    ensures UniqueMinimiser(rows, rhs, x)
  {
    forall y: Vec | |y| == |x| && y != x
      ensures SquaredResiduals(rows, rhs, x) < SquaredResiduals(rows, rhs, y)
    {
      NormalSystemIsStationarity(rows, rhs, x);
      NormalSystemIsStationarity(rows, rhs, y);
      StationaryMinimises(rows, rhs, x, y);
    }
  }
}
