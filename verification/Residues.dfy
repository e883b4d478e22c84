/** Two coprime moduli: the remainders of a number below their product determine
    it, and an inverse of one modulo the other computes it back. */
module Residues {
  lemma DivMod(m: int, q: int, k: int, r: int)
    requires q > 0 && 0 <= r < q && m == q * k + r
    ensures m % q == r && m / q == k
  {
    var d := k - m / q;
    assert m == q * (m / q) + m % q;
    assert q * d == m % q - r;
    if d > 0 {
      Scaled(q, d);
    } else if d < 0 {
      Scaled(q, -d);
    }
  }

  lemma Scaled(q: int, d: int)
    requires q > 0 && d > 0
    ensures q * d >= q
  {}

  /** The number below `p * q` with remainder `c` modulo `p` and `g` modulo `q`. */
  function Solve(p: int, q: int, inverse: int, c: int, g: int): int
    requires q > 0
  {
    c + p * (((g - c + q) * inverse) % q)
  }

  ghost predicate InverseOf(p: int, q: int, inverse: int) {
    p > 0 && q > 0 && (p * inverse - 1) % q == 0
  }

  lemma SolveSolves(p: int, q: int, inverse: int, c: int, g: int)
    requires InverseOf(p, q, inverse) && 0 <= c < p && 0 <= g < q
    ensures var n := Solve(p, q, inverse, c, g); 0 <= n < p * q && n % p == c && n % q == g
  {
    var h := ((g - c + q) * inverse) % q;
    Bounded(p, q, c, h);
    DivMod(c + p * h, p, h, c);
    SolvesSecond(p, q, inverse, c, g, h);
  }

  lemma SolvesSecond(p: int, q: int, inverse: int, c: int, g: int, h: int)
    requires InverseOf(p, q, inverse) && 0 <= g < q && h == ((g - c + q) * inverse) % q
    ensures (c + p * h) % q == g
  {
    var k := (p * inverse - 1) / q;
    assert p * inverse == q * k + 1;
    var d := g - c + q;
    var t := (d * inverse) / q;
    assert d * inverse == q * t + h;
    ProductOfInverse(p, q, inverse, k, d, t, h);
    var u := k * d - p * t;
    assert c + p * h == q * (1 + u) + g;
    DivMod(c + p * h, q, 1 + u, g);
  }

  lemma Bounded(p: int, q: int, c: int, h: int)
    requires 0 <= c < p && 0 <= h < q
    ensures 0 <= c + p * h < p * q
  {
    assert p * h + p <= p * q by {
      assert p * (q - 1 - h) >= 0;
      assert p * (q - 1 - h) == p * q - p - p * h;
    }
  }

  lemma ProductOfInverse(p: int, q: int, inverse: int, k: int, d: int, t: int, h: int)
    requires p * inverse == q * k + 1 && d * inverse == q * t + h
    ensures p * h == d + q * (k * d - p * t)
  {
    assert p * h == p * (d * inverse) - p * (q * t);
    assert p * (d * inverse) == d * (p * inverse);
    assert d * (p * inverse) == d * (q * k + 1) == q * (k * d) + d;
    assert p * (q * t) == q * (p * t);
    assert q * (k * d - p * t) == q * (k * d) - q * (p * t);
  }

  /** It is the only such number. */
  lemma SolveIsUnique(p: int, q: int, inverse: int, m: int)
    requires InverseOf(p, q, inverse) && 0 <= m < p * q
    ensures m == Solve(p, q, inverse, m % p, m % q)
  {
    var n := Solve(p, q, inverse, m % p, m % q);
    SolveSolves(p, q, inverse, m % p, m % q);
    SameResidues(p, q, inverse, m, n);
  }

  lemma SameResidues(p: int, q: int, inverse: int, m: int, n: int)
    requires InverseOf(p, q, inverse) && 0 <= m < p * q && 0 <= n < p * q
    requires m % p == n % p && m % q == n % q
    ensures m == n
  {
    var k := (p * inverse - 1) / q;
    assert p * inverse == q * k + 1;
    var a, b := m / p - n / p, m / q - n / q;
    Difference(m, n, p);
    Difference(m, n, q);
    Quotient(p, q, m);
    Quotient(p, q, n);
    Cancel(p, q, inverse, k, a, b);
    SmallMultiple(q, a, inverse * b - k * a);
  }

  lemma Difference(m: int, n: int, p: int)
    requires p > 0 && m % p == n % p
    ensures p * (m / p - n / p) == m - n
  {
    assert m == p * (m / p) + m % p && n == p * (n / p) + n % p;
    assert p * (m / p - n / p) == p * (m / p) - p * (n / p);
  }

  lemma SmallMultiple(q: int, a: int, u: int)
    requires -q < a < q && a == q * u
    ensures a == 0
  {
    if u > 0 {
      Scaled(q, u);
    } else if u < 0 {
      Scaled(q, -u);
    }
  }

  lemma Quotient(p: int, q: int, m: int)
    requires p > 0 && q > 0 && 0 <= m < p * q
    ensures 0 <= m / p < q
  {
    assert m == p * (m / p) + m % p;
    LessThan(p, m / p, q);
  }

  lemma LessThan(p: int, x: int, q: int)
    requires p > 0 && p * x < p * q
    ensures x < q
  {
    assert p * (x - q) == p * x - p * q;
  }

  lemma Cancel(p: int, q: int, inverse: int, k: int, a: int, b: int)
    requires p * inverse == q * k + 1 && p * a == q * b
    ensures a == q * (inverse * b - k * a)
  {
    assert inverse * (p * a) == a * (p * inverse) == a * (q * k + 1) == q * (k * a) + a;
    assert inverse * (q * b) == q * (inverse * b);
    assert q * (inverse * b - k * a) == q * (inverse * b) - q * (k * a);
  }
}
