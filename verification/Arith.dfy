/** Integer facts the solver is asked for one at a time: quotients and
    remainders are pinned down by their defining equation, products are kept
    apart from the terms around them, and each lemma is called with the very
    values it is needed for, so that no proof elsewhere has to search among
    nonlinear terms. Also the smaller of two numbers. */
module Arith {

  function Min(a: nat, b: nat): nat {
    if a <= b then a else b
  }

  lemma MultipleMod(p: int, q: int)
    requires p > 0
    ensures (p * q) % p == 0
  {
    AddMultiple(0, q, p);
  }

  lemma AddMultiple(y: int, q: int, m: int)
    requires m > 0
    ensures (y + m * q) % m == y % m
    ensures (y + m * q) / m == y / m + q
  {
    QuotientUnique(y + m * q, m, y / m + q, y % m) by {
      assert m * (y / m + q) == m * (y / m) + m * q;
    }
  }

  lemma QuotientUnique(n: int, m: int, q: int, r: int)
    requires m > 0 && 0 <= r < m && n == m * q + r
    ensures n / m == q && n % m == r
  {
    var d := n / m - q;
    assert m * d == m * (n / m) - m * q;
    assert m * d == r - n % m;
    SmallMultiple(m, d);
  }

  lemma SmallMultiple(m: int, d: int)
    requires m > 0 && -m < m * d < m
    ensures d == 0
  {
  }

  lemma Quotient(n: int, m: int)
    requires m > 0
    ensures n == m * (n / m) + n % m && 0 <= n % m < m
  {
  }

  /** Reducing before an affine step changes nothing modulo m. */
  lemma ModAffine(x: int, a: int, c: int, m: int)
    requires m > 0
    ensures ((x % m) * a + c) % m == (x * a + c) % m
  {
    var q, r := x / m, x % m;
    AffineSplit(x, a, c, m, q, r);
    AddMultiple(r * a + c, q * a, m);
  }

  lemma AffineSplit(x: int, a: int, c: int, m: int, q: int, r: int)
    requires x == m * q + r
    ensures x * a + c == (r * a + c) + m * (q * a)
  {
    assert (m * q) * a == m * (q * a);
  }

  /** Reducing modulo a multiple first changes nothing modulo m. */
  lemma ModMod(x: int, m: int, f: int)
    requires m > 0 && f > 0
    ensures m * f > 0 && (x % (m * f)) % m == x % m
  {
    assert m * f > 0;
    var q, r := x / (m * f), x % (m * f);
    Quotient(x, m * f);
    assert x == r + m * (f * q) by { assert (m * f) * q == m * (f * q); }
    AddMultiple(r, f * q, m);
  }

  lemma DoubleMod(t: int, p: int)
    requires p > 0
    ensures t % p == 0 <==> (2 * t) % (2 * p) == 0
  {
    Quotient(t, p);
    QuotientUnique(2 * t, 2 * p, t / p, 2 * (t % p)) by {
      assert (2 * p) * (t / p) == 2 * (p * (t / p));
    }
  }

  lemma OddNotMultiple(n: int, p: int)
    requires n % 2 == 1 && p > 0
    ensures n % (2 * p) != 0
  {
    var q := n / (2 * p);
    Quotient(n, 2 * p);
    assert (2 * p) * q == 2 * (p * q);
  }

  lemma MulZeroMod(s: int, u: int, p: int)
    requires p > 0 && s % p == 0
    ensures (s * u) % p == 0
  {
    var q := s / p;
    assert s == p * q;
    assert s * u == p * (q * u) by { assert (p * q) * u == p * (q * u); }
    MultipleMod(p, q * u);
  }

  lemma MulMonotone(x: int, y: int, m: int)
    requires x <= y && m >= 0
    ensures m * x <= m * y
  {
  }
}
