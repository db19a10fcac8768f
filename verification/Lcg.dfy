/** The full-period generator behind the shuffled stream (Hull-Dobell for 2^k). */
module Lcg {
  import opened Arith
  import opened Seqs

  function Pow2(k: nat): (p: nat)
    ensures p >= 1
  {
    if k == 0 then 1 else 2 * Pow2(k - 1)
  }

  /** The conditions under which the generator has the full period. */
  ghost predicate FullPeriod(a: nat, c: nat) {
    a % 4 == 1 && c % 2 == 1
  }

  function Affine(a: nat, c: nat, x: nat): nat {
    x * a + c
  }

  function Next(a: nat, c: nat, m: nat, x: nat): nat
    requires m > 0
  {
    Affine(a, c, x) % m
  }

  /** The state after n steps from x. */
  function Iter(a: nat, c: nat, m: nat, x: nat, n: nat): (y: nat)
    requires m > 0
  {
    if n == 0 then x else Next(a, c, m, Iter(a, c, m, x, n - 1))
  }

  // ----- the generator without its modulus -----

  function Raw(a: nat, c: nat, x: nat, n: nat): nat {
    if n == 0 then x else Affine(a, c, Raw(a, c, x, n - 1))
  }

  /** 1 + a + ... + a^(n-1) */
  function Geo(a: nat, n: nat): nat {
    if n == 0 then 0 else Geo(a, n - 1) * a + 1
  }

  lemma {:induction false} RawClosedForm(a: nat, c: nat, x: nat, n: nat)
    requires a >= 1
    ensures Raw(a, c, x, n) == x + Geo(a, n) * ((a - 1) * x + c)
  {
    if n > 0 {
      RawClosedForm(a, c, x, n - 1);
      ClosedStep(a, c, x, Geo(a, n - 1), (a - 1) * x + c);
    }
  }

  lemma ClosedStep(a: int, c: int, x: int, g: int, w: int)
    requires w == (a - 1) * x + c
    ensures (x + g * w) * a + c == x + (g * a + 1) * w
  {
    assert (g * w) * a == (g * a) * w;
  }

  lemma {:induction false} IterIsRawMod(a: nat, c: nat, m: nat, x: nat, n: nat)
    requires m > 0 && x < m
    ensures Iter(a, c, m, x, n) == Raw(a, c, x, n) % m
    ensures Iter(a, c, m, x, n) < m
  {
    hide Affine, Next;
    if n > 0 {
      IterIsRawMod(a, c, m, x, n - 1);
      NextOfMod(a, c, m, Raw(a, c, x, n - 1));
    } else {
      QuotientUnique(x, m, 0, x);
    }
  }

  lemma NextOfMod(a: nat, c: nat, m: nat, y: nat)
    requires m > 0
    ensures Next(a, c, m, y % m) == Affine(a, c, y) % m < m
  {
    ModAffine(y, a, c, m);
    assert Affine(a, c, y % m) == (y % m) * a + c;
    assert Affine(a, c, y) == y * a + c;
    hide Affine;
  }

  lemma {:induction false} IterCompose(a: nat, c: nat, m: nat, x: nat, i: nat, j: nat)
    requires m > 0
    ensures Iter(a, c, m, x, i + j) == Iter(a, c, m, Iter(a, c, m, x, i), j)
  {
    hide Next;
    if j > 0 {
      IterCompose(a, c, m, x, i, j - 1);
      assert i + j - 1 == i + (j - 1);
    }
  }

  // ----- how many factors of two Geo has -----

  lemma {:induction false} GeoSplit(a: nat, i: nat, j: nat)
    requires a >= 1
    ensures Geo(a, i + j) == Geo(a, i) * ((a - 1) * Geo(a, j) + 1) + Geo(a, j)
  {
    if j > 0 {
      GeoSplit(a, i, j - 1);
      assert i + j - 1 == i + (j - 1);
      SplitStep(a, Geo(a, i), Geo(a, j - 1));
    }
  }

  lemma SplitStep(a: int, g: int, h: int)
    ensures (g * ((a - 1) * h + 1) + h) * a + 1 == g * ((a - 1) * (h * a + 1) + 1) + (h * a + 1)
  {
    var p := (a - 1) * h + 1;
    assert p * a == (a - 1) * (h * a + 1) + 1 by {
      assert ((a - 1) * h) * a == (a - 1) * (h * a);
    }
    assert (g * p) * a == g * (p * a);
  }

  lemma {:induction false} GeoParity(a: nat, n: nat)
    requires a % 2 == 1
    ensures Geo(a, n) % 2 == n % 2
  {
    if n > 0 {
      GeoParity(a, n - 1);
      OddStep(Geo(a, n - 1), a, n);
    }
  }

  lemma OddStep(g: int, u: int, n: int)
    requires u % 2 == 1 && g % 2 == (n - 1) % 2
    ensures (g * u + 1) % 2 == n % 2
  {
    OddTimes(g, u);
    var p := g * u;
    assert (p + 1) % 2 == n % 2;
  }

  lemma OddTimes(g: int, u: int)
    requires u % 2 == 1
    ensures (g * u) % 2 == g % 2
  {
    var p := g * (u / 2);
    assert g * u == 2 * p + g by {
      assert u == 2 * (u / 2) + 1;
      assert g * (2 * (u / 2) + 1) == 2 * p + g;
    }
    EvenShift(p, g);
  }

  lemma EvenShift(p: int, g: int)
    ensures (2 * p + g) % 2 == g % 2
  {
  }

  /** Doubling the length multiplies Geo by two and an odd number. */
  lemma GeoDouble(a: nat, n: nat) returns (u: nat)
    requires a % 4 == 1
    ensures u % 2 == 1
    ensures Geo(a, 2 * n) == 2 * (Geo(a, n) * u)
  {
    GeoSplit(a, n, n);
    u := DoubleStep(Geo(a, n), a, a / 4);
    assert n + n == 2 * n;
  }

  lemma DoubleStep(g: nat, a: nat, b: nat) returns (u: nat)
    requires a == 4 * b + 1
    ensures u % 2 == 1
    ensures g * ((a - 1) * g + 1) + g == 2 * (g * u)
  {
    u := 2 * (b * g) + 1;
    assert (4 * b) * g == 4 * (b * g);
    assert (a - 1) * g + 1 == 2 * u - 1;
    assert g * (2 * u - 1) == 2 * (g * u) - g;
  }

  lemma {:induction false} OddFactor(s: nat, u: nat, k: nat)
    requires u % 2 == 1 && (s * u) % Pow2(k) == 0
    ensures s % Pow2(k) == 0
  {
    if k > 0 {
      var p := Pow2(k - 1);
      assert Pow2(k) == 2 * p;
      hide Pow2;
      OddTimes(s, u);
      if s % 2 == 1 {
        OddNotMultiple(s * u, p);
      } else {
        var t := s / 2;
        assert s == 2 * t;
        assert (2 * t) * u == 2 * (t * u);
        DoubleMod(t * u, p);
        OddFactor(t, u, k - 1);
        DoubleMod(t, p);
      }
    }
  }

  lemma EvenFactors(s: nat, u: nat, k: nat)
    requires k > 0 && u % 2 == 1
    ensures (2 * (s * u)) % Pow2(k) == 0 <==> s % Pow2(k - 1) == 0
  {
    var p := Pow2(k - 1);
    assert Pow2(k) == 2 * p;
    hide Pow2;
    DoubleMod(s * u, p);
    if (s * u) % p == 0 {
      OddFactor(s, u, k - 1);
    }
    if s % p == 0 {
      MulZeroMod(s, u, p);
    }
  }

  lemma GeoEven(a: nat, h: nat, k: nat)
    requires a % 4 == 1 && k > 0
    ensures Geo(a, 2 * h) % Pow2(k) == 0 <==> Geo(a, h) % Pow2(k - 1) == 0
  {
    var u := GeoDouble(a, h);
    hide Geo;
    EvenFactors(Geo(a, h), u, k);
  }

  lemma Halves(h: nat, k: nat)
    requires k > 0
    ensures (2 * h) % Pow2(k) == 0 <==> h % Pow2(k - 1) == 0
  {
    DoubleMod(h, Pow2(k - 1));
  }

  lemma OddFree(n: nat, k: nat)
    requires k > 0 && n % 2 == 1
    ensures n % Pow2(k) != 0
  {
    OddNotMultiple(n, Pow2(k - 1));
  }

  /** Geo(n) is a multiple of 2^k exactly when n is. */
  lemma {:induction false} GeoFactors(a: nat, n: nat, k: nat)
    requires a % 4 == 1
    ensures Geo(a, n) % Pow2(k) == 0 <==> n % Pow2(k) == 0
  {
    if k > 0 {
      hide Pow2, Geo;
      GeoParity(a, n);
      if n % 2 == 1 {
        OddFree(n, k);
        OddFree(Geo(a, n), k);
      } else {
        var h := n / 2;
        assert n == 2 * h;
        GeoEven(a, h, k);
        GeoFactors(a, h, k - 1);
        Halves(h, k);
      }
    }
  }

  // ----- full period -----

  /** Hull-Dobell for powers of two: a run of n steps returns to its start
      exactly when n is a multiple of 2^k. */
  lemma PeriodExact(a: nat, c: nat, k: nat, x: nat, n: nat)
    requires FullPeriod(a, c) && x < Pow2(k)
    ensures Iter(a, c, Pow2(k), x, n) == x <==> n % Pow2(k) == 0
  {
    IterIsRawMod(a, c, Pow2(k), x, n);
    var w := Displacement(a, c, x, n);
    GeoFactors(a, n, k);
    ReturnExact(Geo(a, n), w, k, x);
  }

  /** n steps move x by Geo(n) times an odd number. */
  lemma Displacement(a: nat, c: nat, x: nat, n: nat) returns (w: nat)
    requires FullPeriod(a, c)
    ensures w % 2 == 1 && Raw(a, c, x, n) == x + Geo(a, n) * w
  {
    RawClosedForm(a, c, x, n);
    w := OddAffine(a, c, x);
  }

  lemma OddAffine(a: nat, c: nat, x: nat) returns (w: nat)
    requires a % 4 == 1 && c % 2 == 1
    ensures w == (a - 1) * x + c && w % 2 == 1
  {
    var p := (2 * (a / 4)) * x;
    assert a - 1 == 2 * (2 * (a / 4));
    assert (2 * (2 * (a / 4))) * x == 2 * p;
    w := 2 * p + c;
  }

  lemma ReturnExact(g: nat, w: nat, k: nat, x: nat)
    requires w % 2 == 1 && x < Pow2(k)
    ensures (x + g * w) % Pow2(k) == x <==> g % Pow2(k) == 0
  {
    var m := Pow2(k);
    AddZero(x, g * w, m);
    if (g * w) % m == 0 {
      OddFactor(g, w, k);
    }
    if g % m == 0 {
      MulZeroMod(g, w, m);
    }
  }

  lemma AddZero(x: int, p: int, m: int)
    requires 0 <= x < m
    ensures (x + p) % m == x <==> p % m == 0
  {
    Quotient(p, m);
    AddMultiple(x + p % m, p / m, m);
    if x + p % m < m {
      QuotientUnique(x + p % m, m, 0, x + p % m);
    } else {
      QuotientUnique(x + p % m, m, 1, x + p % m - m);
    }
  }

  /** No residue repeats within 2^k consecutive steps. */
  lemma NoRepeat(a: nat, c: nat, k: nat, x: nat, i: nat, j: nat)
    requires FullPeriod(a, c) && x < Pow2(k)
    requires i < j < i + Pow2(k)
    ensures Iter(a, c, Pow2(k), x, i) != Iter(a, c, Pow2(k), x, j)
  {
    var m, d := Pow2(k), j - i;
    IterIsRawMod(a, c, m, x, i);
    IterCompose(a, c, m, x, i, d);
    PeriodExact(a, c, k, Iter(a, c, m, x, i), d);
    QuotientUnique(d, m, 0, d);
  }

  /** The states reached by steps 1..n. */
  function Walk(a: nat, c: nat, m: nat, x: nat, n: nat): (s: seq<nat>)
    requires m > 0
    ensures |s| == n
  {
    if n == 0 then [] else Walk(a, c, m, x, n - 1) + [Iter(a, c, m, x, n)]
  }

  lemma {:induction false} WalkAt(a: nat, c: nat, m: nat, x: nat, n: nat, i: nat)
    requires m > 0 && i < n
    ensures Walk(a, c, m, x, n)[i] == Iter(a, c, m, x, i + 1)
  {
    if i < n - 1 {
      WalkAt(a, c, m, x, n - 1, i);
    }
  }

  function Below(n: nat): (s: set<nat>)
    ensures forall v: nat :: v in s <==> v < n
  {
    if n == 0 then {} else Below(n - 1) + {n - 1}
  }

  lemma {:induction false} BelowSize(n: nat)
    ensures |Below(n)| == n
  {
    if n == 0 {
      assert Below(0) == {};
    } else {
      BelowSize(n - 1);
      assert Below(n) == Below(n - 1) + {n - 1};
    }
  }

  function Elements<T>(s: seq<T>): set<T> {
    set e | e in s
  }

  lemma {:induction false} DistinctSize<T(!new)>(s: seq<T>)
    requires Distinct(s)
    ensures |Elements(s)| == |s|
  {
    if s != [] {
      var t := s[..|s| - 1];
      DistinctSize(t);
      assert s == t + [s[|s| - 1]];
      assert s[|s| - 1] !in t;
      assert Elements(s) == Elements(t) + {s[|s| - 1]};
    }
  }

  lemma SubsetOfEqualSize<T>(a: set<T>, b: set<T>)
    requires a <= b && |a| == |b|
    ensures a == b
  {
    assert b == a + (b - a);
    assert |b| == |a| + |b - a|;
    assert b - a == {};
  }

  /** In any 2^k consecutive steps, from any seed, every residue is reached
      exactly once. */
  lemma WalkIsPermutation(a: nat, c: nat, k: nat, x: nat)
    requires FullPeriod(a, c) && x < Pow2(k)
    ensures var w := Walk(a, c, Pow2(k), x, Pow2(k)); Distinct(w) && Elements(w) == Below(Pow2(k))
  {
    var m := Pow2(k);
    var w := Walk(a, c, m, x, m);
    forall i, j | 0 <= i < j < |w| ensures w[i] != w[j] {
      WalkAt(a, c, m, x, m, i);
      WalkAt(a, c, m, x, m, j);
      NoRepeat(a, c, k, x, i + 1, j + 1);
    }
    forall e | e in w ensures e in Below(m) {
      var i :| 0 <= i < |w| && w[i] == e;
      WalkAt(a, c, m, x, m, i);
      IterIsRawMod(a, c, m, x, i + 1);
    }
    DistinctSize(w);
    BelowSize(m);
    SubsetOfEqualSize(Elements(w), Below(m));
  }
}
