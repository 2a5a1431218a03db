/** Prime numbers: divisors of products, trial division, and Lucas' test. */
module Primes {
  import opened Bits

  ghost predicate IsPrime(p: nat)
  {
    p >= 2 && forall d | 1 < d < p :: p % d != 0
  }

  function ProductOf(s: seq<nat>): nat
  {
    if s == [] then 1 else s[0] * ProductOf(s[1..])
  }

  // ----- divisors -----

  lemma Exact(a: nat, d: nat) returns (q: nat)
    requires d > 0 && a % d == 0
    ensures a == d * q
  {
    q := a / d;
  }

  lemma MultipleMod(d: nat, q: nat)
    requires d > 0
    ensures d * q % d == 0 && d * q / d == q
  {
    Quotient(d * q, d, q, 0);
  }

  lemma Quotient(a: nat, d: nat, q: nat, r: nat)
    requires d > 0 && r < d && a == d * q + r
    ensures a / d == q && a % d == r
  {
    var e := a / d - q;
    assert d * e == d * (a / d) - d * q;
    assert a == d * (a / d) + a % d;
    Squeezed(d, e);
  }

  lemma Squeezed(d: int, e: int)
    requires -d < d * e < d
    ensures e == 0
  {
  }

  /** The greatest common divisor, as a combination. */
  lemma {:induction false} Bezout(a: nat, b: nat) returns (g: nat, x: int, y: int)
    requires a > 0
    ensures g > 0 && a % g == 0 && b % g == 0 && x * a + y * b == g
    decreases b
  {
    if b == 0 {
      g, x, y := a, 1, 0;
    } else {
      var q := a / b;
      var g1, x1, y1 := Bezout(b, a % b);
      g, x, y := g1, y1, x1 - q * y1;
      var c := Exact(b, g);
      var e := Exact(a % b, g);
      assert a == b * q + a % b == g * (c * q + e);
      MultipleMod(g, c * q + e);
      assert y1 * a == y1 * (b * q + a % b);
    }
  }

  /** A prime that divides a product divides a factor. */
  lemma Euclid(p: nat, a: nat, b: nat)
    requires IsPrime(p) && a * b % p == 0
    ensures a % p == 0 || b % p == 0
  {
    var g, x, y := Bezout(p, a);
    if g == p {
    } else {
      assert g == 1;
      var c := Exact(a * b, p);
      assert b == b * (x * p + y * a) == p * (b * x + y * c);
      MultipleInt(p, b * x + y * c, b);
    }
  }

  lemma MultipleInt(p: nat, q: int, b: nat)
    requires p > 0 && b == p * q
    ensures b % p == 0
  {
    NotNegative(p, q);
    MultipleMod(p, q);
  }

  lemma NotNegative(p: nat, q: int)
    requires p > 0 && p * q >= 0
    ensures q >= 0
  {
  }

  /** A proper divisor of a product of primes divides it without one of them. */
  lemma {:induction false} Cofactor(s: seq<nat>, g: nat, h: nat) returns (i: nat, c: nat)
    requires (forall p | p in s :: IsPrime(p)) && ProductOf(s) == g * h && h > 1
    ensures i < |s| && ProductOf(s) == s[i] * (g * c) && c > 0
  {
    i, c := 0, 1;
    if s == [] {
      NotOne(g, h);
      assert false;
    } else {
      var p, m := s[0], ProductOf(s[1..]);
      MultipleMod(p, m);
      Euclid(p, g, h);
      if h % p == 0 {
        c := CofactorHere(p, m, g, h);
        i := 0;
      } else {
        var g1 := Exact(g, p);
        var j;
        CancelIn(p, m, g1, h);
        j, c := Cofactor(s[1..], g1, h);
        i := j + 1;
        Regroup(p, s[i], g1, c);
      }
    }
  }

  lemma CofactorHere(p: nat, m: nat, g: nat, h: nat) returns (c: nat)
    requires p > 0 && p * m == g * h && h % p == 0 && h > 1
    ensures m == g * c && c > 0
  {
    c := Exact(h, p);
    PositiveFactor(p, c, h);
    Regroup(p, 1, g, c);
    assert g * (p * c) == p * (g * c);
    Cancel(p, m, g * c, g * h);
  }

  lemma CancelIn(p: nat, m: nat, g1: nat, h: nat)
    requires p > 0 && p * m == p * g1 * h
    ensures m == g1 * h
  {
    assert p * (g1 * h) == p * g1 * h;
    Cancel(p, m, g1 * h, p * m);
  }

  lemma Regroup(p: nat, q: nat, g: nat, c: nat)
    ensures p * (q * (g * c)) == q * (p * g * c)
  {
    assert q * (p * g * c) == q * (p * (g * c)) == p * (q * (g * c));
  }

  lemma NotOne(g: nat, h: nat)
    requires h > 1
    ensures g * h != 1
  {
  }

  lemma PositiveFactor(p: nat, c: nat, h: nat)
    requires h == p * c && h > 1
    ensures c > 0
  {
  }

  lemma Cancel(p: nat, m: nat, n: nat, a: nat)
    requires p > 0 && p * m == a && p * n == a
    ensures m == n
  {
    assert p * (m - n) == 0;
    Squeezed(p, m - n);
  }

  // ----- the least return -----

  /** A set of numbers, such as the times at which something returns, with sums and differences. */
  ghost predicate Closed(r: nat -> bool)
  {
    forall i: nat, j: nat | r(i) && r(j) :: r(i + j) && (i <= j ==> r(j - i))
  }

  lemma {:induction false} ClosedMultiple(r: nat -> bool, g: nat, c: nat)
    requires Closed(r) && r(g) && c > 0
    ensures r(g * c)
  {
    if c == 1 {
      assert g * c == g;
    } else {
      ClosedMultiple(r, g, c - 1);
      assert g * c == g + g * (c - 1);
    }
  }

  lemma ClosedDifference(r: nat -> bool, a: nat, b: nat)
    requires Closed(r) && r(a) && r(b) && a <= b
    ensures r(b - a)
  {
  }

  lemma SumMod(a: nat, b: nat, g: nat)
    requires g > 0 && a % g == 0 && b % g == 0
    ensures (a + b) % g == 0
  {
    var c := Exact(a, g);
    var e := Exact(b, g);
    assert a + b == g * (c + e);
    MultipleMod(g, c + e);
  }

  lemma {:induction false} ClosedDivisor(r: nat -> bool, a: nat, b: nat) returns (g: nat)
    requires Closed(r) && r(a) && r(b) && a > 0
    ensures 0 < g <= a && r(g) && a % g == 0 && b % g == 0
    decreases a + b
  {
    hide Closed;
    if b == 0 {
      g := a;
    } else if b < a {
      ClosedDifference(r, b, a);
      g := ClosedDivisor(r, b, a - b);
      SumMod(b, a - b, g);
    } else {
      ClosedDifference(r, a, b);
      g := ClosedDivisor(r, a, b - a);
      SumMod(a, b - a, g);
    }
  }

  /** If a product of primes is a return, and without one of them it never is, then it is the
      first one. */
  lemma FirstReturn(r: nat -> bool, s: seq<nat>, n: nat, k: nat)
    requires Closed(r) && r(n) && ProductOf(s) == n && 0 < k < n
    requires forall p | p in s :: IsPrime(p) && n % p == 0 && !r(n / p)
    ensures !r(k)
  {
    if r(k) {
      var g := ClosedDivisor(r, k, n);
      var h := Exact(n, g);
      Larger(g, h, n);
      var i, c := Cofactor(s, g, h);
      assert s[i] in s;
      MultipleMod(s[i], g * c);
      ClosedMultiple(r, g, c);
    }
  }

  lemma Larger(g: nat, h: nat, n: nat)
    requires n == g * h && g < n
    ensures h > 1
  {
  }

  // ----- trial division -----

  /** None of eight odd numbers divides. */
  predicate Clear(p: nat, d: nat)
    requires d > 0
  {
    && p % d != 0 && p % (d + 2) != 0 && p % (d + 4) != 0 && p % (d + 6) != 0
    && p % (d + 8) != 0 && p % (d + 10) != 0 && p % (d + 12) != 0 && p % (d + 14) != 0
  }

  /** No odd divisor from `d` on, up to the square root. */
  predicate NoDivisor(p: nat, d: nat)
    requires d > 0
    decreases if d <= p then p - d else 0
  {
    d * d > p || (Clear(p, d) && NoDivisor(p, d + 16))
  }

  lemma ClearIs(p: nat, d: nat, f: nat)
    requires d > 0 && Clear(p, d) && d <= f < d + 16 && d % 2 == 1 && f % 2 == 1
    ensures p % f != 0
  {
    assert f == d || f == d + 2 || f == d + 4 || f == d + 6 || f == d + 8 || f == d + 10 || f == d + 12 || f == d + 14;
  }

  lemma {:induction false} NoDivisorIs(p: nat, d: nat, f: nat)
    requires d > 0 && d % 2 == 1 && NoDivisor(p, d) && d <= f && f * f <= p && f % 2 == 1
    ensures p % f != 0
    decreases if d <= p then p - d else 0
  {
    hide Clear;
    Ordered(d, f);
    if f < d + 16 {
      ClearIs(p, d, f);
    } else {
      NoDivisorIs(p, d + 16, f);
    }
  }

  lemma Ordered(d: nat, f: nat)
    requires d <= f
    ensures d <= d * d <= f * f
  {
    assert d * d <= d * f <= f * f;
  }

  /** A number has a divisor up to its square root, if it has one. */
  lemma SmallDivisor(p: nat, d: nat) returns (f: nat)
    requires 1 < d < p && p % d == 0
    ensures 1 < f < p && p % f == 0 && f * f <= p
  {
    var e := Exact(p, d);
    Between(d, e, p);
    f := if d <= e then d else e;
    SmallSquare(d, e, p);
    MultipleMod(e, d);
    assert e * d == p;
  }

  lemma SmallSquare(d: nat, e: nat, p: nat)
    requires p == d * e
    ensures (if d <= e then d * d else e * e) <= p
  {
    if d <= e { assert d * d <= d * e; } else { assert e * e <= d * e; }
  }

  lemma Between(d: nat, e: nat, p: nat)
    requires 1 < d < p && p == d * e
    ensures 1 < e < p
  {
    AboveOne(d, e);
    Grows(d, e);
  }

  lemma AboveOne(d: nat, e: nat)
    requires 1 < d < d * e
    ensures e > 1
  {
  }

  lemma Grows(d: nat, e: nat)
    requires d > 1 && e > 0
    ensures e < d * e
  {
  }

  /** Trial division. */
  lemma PrimeByTrial(p: nat)
    requires p > 1 && p % 2 == 1 && NoDivisor(p, 3)
    ensures IsPrime(p)
  {
    forall d | 1 < d < p ensures p % d != 0 {
      if p % d == 0 {
        var f := SmallDivisor(p, d);
        OddDivisor(p, f);
        NoDivisorIs(p, 3, f);
      }
    }
  }

  lemma OddDivisor(p: nat, f: nat)
    requires f > 0 && p % f == 0 && p % 2 == 1
    ensures f % 2 == 1
  {
    var e := Exact(p, f);
    EvenProduct(f / 2, e);
    assert f == 2 * (f / 2) + f % 2;
  }

  lemma EvenProduct(h: nat, e: nat)
    ensures 2 * h * e % 2 == 0
  {
    assert 2 * h * e == 2 * (h * e);
  }

  // ----- residues -----

  lemma AddMultiple(m: nat, k: nat, v: nat)
    requires m > 0
    ensures (m * k + v) % m == v % m
  {
    assert m * k + v == m * (k + v / m) + v % m;
    Quotient(m * k + v, m, k + v / m, v % m);
  }

  /** The product modulo `m`. */
  function Times(a: nat, b: nat, m: nat): (r: nat)
    requires m > 0
    ensures r < m
  {
    a * b % m
  }

  lemma TimesReduced(m: nat, q: nat, u: nat, b: nat)
    requires m > 0
    ensures Times(m * q + u, b, m) == Times(u, b, m)
  {
    assert (m * q + u) * b == m * (q * b) + u * b;
    AddMultiple(m, q * b, u * b);
  }

  lemma TimesMod(a: nat, b: nat, m: nat)
    requires m > 0
    ensures Times(a % m, b, m) == Times(a, b, m)
  {
    hide Times;
    assert a == m * (a / m) + a % m;
    TimesReduced(m, a / m, a % m, b);
  }

  lemma TimesSwap(a: nat, b: nat, m: nat)
    requires m > 0
    ensures Times(a, b, m) == Times(b, a, m)
  {
    assert a * b == b * a;
  }

  lemma TimesGroup(a: nat, b: nat, c: nat, m: nat)
    requires m > 0
    ensures Times(Times(a, b, m), c, m) == Times(a, Times(b, c, m), m)
  {
    TimesMod(a * b, c, m);
    TimesMod(b * c, a, m);
    TimesSwap(a, b * c % m, m);
    assert a * b * c == b * c * a;
  }

  lemma ModDivisor(a: nat, d: nat, m: nat)
    requires d > 0 && m > 0 && m % d == 0
    ensures a % m % d == a % d
  {
    var e := Exact(m, d);
    var q, u := a / m, a % m;
    assert a == m * q + u && d * e * q == d * (e * q);
    AddMultiple(d, e * q, u);
  }

  /** The residue of a power. */
  function Residue(y: nat, k: nat, m: nat): (r: nat)
    requires m > 1
    ensures r < m
  {
    if k == 0 then 1 else Times(y, Residue(y, k - 1, m), m)
  }

  lemma OneTimes(b: nat, m: nat)
    requires b < m
    ensures Times(1, b, m) == b
  {
  }

  lemma {:induction false} ResidueSum(y: nat, i: nat, j: nat, m: nat)
    requires m > 1
    ensures Residue(y, i + j, m) == Times(Residue(y, i, m), Residue(y, j, m), m)
  {
    hide Times;
    if i == 0 {
      OneTimes(Residue(y, j, m), m);
    } else {
      ResidueSum(y, i - 1, j, m);
      TimesGroup(y, Residue(y, i - 1, m), Residue(y, j, m), m);
    }
  }

  lemma TimesDivisor(a: nat, b: nat, d: nat, m: nat)
    requires d > 0 && m > 0 && m % d == 0
    ensures Times(a, b, m) % d == Times(a, b % d, d)
  {
    ModDivisor(a * b, d, m);
    TimesMod(b, a, d);
    TimesSwap(a, b % d, d);
    TimesSwap(a, b, d);
  }

  lemma {:induction false} ResidueDivisor(y: nat, k: nat, d: nat, m: nat)
    requires d > 1 && m > 1 && m % d == 0
    ensures Residue(y, k, d) == Residue(y, k, m) % d
  {
    hide Times;
    if k > 0 {
      ResidueDivisor(y, k - 1, d, m);
      TimesDivisor(y, Residue(y, k - 1, m), d, m);
    }
  }

  // ----- primes by the order of a number -----

  lemma OneClosed(y: nat, f: nat, i: nat, j: nat)
    requires f > 1 && Residue(y, i, f) == 1 && Residue(y, j, f) == 1
    ensures Residue(y, i + j, f) == 1 && (i <= j ==> Residue(y, j - i, f) == 1)
  {
    hide Times;
    ResidueSum(y, i, j, f);
    OneTimes(1, f);
    if i <= j {
      ResidueSum(y, i, j - i, f);
      OneTimes(Residue(y, j - i, f), f);
    }
  }

  /** The residues of the first `n` powers. */
  ghost function Residues(y: nat, n: nat, f: nat): (v: set<nat>)
    requires f > 1
    ensures forall k | 0 <= k < n :: Residue(y, k, f) in v
  {
    if n == 0 then {} else Residues(y, n - 1, f) + {Residue(y, n - 1, f)}
  }

  lemma {:induction false} ResiduesAt(y: nat, n: nat, f: nat, r: nat) returns (k: nat)
    requires f > 1 && r in Residues(y, n, f)
    ensures k < n && Residue(y, k, f) == r
  {
    hide Residue;
    k := n - 1;
    if r != Residue(y, n - 1, f) { k := ResiduesAt(y, n - 1, f, r); }
  }

  lemma {:induction false} ResiduesSize(y: nat, n: nat, f: nat)
    requires f > 1 && forall j, k | 0 <= j < k < n :: Residue(y, j, f) != Residue(y, k, f)
    ensures |Residues(y, n, f)| == n
  {
    hide Residue;
    if n > 0 {
      ResiduesSize(y, n - 1, f);
      if Residue(y, n - 1, f) in Residues(y, n - 1, f) { var k := ResiduesAt(y, n - 1, f, Residue(y, n - 1, f)); }
    }
  }

  /** Before the first return the residues are different, and none is zero. */
  lemma ResiduesApart(y: nat, n: nat, f: nat, i: nat, j: nat)
    requires f > 1 && Residue(y, n, f) == 1 && i < j < n && Residue(y, j - i, f) != 1
    ensures Residue(y, i, f) != Residue(y, j, f)
  {
    hide Times;
    ResidueSum(y, i, n - i, f);
    ResidueSum(y, j, n - i, f);
    ResidueSum(y, n, j - i, f);
    OneTimes(Residue(y, j - i, f), f);
  }

  lemma ResidueNotZero(y: nat, n: nat, f: nat, k: nat)
    requires f > 1 && Residue(y, n, f) == 1 && k < n
    ensures Residue(y, k, f) != 0
  {
    hide Residue;
    ResidueSum(y, k, n - k, f);
  }

  /** So there are at most f - 1 of them. */
  lemma OrderBelow(y: nat, n: nat, f: nat)
    requires f > 1 && Residue(y, n, f) == 1 && forall k | 0 < k < n :: Residue(y, k, f) != 1
    ensures n < f
  {
    hide Residue;
    forall j, k | 0 <= j < k < n ensures Residue(y, j, f) != Residue(y, k, f) { ResiduesApart(y, n, f, j, k); }
    ResiduesSize(y, n, f);
    forall r | r in Residues(y, n, f) ensures r in NonZeroBelow(f) {
      var k := ResiduesAt(y, n, f, r);
      ResidueNotZero(y, n, f, k);
    }
    SubsetSize(Residues(y, n, f), NonZeroBelow(f));
  }

  /** The number `w` is the inverse of u - 1. */
  ghost predicate Inverse(u: nat, w: nat, m: nat)
    requires m > 0
  {
    Times(u + m - 1, w, m) == 1
  }

  ghost predicate Escapes(u: nat, m: nat)
    requires m > 0
  {
    exists w: nat :: Inverse(u, w, m)
  }

  lemma EscapesDivisor(u: nat, f: nat, m: nat)
    requires f > 1 && m > 1 && m % f == 0 && Escapes(u, m)
    ensures u % f != 1
  {
    var w: nat :| Inverse(u, w, m);
    if u % f == 1 {
      OneLessVanishes(u, f, m);
      InverseVanishes(u + m - 1, w, f, m);
      assert false;
    }
  }

  lemma OneLessVanishes(u: nat, f: nat, m: nat)
    requires f > 1 && m > 1 && m % f == 0 && u % f == 1
    ensures (u + m - 1) % f == 0
  {
    var e := Exact(m, f);
    assert u + m - 1 == f * (u / f + e);
    MultipleMod(f, u / f + e);
  }

  lemma InverseVanishes(v: nat, w: nat, f: nat, m: nat)
    requires f > 1 && m > 1 && m % f == 0 && v % f == 0
    ensures Times(v, w, m) % f == 0
  {
    TimesSwap(v, w, m);
    TimesDivisor(w, v, f, m);
    assert Times(w, 0, f) == 0;
  }

  lemma OneReturns(y: nat, f: nat, r: nat -> bool)
    requires f > 1 && forall i: nat :: r(i) <==> Residue(y, i, f) == 1
    ensures Closed(r)
  {
    hide Residue;
    forall i: nat, j: nat | r(i) && r(j) ensures r(i + j) && (i <= j ==> r(j - i)) { OneClosed(y, f, i, j); }
  }

  /** The prime factors of an order `n`. */
  ghost predicate Factors(s: seq<nat>, n: nat)
  {
    n == ProductOf(s) && forall p | p in s :: IsFactor(p, n)
  }

  ghost predicate IsFactor(p: nat, n: nat)
  {
    IsPrime(p) && n % p == 0
  }

  lemma {:induction false} ProductJoin(s: seq<nat>, u: seq<nat>)
    ensures ProductOf(s + u) == ProductOf(s) * ProductOf(u)
  {
    if s == [] {
      assert s + u == u;
    } else {
      ProductJoin(s[1..], u);
      assert (s + u)[1..] == s[1..] + u;
      assert s[0] * (ProductOf(s[1..]) * ProductOf(u)) == s[0] * ProductOf(s[1..]) * ProductOf(u);
    }
  }

  lemma {:induction false} FactorsJoin(s: seq<nat>, m: nat, u: seq<nat>, n: nat)
    requires Factors(s, m) && Factors(u, n)
    ensures Factors(s + u, m * n)
  {
    hide IsFactor;
    ProductJoin(s, u);
    forall p | p in s + u ensures IsFactor(p, m * n) {
      if p in s { FactorLeft(p, m, n); } else { FactorRight(p, m, n); }
    }
  }

  lemma FactorLeft(p: nat, a: nat, b: nat)
    requires IsFactor(p, a)
    ensures IsFactor(p, a * b)
  {
    PrimePositive(p);
    DividesProduct(p, a, b);
  }

  lemma FactorRight(p: nat, a: nat, b: nat)
    requires IsFactor(p, b)
    ensures IsFactor(p, a * b)
  {
    FactorLeft(p, b, a);
    assert a * b == b * a;
  }

  lemma PrimePositive(p: nat)
    requires IsPrime(p)
    ensures p > 1
  {
  }

  lemma DividesProduct(p: nat, a: nat, b: nat)
    requires p > 0 && a % p == 0
    ensures a * b % p == 0
  {
    var c := Exact(a, p);
    assert a * b == p * (c * b);
    MultipleMod(p, c * b);
  }

  /** With respect to any divisor the power has the order `n`. */
  lemma {:induction false} OrderIs(c: nat, y: nat, s: seq<nat>, n: nat, f: nat, k: nat)
    requires c > 1 && Factors(s, n) && Residue(y, n, c) == 1 && f > 1 && c % f == 0 && 0 < k < n
    requires forall p | p in s :: Escapes(Residue(y, n / p, c), c)
    ensures Residue(y, k, f) != 1
  {
    hide Residue, Escapes, ProductOf, Closed;
    var r := (i: nat) => Residue(y, i, f) == 1;
    OneReturns(y, f, r);
    ResidueDivisor(y, n, f, c);
    forall p | p in s ensures !r(n / p) { PartIsNot(c, y, f, n / p); }
    FirstReturn(r, s, n, k);
  }

  lemma PartIsNot(c: nat, y: nat, f: nat, k: nat)
    requires c > 1 && f > 1 && c % f == 0 && Escapes(Residue(y, k, c), c)
    ensures Residue(y, k, f) != 1
  {
    hide Residue, Escapes;
    ResidueDivisor(y, k, f, c);
    EscapesDivisor(Residue(y, k, c), f, c);
  }

  /** If some power has an order above the square root, with respect to every divisor, then
      there is no divisor. */
  lemma PrimeByOrder(c: nat, y: nat, s: seq<nat>, n: nat)
    requires c > 1 && Factors(s, n) && n * n > c && Residue(y, n, c) == 1
    requires forall p | p in s :: Escapes(Residue(y, n / p, c), c)
    ensures IsPrime(c)
  {
    hide Residue, Escapes, Factors;
    forall d | 1 < d < c ensures c % d != 0 {
      if c % d == 0 {
        var f := SmallDivisor(c, d);
        OrderAbove(c, y, s, n, f);
        Ordered(n, f);
        assert false;
      }
    }
  }

  lemma OrderAbove(c: nat, y: nat, s: seq<nat>, n: nat, f: nat)
    requires c > 1 && Factors(s, n) && Residue(y, n, c) == 1 && f > 1 && c % f == 0
    requires forall p | p in s :: Escapes(Residue(y, n / p, c), c)
    ensures n < f
  {
    hide Residue, Escapes, Factors;
    ResidueDivisor(y, n, f, c);
    forall k | 0 < k < n ensures Residue(y, k, f) != 1 { OrderIs(c, y, s, n, f, k); }
    OrderBelow(y, n, f);
  }

  // ----- powers step by step -----

  /** One step: a square, the base once more, or nothing. */
  predicate Steps(c: nat, y: nat, k: nat, x: nat, k1: nat, x1: nat)
    requires c > 1
  {
    if k1 == 2 * k then x1 == Times(x, x, c) else if k1 == k then x1 == x else k1 == k + 1 && x1 == Times(x, y, c)
  }

  /** Five steps, from the residue `x` of the power `k` on. */
  predicate Rises(c: nat, y: nat, k: nat, x: nat, k1: nat, x1: nat, k2: nat, x2: nat, k3: nat, x3: nat,
                  k4: nat, x4: nat, k5: nat, x5: nat)
    requires c > 1
  {
    && Steps(c, y, k, x, k1, x1) && Steps(c, y, k1, x1, k2, x2) && Steps(c, y, k2, x2, k3, x3)
    && Steps(c, y, k3, x3, k4, x4) && Steps(c, y, k4, x4, k5, x5)
  }

  lemma ResidueOne(y: nat, c: nat)
    requires 1 < c && y < c
    ensures Residue(y, 1, c) == y
  {
    assert Residue(y, 1, c) == Times(y, Residue(y, 0, c), c) == Times(y, 1, c);
    TimesSwap(y, 1, c);
  }

  lemma StepIs(c: nat, y: nat, k: nat, x: nat, k1: nat, x1: nat)
    requires 1 < c && y < c && Steps(c, y, k, x, k1, x1) && Residue(y, k, c) == x
    ensures Residue(y, k1, c) == x1
  {
    hide Times;
    ResidueSum(y, k, k, c);
    ResidueOne(y, c);
    ResidueSum(y, k, 1, c);
  }

  /** The residue of a power, from the residues on the way. */
  lemma Climb(c: nat, y: nat, k: nat, x: nat, k1: nat, x1: nat, k2: nat, x2: nat, k3: nat, x3: nat,
              k4: nat, x4: nat, k5: nat, x5: nat)
    requires 1 < c && y < c && Residue(y, k, c) == x
    requires Rises(c, y, k, x, k1, x1, k2, x2, k3, x3, k4, x4, k5, x5)
    ensures Residue(y, k5, c) == x5
  {
    hide Steps, Residue;
    StepIs(c, y, k, x, k1, x1);
    StepIs(c, y, k1, x1, k2, x2);
    StepIs(c, y, k2, x2, k3, x3);
    StepIs(c, y, k3, x3, k4, x4);
    StepIs(c, y, k4, x4, k5, x5);
  }

  lemma Away(c: nat, y: nat, e: nat, z: nat, w: nat)
    requires 1 < c && Residue(y, e, c) == z && Times(z + c - 1, w, c) == 1
    ensures Escapes(Residue(y, e, c), c)
  {
    assert Inverse(z, w, c);
  }

  lemma TwoIsPrime()
    ensures IsPrime(2)
  {
  }

  /** The test for an order with the prime factors `f`, `g` and `h`. */
  lemma PrimeByFactors(c: nat, y: nat, s: seq<nat>, n: nat, f: nat, g: nat, h: nat)
    requires c > 1 && n == ProductOf(s) && n * n > c && Residue(y, n, c) == 1
    requires forall p | p in s :: p == f || p == g || p == h
    requires IsPrime(f) && IsPrime(g) && IsPrime(h) && n % f == 0 && n % g == 0 && n % h == 0
    requires Escapes(Residue(y, n / f, c), c) && Escapes(Residue(y, n / g, c), c)
    requires Escapes(Residue(y, n / h, c), c)
    ensures IsPrime(c)
  {
    hide IsPrime, Residue, Escapes;
    PrimeByOrder(c, y, s, n);
  }
}
