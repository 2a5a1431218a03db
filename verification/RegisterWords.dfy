/** The register on machine words, so that the place of the register after many clocks can be
    computed: each round doubles the number of clocks done. */
module RegisterWords {
  import opened Bits
  import opened ShiftOrbits
  import opened RegisterAlgebra

  // ----- words as numbers -----

  function Val(v: bv100): (r: nat)
    decreases v
  {
    if v == 0 then 0 else (if v & 1 == 1 then 1 else 0) + 2 * Val(v >> 1)
  }

  lemma ValHalf(v: bv100)
    ensures Val(v) == (if v & 1 == 1 then 1 else 0) + 2 * Val(v >> 1)
  {
  }

  lemma {:induction false} ValZero(v: bv100)
    requires Val(v) == 0
    ensures v == 0
    decreases v
  {
    if v != 0 { ValZero(v >> 1); }
  }

  lemma {:induction false} ValXor(a: bv100, b: bv100)
    ensures Val(a ^ b) == Xor(Val(a), Val(b))
    decreases Val(a) + Val(b), 1
  {
    if Val(a) + Val(b) == 0 {
      ValZero(a);
      ValZero(b);
    } else {
      XorHalves(a, b);
      ValXorMore(a, b, a ^ b, a >> 1, b >> 1);
    }
  }

  lemma XorHalves(a: bv100, b: bv100)
    ensures (a ^ b) >> 1 == (a >> 1) ^ (b >> 1) && ((a ^ b) & 1 == 1 <==> ((a & 1 == 1) != (b & 1 == 1)))
  {
  }

  lemma {:induction false} ValXorMore(a: bv100, b: bv100, x: bv100, p: bv100, q: bv100)
    requires a >> 1 == p && b >> 1 == q && x >> 1 == p ^ q && Val(a) + Val(b) > 0
    requires x & 1 == 1 <==> ((a & 1 == 1) != (b & 1 == 1))
    ensures Val(x) == Xor(Val(a), Val(b))
    decreases Val(a) + Val(b), 0
  {
    hide Val;
    ValHalf(a);
    ValHalf(b);
    ValXor(p, q);
    ValHalf(x);
    XorJoin(Val(p), Val(q), if a & 1 == 1 then 1 else 0, if b & 1 == 1 then 1 else 0);
  }

  lemma XorJoin(p: nat, q: nat, i: nat, j: nat)
    requires i < 2 && j < 2
    ensures Xor(i + 2 * p, j + 2 * q) == 2 * Xor(p, q) + if i == j then 0 else 1
  {
    XorHalf(i + 2 * p, j + 2 * q);
  }

  lemma ValInjective(a: bv100, b: bv100)
    requires Val(a) == Val(b)
    ensures a == b
  {
    ValXor(a, b);
    XorSelf(Val(a));
    ValZero(a ^ b);
    SameWord(a, b);
  }

  lemma SameWord(a: bv100, b: bv100)
    requires a ^ b == 0
    ensures a == b
  {
  }

  // ----- shifts -----

  /** The number of bits to shift. */
  function Num(c: bv7): (n: nat)
    decreases c
  {
    if c == 0 then 0 else Num(c - 1) + 1
  }

  lemma {:induction false} ValRight(v: bv100, c: bv7)
    requires c <= 63
    ensures Val(v >> c) == Down(Val(v), Num(c))
    decreases c
  {
    if c == 0 {
      assert v >> c == v;
    } else {
      var d := c - 1;
      ValRight(v, d);
      RightOnce(v, c, d);
      RightStep(v >> c, v >> d, Val(v), Num(d));
    }
  }

  lemma RightStep(x: bv100, y: bv100, a: nat, n: nat)
    requires x == y >> 1 && Val(y) == Down(a, n)
    ensures Val(x) == Down(a, n + 1)
  {
    ValHalf(y);
  }

  lemma RightOnce(v: bv100, c: bv7, d: bv7)
    requires 0 < c <= 63 && d == c - 1
    ensures v >> c == (v >> d) >> 1
  {
    if c & 3 == 1 { RightOne(v, c, d); } else if c & 3 == 3 { RightThree(v, c, d); }
    else if c & 3 == 2 { RightTwo(v, c, d); } else { RightFour(v, c, d); }
  }

  lemma RightOne(v: bv100, c: bv7, d: bv7)
    requires c <= 63 && d == c - 1 && c & 3 == 1
    ensures v >> c == (v >> d) >> 1
  {
    if c & 4 == 4 {
    }
    if c & 8 == 8 {
    }
    if c & 16 == 16 {
    }
    if c & 32 == 32 {
    }
  }

  lemma RightThree(v: bv100, c: bv7, d: bv7)
    requires c <= 63 && d == c - 1 && c & 3 == 3
    ensures v >> c == (v >> d) >> 1
  {
    if c & 4 == 4 {
    }
    if c & 8 == 8 {
    }
    if c & 16 == 16 {
    }
    if c & 32 == 32 {
    }
  }

  lemma RightTwo(v: bv100, c: bv7, d: bv7)
    requires c <= 63 && d == c - 1 && c & 3 == 2
    ensures v >> c == (v >> d) >> 1
  {
    if c & 4 == 4 {
    }
    if c & 8 == 8 {
    }
    if c & 16 == 16 {
    }
    if c & 32 == 32 {
    }
  }

  lemma RightFour(v: bv100, c: bv7, d: bv7)
    requires 0 < c <= 63 && d == c - 1 && c & 3 == 0
    ensures v >> c == (v >> d) >> 1
  {
    if c & 4 == 4 {
    } else if c & 8 == 8 {
    } else if c & 16 == 16 {
    }
  }

  lemma {:induction false} ValLeft(v: bv100, c: bv7)
    requires c <= 50 && v >> 50 == 0
    ensures Val(v << c) == Up(Val(v), Num(c))
    decreases c
  {
    if c == 0 {
      assert v << c == v;
    } else {
      var d := c - 1;
      ValLeft(v, d);
      LeftOnce(v, c, d);
      LeftStep(v << c, v << d, Val(v), Num(d));
    }
  }

  lemma LeftStep(x: bv100, y: bv100, a: nat, n: nat)
    requires x >> 1 == y && x & 1 == 0 && Val(y) == Up(a, n)
    ensures Val(x) == Up(a, n + 1)
  {
    ValHalf(x);
  }

  lemma LeftOnce(v: bv100, c: bv7, d: bv7)
    requires 0 < c <= 50 && v >> 50 == 0 && d == c - 1
    ensures (v << c) >> 1 == v << d && (v << c) & 1 == 0
  {
    if c & 1 == 1 { LeftOdd(v, c, d); } else { LeftEven(v, c, d); }
  }

  lemma LeftOdd(v: bv100, c: bv7, d: bv7)
    requires c <= 50 && v >> 50 == 0 && d == c - 1 && c & 1 == 1
    ensures (v << c) >> 1 == v << d && (v << c) & 1 == 0
  {
    if c & 2 == 2 {
    }
    if c & 4 == 4 {
    }
    if c & 8 == 8 {
    }
  }

  lemma LeftEven(v: bv100, c: bv7, d: bv7)
    requires 0 < c <= 50 && v >> 50 == 0 && d == c - 1 && c & 1 == 0
    ensures (v << c) >> 1 == v << d && (v << c) & 1 == 0
  {
    if c & 2 == 2 {
    }
    if c & 4 == 4 {
    }
    if c & 8 == 8 {
    }
  }

  // ----- low bits -----

  lemma OnesBound(n: bv100, c: bv7)
    requires c <= 50
    ensures (n & ((1 << c) - 1)) >> c == 0 && (n & ((1 << c) - 1)) >> 50 == 0
  {
  }

  /** The lowest `c` bits are clear. */
  predicate LowClear(z: bv100, c: bv7)
    requires c <= 50
  {
    z & ((1 << c) - 1) == 0
  }

  lemma {:induction false} ValLow(z: bv100, c: bv7)
    requires c <= 50 && LowClear(z, c)
    ensures LowZero(Val(z), Num(c))
    decreases c
  {
    hide Val, LowZero, Num, LowClear;
    if c == 0 {
      LowNone(z);
    } else {
      LowOnce(z, c);
      ValLow(z >> 1, c - 1);
      NumNext(c);
      LowStep(z, Num(c - 1));
    }
  }

  lemma NumNext(c: bv7)
    requires c > 0
    ensures Num(c) == Num(c - 1) + 1
  {
  }

  lemma LowNone(z: bv100)
    ensures LowZero(Val(z), Num(0))
  {
    hide Val;
  }

  lemma LowStep(z: bv100, n: nat)
    requires z & 1 == 0 && LowZero(Val(z >> 1), n)
    ensures LowZero(Val(z), n + 1)
  {
    ValHalf(z);
  }

  lemma LowOnce(z: bv100, c: bv7)
    requires 0 < c <= 50 && LowClear(z, c)
    ensures z & 1 == 0 && LowClear(z >> 1, c - 1)
  {
  }

  // ----- the square of a word -----

  function Spaced(v: bv100): bv100
  {
    var a: bv100 := (v | (v << 32)) & 0x0FFFFFFFF00000000FFFFFFFF;
    var b: bv100 := (a | (a << 16)) & 0xF0000FFFF0000FFFF0000FFFF;
    var c: bv100 := (b | (b << 8)) & 0xF00FF00FF00FF00FF00FF00FF;
    var d: bv100 := (c | (c << 4)) & 0xF0F0F0F0F0F0F0F0F0F0F0F0F;
    var f: bv100 := (d | (d << 2)) & 0x3333333333333333333333333;
    var x: bv100 := (f | (f << 1)) & 0x5555555555555555555555555;
    x
  }

  lemma SpacedHalf(v: bv100)
    requires v >> 49 == 0
    ensures Spaced(v) >> 2 == Spaced(v >> 1) && Spaced(v) & 1 == v & 1 && Spaced(v) & 2 == 0 && v >> 1 >> 49 == 0
  {
  }

  lemma {:induction false} ValSpaced(v: bv100)
    requires v >> 49 == 0
    ensures Val(Spaced(v)) == Spread(Val(v))
    decreases v, 1
  {
    if v == 0 {
      assert Spaced(0) == 0;
    } else {
      SpacedHalf(v);
      ValSpacedMore(v, Spaced(v));
    }
  }

  lemma {:induction false} ValSpacedMore(v: bv100, x: bv100)
    requires v != 0 && v >> 1 >> 49 == 0 && x >> 2 == Spaced(v >> 1) && x & 1 == v & 1 && x & 2 == 0
    ensures Val(x) == Spread(Val(v))
    decreases v, 0
  {
    ValSpaced(v >> 1);
    SpacedStep(v, x, Val(v >> 1));
  }

  lemma SpacedStep(v: bv100, x: bv100, p: nat)
    requires x & 1 == v & 1 && x & 2 == 0 && Val(x >> 2) == Spread(p) && p == Val(v >> 1)
    ensures Val(x) == Spread(Val(v))
  {
    hide Val;
    ValHalf(v);
    ValHalf(x);
    ValHalf(x >> 1);
    SecondBit(x);
  }

  lemma SecondBit(x: bv100)
    ensures x >> 1 >> 1 == x >> 2 && ((x >> 1) & 1 == 1 <==> x & 2 != 0)
  {
  }

  // ----- masks -----

  /** The terms of the polynomial of a mask: 1, x^a, x^b, x^c and x^w. Two that are the same cancel. */
  datatype Terms = Terms(w: nat, a: nat, b: nat, c: nat)

  ghost predicate Fits(t: Terms)
  {
    0 < t.a < t.w <= 49 && 0 < t.b < t.w && 0 < t.c < t.w
  }

  function MaskOf(t: Terms): nat
    requires Fits(t)
  {
    XorAll(Pow2(t.a - 1), Pow2(t.b - 1), Pow2(t.c - 1), Pow2(t.w - 1))
  }

  function XorAll(a: nat, b: nat, c: nat, d: nat): nat
  {
    Xor(a, Xor(b, Xor(c, d)))
  }

  lemma MaskOfIs(t: Terms)
    requires Fits(t)
    ensures IsMask(MaskOf(t), t.w)
  {
    LowTerm(t.a, t.w - 1);
    LowTerm(t.b, t.w - 1);
    LowTerm(t.c, t.w - 1);
    XorAllTop(Pow2(t.a - 1), Pow2(t.b - 1), Pow2(t.c - 1), t.w - 1);
  }

  lemma XorAllTop(a: nat, b: nat, c: nat, n: nat)
    requires a < Pow2(n) && b < Pow2(n) && c < Pow2(n)
    ensures Pow2(n) <= XorAll(a, b, c, Pow2(n)) < Pow2(n + 1)
  {
    XorTop(c, Pow2(n), n);
    XorTop(b, Xor(c, Pow2(n)), n);
    XorTop(a, Xor(b, Xor(c, Pow2(n))), n);
  }

  lemma LowTerm(a: nat, n: nat)
    requires 0 < a <= n
    ensures 0 < Pow2(a - 1) < Pow2(n)
  {
    Pow2Grows(a, n);
  }

  /** The product with the polynomial: a copy for each term. */
  lemma ProductTerms(t: Terms, f: nat)
    requires Fits(t)
    ensures Product(f, PolyOf(MaskOf(t)))
         == Xor(f, XorAll(Up(f, t.a), Up(f, t.b), Up(f, t.c), Up(f, t.w)))
  {
    PolyTerms(t);
    ProductPow2(f, 0);
    ProductXor(f, 1, XorAll(Pow2(t.a), Pow2(t.b), Pow2(t.c), Pow2(t.w)));
    ProductAll(f, t.a, t.b, t.c, t.w);
  }

  lemma ProductAll(f: nat, a: nat, b: nat, c: nat, w: nat)
    ensures Product(f, XorAll(Pow2(a), Pow2(b), Pow2(c), Pow2(w)))
         == XorAll(Up(f, a), Up(f, b), Up(f, c), Up(f, w))
  {
    ProductXor(f, Pow2(a), Xor(Pow2(b), Xor(Pow2(c), Pow2(w))));
    ProductXor(f, Pow2(b), Xor(Pow2(c), Pow2(w)));
    ProductXor(f, Pow2(c), Pow2(w));
    ProductPow2(f, a);
    ProductPow2(f, b);
    ProductPow2(f, c);
    ProductPow2(f, w);
  }

  lemma PolyTerms(t: Terms)
    requires Fits(t)
    ensures PolyOf(MaskOf(t)) == Xor(1, XorAll(Pow2(t.a), Pow2(t.b), Pow2(t.c), Pow2(t.w)))
  {
    hide Xor, XorAll;
    XorAllDouble(Pow2(t.a - 1), Pow2(t.b - 1), Pow2(t.c - 1), Pow2(t.w - 1));
    XorJoin(0, MaskOf(t), 1, 0);
    XorSelf(MaskOf(t));
  }

  lemma XorAllDouble(a: nat, b: nat, c: nat, d: nat)
    ensures XorAll(2 * a, 2 * b, 2 * c, 2 * d) == 2 * XorAll(a, b, c, d)
  {
    XorDouble(c, d);
    XorDouble(b, Xor(c, d));
    XorDouble(a, Xor(b, Xor(c, d)));
  }

  // ----- rounds -----

  /** From the top bit, `k` clocks lead to `s`. */
  ghost predicate At(t: Terms, s: nat, k: nat)
    requires Fits(t)
  {
    s == Orbit(MaskOf(t), Pow2(t.w - 1), k)
  }

  lemma RightIs(z: bv100, r: bv7, u: bv100)
    requires r <= 63 && u == z >> r
    ensures Val(u) == Down(Val(z), Num(r))
  {
    ValRight(z, r);
  }

  /** One round, in numbers. */
  lemma RoundNat(mask: nat, w: nat, k: nat, b: nat, s: nat, f: nat, m: nat)
    requires w >= 1 && mask < Pow2(w) && s == Spread(Orbit(mask, Pow2(w - 1), k))
    requires Down(f, w - 1 + b) == 0 && m == Xor(s, Product(f, PolyOf(mask))) && LowZero(m, w - 1 + b)
    ensures Down(m, w - 1 + b) == Orbit(mask, Pow2(w - 1), 2 * k + b)
  {
    DoublingOn(mask, w, k, b);
    OrbitDivides(mask, s, f, w - 1 + b);
  }

  lemma ValBound(v: bv100, n: bv7, u: bv100)
    requires n <= 63 && u == v >> n && Val(v) < Pow2(Num(n))
    ensures u == 0
  {
    RightIs(v, n, u);
    SmallDown(Val(v), Num(n));
    ValZero(u);
  }

  lemma AtBound(t: Terms, v: bv100, k: nat)
    requires Fits(t) && At(t, Val(v), k)
    ensures v >> 49 == 0
  {
    AtState(t, Val(v), k);
    NumFifty();
    ValBound(v, 49, v >> 49);
  }

  lemma NumFifty()
    ensures Num(49) == 49
  {
    assert Num(10) == 10;
    assert Num(20) == 20;
    assert Num(30) == 30;
    assert Num(40) == 40;
  }

  lemma AtState(t: Terms, s: nat, k: nat)
    requires Fits(t) && At(t, s, k)
    ensures s < Pow2(49)
  {
    MaskOfIs(t);
    LowTerm(t.w, t.w);
    OrbitState(MaskOf(t), t.w, Pow2(t.w - 1), k);
    Pow2Grows(t.w, 49);
  }

  lemma MaskBound(t: Terms)
    requires Fits(t)
    ensures t.w >= 1 && MaskOf(t) < Pow2(t.w)
  {
    MaskOfIs(t);
  }

  // ----- rounds -----

  predicate InRange(w: bv7, d1: bv7, d2: bv7, d3: bv7, s: bv7)
  {
    0 < w <= 49 && d1 <= 49 && d2 <= 49 && d3 <= 49 && s <= 49
  }

  /** By how much to multiply the polynomial, so that the `r` low bits of `x` are cleared. */
  function Multiplier(x: bv100, d1: bv7, d2: bv7, d3: bv7, s: bv7, r: bv7): bv100
    requires d1 <= 49 && d2 <= 49 && d3 <= 49 && s <= 49 && r <= 49
  {
    var m: bv100 := x ^ (x << d1) ^ (x << d2) ^ (x << d3);
    var n: bv100 := m ^ (m << s);
    (n ^ (n << (s + s))) & ((1 << r) - 1)
  }

  function Plus(a: bv100, b: bv100): bv100
  {
    a ^ b
  }

  function Multiple(y: bv100, d1: bv7, d2: bv7, d3: bv7, w: bv7): bv100
    requires d1 <= 49 && d2 <= 49 && d3 <= 49 && w <= 49
  {
    Plus(y, Plus(y << d1, Plus(y << d2, Plus(y << d3, y << w))))
  }

  /** The quotient by a power of two; zero if there is a remainder. */
  function Quotient(z: bv100, r: bv7): bv100
    requires r <= 49
  {
    if z & ((1 << r) - 1) == 0 then z >> r else 0
  }

  /** One round doubles the number of clocks, and adds one if `b` is set: square the word, and
      divide by x as often as needed. */
  function Next(w: bv7, d1: bv7, d2: bv7, d3: bv7, s: bv7, v: bv100, b: bv64): bv100
    requires InRange(w, d1, d2, d3, s) && b <= 1
  {
    var r: bv7 := w - 1 + (b as bv7);
    var x: bv100 := Spaced(v);
    Quotient(Plus(x, Multiple(Multiplier(x, d1, d2, d3, s, r), d1, d2, d3, w)), r)
  }

  /** Two, four, eight, 16 and 24 rounds, by the lowest bits of `e`. */
  function Two(w: bv7, d1: bv7, d2: bv7, d3: bv7, s: bv7, v: bv100, e: bv64): bv100
    requires InRange(w, d1, d2, d3, s)
  {
    Next(w, d1, d2, d3, s, Next(w, d1, d2, d3, s, v, (e >> 1) & 1), e & 1)
  }

  function Four(w: bv7, d1: bv7, d2: bv7, d3: bv7, s: bv7, v: bv100, e: bv64): bv100
    requires InRange(w, d1, d2, d3, s)
  {
    Two(w, d1, d2, d3, s, Two(w, d1, d2, d3, s, v, e >> 2), e)
  }

  function Eight(w: bv7, d1: bv7, d2: bv7, d3: bv7, s: bv7, v: bv100, e: bv64): bv100
    requires InRange(w, d1, d2, d3, s)
  {
    Four(w, d1, d2, d3, s, Four(w, d1, d2, d3, s, v, e >> 4), e)
  }

  function Sixteen(w: bv7, d1: bv7, d2: bv7, d3: bv7, s: bv7, v: bv100, e: bv64): bv100
    requires InRange(w, d1, d2, d3, s)
  {
    Eight(w, d1, d2, d3, s, Eight(w, d1, d2, d3, s, v, e >> 8), e)
  }

  function TwentyFour(w: bv7, d1: bv7, d2: bv7, d3: bv7, s: bv7, v: bv100, e: bv64): bv100
    requires InRange(w, d1, d2, d3, s)
  {
    Eight(w, d1, d2, d3, s, Sixteen(w, d1, d2, d3, s, v, e >> 8), e)
  }

  /** The word after `e` clocks from the top bit, unless it is zero. */
  function Power(w: bv7, d1: bv7, d2: bv7, d3: bv7, s: bv7, e: bv64): bv100
    requires InRange(w, d1, d2, d3, s)
    decreases e
  {
    if e < w as bv64 then 1 << (w - 1 - e as bv7)
    else TwentyFour(w, d1, d2, d3, s, Power(w, d1, d2, d3, s, e >> 24), e)
  }

  // ----- the rounds are right -----

  ghost predicate Same(t: Terms, w: bv7, d1: bv7, d2: bv7, d3: bv7)
  {
    t == Terms(Num(w), Num(d1), Num(d2), Num(d3))
  }

  lemma MultiplierLow(x: bv100, d1: bv7, d2: bv7, d3: bv7, s: bv7, r: bv7, y: bv100)
    requires d1 <= 49 && d2 <= 49 && d3 <= 49 && s <= 49 && r <= 49 && y == Multiplier(x, d1, d2, d3, s, r)
    ensures y >> r == 0 && y >> 50 == 0
  {
    var m: bv100 := x ^ (x << d1) ^ (x << d2) ^ (x << d3);
    var n: bv100 := m ^ (m << s);
    OnesBound(n ^ (n << (s + s)), r);
  }

  ghost predicate Narrow(y: bv100)
  {
    y >> 50 == 0
  }

  lemma LowWord(y: bv100, r: bv7)
    requires r <= 49 && y >> r == 0
    ensures Down(Val(y), Num(r)) == 0
  {
    ValRight(y, r);
  }

  lemma PlusIs(a: bv100, b: bv100)
    ensures Val(Plus(a, b)) == Xor(Val(a), Val(b))
  {
    ValXor(a, b);
  }

  lemma LeftIs(y: bv100, c: bv7)
    requires c <= 49 && Narrow(y)
    ensures Val(y << c) == Up(Val(y), Num(c))
  {
    ValLeft(y, c);
  }

  lemma MultipleIs(t: Terms, y: bv100, d1: bv7, d2: bv7, d3: bv7, w: bv7)
    requires d1 <= 49 && d2 <= 49 && d3 <= 49 && w <= 49 && Narrow(y) && Fits(t) && Same(t, w, d1, d2, d3)
    ensures Val(Multiple(y, d1, d2, d3, w)) == Product(Val(y), PolyOf(MaskOf(t)))
  {
    LeftIs(y, d1);
    LeftIs(y, d2);
    LeftIs(y, d3);
    LeftIs(y, w);
    SumIs(y, y << d1, y << d2, y << d3, y << w);
    ProductTerms(t, Val(y));
  }

  lemma SumIs(y: bv100, a: bv100, b: bv100, c: bv100, d: bv100)
    ensures Val(Plus(y, Plus(a, Plus(b, Plus(c, d))))) == Xor(Val(y), XorAll(Val(a), Val(b), Val(c), Val(d)))
  {
    PlusIs(c, d);
    PlusIs(b, Plus(c, d));
    PlusIs(a, Plus(b, Plus(c, d)));
    PlusIs(y, Plus(a, Plus(b, Plus(c, d))));
  }

  lemma QuotientIs(z: bv100, r: bv7)
    requires r <= 49 && Quotient(z, r) != 0
    ensures LowZero(Val(z), Num(r)) && Val(Quotient(z, r)) == Down(Val(z), Num(r))
  {
    ValLow(z, r);
    ValRight(z, r);
  }

  lemma SquareIs(t: Terms, v: bv100, k: nat)
    requires Fits(t) && At(t, Val(v), k)
    ensures Val(Spaced(v)) == Spread(Orbit(MaskOf(t), Pow2(t.w - 1), k))
  {
    AtBound(t, v, k);
    ValSpaced(v);
  }

  lemma RoundIs(t: Terms, k: nat, b: nat, x: bv100, r: bv7, y: bv100, p: bv100)
    requires r <= 49 && Quotient(Plus(x, p), r) != 0
    requires Fits(t) && Num(r) == t.w - 1 + b && Down(Val(y), Num(r)) == 0
    requires Val(x) == Spread(Orbit(MaskOf(t), Pow2(t.w - 1), k)) && Val(p) == Product(Val(y), PolyOf(MaskOf(t)))
    ensures At(t, Val(Quotient(Plus(x, p), r)), 2 * k + b)
  {
    PlusIs(x, p);
    QuotientIs(Plus(x, p), r);
    MaskBound(t);
    RoundNat(MaskOf(t), t.w, k, b, Val(x), Val(y), Xor(Val(x), Val(p)));
  }

  lemma RoundShift(w: bv7, b: bv64, r: bv7)
    requires 0 < w <= 49 && b <= 1 && r == w - 1 + (b as bv7)
    ensures r <= 49 && Num(r) == Num(w) - 1 + if b == 1 then 1 else 0
  {
  }

  lemma MultipleRound(t: Terms, w: bv7, d1: bv7, d2: bv7, d3: bv7, k: nat, b: nat, x: bv100, r: bv7, y: bv100)
    requires d1 <= 49 && d2 <= 49 && d3 <= 49 && w <= 49 && r <= 49 && Narrow(y)
    requires Quotient(Plus(x, Multiple(y, d1, d2, d3, w)), r) != 0
    requires Fits(t) && Same(t, w, d1, d2, d3) && Num(r) == t.w - 1 + b && Down(Val(y), Num(r)) == 0
    requires Val(x) == Spread(Orbit(MaskOf(t), Pow2(t.w - 1), k))
    ensures At(t, Val(Quotient(Plus(x, Multiple(y, d1, d2, d3, w)), r)), 2 * k + b)
  {
    MultipleIs(t, y, d1, d2, d3, w);
    RoundIs(t, k, b, x, r, y, Multiple(y, d1, d2, d3, w));
  }

  lemma {:induction false} MultiplierIs(x: bv100, d1: bv7, d2: bv7, d3: bv7, s: bv7, r: bv7)
    requires d1 <= 49 && d2 <= 49 && d3 <= 49 && s <= 49 && r <= 49
    ensures Narrow(Multiplier(x, d1, d2, d3, s, r)) && Down(Val(Multiplier(x, d1, d2, d3, s, r)), Num(r)) == 0
  {
    MultiplierLow(x, d1, d2, d3, s, r, Multiplier(x, d1, d2, d3, s, r));
    LowWord(Multiplier(x, d1, d2, d3, s, r), r);
  }

  lemma NextIs(t: Terms, w: bv7, d1: bv7, d2: bv7, d3: bv7, s: bv7, v: bv100, k: nat, b: bv64)
    requires InRange(w, d1, d2, d3, s) && b <= 1 && Next(w, d1, d2, d3, s, v, b) != 0
    requires Fits(t) && Same(t, w, d1, d2, d3) && At(t, Val(v), k)
    ensures At(t, Val(Next(w, d1, d2, d3, s, v, b)), 2 * k + if b == 1 then 1 else 0)
  {
    hide Multiple, Multiplier, Quotient, Spaced, Val;
    var r: bv7 := w - 1 + (b as bv7);
    RoundShift(w, b, r);
    SquareIs(t, v, k);
    MultiplierIs(Spaced(v), d1, d2, d3, s, r);
    MultipleRound(t, w, d1, d2, d3, k, if b == 1 then 1 else 0, Spaced(v), r, Multiplier(Spaced(v), d1, d2, d3, s, r));
  }

  /** A zero stays. */
  lemma NextZero(w: bv7, d1: bv7, d2: bv7, d3: bv7, s: bv7, b: bv64)
    requires InRange(w, d1, d2, d3, s) && b <= 1
    ensures Next(w, d1, d2, d3, s, 0, b) == 0
  {
    assert Spaced(0) == 0;
  }

  /** The number of clocks. */
  function Count(e: bv64): nat
    decreases e
  {
    if e == 0 then 0 else Bit(e) + 2 * Count(e >> 1)
  }

  function Bit(e: bv64): nat
  {
    if e & 1 == 1 then 1 else 0
  }

  /** As many clocks as `e` says lead to the word, unless it is zero. */
  ghost predicate Reached(t: Terms, v: bv100, e: bv64)
    requires Fits(t)
  {
    v == 0 || At(t, Val(v), Count(e))
  }

  lemma OneIs(t: Terms, w: bv7, d1: bv7, d2: bv7, d3: bv7, s: bv7, v: bv100, e: bv64, h: bv64)
    requires InRange(w, d1, d2, d3, s) && h == e >> 1 && Fits(t) && Same(t, w, d1, d2, d3) && Reached(t, v, h)
    ensures Reached(t, Next(w, d1, d2, d3, s, v, e & 1), e)
  {
    hide Next, Val;
    if v == 0 {
      NextZero(w, d1, d2, d3, s, e & 1);
    } else if Next(w, d1, d2, d3, s, v, e & 1) != 0 {
      NextIs(t, w, d1, d2, d3, s, v, Count(h), e & 1);
      CountStep(e, h);
    }
  }

  lemma TwoIs(t: Terms, w: bv7, d1: bv7, d2: bv7, d3: bv7, s: bv7, v: bv100, e: bv64, h: bv64)
    requires InRange(w, d1, d2, d3, s) && h == e >> 2 && Fits(t) && Same(t, w, d1, d2, d3) && Reached(t, v, h)
    ensures Reached(t, Two(w, d1, d2, d3, s, v, e), e)
  {
    hide Reached, Next;
    OneIs(t, w, d1, d2, d3, s, v, e >> 1, h);
    OneIs(t, w, d1, d2, d3, s, Next(w, d1, d2, d3, s, v, (e >> 1) & 1), e, e >> 1);
  }

  lemma FourIs(t: Terms, w: bv7, d1: bv7, d2: bv7, d3: bv7, s: bv7, v: bv100, e: bv64, h: bv64)
    requires InRange(w, d1, d2, d3, s) && h == e >> 4 && Fits(t) && Same(t, w, d1, d2, d3) && Reached(t, v, h)
    ensures Reached(t, Four(w, d1, d2, d3, s, v, e), e)
  {
    hide Reached, Two;
    TwoIs(t, w, d1, d2, d3, s, v, e >> 2, h);
    TwoIs(t, w, d1, d2, d3, s, Two(w, d1, d2, d3, s, v, e >> 2), e, e >> 2);
  }

  lemma EightIs(t: Terms, w: bv7, d1: bv7, d2: bv7, d3: bv7, s: bv7, v: bv100, e: bv64, h: bv64)
    requires InRange(w, d1, d2, d3, s) && h == e >> 8 && Fits(t) && Same(t, w, d1, d2, d3) && Reached(t, v, h)
    ensures Reached(t, Eight(w, d1, d2, d3, s, v, e), e)
  {
    hide Reached, Four;
    FourIs(t, w, d1, d2, d3, s, v, e >> 4, h);
    FourIs(t, w, d1, d2, d3, s, Four(w, d1, d2, d3, s, v, e >> 4), e, e >> 4);
  }

  lemma SixteenIs(t: Terms, w: bv7, d1: bv7, d2: bv7, d3: bv7, s: bv7, v: bv100, e: bv64, h: bv64)
    requires InRange(w, d1, d2, d3, s) && h == e >> 16 && Fits(t) && Same(t, w, d1, d2, d3) && Reached(t, v, h)
    ensures Reached(t, Sixteen(w, d1, d2, d3, s, v, e), e)
  {
    hide Reached, Eight;
    EightIs(t, w, d1, d2, d3, s, v, e >> 8, h);
    EightIs(t, w, d1, d2, d3, s, Eight(w, d1, d2, d3, s, v, e >> 8), e, e >> 8);
  }

  lemma TwentyFourIs(t: Terms, w: bv7, d1: bv7, d2: bv7, d3: bv7, s: bv7, v: bv100, e: bv64, h: bv64)
    requires InRange(w, d1, d2, d3, s) && h == e >> 24 && Fits(t) && Same(t, w, d1, d2, d3) && Reached(t, v, h)
    ensures Reached(t, TwentyFour(w, d1, d2, d3, s, v, e), e)
  {
    hide Reached, Eight, Sixteen;
    SixteenIs(t, w, d1, d2, d3, s, v, e >> 8, h);
    EightIs(t, w, d1, d2, d3, s, Sixteen(w, d1, d2, d3, s, v, e >> 8), e, e >> 8);
  }

  /** The word is where so many clocks lead. */
  lemma {:induction false} PowerIs(t: Terms, w: bv7, d1: bv7, d2: bv7, d3: bv7, s: bv7, e: bv64)
    requires InRange(w, d1, d2, d3, s) && Fits(t) && Same(t, w, d1, d2, d3)
    ensures Reached(t, Power(w, d1, d2, d3, s, e), e)
    decreases e
  {
    hide Reached, TwentyFour;
    if e < w as bv64 {
      StartIs(t, w, e);
    } else {
      PowerIs(t, w, d1, d2, d3, s, e >> 24);
      TwentyFourIs(t, w, d1, d2, d3, s, Power(w, d1, d2, d3, s, e >> 24), e, e >> 24);
    }
  }

  lemma StartIs(t: Terms, w: bv7, e: bv64)
    requires 0 < w <= 49 && e < w as bv64 && Fits(t) && t.w == Num(w)
    ensures Reached(t, 1 << (w - 1 - e as bv7), e)
  {
    hide Val, Num, Count, At, Pow2, Up;
    var c: bv7 := w - 1 - e as bv7;
    StartCount(w, e, c);
    ValTop(c);
    StartAt(t, Num(c), Count(e));
  }

  lemma StartAt(t: Terms, c: nat, k: nat)
    requires Fits(t) && c + k == t.w - 1
    ensures At(t, Pow2(c), k)
  {
    OrbitUp(MaskOf(t), Pow2(c), k);
    UpMore(c, k);
  }

  lemma ValTop(c: bv7)
    requires c <= 49
    ensures Val(1 << c) == Pow2(Num(c))
  {
    ValLeft(1, c);
    UpIs(1, Num(c));
    assert Val(1) == 1;
  }

  lemma {:induction false} UpMore(a: nat, n: nat)
    ensures Up(Pow2(a), n) == Pow2(a + n)
  {
    if n > 0 { UpMore(a, n - 1); }
  }

  lemma StartCount(w: bv7, e: bv64, c: bv7)
    requires 0 < w <= 49 && e < w as bv64 && c == w - 1 - e as bv7
    ensures Num(c) + Count(e) == Num(w) - 1
  {
    hide Num, Count;
    NumIs(c);
    NumIs(w);
    CountIs(e);
    Narrowed(e, e as bv7);
    Remaining(w, e as bv7, c);
  }

  lemma Narrowed(e: bv64, f: bv7)
    requires e < 49 && f == e as bv7
    ensures f as nat == e as nat
  {
  }

  lemma Remaining(w: bv7, f: bv7, c: bv7)
    requires 0 < w <= 49 && f < w && c == w - 1 - f
    ensures c as nat + f as nat == w as nat - 1
  {
  }

  lemma {:induction false} NumIs(c: bv7)
    ensures Num(c) == c as nat
    decreases c
  {
    if c != 0 {
      NumIs(c - 1);
      OneLess(c);
    }
  }

  lemma OneLess(c: bv7)
    requires c > 0
    ensures (c - 1) as nat == c as nat - 1
  {
  }

  lemma HalfNat(e: bv64, h: bv64)
    requires h == e >> 1
    ensures e as nat == 2 * (h as nat) + Bit(e)
  {
    Rejoin(e, h);
    NextCount(h, e, e);
  }

  lemma Rejoin(e: bv64, h: bv64)
    requires h == e >> 1
    ensures e == (h << 1) | (e & 1) && h >> 63 == 0
  {
  }

  lemma NextCount(k: bv64, e: bv64, k1: bv64)
    requires k >> 63 == 0 && k1 == (k << 1) | (e & 1)
    ensures k1 as nat == 2 * (k as nat) + Bit(e)
  {
  }

  lemma {:induction false} CountIs(e: bv64)
    ensures Count(e) == e as nat
    decreases e
  {
    hide Count, Bit;
    if e == 0 {
      CountZero();
    } else {
      CountIs(e >> 1);
      HalfNat(e, e >> 1);
      CountStep(e, e >> 1);
    }
  }

  lemma CountZero()
    ensures Count(0) == 0
  {
  }

  lemma CountStep(e: bv64, h: bv64)
    requires h == e >> 1
    ensures Count(e) == Bit(e) + 2 * Count(h)
  {
  }
}
