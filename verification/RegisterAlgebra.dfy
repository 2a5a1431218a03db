/** The register as arithmetic: a number is a polynomial over two elements, and a clock
    divides by x modulo the polynomial P of the mask. */
module RegisterAlgebra {
  import opened Bits
  import opened ShiftOrbits

  // ----- the algebra of exclusive or -----

  lemma {:induction false} XorSelf(a: nat)
    ensures Xor(a, a) == 0 && Xor(a, 0) == a && Xor(0, a) == a
  {
    if a > 0 { XorSelf(a / 2); }
  }

  lemma {:induction false} XorSwap(a: nat, b: nat)
    ensures Xor(a, b) == Xor(b, a)
    decreases a + b
  {
    if a > 0 || b > 0 { XorSwap(a / 2, b / 2); }
  }

  lemma XorHalf(a: nat, b: nat)
    ensures Xor(a, b) / 2 == Xor(a / 2, b / 2) && Xor(a, b) % 2 == if a % 2 == b % 2 then 0 else 1
  {
  }

  lemma {:induction false} XorGroup(a: nat, b: nat, c: nat)
    ensures Xor(Xor(a, b), c) == Xor(a, Xor(b, c))
    decreases a + b + c
  {
    if a > 0 || b > 0 || c > 0 {
      XorGroup(a / 2, b / 2, c / 2);
      XorHalf(a, b);
      XorHalf(b, c);
      XorHalf(Xor(a, b), c);
      XorHalf(a, Xor(b, c));
    }
  }

  /** Four terms regroup. */
  lemma XorCross(a: nat, b: nat, c: nat, d: nat)
    ensures Xor(Xor(a, b), Xor(c, d)) == Xor(Xor(a, c), Xor(b, d))
  {
    XorGroup(a, b, Xor(c, d));
    XorGroup(b, c, d);
    XorSwap(b, c);
    XorGroup(c, b, d);
    XorGroup(a, c, Xor(b, d));
  }

  lemma XorDouble(a: nat, b: nat)
    ensures Xor(2 * a, 2 * b) == 2 * Xor(a, b) && Xor(2 * a + 1, 2 * b) == 2 * Xor(a, b) + 1
  {
    XorHalf(2 * a, 2 * b);
    XorHalf(2 * a + 1, 2 * b);
  }

  // ----- a clock is linear, and divides by two -----

  lemma ShiftedXor(mask: nat, a: nat, b: nat)
    ensures Shifted(mask, Xor(a, b)) == Xor(Shifted(mask, a), Shifted(mask, b))
  {
    XorHalf(a, b);
    XorSelf(a / 2);
    XorSelf(b / 2);
    XorSelf(mask);
    XorCross(a / 2, mask, b / 2, if b % 2 == 1 then mask else 0);
    XorCross(a / 2, 0, b / 2, if b % 2 == 1 then mask else 0);
    XorSelf(Xor(a / 2, b / 2));
  }

  lemma {:induction false} OrbitXor(mask: nat, a: nat, b: nat, k: nat)
    ensures Orbit(mask, Xor(a, b), k) == Xor(Orbit(mask, a, k), Orbit(mask, b, k))
  {
    if k > 0 {
      OrbitXor(mask, a, b, k - 1);
      ShiftedXor(mask, Orbit(mask, a, k - 1), Orbit(mask, b, k - 1));
    }
  }

  /** One clock first. */
  lemma OrbitNext(mask: nat, s: nat, k: nat)
    ensures Orbit(mask, s, k + 1) == Orbit(mask, Shifted(mask, s), k)
  {
    assert Orbit(mask, s, 1) == Shifted(mask, Orbit(mask, s, 0));
    OrbitSum(mask, s, 1, k);
  }

  /** Shifted up and down by some bits. */
  function Up(a: nat, n: nat): nat
  {
    if n == 0 then a else 2 * Up(a, n - 1)
  }

  function Down(a: nat, n: nat): nat
  {
    if n == 0 then a else Down(a, n - 1) / 2
  }

  ghost predicate LowZero(a: nat, n: nat)
  {
    n == 0 || (a % 2 == 0 && LowZero(a / 2, n - 1))
  }

  lemma {:induction false} DownNext(a: nat, n: nat)
    ensures Down(a, n + 1) == Down(a / 2, n)
  {
    if n > 0 { DownNext(a, n - 1); }
  }

  lemma {:induction false} UpIs(a: nat, n: nat)
    ensures Up(a, n) == a * Pow2(n)
  {
    if n > 0 {
      UpIs(a, n - 1);
      assert a * Pow2(n) == 2 * (a * Pow2(n - 1));
    }
  }

  lemma {:induction false} SmallDown(a: nat, n: nat)
    requires a < Pow2(n)
    ensures Down(a, n) == 0
  {
    if n > 0 {
      DownNext(a, n - 1);
      SmallDown(a / 2, n - 1);
    }
  }

  lemma {:induction false} OrbitUp(mask: nat, a: nat, k: nat)
    ensures Orbit(mask, Up(a, k), k) == a
  {
    if k > 0 {
      OrbitNext(mask, Up(a, k), k - 1);
      OrbitUp(mask, a, k - 1);
    }
  }

  /** As long as the low bits are zero the clocks only shift. */
  lemma {:induction false} OrbitDown(mask: nat, m: nat, k: nat)
    requires LowZero(m, k)
    ensures Orbit(mask, m, k) == Down(m, k)
  {
    if k > 0 {
      OrbitNext(mask, m, k - 1);
      OrbitDown(mask, m / 2, k - 1);
      DownNext(m, k - 1);
    }
  }

  // ----- products without carries -----

  function Product(f: nat, p: nat): nat
  {
    if f == 0 then 0 else Xor(if f % 2 == 1 then p else 0, 2 * Product(f / 2, p))
  }

  lemma {:induction false} ProductXor(f: nat, p: nat, q: nat)
    ensures Product(f, Xor(p, q)) == Xor(Product(f, p), Product(f, q))
  {
    if f == 0 {
      XorSelf(0);
    } else {
      ProductXor(f / 2, p, q);
      var a, b := Product(f / 2, p), Product(f / 2, q);
      XorDouble(a, b);
      XorCross(if f % 2 == 1 then p else 0, 2 * a, if f % 2 == 1 then q else 0, 2 * b);
      XorSelf(0);
    }
  }

  lemma {:induction false} ProductPow2(f: nat, k: nat)
    ensures Product(f, Pow2(k)) == Up(f, k)
  {
    if f == 0 {
      UpZero(k);
    } else {
      ProductPow2(f / 2, k);
      UpHalf(f, k);
      XorSelf(2 * Up(f / 2, k));
    }
  }

  lemma {:induction false} UpZero(k: nat)
    ensures Up(0, k) == 0
  {
    if k > 0 { UpZero(k - 1); }
  }

  /** The lowest bit apart. */
  lemma {:induction false} UpHalf(f: nat, k: nat)
    ensures Up(f, k) == 2 * Up(f / 2, k) + if f % 2 == 1 then Pow2(k) else 0
    ensures Xor(Pow2(k), 2 * Up(f / 2, k)) == Pow2(k) + 2 * Up(f / 2, k)
  {
    if k == 0 {
      XorDouble(0, f / 2);
      XorSelf(f / 2);
    } else {
      UpHalf(f, k - 1);
      XorDouble(Pow2(k - 1), 2 * Up(f / 2, k - 1));
    }
  }

  /** The polynomial of a mask. */
  function PolyOf(mask: nat): nat
  {
    2 * mask + 1
  }

  /** A clock takes a multiple of the polynomial to a multiple, so that multiples vanish. */
  lemma {:induction false} ShiftedProduct(mask: nat, f: nat)
    ensures Shifted(mask, Product(f, PolyOf(mask))) == Product(f / 2, PolyOf(mask))
  {
    var a := Product(f / 2, PolyOf(mask));
    if f == 0 {
    } else if f % 2 == 1 {
      XorDouble(mask, a);
      XorSwap(mask, a);
      XorTwice(a, mask);
    } else {
      XorSelf(2 * a);
    }
  }

  lemma {:induction false} OrbitProduct(mask: nat, f: nat, k: nat)
    requires Down(f, k) == 0
    ensures Orbit(mask, Product(f, PolyOf(mask)), k) == 0
  {
    if k > 0 {
      OrbitNext(mask, Product(f, PolyOf(mask)), k - 1);
      ShiftedProduct(mask, f);
      DownNext(f, k - 1);
      OrbitProduct(mask, f / 2, k - 1);
    }
  }

  /** Going on from a number is dividing, once a multiple of P has cleared the low bits. */
  lemma OrbitDivides(mask: nat, v: nat, f: nat, k: nat)
    requires Down(f, k) == 0 && LowZero(Xor(v, Product(f, PolyOf(mask))), k)
    ensures Orbit(mask, v, k) == Down(Xor(v, Product(f, PolyOf(mask))), k)
  {
    OrbitXor(mask, v, Product(f, PolyOf(mask)), k);
    OrbitProduct(mask, f, k);
    XorSelf(Orbit(mask, v, k));
    OrbitDown(mask, Xor(v, Product(f, PolyOf(mask))), k);
  }

  // ----- squares -----

  /** The square: a zero between every two bits. */
  function Spread(f: nat): nat
  {
    if f == 0 then 0 else f % 2 + 4 * Spread(f / 2)
  }

  lemma {:induction false} SpreadXor(a: nat, b: nat)
    ensures Spread(Xor(a, b)) == Xor(Spread(a), Spread(b))
    decreases a + b
  {
    if a > 0 || b > 0 {
      SpreadXor(a / 2, b / 2);
      XorHalf(a, b);
      XorFour(Spread(a / 2), Spread(b / 2), a % 2, b % 2);
    }
  }

  lemma {:induction false} XorFour(s: nat, t: nat, b: nat, c: nat)
    requires b < 2 && c < 2
    ensures Xor(4 * s + b, 4 * t + c) == 4 * Xor(s, t) + if b == c then 0 else 1
  {
    hide Xor;
    XorHalf(4 * s + b, 4 * t + c);
    assert (4 * s + b) / 2 == 2 * s && (4 * t + c) / 2 == 2 * t;
    XorHalf(2 * s, 2 * t);
  }

  lemma ProductOdd(f: nat, a: nat)
    ensures Product(f, 2 * a + 1) == Xor(2 * Product(f, a), f)
  {
    XorDouble(0, a);
    XorSelf(a);
    assert Xor(1, 2 * a) == 2 * a + 1;
    XorSwap(1, 2 * a);
    ProductXor(f, 2 * a, 1);
    ProductPow2(f, 0);
    ProductTwice(f, a);
  }

  lemma {:induction false} ProductTwice(f: nat, a: nat)
    ensures Product(f, 2 * a) == 2 * Product(f, a)
  {
    if f > 0 {
      ProductTwice(f / 2, a);
      XorDouble(if f % 2 == 1 then a else 0, 2 * Product(f / 2, a));
    }
  }

  /** It is the product with itself. */
  lemma {:induction false} SpreadIsSquare(f: nat)
    ensures Spread(f) == Product(f, f)
  {
    if f > 0 {
      var a := f / 2;
      SpreadIsSquare(a);
      var s := Product(a, a);
      if f % 2 == 0 {
        ProductTwice(a, a);
        XorSelf(2 * Product(a, f));
      } else {
        ProductOdd(a, a);
        XorDouble(a, Xor(2 * s, a));
        XorSwap(2 * s, a);
        XorGroup(a, a, 2 * s);
        XorSelf(a);
        XorSelf(2 * s);
      }
    }
  }

  // ----- doubling -----

  /** Twice the way for the square. */
  lemma {:induction false} SpreadNext(mask: nat, w: nat, v: nat)
    requires w >= 1 && mask < Pow2(w)
    ensures Orbit(mask, Spread(Shifted(mask, v)), w - 1) == Orbit(mask, Spread(v), w + 1)
  {
    hide Orbit, Xor;
    var a := v / 2;
    FourLeads(mask, Spread(a), w);
    if v % 2 == 1 {
      SpreadXor(a, mask);
      OrbitXor(mask, Spread(a), Spread(mask), w - 1);
      OneLeads(mask, w);
      XorFour(Spread(a), 0, 0, 1);
      XorSelf(Spread(a));
      OrbitXor(mask, 4 * Spread(a), 1, w + 1);
    }
  }

  lemma OneLeads(mask: nat, w: nat)
    requires w >= 1 && mask < Pow2(w)
    ensures Orbit(mask, 1, w + 1) == Orbit(mask, Spread(mask), w - 1)
  {
    PolyVanishes(mask, w);
    OrbitXor(mask, 1, 4 * Spread(mask), w + 1);
    FourLeads(mask, Spread(mask), w);
    ZeroXor(Orbit(mask, 1, w + 1), Orbit(mask, Spread(mask), w - 1));
  }

  /** The square of the polynomial is a multiple of it. */
  lemma PolyVanishes(mask: nat, w: nat)
    requires mask < Pow2(w)
    ensures Orbit(mask, Xor(1, 4 * Spread(mask)), w + 1) == 0
  {
    var p := PolyOf(mask);
    assert p / 2 == mask && p % 2 == 1;
    XorFour(0, Spread(mask), 1, 0);
    XorSelf(Spread(mask));
    SpreadIsSquare(p);
    SmallDown(p, w + 1);
    OrbitProduct(mask, p, w + 1);
  }

  lemma FourLeads(mask: nat, s: nat, w: nat)
    requires w >= 1
    ensures Orbit(mask, 4 * s, w + 1) == Orbit(mask, s, w - 1)
  {
    OrbitUp(mask, s, 2);
    assert Up(s, 2) == 2 * Up(s, 1) == 4 * s;
    OrbitSum(mask, 4 * s, 2, w - 1);
  }

  lemma ZeroXor(a: nat, b: nat)
    requires Xor(a, b) == 0
    ensures a == b
  {
    XorTwice(a, b);
    XorSelf(b);
  }

  /** From the top bit, where `k` clocks lead, twice as many lead to the square. */
  lemma {:induction false} Doubling(mask: nat, w: nat, k: nat)
    requires w >= 1 && mask < Pow2(w)
    ensures Orbit(mask, Spread(Orbit(mask, Pow2(w - 1), k)), w - 1) == Orbit(mask, Pow2(w - 1), 2 * k)
  {
    var top := Pow2(w - 1);
    if k == 0 {
      SpreadPow2(w - 1);
      OrbitUp(mask, top, w - 1);
    } else {
      Doubling(mask, w, k - 1);
      var v := Orbit(mask, top, k - 1);
      SpreadNext(mask, w, v);
      OrbitSum(mask, Spread(v), w - 1, 2);
      OrbitSum(mask, top, 2 * (k - 1), 2);
    }
  }

  lemma {:induction false} SpreadPow2(n: nat)
    ensures Spread(Pow2(n)) == Up(Pow2(n), n)
  {
    if n > 0 {
      SpreadPow2(n - 1);
      UpDouble(Pow2(n - 1), n - 1);
    }
  }

  lemma {:induction false} UpDouble(a: nat, n: nat)
    ensures Up(2 * a, n) == 2 * Up(a, n)
  {
    if n > 0 { UpDouble(a, n - 1); }
  }

  /** One more clock if wanted. */
  lemma DoublingOn(mask: nat, w: nat, k: nat, b: nat)
    requires w >= 1 && mask < Pow2(w)
    ensures Orbit(mask, Spread(Orbit(mask, Pow2(w - 1), k)), w - 1 + b) == Orbit(mask, Pow2(w - 1), 2 * k + b)
  {
    Doubling(mask, w, k);
    OrbitSum(mask, Spread(Orbit(mask, Pow2(w - 1), k)), w - 1, b);
    OrbitSum(mask, Pow2(w - 1), 2 * k, b);
  }
}
