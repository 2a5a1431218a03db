/** When a mask has full period: the top bit comes back after 2^w - 1 clocks, but after no part
    of them that lacks a prime factor. */
module TableCycles {
  import opened Bits
  import opened Primes
  import opened RegisterAlgebra
  import opened RegisterWords
  import opened ShiftOrbits

  ghost function TermsOf(w: bv7, d1: bv7, d2: bv7, d3: bv7): Terms
  {
    Terms(w as nat, d1 as nat, d2 as nat, d3 as nat)
  }

  /** After `n` clocks the top bit comes back. */
  ghost predicate Comes(t: Terms, n: nat)
    requires Fits(t)
  {
    Orbit(MaskOf(t), Pow2(t.w - 1), n) == Pow2(t.w - 1)
  }

  lemma SameTerms(w: bv7, d1: bv7, d2: bv7, d3: bv7)
    ensures Same(TermsOf(w, d1, d2, d3), w, d1, d2, d3)
  {
    NumIs(w);
    NumIs(d1);
    NumIs(d2);
    NumIs(d3);
  }

  lemma ValOfTop(w: bv7)
    requires 0 < w <= 49
    ensures Val(1 << (w - 1)) == Pow2(w as nat - 1)
  {
    ValTop(w - 1);
    NumIs(w - 1);
    OneLess(w);
  }

  /** The word tells whether the top bit is back. */
  lemma PowerTells(w: bv7, d1: bv7, d2: bv7, d3: bv7, s: bv7, e: bv64)
    requires InRange(w, d1, d2, d3, s) && Fits(TermsOf(w, d1, d2, d3)) && Power(w, d1, d2, d3, s, e) != 0
    ensures Comes(TermsOf(w, d1, d2, d3), e as nat) <==> Power(w, d1, d2, d3, s, e) == 1 << (w - 1)
  {
    hide Power, Val, Same;
    var t, v := TermsOf(w, d1, d2, d3), Power(w, d1, d2, d3, s, e);
    SameTerms(w, d1, d2, d3);
    PowerIs(t, w, d1, d2, d3, s, e);
    CountIs(e);
    ValOfTop(w);
    if Val(v) == Val(1 << (w - 1)) { ValInjective(v, 1 << (w - 1)); }
  }

  /** If the top bit comes back after 2^w - 1 clocks, and after no part of them, then no state
      comes back earlier. */
  lemma FullCycle(t: Terms, s: seq<nat>, n: nat)
    requires Fits(t) && t.w >= 2 && n == Pow2(t.w) - 1 && Factors(s, n) && Comes(t, n)
    requires forall p | p in s :: !Comes(t, n / p)
    ensures FullPeriod(MaskOf(t), t.w)
  {
    hide IsPrime, ProductOf, MaskOf;
    MaskOfIs(t);
    var r := (k: nat) => Orbit(MaskOf(t), Pow2(t.w - 1), k) == Pow2(t.w - 1);
    ComesClosed(t, r);
    forall k | 0 < k < n ensures Orbit(MaskOf(t), 1, k) != 1 {
      FirstReturn(r, s, n, k);
      if Orbit(MaskOf(t), 1, k) == 1 { TopReturns(MaskOf(t), t.w, k); }
    }
  }

  /** With state 1 the top bit comes back, too. */
  lemma TopReturns(mask: nat, w: nat, k: nat)
    requires IsMask(mask, w) && Orbit(mask, 1, k) == 1
    ensures Orbit(mask, Pow2(w - 1), k) == Pow2(w - 1)
  {
    var top := Pow2(w - 1);
    UpIs(1, w - 1);
    OrbitUp(mask, 1, w - 1);
    OrbitSum(mask, top, w - 1, k);
    TopIsState(w);
    OrbitRepeats(mask, w, top, w - 1, w - 1 + k);
  }

  lemma TopIsState(w: nat)
    requires w >= 1
    ensures IsState(w, Pow2(w - 1))
  {
  }

  lemma ComesClosed(t: Terms, r: nat -> bool)
    requires Fits(t) && forall k: nat :: r(k) <==> Comes(t, k)
    ensures Closed(r)
  {
    hide MaskOf;
    MaskOfIs(t);
    forall i: nat, j: nat | r(i) && r(j) ensures r(i + j) && (i <= j ==> r(j - i)) {
      OrbitSum(MaskOf(t), Pow2(t.w - 1), i, j);
      if i <= j {
        TopIsState(t.w);
        OrbitRepeats(MaskOf(t), t.w, Pow2(t.w - 1), i, j);
      }
    }
  }

  lemma Returns(t: Terms, w: bv7, d1: bv7, d2: bv7, d3: bv7, s: bv7, e: bv64, n: nat)
    requires InRange(w, d1, d2, d3, s) && t == TermsOf(w, d1, d2, d3) && Fits(t) && e as nat == n
    requires Power(w, d1, d2, d3, s, e) == 1 << (w - 1)
    ensures Comes(t, n)
  {
    hide Power;
    assert 1 << (w - 1) != 0 as bv100;
    PowerTells(w, d1, d2, d3, s, e);
  }

  lemma Leaves(t: Terms, w: bv7, d1: bv7, d2: bv7, d3: bv7, s: bv7, e: bv64, n: nat)
    requires InRange(w, d1, d2, d3, s) && t == TermsOf(w, d1, d2, d3) && Fits(t) && e as nat == n
    requires Power(w, d1, d2, d3, s, e) != 0 && Power(w, d1, d2, d3, s, e) != 1 << (w - 1)
    ensures !Comes(t, n)
  {
    hide Power;
    PowerTells(w, d1, d2, d3, s, e);
  }

  // ----- masks as numbers -----

  /** The mask is the sum of its powers. */
  lemma {:induction false} MaskSum(t: Terms)
    requires Fits(t) && (t.a == t.b == t.c || t.a < t.b < t.c)
    ensures MaskOf(t) == Pow2(t.a - 1) + (if t.b == t.c then 0 else Pow2(t.b - 1) + Pow2(t.c - 1)) + Pow2(t.w - 1)
  {
    hide Xor, XorAll, Pow2;
    var a, w := Pow2(t.a - 1), Pow2(t.w - 1);
    LowTerm(t.c, t.w - 1);
    if t.b == t.c {
      TwoTerms(a, w);
      XorAdds(a, t.w - 1);
    } else {
      FourTerms(t.a - 1, t.b - 1, t.c - 1, t.w - 1);
    }
  }

  lemma TwoTerms(a: nat, w: nat)
    ensures XorAll(a, a, a, w) == Xor(a, w)
  {
    hide Xor;
    XorGroup(a, a, Xor(a, w));
    XorSelf(a);
    XorSelf(Xor(a, w));
  }

  lemma {:induction false} FourTerms(a: nat, b: nat, c: nat, w: nat)
    requires a < b < c < w
    ensures XorAll(Pow2(a), Pow2(b), Pow2(c), Pow2(w)) == Pow2(a) + Pow2(b) + Pow2(c) + Pow2(w)
  {
    hide Xor;
    LowTerm(c + 1, w);
    LowTerm(b + 1, c);
    LowTerm(a + 1, b);
    XorAdds(Pow2(c), w);
    XorAddsMore(Pow2(b), c, w);
    XorAddsMost(Pow2(a), b, c, w);
  }

  lemma {:induction false} XorAdds(a: nat, n: nat)
    requires a < Pow2(n)
    ensures Xor(a, Pow2(n)) == a + Pow2(n)
  {
    if n > 0 {
      hide Xor;
      XorAdds(a / 2, n - 1);
      XorJoin(a / 2, Pow2(n - 1), a % 2, 0);
    } else {
      XorSelf(1);
    }
  }

  lemma {:induction false} XorAddsMore(a: nat, m: nat, n: nat)
    requires a < Pow2(m) && m < n
    ensures Xor(a, Pow2(m) + Pow2(n)) == a + Pow2(m) + Pow2(n)
  {
    hide Xor;
    if m > 0 {
      XorAddsMore(a / 2, m - 1, n - 1);
      XorJoin(a / 2, Pow2(m - 1) + Pow2(n - 1), a % 2, 0);
    } else {
      XorSelf(Pow2(m) + Pow2(n));
    }
  }

  lemma {:induction false} XorAddsMost(a: nat, l: nat, m: nat, n: nat)
    requires a < Pow2(l) && l < m < n
    ensures Xor(a, Pow2(l) + Pow2(m) + Pow2(n)) == a + Pow2(l) + Pow2(m) + Pow2(n)
  {
    hide Xor;
    if l > 0 {
      XorAddsMost(a / 2, l - 1, m - 1, n - 1);
      XorJoin(a / 2, Pow2(l - 1) + Pow2(m - 1) + Pow2(n - 1), a % 2, 0);
    } else {
      XorSelf(Pow2(l) + Pow2(m) + Pow2(n));
    }
  }
}
