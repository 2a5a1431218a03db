/** Bitwise operations on natural numbers. */
module Bits {

  function Pow2(n: nat): (p: nat)
    ensures p >= 1
  {
    if n == 0 then 1 else 2 * Pow2(n - 1)
  }

  function Xor(a: nat, b: nat): nat
  {
    if a == 0 && b == 0 then 0 else (if a % 2 != b % 2 then 1 else 0) + 2 * Xor(a / 2, b / 2)
  }

  function And(a: nat, b: nat): nat
  {
    if a == 0 || b == 0 then 0 else (if a % 2 == 1 && b % 2 == 1 then 1 else 0) + 2 * And(a / 2, b / 2)
  }

  function Or(a: nat, b: nat): nat
  {
    if a == 0 && b == 0 then 0 else (if a % 2 == 1 || b % 2 == 1 then 1 else 0) + 2 * Or(a / 2, b / 2)
  }

  /** The bit at place `i`. */
  ghost predicate BitAt(a: nat, i: nat)
  {
    if i == 0 then a % 2 == 1 else BitAt(a / 2, i - 1)
  }

  /** The operations go bit by bit. */
  lemma {:induction false} BitByBit(a: nat, b: nat, i: nat)
    ensures BitAt(Xor(a, b), i) <==> (BitAt(a, i) != BitAt(b, i))
    ensures BitAt(And(a, b), i) <==> BitAt(a, i) && BitAt(b, i)
    ensures BitAt(Or(a, b), i) <==> BitAt(a, i) || BitAt(b, i)
  {
    hide Xor, And, Or;
    XorHalves(a, b);
    AndHalves(a, b);
    OrHalves(a, b);
    if i > 0 { BitByBit(a / 2, b / 2, i - 1); }
  }

  // the lowest bit, and the bits above it

  lemma XorHalves(a: nat, b: nat)
    ensures (Xor(a, b) % 2 == 1 <==> a % 2 != b % 2) && Xor(a, b) / 2 == Xor(a / 2, b / 2)
  {
  }

  lemma AndHalves(a: nat, b: nat)
    ensures (And(a, b) % 2 == 1 <==> a % 2 == 1 && b % 2 == 1) && And(a, b) / 2 == And(a / 2, b / 2)
  {
  }

  lemma OrHalves(a: nat, b: nat)
    ensures (Or(a, b) % 2 == 1 <==> a % 2 == 1 || b % 2 == 1) && Or(a, b) / 2 == Or(a / 2, b / 2)
  {
  }

  lemma {:induction false} NoBits(i: nat)
    ensures !BitAt(0, i)
  {
    if i > 0 { NoBits(i - 1); }
  }

  lemma {:induction false} XorBound(a: nat, b: nat, n: nat)
    requires a < Pow2(n) && b < Pow2(n)
    ensures Xor(a, b) < Pow2(n)
  {
    if n > 0 { XorBound(a / 2, b / 2, n - 1); }
  }

  /** The top bit of one operand alone is a bit of the result. */
  lemma {:induction false} XorTop(a: nat, b: nat, n: nat)
    requires a < Pow2(n) && Pow2(n) <= b < Pow2(n + 1)
    ensures Pow2(n) <= Xor(a, b) < Pow2(n + 1)
  {
    if n > 0 {
      XorTop(a / 2, b / 2, n - 1);
    } else {
      assert Xor(0, 0) == 0;
    }
  }

  /** Applied twice it undoes itself. */
  lemma {:induction false} XorTwice(a: nat, b: nat)
    ensures Xor(Xor(a, b), b) == a
    decreases a + b
  {
    if a > 0 || b > 0 {
      XorTwice(a / 2, b / 2);
      var x := Xor(a, b);
      assert x / 2 == Xor(a / 2, b / 2) && x % 2 == if a % 2 != b % 2 then 1 else 0;
    }
  }

  lemma XorCancel(a: nat, b: nat, c: nat)
    requires Xor(a, c) == Xor(b, c)
    ensures a == b
  {
    XorTwice(a, c);
    XorTwice(b, c);
  }

  /** Masking with `n` ones keeps smaller numbers, and cuts off larger ones. */
  lemma {:induction false} AndOnes(a: nat, n: nat)
    ensures And(a, Pow2(n) - 1) < Pow2(n)
    ensures forall i | 0 <= i < n :: BitAt(And(a, Pow2(n) - 1), i) <==> BitAt(a, i)
    ensures a < Pow2(n) ==> And(a, Pow2(n) - 1) == a
  {
    if n > 0 {
      var ones := Pow2(n) - 1;
      assert ones == 2 * (Pow2(n - 1) - 1) + 1;
      assert ones / 2 == Pow2(n - 1) - 1 && ones % 2 == 1;
      AndOnes(a / 2, n - 1);
      if a == 0 { forall i | 0 <= i < n ensures !BitAt(a, i) { NoBits(i); } }
    }
  }

  /** Setting a bit above a number adds it. */
  lemma {:induction false} OrBit(a: nat, n: nat)
    requires a < Pow2(n)
    ensures Or(a, Pow2(n)) == a + Pow2(n)
  {
    if n > 0 {
      OrBit(a / 2, n - 1);
      assert Pow2(n) / 2 == Pow2(n - 1) && Pow2(n) % 2 == 0;
    } else {
      assert Or(0, 0) == 0;
    }
  }

  lemma {:induction false} Pow2Grows(a: nat, b: nat)
    requires a <= b
    ensures Pow2(a) <= Pow2(b)
  {
    if a < b { Pow2Grows(a, b - 1); }
  }

  ghost function NonZeroBelow(n: nat): (r: set<nat>)
    ensures forall s :: s in r <==> 0 < s < n
    ensures |r| == if n == 0 then 0 else n - 1
  {
    if n <= 1 then {} else NonZeroBelow(n - 1) + {n - 1}
  }

  lemma SubsetSize(a: set<nat>, b: set<nat>)
    requires a <= b
    ensures |a| <= |b| && (|a| == |b| ==> a == b)
  {
    assert b == a + (b - a);
    if |a| == |b| { assert b - a == {}; }
  }
}
