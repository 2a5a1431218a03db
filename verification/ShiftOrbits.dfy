/** The states of the linear feedback shift register, and its table of masks. */
module ShiftOrbits {
  import opened Bits

  /** The register's numbers run from 3 to 50. */
  ghost predicate InTable(n: nat)
  {
    3 <= n <= 50
  }

  /** The table of masks; the part from 33 on needs words of 64 bits. */
  function MaskTable(n: nat): nat
    requires InTable(n)
  {
    if n <= 12 then TableTo12(n) else if n <= 22 then TableTo22(n) else if n <= 32 then TableTo32(n)
    else if n <= 41 then TableTo41(n) else TableTo50(n)
  }

  function TableTo12(n: nat): nat
    requires 3 <= n <= 12
  {
    match n
    case 3 => 0x03 case 4 => 0x06 case 5 => 0x0C case 6 => 0x14 case 7 => 0x30 case 8 => 0x60 case 9 => 0xb8
    case 10 => 0x0110 case 11 => 0x0240 case _ => 0x0500
  }

  function TableTo22(n: nat): nat
    requires 13 <= n <= 22
  {
    match n
    case 13 => 0x0e08 case 14 => 0x1c80 case 15 => 0x3802 case 16 => 0x6000 case 17 => 0xb400
    case 18 => 0x12000 case 19 => 0x20400 case 20 => 0x72000 case 21 => 0x90000 case _ => 0x140000
  }

  function TableTo32(n: nat): nat
    requires 23 <= n <= 32
  {
    match n
    case 23 => 0x300000 case 24 => 0x420000 case 25 => 0xD80000 case 26 => 0x1200000 case 27 => 0x3880000
    case 28 => 0x7200000 case 29 => 0x9000000 case 30 => 0x14000000 case 31 => 0x32800000 case _ => 0x48000000
  }

  function TableTo41(n: nat): nat
    requires 33 <= n <= 41
  {
    match n
    case 33 => 0xA3000000 case 34 => 0x100080000 case 35 => 0x262000000 case 36 => 0x500000000
    case 37 => 0x801000000 case 38 => 0x1940000000 case 39 => 0x3180000000 case 40 => 0x4400000000
    case _ => 0x9C00000000
  }

  function TableTo50(n: nat): nat
    requires 42 <= n <= 50
  {
    match n
    case 42 => 0x12000000000 case 43 => 0x29400000000 case 44 => 0x63000000000 case 45 => 0xA6000000000
    case 46 => 0x1B0000000000 case 47 => 0x20E000000000 case 48 => 0x420000000000 case 49 => 0x894000000000
    case _ => 0x1008000000000
  }

  /** A mask of `w` bits, the top one set. */
  ghost predicate IsMask(mask: nat, w: nat)
  {
    w >= 1 && Pow2(w - 1) <= mask < Pow2(w)
  }

  /** A state of `w` bits that is not zero. */
  ghost predicate IsState(w: nat, s: nat)
  {
    0 < s < Pow2(w)
  }

  // ----- one clock -----

  /** Shift out the lowest bit, and apply the mask if it was set. */
  function Shifted(mask: nat, s: nat): nat
  {
    if s % 2 == 0 then s / 2 else Xor(s / 2, mask)
  }

  /** The clock: zero, from which there is no way out, becomes one. */
  function Clocked(mask: nat, total: nat, s: nat): nat
  {
    var r := And(Shifted(mask, s), total);
    if r == 0 then 1 else r
  }

  /** The top bit of the new state tells the lowest bit of the old one. */
  lemma ShiftedTop(mask: nat, w: nat, s: nat)
    requires IsMask(mask, w) && s < Pow2(w)
    ensures Shifted(mask, s) < Pow2(w) && (Shifted(mask, s) >= Pow2(w - 1) <==> s % 2 == 1)
    ensures s > 0 ==> Shifted(mask, s) > 0
  {
    assert s / 2 < Pow2(w - 1);
    if s % 2 == 1 { XorTop(s / 2, mask, w - 1); }
  }

  /** On states the register only shifts: it leaves the states for no other number, is not
      cut off, and never meets zero. */
  lemma ClockShifts(mask: nat, w: nat, n: nat, s: nat)
    requires IsMask(mask, w) && IsState(w, s) && w <= n
    ensures Clocked(mask, Pow2(n) - 1, s) == Shifted(mask, s) && IsState(w, Shifted(mask, s))
  {
    ShiftedTop(mask, w, s);
    Pow2Grows(w, n);
    AndOnes(Shifted(mask, s), n);
  }

  /** Different states lead to different states. */
  lemma ShiftedInjective(mask: nat, w: nat, a: nat, b: nat)
    requires IsMask(mask, w) && a < Pow2(w) && b < Pow2(w) && Shifted(mask, a) == Shifted(mask, b)
    ensures a == b
  {
    ShiftedTop(mask, w, a);
    ShiftedTop(mask, w, b);
    if a % 2 == 1 { XorCancel(a / 2, b / 2, mask); }
  }

  /** The state before. */
  function StateBefore(mask: nat, w: nat, r: nat): nat
    requires w >= 1
  {
    if r < Pow2(w - 1) then 2 * r else 2 * Xor(r, mask) + 1
  }

  /** Every state is reached from exactly one state. */
  lemma ShiftedOnto(mask: nat, w: nat, r: nat)
    requires IsMask(mask, w) && IsState(w, r)
    ensures IsState(w, StateBefore(mask, w, r)) && Shifted(mask, StateBefore(mask, w, r)) == r
    ensures forall s | IsState(w, s) && Shifted(mask, s) == r :: s == StateBefore(mask, w, r)
  {
    if r >= Pow2(w - 1) {
      XorTopOff(r, mask, w - 1);
      XorTwice(r, mask);
    }
    var b := StateBefore(mask, w, r);
    forall s | IsState(w, s) && Shifted(mask, s) == r ensures s == b { ShiftedInjective(mask, w, s, b); }
  }

  /** Two numbers with the same top bit. */
  lemma {:induction false} XorTopOff(a: nat, b: nat, n: nat)
    requires Pow2(n) <= a < Pow2(n + 1) && Pow2(n) <= b < Pow2(n + 1)
    ensures Xor(a, b) < Pow2(n)
  {
    if n > 0 {
      XorTopOff(a / 2, b / 2, n - 1);
    } else {
      assert Xor(1, 1) == 2 * Xor(0, 0);
    }
  }

  // ----- orbits -----

  function Orbit(mask: nat, s: nat, k: nat): nat
  {
    if k == 0 then s else Shifted(mask, Orbit(mask, s, k - 1))
  }

  lemma {:induction false} OrbitState(mask: nat, w: nat, s: nat, k: nat)
    requires IsMask(mask, w) && IsState(w, s)
    ensures IsState(w, Orbit(mask, s, k))
  {
    if k > 0 {
      OrbitState(mask, w, s, k - 1);
      ShiftedTop(mask, w, Orbit(mask, s, k - 1));
    }
  }

  lemma {:induction false} OrbitSum(mask: nat, s: nat, j: nat, k: nat)
    ensures Orbit(mask, s, j + k) == Orbit(mask, Orbit(mask, s, j), k)
  {
    if k > 0 { OrbitSum(mask, s, j, k - 1); }
  }

  /** An orbit repeats only by coming back to its start. */
  lemma {:induction false} OrbitRepeats(mask: nat, w: nat, s: nat, a: nat, b: nat)
    requires IsMask(mask, w) && IsState(w, s) && a <= b && Orbit(mask, s, a) == Orbit(mask, s, b)
    ensures Orbit(mask, s, b - a) == s
  {
    if a > 0 {
      OrbitState(mask, w, s, a - 1);
      OrbitState(mask, w, s, b - 1);
      ShiftedInjective(mask, w, Orbit(mask, s, a - 1), Orbit(mask, s, b - 1));
      OrbitRepeats(mask, w, s, a - 1, b - 1);
    }
  }

  /** The first `n` states of an orbit. */
  ghost function Visited(mask: nat, s: nat, n: nat): (v: set<nat>)
    ensures forall k | 0 <= k < n :: Orbit(mask, s, k) in v
  {
    if n == 0 then {} else Visited(mask, s, n - 1) + {Orbit(mask, s, n - 1)}
  }

  lemma {:induction false} VisitedAt(mask: nat, s: nat, n: nat, r: nat) returns (k: nat)
    requires r in Visited(mask, s, n)
    ensures k < n && Orbit(mask, s, k) == r
  {
    k := n - 1;
    if r != Orbit(mask, s, n - 1) { k := VisitedAt(mask, s, n - 1, r); }
  }

  lemma {:induction false} VisitedSize(mask: nat, s: nat, n: nat)
    requires forall j, k | 0 <= j < k < n :: Orbit(mask, s, j) != Orbit(mask, s, k)
    ensures |Visited(mask, s, n)| == n
  {
    if n > 0 {
      VisitedSize(mask, s, n - 1);
      if Orbit(mask, s, n - 1) in Visited(mask, s, n - 1) {
        var k := VisitedAt(mask, s, n - 1, Orbit(mask, s, n - 1));
      }
    }
  }

  /** As long as it does not come back, an orbit visits new states; there are 2^w - 1. */
  lemma OrbitFits(mask: nat, w: nat, s: nat, n: nat)
    requires IsMask(mask, w) && IsState(w, s) && forall k | 0 < k < n :: Orbit(mask, s, k) != s
    ensures n <= Pow2(w) - 1
    ensures forall j, k | 0 <= j < k < n :: Orbit(mask, s, j) != Orbit(mask, s, k)
    ensures n == Pow2(w) - 1 ==> forall r | IsState(w, r) :: r in Visited(mask, s, n)
  {
    forall j, k | 0 <= j < k < n ensures Orbit(mask, s, j) != Orbit(mask, s, k) {
      if Orbit(mask, s, j) == Orbit(mask, s, k) { OrbitRepeats(mask, w, s, j, k); }
    }
    VisitedSize(mask, s, n);
    var all := NonZeroBelow(Pow2(w));
    forall r | r in Visited(mask, s, n) ensures r in all {
      var k := VisitedAt(mask, s, n, r);
      OrbitState(mask, w, s, k);
    }
    SubsetSize(Visited(mask, s, n), all);
  }

  /** The register has full period when state 1 comes back only after all states. */
  ghost predicate FullPeriod(mask: nat, w: nat)
  {
    forall k | 0 < k < Pow2(w) - 1 :: Orbit(mask, 1, k) != 1
  }

  /** With full period no orbit comes back before all states have been visited. */
  lemma FullFrom(mask: nat, w: nat, s: nat, n: nat)
    requires IsMask(mask, w) && w >= 2 && FullPeriod(mask, w) && IsState(w, s) && n <= Pow2(w) - 1
    ensures forall j, k | 0 <= j < k < n :: Orbit(mask, s, j) != Orbit(mask, s, k)
    ensures n == Pow2(w) - 1 ==> forall r | IsState(w, r) :: r in Visited(mask, s, n)
  {
    var N := Pow2(w) - 1;
    OrbitFits(mask, w, 1, N);
    var c := VisitedAt(mask, 1, N, s);
    forall k | 0 < k < n ensures Orbit(mask, s, k) != s {
      if Orbit(mask, s, k) == s {
        OrbitSum(mask, 1, c, k);
        OrbitRepeats(mask, w, 1, c, c + k);
      }
    }
    OrbitFits(mask, w, s, n);
  }

  // ----- the table -----

  lemma TenBits(n: nat)
    ensures Pow2(n + 10) == 1024 * Pow2(n)
  {
    assert Pow2(n + 3) == 2 * Pow2(n + 2) == 4 * Pow2(n + 1) == 8 * Pow2(n);
    assert Pow2(n + 6) == 2 * Pow2(n + 5) == 4 * Pow2(n + 4) == 8 * Pow2(n + 3);
    assert Pow2(n + 10) == 2 * Pow2(n + 9) == 4 * Pow2(n + 8) == 8 * Pow2(n + 7) == 16 * Pow2(n + 6);
  }

  lemma Powers0()
    ensures Pow2(0) == 0x1 && Pow2(1) == 0x2 && Pow2(2) == 0x4
    ensures Pow2(3) == 0x8 && Pow2(4) == 0x10 && Pow2(5) == 0x20
    ensures Pow2(6) == 0x40 && Pow2(7) == 0x80
    ensures Pow2(8) == 0x100 && Pow2(9) == 0x200
  {
  }

  lemma Powers10()
    ensures Pow2(10) == 0x400 && Pow2(11) == 0x800 && Pow2(12) == 0x1000
    ensures Pow2(13) == 0x2000 && Pow2(14) == 0x4000 && Pow2(15) == 0x8000
    ensures Pow2(16) == 0x10000 && Pow2(17) == 0x20000
    ensures Pow2(18) == 0x40000 && Pow2(19) == 0x80000
  {
    Powers0();
    TenBits(0);
  }

  lemma Powers20()
    ensures Pow2(20) == 0x100000 && Pow2(21) == 0x200000 && Pow2(22) == 0x400000
    ensures Pow2(23) == 0x800000 && Pow2(24) == 0x1000000 && Pow2(25) == 0x2000000
    ensures Pow2(26) == 0x4000000 && Pow2(27) == 0x8000000
    ensures Pow2(28) == 0x10000000 && Pow2(29) == 0x20000000
  {
    Powers10();
    TenBits(10);
  }

  lemma Powers30()
    ensures Pow2(30) == 0x40000000 && Pow2(31) == 0x80000000 && Pow2(32) == 0x100000000
    ensures Pow2(33) == 0x200000000 && Pow2(34) == 0x400000000 && Pow2(35) == 0x800000000
    ensures Pow2(36) == 0x1000000000 && Pow2(37) == 0x2000000000
    ensures Pow2(38) == 0x4000000000 && Pow2(39) == 0x8000000000
  {
    Powers20();
    TenBits(20);
  }

  lemma Powers40()
    ensures Pow2(40) == 0x10000000000 && Pow2(41) == 0x20000000000 && Pow2(42) == 0x40000000000
    ensures Pow2(43) == 0x80000000000 && Pow2(44) == 0x100000000000 && Pow2(45) == 0x200000000000
    ensures Pow2(46) == 0x400000000000 && Pow2(47) == 0x800000000000
    ensures Pow2(48) == 0x1000000000000 && Pow2(49) == 0x2000000000000
  {
    Powers30();
    TenBits(30);
  }

  lemma MasksTo12(n: nat)
    requires 3 <= n <= 12
    ensures Pow2(n - 2) <= TableTo12(n) < Pow2(n - 1)
  {
    Powers0();
    Powers10();
  }

  lemma MasksTo22(n: nat)
    requires 13 <= n <= 22
    ensures Pow2(n - 2) <= TableTo22(n) < Pow2(n - 1)
  {
    Powers10();
    Powers20();
  }

  lemma MasksTo32(n: nat)
    requires 23 <= n <= 32
    ensures Pow2(n - 2) <= TableTo32(n) < Pow2(n - 1)
  {
    Powers20();
    Powers30();
  }

  lemma MasksTo41(n: nat)
    requires 33 <= n <= 41
    ensures Pow2(n - 2) <= TableTo41(n) < Pow2(n - 1)
  {
    Powers30();
    Powers40();
  }

  lemma MasksTo50(n: nat)
    requires 42 <= n <= 50
    ensures Pow2(n - 2) <= TableTo50(n) < Pow2(n - 1)
  {
    Powers40();
  }

  /** The mask for `n` has n - 1 bits, one less than its number says. */
  lemma TableMask(n: nat)
    requires InTable(n)
    ensures IsMask(MaskTable(n), n - 1)
  {
    if n <= 12 { MasksTo12(n); } else if n <= 22 { MasksTo22(n); } else if n <= 32 { MasksTo32(n); }
    else if n <= 41 { MasksTo41(n); } else { MasksTo50(n); }
  }

  /** State 1 comes back within 2^(n-1) - 1 clocks, so no entry has a period of 2^n - 1. */
  lemma PeriodBound(n: nat) returns (k: nat)
    requires InTable(n)
    ensures 0 < k <= Pow2(n - 1) - 1 < Pow2(n) - 1 && Orbit(MaskTable(n), 1, k) == 1
  {
    var mask, w := MaskTable(n), n - 1;
    TableMask(n);
    Pow2Grows(1, w);
    assert Pow2(1) == 2;
    if forall k | 0 < k < Pow2(w) :: Orbit(mask, 1, k) != 1 {
      OrbitFits(mask, w, 1, Pow2(w));
      assert false;
    }
    k :| 0 < k < Pow2(w) && Orbit(mask, 1, k) == 1;
  }
}
