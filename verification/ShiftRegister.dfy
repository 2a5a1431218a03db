/** The linear feedback shift register, and the sampling it drives. */
module ShiftRegister {
  import opened Bits
  import opened Forests
  import opened ShiftOrbits
  import opened TableEntries

  // ----- the register -----

  class LinearFeedbackShiftReg {
    var lfsr: nat
    var maskVal: nat
    var totalMask: nat

    constructor ()
    {
    }

    method SetState(newState: nat)
      modifies this`lfsr
      ensures lfsr == newState
    {
      lfsr := newState;
    }

    /** Take the mask from the table, and `newMask` ones to cut the state off with. */
    method SetMaskPeriod(newMask: nat)
      requires InTable(newMask)
      modifies this`maskVal, this`totalMask
      ensures maskVal == MaskTable(newMask) && IsMask(maskVal, newMask - 1) && totalMask == Pow2(newMask) - 1
      ensures FullPeriod(maskVal, newMask - 1)
    {
      maskVal := MaskTable(newMask);
      TableMask(newMask);
      TableFull(newMask);
      totalMask := Ones(newMask);
    }

    static method Ones(n: nat) returns (totalMask: nat)
      ensures totalMask == Pow2(n) - 1
    {
      totalMask := 0;
      for ui := 0 to n
        invariant totalMask == Pow2(ui) - 1
      {
        OrBit(totalMask, ui);
        totalMask := Or(totalMask, Pow2(ui));
      }
    }

    method Clock() returns (r: nat)
      modifies this`lfsr
      ensures r == lfsr == Clocked(maskVal, totalMask, old(lfsr))
    {
      lfsr := if lfsr % 2 == 1 then Xor(lfsr / 2, maskVal) else lfsr / 2;
      lfsr := And(lfsr, totalMask);
      if lfsr == 0 {
        lfsr := 1;
      }
      r := lfsr;
    }

    /** Count the clocks from state 1 until it comes back, and compare with 2^(n-1) - 1. */
    method VerifyMask(n: nat) returns (ok: bool)
      requires n >= 2 && IsMask(maskVal, n - 1) && totalMask == Pow2(n) - 1 && lfsr == 1
      modifies this`lfsr
      ensures ok <==> FullPeriod(maskVal, n - 1)
    {
      ghost var mask, w := maskVal, n - 1;
      ClockShifts(mask, w, n, 1);
      var r := Clock();
      var period := 1;
      assert Orbit(mask, 1, 1) == Shifted(mask, Orbit(mask, 1, 0));
      while lfsr != 1
        invariant period >= 1 && lfsr == Orbit(mask, 1, period) && forall k | 0 < k < period :: Orbit(mask, 1, k) != 1
        decreases Pow2(w) - period
      {
        OrbitFits(mask, w, 1, period + 1);
        OrbitState(mask, w, 1, period);
        ClockShifts(mask, w, n, lfsr);
        r := Clock();
        period := period + 1;
      }
      OrbitFits(mask, w, 1, period);
      ok := period == Pow2(n - 1) - 1;
    }

    /** Check the first `tableLen` entries of the table: there is no wrong one. */
    method VerifyTable(tableLen: nat) returns (ok: bool)
      requires 1 <= tableLen <= 48
      modifies this
      ensures ok && forall n | 3 <= n < tableLen + 3 :: FullPeriod(MaskTable(n), n - 1)
    {
      for n := 3 to tableLen + 3
        invariant forall k | 3 <= k < n :: FullPeriod(MaskTable(k), k - 1)
      {
        SetState(1);
        SetMaskPeriod(n);
        var full := VerifyMask(n);
        if !full { return false; }
      }
      return true;
    }
  }

  // ----- sampling -----

  /** The first clock leads to a state, wherever the register was put. */
  lemma FirstClock(mask: nat, w: nat, s: nat)
    requires IsMask(mask, w) && s < Pow2(w + 1)
    ensures IsState(w, Clocked(mask, Pow2(w + 1) - 1, s))
  {
    XorBound(s / 2, mask, w);
    AndOnes(Shifted(mask, s), w + 1);
    Pow2Grows(1, w);
    assert Pow2(1) == 2;
  }

  /** Of the first `m` states those below `size`, in order. */
  function Picked(mask: nat, s: nat, m: nat, size: nat): seq<nat>
  {
    if m == 0 then []
    else Picked(mask, s, m - 1, size) + if Orbit(mask, s, m - 1) < size then [Orbit(mask, s, m - 1)] else []
  }

  lemma {:induction false} PickedFacts(mask: nat, w: nat, s: nat, m: nat, size: nat)
    requires IsMask(mask, w) && IsState(w, s)
    requires forall j, k | 0 <= j < k < m :: Orbit(mask, s, j) != Orbit(mask, s, k)
    ensures NoRepeat(Picked(mask, s, m, size))
    ensures forall r :: r in Picked(mask, s, m, size) <==> r < size && r in Visited(mask, s, m)
  {
    if m > 0 {
      PickedFacts(mask, w, s, m - 1, size);
      var last := Orbit(mask, s, m - 1);
      if last in Picked(mask, s, m - 1, size) { var k := VisitedAt(mask, s, m - 1, last); }
      NoRepeatConcat(Picked(mask, s, m - 1, size), if last < size then [last] else []);
    }
  }

  /** Once all states have been visited there are size - 1 positions. */
  lemma PickedAll(mask: nat, w: nat, s: nat, size: nat)
    requires IsMask(mask, w) && w >= 2 && FullPeriod(mask, w) && IsState(w, s) && 1 <= size <= Pow2(w)
    ensures |Picked(mask, s, Pow2(w) - 1, size)| >= size - 1
  {
    var m := Pow2(w) - 1;
    var p := Picked(mask, s, m, size);
    FullFrom(mask, w, s, m);
    PickedFacts(mask, w, s, m, size);
    forall r | r in NonZeroBelow(size) ensures r in SetOf(p) { assert IsState(w, r); }
    SubsetSize(NonZeroBelow(size), SetOf(p));
    SetOfSize(p);
  }

  lemma {:induction false} SetOfSize<T>(s: seq<T>)
    ensures |SetOf(s)| <= |s|
  {
    if s != [] {
      SetOfSize(s[..|s| - 1]);
      assert SetOf(s) == SetOf(s[..|s| - 1]) + {s[|s| - 1]};
    }
  }

  lemma {:induction false} PickedIsState(mask: nat, w: nat, s: nat, m: nat, size: nat)
    requires IsMask(mask, w) && IsState(w, s)
    ensures forall r | r in Picked(mask, s, m, size) :: 0 < r < size
  {
    if m > 0 {
      PickedIsState(mask, w, s, m - 1, size);
      OrbitState(mask, w, s, m - 1);
    }
  }

  /** The least number of bits, from three on, with which twice the source can be counted. */
  ghost predicate Picks(size: nat, j: nat)
  {
    j >= 3 && 2 * size <= Pow2(j) && (j > 3 ==> Pow2(j - 1) < 2 * size)
  }

  /** There is only one such number. */
  lemma PicksOne(size: nat, a: nat, b: nat)
    requires Picks(size, a) && Picks(size, b)
    ensures a == b
  {
    if a < b { Pow2Grows(a, b - 1); } else if b < a { Pow2Grows(b, a - 1); }
  }

  /** The number of bits for the register: twice the source fits, and at least three. */
  method MaskLevel(size: nat) returns (j: nat, i: nat)
    requires 1 <= size <= Pow2(49)
    ensures InTable(j) && i == Pow2(j) && Picks(size, j)
  {
    i, j := 1, 0;
    assert Pow2(50) == 2 * Pow2(49);
    while i < 2 * size
      invariant i == Pow2(j) && j <= 50 && (j > 0 ==> Pow2(j - 1) < 2 * size)
      decreases 50 - j
    {
      i := i * 2;
      j := j + 1;
    }
    if j < 3 {
      Pow2Grows(j, 3);
      j := 3;
      i := Pow2(j);
    }
  }

  /** Weak random selection: `num` elements of the source, at different positions. The first
      position is never chosen. `u` is the random number that the register starts from. */
  method RandomSelect<T>(source: seq<T>, num: nat, u: real) returns (result: seq<T>, ghost positions: seq<nat>)
    requires num < |source| <= Pow2(49) && 0.0 <= u < 1.0
    ensures |result| == |positions| == num && NoRepeat(positions)
    ensures forall k | 0 <= k < num :: 0 < positions[k] < |source| && result[k] == source[positions[k]]
  {
    var l := new LinearFeedbackShiftReg();
    var j, i := MaskLevel(|source|);
    StartInRange(u, i);
    var start: nat := (u * i as real).Floor;
    l.SetMaskPeriod(j);
    l.SetState(start);
    assert Pow2(j) == 2 * Pow2(j - 1);
    result, positions := SelectWith(l, source, num, j - 1);
  }

  /** Draw numbers until `num` of them are positions in the source. */
  method SelectWith<T>(l: LinearFeedbackShiftReg, source: seq<T>, num: nat, ghost w: nat)
    returns (result: seq<T>, ghost positions: seq<nat>)
    requires w >= 2 && num < |source| <= Pow2(w) && IsMask(l.maskVal, w) && FullPeriod(l.maskVal, w)
    requires l.totalMask == Pow2(w + 1) - 1 && l.lfsr < Pow2(w + 1)
    modifies l`lfsr
    ensures |result| == |positions| == num && NoRepeat(positions)
    ensures forall k | 0 <= k < num :: 0 < positions[k] < |source| && result[k] == source[positions[k]]
  {
    ghost var mask, start, m := l.maskVal, l.lfsr, 0;
    FirstClock(mask, w, start);
    ghost var s := Clocked(mask, Pow2(w + 1) - 1, start);
    result, positions := [], [];
    while |result| < num
      invariant m <= Pow2(w) - 1 && l.lfsr == if m == 0 then start else Orbit(mask, s, m - 1)
      invariant |result| == |positions| <= num && positions == Picked(mask, s, m, |source|)
      invariant forall k | 0 <= k < |result| :: positions[k] < |source| && result[k] == source[positions[k]]
      decreases Pow2(w) - m
    {
      PickedAll(mask, w, s, |source|);
      NextOrbit(mask, w, w + 1, s, start, m);
      var res := l.Clock();
      if res < |source| {
        result := result + [source[res]];
        positions := positions + [res];
      }
      m := m + 1;
    }
    FullFrom(mask, w, s, m);
    PickedFacts(mask, w, s, m, |source|);
    PickedIsState(mask, w, s, m, |source|);
    forall k | 0 <= k < num ensures 0 < positions[k] { assert positions[k] in positions; }
  }

  lemma StartInRange(u: real, i: nat)
    requires 0.0 <= u < 1.0 && i >= 1
    ensures 0 <= (u * i as real).Floor < i
  {
    assert 0.0 <= u * i as real < i as real;
  }

  /** The register runs along the orbit. */
  lemma NextOrbit(mask: nat, w: nat, n: nat, s: nat, start: nat, m: nat)
    requires IsMask(mask, w) && IsState(w, s) && n == w + 1 && s == Clocked(mask, Pow2(n) - 1, start)
    ensures Clocked(mask, Pow2(n) - 1, if m == 0 then start else Orbit(mask, s, m - 1)) == Orbit(mask, s, m)
  {
    if m > 0 {
      OrbitState(mask, w, s, m - 1);
      ClockShifts(mask, w, n, Orbit(mask, s, m - 1));
    }
  }
}
