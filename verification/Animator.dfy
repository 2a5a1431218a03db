/** Keyframes that animate filter properties, and the value a property has at a frame. */
module Animator {

  /** What one keyframe does to one property of one filter; interpolation is left open. */
  datatype FrameProperties = FrameProperties(filterId: nat, propertyKey: nat, frameData: seq<(nat, string)>,
                                             interpMode: nat)
  {
    ghost predicate Targets(f: nat, p: nat)
    {
      filterId == f && propertyKey == p
    }

    /** The frame lies within the keyframe. */
    ghost predicate Active(f: nat, p: nat, frame: nat)
      requires frameData != []
    {
      Targets(f, p) && InSpan(First(frameData), frame, Last(frameData))
    }

    /** The keyframe has ended. */
    ghost predicate Ended(f: nat, p: nat, frame: nat)
      requires frameData != []
    {
      Targets(f, p) && Last(frameData) <= frame
    }
  }

  /** The value that a keyframe interpolates for a frame. */
  type Interpolation = (FrameProperties, nat) -> string

  const MAX_FRAME := 0xFFFF_FFFF_FFFF_FFFF

  predicate InSpan(low: nat, x: nat, high: nat)
  {
    low <= x <= high
  }

  // ----- the frames of a keyframe -----

  ghost function First(d: seq<(nat, string)>): (m: nat)
    requires d != []
    ensures (forall i | 0 <= i < |d| :: m <= d[i].0) && exists i :: 0 <= i < |d| && d[i].0 == m
  {
    var n := |d| - 1;
    if n == 0 then d[0].0
    else
      var before := First(d[..n]);
      if d[n].0 < before then d[n].0 else before
  }

  ghost function Last(d: seq<(nat, string)>): (m: nat)
    requires d != []
    ensures (forall i | 0 <= i < |d| :: m >= d[i].0) && exists i :: 0 <= i < |d| && d[i].0 == m
  {
    var n := |d| - 1;
    if n == 0 then d[0].0
    else
      var before := Last(d[..n]);
      if d[n].0 > before then d[n].0 else before
  }

  ghost predicate HasData(k: FrameProperties)
  {
    k.frameData != [] && forall i | 0 <= i < |k.frameData| :: k.frameData[i].0 <= MAX_FRAME
  }

  lemma FirstBeforeLast(d: seq<(nat, string)>)
    requires d != []
    ensures First(d) <= Last(d)
  {
    assert First(d) <= d[0].0 <= Last(d);
  }

  method GetMinFrame(k: FrameProperties) returns (minFrame: nat)
    requires HasData(k)
    ensures minFrame == First(k.frameData)
  {
    minFrame := MAX_FRAME;
    for ui := 0 to |k.frameData|
      invariant minFrame == if ui == 0 then MAX_FRAME else First(k.frameData[..ui])
    {
      assert k.frameData[..ui + 1][..ui] == k.frameData[..ui];
      if k.frameData[ui].0 < minFrame { minFrame := k.frameData[ui].0; }
    }
    assert k.frameData[..|k.frameData|] == k.frameData;
  }

  method GetMaxFrame(k: FrameProperties) returns (maxFrame: nat)
    requires HasData(k)
    ensures maxFrame == Last(k.frameData)
  {
    maxFrame := 0;
    for ui := 0 to |k.frameData|
      invariant maxFrame == if ui == 0 then 0 else Last(k.frameData[..ui])
    {
      assert k.frameData[..ui + 1][..ui] == k.frameData[..ui];
      if k.frameData[ui].0 > maxFrame { maxFrame := k.frameData[ui].0; }
    }
    assert k.frameData[..|k.frameData|] == k.frameData;
  }

  // ----- conflicts -----

  function RangesOverlap(minA: nat, maxA: nat, minB: nat, maxB: nat): (overlap: bool)
    requires minA <= maxA && minB <= maxB
    ensures overlap <==> exists x :: InSpan(minA, x, maxA) && InSpan(minB, x, maxB)
  {
    assert InSpan(minA, minA, maxA) && InSpan(minA, maxA, maxA) && InSpan(minB, minB, maxB) && InSpan(minB, maxB, maxB);
    assert InSpan(minA, minB, maxA) <==> minA <= minB <= maxA;
    assert InSpan(minA, maxB, maxA) <==> minA <= maxB <= maxA;
    assert InSpan(minB, minA, maxB) <==> minB <= minA <= maxB;
    if (minA <= minB && maxA >= minB) || (minA <= maxB && maxA >= maxB) then true
    else (minB <= minA && maxB >= minA) || (minB <= maxA && maxB >= maxA)
  }

  /** Two keyframes that change the same property at the same time. */
  ghost predicate Conflict(a: FrameProperties, b: FrameProperties)
    requires a.frameData != [] && b.frameData != []
  {
    && a.Targets(b.filterId, b.propertyKey)
    && exists x :: InSpan(First(a.frameData), x, Last(a.frameData)) && InSpan(First(b.frameData), x, Last(b.frameData))
  }

  ghost predicate AllHaveData(keys: seq<FrameProperties>)
  {
    forall i | 0 <= i < |keys| :: HasData(keys[i])
  }

  ghost predicate Consistent(keys: seq<FrameProperties>)
    requires AllHaveData(keys)
  {
    forall i, j | 0 <= i < j < |keys| :: !Conflict(keys[i], keys[j])
  }

  /** Do two keyframes conflict? */
  method CheckPair(a: FrameProperties, b: FrameProperties) returns (conflict: bool)
    requires HasData(a) && HasData(b)
    ensures conflict <==> Conflict(a, b)
  {
    conflict := false;
    if a.propertyKey == b.propertyKey && a.filterId == b.filterId {
      var minA := GetMinFrame(a);
      var minB := GetMinFrame(b);
      var maxA := GetMaxFrame(a);
      var maxB := GetMaxFrame(b);
      FirstBeforeLast(a.frameData);
      FirstBeforeLast(b.frameData);
      conflict := RangesOverlap(minA, maxA, minB, maxB);
    }
  }

  /** `k` conflicts with a keyframe whose pair with it comes before the pair (ui, uj). */
  ghost predicate Met(keys: seq<FrameProperties>, ui: nat, uj: nat, k: nat)
    requires AllHaveData(keys)
  {
    exists i, j :: PairMet(keys, i, j) && (i < ui || (i == ui && j < uj)) && (k == i || k == j)
  }

  ghost predicate PairMet(keys: seq<FrameProperties>, i: int, j: int)
    requires AllHaveData(keys)
  {
    0 <= i < j < |keys| && Conflict(keys[i], keys[j])
  }

  /** Add the keyframes that conflict with another one to those already `found`; all is well
      when none is found then. */
  method CheckSelfConsistent(keyFrames: seq<FrameProperties>, found: set<nat>)
    returns (ok: bool, conflictFrames: set<nat>)
    requires AllHaveData(keyFrames)
    ensures ok <==> Consistent(keyFrames) && found == {}
    ensures forall k: nat :: k in conflictFrames <==> k in found || Met(keyFrames, |keyFrames|, 0, k)
  {
    conflictFrames := found;
    for ui := 0 to |keyFrames|
      invariant forall k: nat :: k in conflictFrames <==> k in found || Met(keyFrames, ui, 0, k)
    {
      assert forall k: nat :: Met(keyFrames, ui, ui + 1, k) <==> Met(keyFrames, ui, 0, k);
      for uj := ui + 1 to |keyFrames|
        invariant forall k: nat :: k in conflictFrames <==> k in found || Met(keyFrames, ui, uj, k)
      {
        var conflict := CheckPair(keyFrames[ui], keyFrames[uj]);
        OnePairMore(keyFrames, ui, uj);
        if conflict {
          conflictFrames := conflictFrames + {ui, uj};
        }
      }
      assert forall k: nat :: Met(keyFrames, ui, |keyFrames|, k) <==> Met(keyFrames, ui + 1, 0, k);
    }
    ok := conflictFrames == {};
    NoneMet(keyFrames, found, conflictFrames);
  }

  lemma OnePairMore(keys: seq<FrameProperties>, ui: nat, uj: nat)
    requires AllHaveData(keys) && ui < uj < |keys|
    ensures forall k: nat :: Met(keys, ui, uj + 1, k) <==>
                             Met(keys, ui, uj, k) || ((k == ui || k == uj) && Conflict(keys[ui], keys[uj]))
  {
    hide Conflict;
    var now := PairMet(keys, ui, uj);
    forall k: nat ensures Met(keys, ui, uj + 1, k) <==> Met(keys, ui, uj, k) || ((k == ui || k == uj) && now) {
      if Met(keys, ui, uj + 1, k) {
        var i, j :| PairMet(keys, i, j) && (i < ui || (i == ui && j < uj + 1)) && (k == i || k == j);
      }
      if Met(keys, ui, uj, k) {
        var i, j :| PairMet(keys, i, j) && (i < ui || (i == ui && j < uj)) && (k == i || k == j);
      }
    }
  }

  lemma NoneMet(keys: seq<FrameProperties>, found: set<nat>, conflicts: set<nat>)
    requires AllHaveData(keys) && forall k: nat :: k in conflicts <==> k in found || Met(keys, |keys|, 0, k)
    ensures conflicts == {} <==> Consistent(keys) && found == {}
  {
    if !Consistent(keys) {
      var i, j :| 0 <= i < j < |keys| && Conflict(keys[i], keys[j]);
      assert PairMet(keys, i, j) && Met(keys, |keys|, 0, i);
    } else if found != {} {
      var k :| k in found;
      assert k in conflicts;
    }
  }

  // ----- the value at a frame -----

  /** The keyframe that is held: the last one that has ended. */
  ghost predicate Held(keys: seq<FrameProperties>, f: nat, p: nat, frame: nat, k: FrameProperties)
    requires AllHaveData(keys)
  {
    && k in keys && k.frameData != [] && k.Ended(f, p, frame)
    && forall i | 0 <= i < |keys| && keys[i].Ended(f, p, frame) :: Last(keys[i].frameData) <= Last(k.frameData)
  }

  ghost predicate SomeActive(keys: seq<FrameProperties>, f: nat, p: nat, frame: nat)
    requires AllHaveData(keys)
  {
    exists i :: 0 <= i < |keys| && keys[i].Active(f, p, frame)
  }

  /** What the value of the property may be at a frame: that of an active keyframe, or else
      the last value of one that is held, or else nothing. */
  ghost predicate IsValue(keys: seq<FrameProperties>, f: nat, p: nat, frame: nat, interp: Interpolation, r: string)
    requires AllHaveData(keys)
  {
    if SomeActive(keys, f, p, frame) then
      exists i :: 0 <= i < |keys| && keys[i].Active(f, p, frame) && r == interp(keys[i], frame)
    else if exists i :: 0 <= i < |keys| && keys[i].Ended(f, p, frame) then
      exists i :: 0 <= i < |keys| && Held(keys, f, p, frame, keys[i]) && r == interp(keys[i], Last(keys[i].frameData))
    else r == ""
  }

  /** Look for the keyframe that has the frame in its range. */
  method FindActive(keyFrames: seq<FrameProperties>, f: nat, p: nat, frame: nat) returns (found: bool, id: nat)
    requires AllHaveData(keyFrames)
    ensures found <==> SomeActive(keyFrames, f, p, frame)
    ensures found ==> id < |keyFrames| && keyFrames[id].Active(f, p, frame)
  {
    found, id := false, 0;
    for ui := 0 to |keyFrames|
      invariant forall i | 0 <= i < ui :: !keyFrames[i].Active(f, p, frame)
    {
      if f == keyFrames[ui].filterId && p == keyFrames[ui].propertyKey {
        var minFrame := GetMinFrame(keyFrames[ui]);
        var maxFrame := GetMaxFrame(keyFrames[ui]);
        if frame >= minFrame && frame <= maxFrame { return true, ui; }
      }
    }
  }

  /** The keyframes that have ended, each with its last frame. */
  method SeenFrames(keyFrames: seq<FrameProperties>, f: nat, p: nat, frame: nat) returns (seen: seq<(nat, nat)>)
    requires AllHaveData(keyFrames)
    ensures forall x | x in seen ::
              x.0 < |keyFrames| && keyFrames[x.0].Ended(f, p, frame) && x.1 == Last(keyFrames[x.0].frameData)
    ensures forall i | 0 <= i < |keyFrames| && keyFrames[i].Ended(f, p, frame) ::
              (i, Last(keyFrames[i].frameData)) in seen
  {
    seen := [];
    for ui := 0 to |keyFrames|
      invariant forall x | x in seen ::
                  x.0 < ui && keyFrames[x.0].Ended(f, p, frame) && x.1 == Last(keyFrames[x.0].frameData)
      invariant forall i | 0 <= i < ui && keyFrames[i].Ended(f, p, frame) :: (i, Last(keyFrames[i].frameData)) in seen
    {
      if f == keyFrames[ui].filterId && p == keyFrames[ui].propertyKey {
        var maxFrame := GetMaxFrame(keyFrames[ui]);
        if maxFrame <= frame { seen := seen + [(ui, maxFrame)]; }
      }
    }
  }

  /** An entry whose second component is greatest; which one, when there are several, is not
      determined by sorting. */
  method SortedBack(seen: seq<(nat, nat)>) returns (back: (nat, nat))
    requires seen != []
    ensures back in seen && forall x | x in seen :: x.1 <= back.1
  {
    back := seen[0];
    for i := 0 to |seen|
      invariant back in seen && forall j | 0 <= j < i :: seen[j].1 <= back.1
    {
      var take: bool := *;
      if seen[i].1 > back.1 || (seen[i].1 == back.1 && take) { back := seen[i]; }
    }
  }

  method GetInterpolatedFilterData(keyFrames: seq<FrameProperties>, filterId: nat, propertyKey: nat, frame: nat,
                                   interp: Interpolation) returns (r: string)
    requires AllHaveData(keyFrames)
    ensures IsValue(keyFrames, filterId, propertyKey, frame, interp, r)
    ensures (forall i | 0 <= i < |keyFrames| :: !keyFrames[i].Active(filterId, propertyKey, frame)) && r != ""
            ==> exists i | 0 <= i < |keyFrames| && keyFrames[i].Targets(filterId, propertyKey) ::
                  && Last(keyFrames[i].frameData) <= frame && r == interp(keyFrames[i], Last(keyFrames[i].frameData))
                  && forall j | 0 <= j < |keyFrames| && keyFrames[j].Ended(filterId, propertyKey, frame) ::
                       Last(keyFrames[j].frameData) <= Last(keyFrames[i].frameData)
  {
    var known := false;
    for ui := 0 to |keyFrames|
      invariant !known && forall i | 0 <= i < ui :: !keyFrames[i].Targets(filterId, propertyKey)
    {
      if filterId == keyFrames[ui].filterId && propertyKey == keyFrames[ui].propertyKey {
        known := true;
        break;
      }
    }
    if !known { return ""; }
    var found, keyFrameId := FindActive(keyFrames, filterId, propertyKey, frame);
    if found { return interp(keyFrames[keyFrameId], frame); }
    var seen := SeenFrames(keyFrames, filterId, propertyKey, frame);
    if seen == [] { return ""; }
    var back := SortedBack(seen);
    assert seen[0] in seen;
    assert Held(keyFrames, filterId, propertyKey, frame, keyFrames[back.0]);
    r := interp(keyFrames[back.0], back.1);
  }

  // ----- consistency makes the value unique -----

  /** At most one keyframe is active for a property at a frame. */
  lemma OneActive(keys: seq<FrameProperties>, f: nat, p: nat, frame: nat, i: nat, j: nat)
    requires AllHaveData(keys) && Consistent(keys) && i < |keys| && j < |keys|
    requires keys[i].Active(f, p, frame) && keys[j].Active(f, p, frame)
    ensures i == j
  {
    if i < j { assert Conflict(keys[i], keys[j]); }
    if j < i { assert Conflict(keys[j], keys[i]); }
  }

  /** At most one keyframe is held. */
  lemma OneHeld(keys: seq<FrameProperties>, f: nat, p: nat, frame: nat, i: nat, j: nat)
    requires AllHaveData(keys) && Consistent(keys) && i < |keys| && j < |keys|
    requires Held(keys, f, p, frame, keys[i]) && Held(keys, f, p, frame, keys[j])
    ensures i == j
  {
    var last := Last(keys[i].frameData);
    FirstBeforeLast(keys[i].frameData);
    FirstBeforeLast(keys[j].frameData);
    OneActive(keys, f, p, last, i, j);
  }

  lemma ValueUnique(keys: seq<FrameProperties>, f: nat, p: nat, frame: nat, interp: Interpolation, r: string, s: string)
    requires AllHaveData(keys) && Consistent(keys)
    requires IsValue(keys, f, p, frame, interp, r) && IsValue(keys, f, p, frame, interp, s)
    ensures r == s
  {
    if SomeActive(keys, f, p, frame) {
      var i :| 0 <= i < |keys| && keys[i].Active(f, p, frame) && r == interp(keys[i], frame);
      var j :| 0 <= j < |keys| && keys[j].Active(f, p, frame) && s == interp(keys[j], frame);
      OneActive(keys, f, p, frame, i, j);
    } else if k :| 0 <= k < |keys| && keys[k].Ended(f, p, frame) {
      var i :| 0 <= i < |keys| && Held(keys, f, p, frame, keys[i]) && r == interp(keys[i], Last(keys[i].frameData));
      var j :| 0 <= j < |keys| && Held(keys, f, p, frame, keys[j]) && s == interp(keys[j], Last(keys[j].frameData));
      OneHeld(keys, f, p, frame, i, j);
    }
  }

  /** What may be the value does not depend on the order of the keyframes. */
  lemma ValueOfBag(keys: seq<FrameProperties>, other: seq<FrameProperties>, f: nat, p: nat, frame: nat,
                   interp: Interpolation, r: string)
    requires AllHaveData(keys) && multiset(keys) == multiset(other)
    ensures AllHaveData(other) && (IsValue(other, f, p, frame, interp, r) ==> IsValue(keys, f, p, frame, interp, r))
  {
    SameMembers(keys, other);
    forall i | 0 <= i < |other| ensures HasData(other[i]) {
      var j := IndexIn(keys, other[i]);
    }
    if IsValue(other, f, p, frame, interp, r) {
      if SomeActive(other, f, p, frame) {
        var i :| 0 <= i < |other| && other[i].Active(f, p, frame) && r == interp(other[i], frame);
        var j := IndexIn(keys, other[i]);
        assert keys[j].Active(f, p, frame);
      } else {
        forall i | 0 <= i < |keys| ensures !keys[i].Active(f, p, frame) {
          var j := IndexIn(other, keys[i]);
          assert !other[j].Active(f, p, frame);
        }
        EndedValue(keys, other, f, p, frame, interp, r);
      }
    }
  }

  lemma SameMembers(keys: seq<FrameProperties>, other: seq<FrameProperties>)
    requires multiset(keys) == multiset(other)
    ensures forall x :: x in keys <==> x in other
  {
    assert forall x :: x in keys <==> x in multiset(keys);
    assert forall x :: x in other <==> x in multiset(other);
  }

  lemma IndexIn(keys: seq<FrameProperties>, k: FrameProperties) returns (i: nat)
    requires k in keys
    ensures i < |keys| && keys[i] == k
  {
    i :| 0 <= i < |keys| && keys[i] == k;
  }

  lemma EndedValue(keys: seq<FrameProperties>, other: seq<FrameProperties>, f: nat, p: nat, frame: nat,
                   interp: Interpolation, r: string)
    requires AllHaveData(keys) && AllHaveData(other) && forall x :: x in keys <==> x in other
    requires !SomeActive(keys, f, p, frame) && !SomeActive(other, f, p, frame) && IsValue(other, f, p, frame, interp, r)
    ensures IsValue(keys, f, p, frame, interp, r)
  {
    if i :| 0 <= i < |other| && other[i].Ended(f, p, frame) {
      var j := IndexIn(keys, other[i]);
      assert keys[j].Ended(f, p, frame);
      var h :| 0 <= h < |other| && Held(other, f, p, frame, other[h])
               && r == interp(other[h], Last(other[h].frameData));
      var g := IndexIn(keys, other[h]);
      HeldElsewhere(keys, other, f, p, frame, other[h]);
      assert Held(keys, f, p, frame, keys[g]);
    } else {
      forall i | 0 <= i < |keys| ensures !keys[i].Ended(f, p, frame) {
        var j := IndexIn(other, keys[i]);
      }
    }
  }

  lemma HeldElsewhere(keys: seq<FrameProperties>, other: seq<FrameProperties>, f: nat, p: nat, frame: nat,
                      k: FrameProperties)
    requires AllHaveData(keys) && AllHaveData(other) && (forall x :: x in keys <==> x in other)
    requires Held(other, f, p, frame, k)
    ensures Held(keys, f, p, frame, k)
  {
    forall i | 0 <= i < |keys| && keys[i].Ended(f, p, frame) ensures Last(keys[i].frameData) <= Last(k.frameData) {
      var j := IndexIn(other, keys[i]);
      assert other[j].Ended(f, p, frame);
    }
  }

  /** Without conflicts the value is the same for every order of the keyframes. */
  lemma OrderDoesNotMatter(keys: seq<FrameProperties>, other: seq<FrameProperties>, f: nat, p: nat, frame: nat,
                           interp: Interpolation, r: string, s: string)
    requires AllHaveData(keys) && Consistent(keys) && multiset(keys) == multiset(other)
    requires IsValue(keys, f, p, frame, interp, r)
    ensures AllHaveData(other) && (IsValue(other, f, p, frame, interp, s) ==> r == s)
  {
    ValueOfBag(keys, other, f, p, frame, interp, s);
    if IsValue(other, f, p, frame, interp, s) { ValueUnique(keys, f, p, frame, interp, r, s); }
  }
}
