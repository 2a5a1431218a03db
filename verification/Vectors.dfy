/** Erasing marked elements of a vector in place. */
module Vectors {

  /** The elements that are not marked, in order. */
  function Survivors<T>(s: seq<T>, wantKill: seq<bool>): seq<T>
    requires |s| == |wantKill|
  {
    if s == [] then []
    else
      var n := |s| - 1;
      Survivors(s[..n], wantKill[..n]) + if wantKill[n] then [] else [s[n]]
  }

  /** How many of the first elements are marked. */
  function Killed(wantKill: seq<bool>): (k: nat)
    ensures k <= |wantKill|
  {
    if wantKill == [] then 0
    else Killed(wantKill[..|wantKill| - 1]) + if wantKill[|wantKill| - 1] then 1 else 0
  }

  lemma {:induction false} SurvivorsCount<T>(s: seq<T>, wantKill: seq<bool>)
    requires |s| == |wantKill|
    ensures |Survivors(s, wantKill)| == |s| - Killed(wantKill)
  {
    if s != [] { SurvivorsCount(s[..|s| - 1], wantKill[..|s| - 1]); }
  }

  /** The places that the elements of `kept` come from, in order, are all those that are not marked. */
  ghost predicate Places<T>(s: seq<T>, wantKill: seq<bool>, kept: seq<T>, places: seq<nat>)
    requires |s| == |wantKill|
  {
    && |places| == |kept|
    && (forall i, j | 0 <= i < j < |places| :: places[i] < places[j])
    && (forall i | 0 <= i < |places| :: places[i] < |s| && !wantKill[places[i]] && kept[i] == s[places[i]])
    && forall p: nat | p < |s| && !wantKill[p] :: p in places
  }

  /** Each survivor comes from its own place, and the places are in order. */
  lemma {:induction false} SurvivorsFrom<T>(s: seq<T>, wantKill: seq<bool>) returns (places: seq<nat>)
    requires |s| == |wantKill|
    ensures Places(s, wantKill, Survivors(s, wantKill), places)
  {
    if s == [] {
      places := [];
    } else {
      hide Places;
      var n := |s| - 1;
      var before := SurvivorsFrom(s[..n], wantKill[..n]);
      places := before + if wantKill[n] then [] else [n];
      OnePlaceMore(s, wantKill, Survivors(s[..n], wantKill[..n]), before);
    }
  }

  lemma OnePlaceMore<T>(s: seq<T>, wantKill: seq<bool>, kept: seq<T>, before: seq<nat>)
    requires |s| == |wantKill| > 0
    requires Places(s[..|s| - 1], wantKill[..|s| - 1], kept, before)
    ensures var n := |s| - 1;
            Places(s, wantKill, kept + if wantKill[n] then [] else [s[n]], before + if wantKill[n] then [] else [n])
  {
    var n := |s| - 1;
    assert s[..n] + [s[n]] == s;
    forall p: nat | p < |s| && !wantKill[p] ensures p in before + if wantKill[n] then [] else [n] {
      if p < n { assert !wantKill[..n][p]; }
    }
  }

  lemma NoneErased<T>(s: seq<T>, wantKill: seq<bool>)
    requires |s| == |wantKill| == 0
    ensures Survivors(s, wantKill) == [] && Killed(wantKill) == 0
  {
  }

  lemma NextErased<T>(s: seq<T>, wantKill: seq<bool>, n: nat)
    requires |s| == |wantKill| && n < |s|
    ensures Survivors(s[..n + 1], wantKill[..n + 1])
         == Survivors(s[..n], wantKill[..n]) + if wantKill[n] then [] else [s[n]]
    ensures Killed(wantKill[..n + 1]) == Killed(wantKill[..n]) + if wantKill[n] then 1 else 0
  {
    assert s[..n + 1][..n] == s[..n] && wantKill[..n + 1][..n] == wantKill[..n];
  }

  /** Move the survivors to the front, in order; `size` is how many there are. */
  method VectorMultiErase<T>(vec: array<T>, wantKill: seq<bool>) returns (size: nat)
    requires vec.Length == |wantKill|
    modifies vec
    ensures size <= vec.Length && vec[..size] == Survivors(old(vec[..]), wantKill)
  {
    hide Survivors, Killed;
    ghost var was := vec[..];
    NoneErased(was[..0], wantKill[..0]);
    var shift := 0;
    for ui := 0 to vec.Length
      invariant shift == Killed(wantKill[..ui]) <= ui
      invariant vec[..ui - shift] == Survivors(was[..ui], wantKill[..ui])
      invariant vec[ui..] == was[ui..]
    {
      NextErased(was, wantKill, ui);
      assert vec[ui] == vec[ui..][0] == was[ui];
      if wantKill[ui] {
        shift := shift + 1;
      } else if shift > 0 {
        vec[ui - shift] := vec[ui];
      }
      assert vec[ui + 1..] == was[ui + 1..];
    }
    assert was[..vec.Length] == was && wantKill[..vec.Length] == wantKill;
    size := vec.Length - shift;
  }
}
