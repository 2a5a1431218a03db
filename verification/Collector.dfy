/** Streams as heap objects with explicit deletion, and the collector that owns
    the intermediate streams of a refresh. */
module Collector {
  import opened Forests
  import opened Streams

  /** A stream in memory. `cached` says that a filter keeps it; `live` is false once
      it has been deleted, and deletion demands `live`. */
  class StreamData {
    const kind: StreamType
    const payload: int
    var cached: bool
    ghost var live: bool

    constructor (s: Stream)
      ensures kind == s.kind && payload == s.payload && !cached && live
    {
      kind := s.kind;
      payload := s.payload;
      cached := false;
      live := true;
    }

    method Delete()
      requires live
      modifies this`live
      ensures !live
    {
      live := false;
    }
  }

  /** The streams as values. */
  function Values(ps: seq<StreamData>): seq<Stream>
  {
    seq(|ps|, i requires 0 <= i < |ps| => Stream(ps[i].kind, ps[i].payload))
  }

  ghost predicate Exists(p: StreamData) { true }

  ghost predicate AllLive(ps: seq<StreamData>)
    reads ps
  {
    forall p | p in ps :: p.live
  }

  // ----- stacks of pointer lists -----

  ghost function AllOf<T>(lists: seq<seq<T>>): set<T>
  {
    set i, p | 0 <= i < |lists| && p in lists[i] :: p
  }

  /** No pointer occurs twice, within a list or across lists. */
  ghost predicate Separate<T>(lists: seq<seq<T>>)
  {
    && (forall i | 0 <= i < |lists| :: NoRepeat(lists[i]))
    && (forall i, j | 0 <= i < j < |lists| :: Apart(lists[i], lists[j]))
  }

  function Resize<T>(lists: seq<seq<T>>, n: nat): seq<seq<T>>
  {
    if n <= |lists| then lists[..n] else lists + seq(n - |lists|, _ => [])
  }

  /** The entries of `a` that are not in `xs`. */
  ghost function Minus<T>(a: seq<T>, xs: set<T>): seq<T>
  {
    if a == [] then [] else (if a[0] in xs then [] else [a[0]]) + Minus(a[1..], xs)
  }

  /** `a` without its first entry equal to `x`. */
  function Erase<T(==)>(a: seq<T>, x: T): seq<T>
  {
    if a == [] then [] else if a[0] == x then a[1..] else [a[0]] + Erase(a[1..], x)
  }

  lemma {:induction false} MinusMembers<T>(a: seq<T>, xs: set<T>)
    ensures forall x :: x in Minus(a, xs) <==> x in a && x !in xs
    ensures NoRepeat(a) ==> NoRepeat(Minus(a, xs))
  {
    if a != [] {
      MinusMembers(a[1..], xs);
      assert a == [a[0]] + a[1..];
      if NoRepeat(a) {
        NoRepeatSplit([a[0]], a[1..]);
        NoRepeatConcat(if a[0] in xs then [] else [a[0]], Minus(a[1..], xs));
      }
    }
  }

  lemma {:induction false} MinusNone<T>(a: seq<T>, xs: set<T>)
    requires forall x | x in a :: x !in xs
    ensures Minus(a, xs) == a
  {
    if a != [] { MinusNone(a[1..], xs); }
  }

  lemma {:induction false} MinusMinus<T>(a: seq<T>, xs: set<T>, ys: set<T>)
    ensures Minus(Minus(a, xs), ys) == Minus(a, xs + ys)
  {
    if a != [] {
      MinusMinus(a[1..], xs, ys);
      var rest := Minus(a[1..], xs);
      if a[0] in xs {
        assert Minus(a, xs) == rest;
        assert Minus(a, xs + ys) == Minus(a[1..], xs + ys);
      } else {
        assert Minus(a, xs) == [a[0]] + rest && ([a[0]] + rest)[1..] == rest;
        assert (a[0] in xs + ys) == (a[0] in ys);
      }
    }
  }

  /** Erasing one entry of a list without repeats removes that pointer. */
  lemma {:induction false} EraseIsMinus<T>(a: seq<T>, x: T)
    requires NoRepeat(a)
    ensures Erase(a, x) == Minus(a, {x})
  {
    if a != [] {
      assert a == [a[0]] + a[1..];
      NoRepeatSplit([a[0]], a[1..]);
      if a[0] == x { MinusNone(a[1..], {x}); } else { EraseIsMinus(a[1..], x); }
    }
  }

  /** Lists that lose entries stay separate. */
  lemma MinusSeparate<T>(a: seq<seq<T>>, b: seq<seq<T>>, xs: set<T>)
    requires Separate(a)
    requires |a| == |b| && forall i | 0 <= i < |a| :: b[i] == Minus(a[i], xs)
    ensures Separate(b) && AllOf(b) == AllOf(a) - xs
  {
    MinusLists(a, b, xs);
    forall i | 0 <= i < |b| ensures NoRepeat(b[i]) && forall x | x in b[i] :: x in a[i] {
      MinusMembers(a[i], xs);
    }
    forall i, j | 0 <= i < j < |b| ensures Apart(b[i], b[j]) {
      assert Apart(a[i], a[j]);
    }
  }

  /** Dropping the levels from `level` on, after the entries above `level` have been dealt
      with, leaves nothing behind exactly when level `level` is missing or empty. */
  lemma ResizeKeeps<T>(lists: seq<seq<T>>, level: nat)
    requires Separate(lists)
    ensures AllOf(lists) == AllOf(Resize(lists, level)) + (if level < |lists| then AllOf(lists[level + 1..]) else {})
            <==> level >= |lists| || lists[level] == []
  {
    var kept := Resize(lists, level);
    if level >= |lists| {
      forall p | p in AllOf(lists) ensures p in AllOf(kept) {
        var i :| 0 <= i < |lists| && p in lists[i];
        assert kept[i] == lists[i];
      }
    } else {
      var above := lists[level + 1..];
      forall p | p in AllOf(lists) && p !in lists[level] ensures p in AllOf(kept) + AllOf(above) {
        var i :| 0 <= i < |lists| && p in lists[i];
        if i < level { assert kept[i] == lists[i]; } else { assert above[i - level - 1] == lists[i]; }
      }
      forall p | p in lists[level] ensures p in AllOf(lists) && p !in AllOf(kept) + AllOf(above) {
        forall i | 0 <= i < level ensures p !in kept[i] { assert Apart(lists[i], lists[level]); }
        forall i | 0 <= i < |above| ensures p !in above[i] { assert Apart(lists[level], lists[level + 1 + i]); }
      }
      if lists[level] != [] { assert lists[level][0] in lists[level]; }
    }
  }

  /** Every entry is deleted or kept under the same condition. */
  lemma NothingLost<T>(lists: seq<seq<T>>, level: nat, dead: set<T>)
    requires Separate(lists)
    requires forall p | p in AllOf(lists) :: p in dead <==> level < |lists| && p in AllOf(lists[level + 1..])
    ensures (forall p | p in AllOf(lists) :: p in dead || p in AllOf(Resize(lists, level))) <==>
            level >= |lists| || lists[level] == []
  {
    ResizeKeeps(lists, level);
    var kept, above := AllOf(Resize(lists, level)), if level < |lists| then AllOf(lists[level + 1..]) else {};
    forall p | p in kept ensures p in AllOf(lists) {
      var i :| 0 <= i < |Resize(lists, level)| && p in Resize(lists, level)[i];
      assert lists[i] == Resize(lists, level)[i];
    }
    forall p | p in above ensures p in AllOf(lists) {
      var i :| 0 <= i < |lists| - level - 1 && p in lists[level + 1..][i];
      assert lists[level + 1 + i] == lists[level + 1..][i];
    }
  }

  // ----- the collector -----

  class FilterRefreshCollector {
    /** Lists of tracked streams, one per level. */
    var nodes: seq<seq<StreamData>>
    /** Streams that were tracked and must no longer be deleted. */
    var forgotten: set<StreamData>
    /** Streams older than the collector: it never owns them. */
    ghost const elders: set<StreamData>

    /** What is tracked is alive, owns itself, is tracked once and is not forgotten. */
    ghost predicate Valid()
      reads this, AllOf(nodes)
    {
      && Separate(nodes) && forgotten !! elders
      && forall p | p in AllOf(nodes) :: p.live && !p.cached && p !in forgotten && p !in elders
    }

    constructor (ghost elders: set<StreamData>)
      ensures Valid() && nodes == [] && forgotten == {} && this.elders == elders
    {
      nodes := [];
      forgotten := {};
      this.elders := elders;
    }

    /** The streams of `v` that a new level takes on. */
    ghost function Fresh(v: seq<StreamData>): seq<StreamData>
      reads this, v
    {
      if v == [] then []
      else
        var p := v[|v| - 1];
        Fresh(v[..|v| - 1]) + if p.cached || p in AllOf(nodes) || p in forgotten then [] else [p]
    }

    lemma {:induction false} FreshMembers(v: seq<StreamData>)
      ensures forall p :: p in Fresh(v) <==> p in v && !p.cached && p !in AllOf(nodes) && p !in forgotten
      ensures NoRepeat(v) ==> NoRepeat(Fresh(v))
    {
      if v != [] {
        var a := v[..|v| - 1];
        FreshMembers(a);
        assert v == a + [v[|v| - 1]];
        if NoRepeat(v) {
          NoRepeatSplit(a, [v[|v| - 1]]);
          NoRepeatConcat(Fresh(a), if v[|v| - 1] in Fresh(v) && v[|v| - 1] !in Fresh(a) then [v[|v| - 1]] else []);
        }
      }
    }

    /** Push a level that tracks the streams of `v` that nobody owns yet. */
    method TrackPointers(v: seq<StreamData>)
      requires Valid() && AllLive(v) && NoRepeat(v) && forall p | p in v :: p.cached || p !in elders
      modifies this`nodes
      ensures Valid()
      ensures nodes == old(nodes) + [old(Fresh(v))]
      ensures forall p :: p in nodes[|nodes| - 1] <==>
                p in v && !p.cached && p !in AllOf(old(nodes)) && p !in forgotten
    {
      var lKeep: seq<StreamData> := [];
      for ui := 0 to |v|
        invariant lKeep == Fresh(v[..ui])
      {
        assert v[..ui + 1][..ui] == v[..ui];
        if !v[ui].cached {
          var found := false;
          var uj := 0;
          while uj < |nodes| && !found
            invariant 0 <= uj <= |nodes|
            invariant found ==> v[ui] in AllOf(nodes)
            invariant !found ==> forall i | 0 <= i < uj :: v[ui] !in nodes[i]
          {
            found := v[ui] in nodes[uj];
            uj := uj + 1;
          }
          found := found || v[ui] in forgotten;
          if !found { lKeep := lKeep + [v[ui]]; }
        }
      }
      assert v[..|v|] == v;
      FreshMembers(v);
      forall i | 0 <= i < |nodes| ensures Apart(nodes[i], lKeep) {
        forall p | p in nodes[i] ensures p !in lKeep { assert p in AllOf(nodes); }
      }
      nodes := nodes + [lKeep];
    }

    /** Stop tracking one stream: erase it from the one level that holds it. */
    method ForgetPointer(p: StreamData)
      requires Valid()
      modifies this
      ensures Valid()
      ensures |nodes| == |old(nodes)|
      ensures forall i | 0 <= i < |nodes| :: nodes[i] == Minus(old(nodes)[i], {p})
      ensures forgotten == old(forgotten) + {p} * AllOf(old(nodes))
    {
      var ui := 0;
      while ui < |nodes| && p !in nodes[ui]
        invariant ui <= |nodes|
        invariant forall i | 0 <= i < ui :: p !in nodes[i]
      {
        ui := ui + 1;
      }
      if ui < |nodes| {
        forgotten := forgotten + {p};
        nodes := nodes[ui := Erase(nodes[ui], p)];
      }
      ghost var was := old(nodes);
      forall i | 0 <= i < |nodes|
        ensures nodes[i] == Minus(was[i], {p})
      {
        if i == ui {
          EraseIsMinus(was[i], p);
        } else {
          if i > ui { assert p in was[ui] && Apart(was[ui], was[i]); }
          MinusNone(was[i], {p});
        }
      }
      MinusSeparate(was, nodes, {p});
      assert ui < |was| ==> p in AllOf(was);
    }

    /** Stop tracking the streams of `v`, and remember those that were tracked. */
    method ForgetPointers(v: seq<StreamData>)
      requires Valid()
      modifies this
      ensures Valid()
      ensures |nodes| == |old(nodes)|
      ensures forall i | 0 <= i < |nodes| :: nodes[i] == Minus(old(nodes)[i], SetOf(v))
      ensures forgotten == old(forgotten) + SetOf(v) * AllOf(old(nodes))
    {
      forall i | 0 <= i < |nodes| ensures Minus(nodes[i], {}) == nodes[i] { MinusNone(nodes[i], {}); }
      assert SetOf(v[..0]) == {};
      for uj := 0 to |v|
        invariant Valid()
        invariant |nodes| == |old(nodes)|
        invariant forall i | 0 <= i < |nodes| :: nodes[i] == Minus(old(nodes)[i], SetOf(v[..uj]))
        invariant forgotten == old(forgotten) + SetOf(v[..uj]) * AllOf(old(nodes))
      {
        MinusLists(old(nodes), nodes, SetOf(v[..uj]));
        ForgetPointer(v[uj]);
        assert SetOf(v[..uj + 1]) == SetOf(v[..uj]) + {v[uj]};
        forall i | 0 <= i < |nodes|
          ensures nodes[i] == Minus(old(nodes)[i], SetOf(v[..uj + 1]))
        {
          MinusMinus(old(nodes)[i], SetOf(v[..uj]), {v[uj]});
        }
      }
      assert v[..|v|] == v;
    }

    /** Delete everything that is tracked. */
    method CollectAll()
      requires Valid()
      modifies this`nodes, AllOf(nodes)`live
      ensures Valid() && nodes == []
      ensures forall p | p in AllOf(old(nodes)) :: !p.live
    {
      DeleteFrom(0);
      nodes := [];
    }

    /** Delete the streams of the levels above `level`, and keep only the first `level`
        levels; the streams of level `level` itself are no longer tracked. So every stream
        is deleted or still tracked exactly when there are none at that level. */
    method CollectToLevel(level: nat)
      requires Valid()
      modifies this`nodes, AllOf(nodes)`live
      ensures Valid()
      ensures nodes == Resize(old(nodes), level)
      ensures forall p | p in AllOf(old(nodes)) ::
                !p.live <==> level < |old(nodes)| && p in AllOf(old(nodes)[level + 1..])
      ensures (forall p | p in AllOf(old(nodes)) :: !p.live || p in AllOf(nodes)) <==>
              level >= |old(nodes)| || old(nodes)[level] == []
    {
      ghost var was := nodes;
      TrimTo(level);
      ghost var dead := set p: StreamData | p in AllOf(was) && !p.live;
      NothingLost(was, level, dead);
    }

    /** Delete and drop. */
    method TrimTo(level: nat)
      requires Valid()
      modifies this`nodes, AllOf(nodes)`live
      ensures Valid()
      ensures nodes == Resize(old(nodes), level)
      ensures forall p | p in AllOf(old(nodes)) ::
                !p.live <==> level < |old(nodes)| && p in AllOf(old(nodes)[level + 1..])
    {
      if level + 1 <= |nodes| {
        DeleteFrom(level + 1);
      }
      nodes := Resize(nodes, level);
      forall i | 0 <= i < |nodes| ensures nodes[i] == if i < |old(nodes)| then old(nodes)[i] else [] { }
      assert forall p | p in AllOf(nodes) :: p in AllOf(old(nodes));
    }

    /** Delete the streams of the levels from `first` on. */
    method DeleteFrom(first: nat)
      requires Valid() && first <= |nodes|
      modifies AllOf(nodes)`live
      ensures forall p | p in AllOf(nodes) :: !p.live <==> p in AllOf(nodes[first..])
    {
      forall i, k | 0 <= i < |nodes| && 0 <= k < |nodes[i]| ensures nodes[i][k] in AllOf(nodes) {
        InSome(nodes, i, k);
      }
      for ui := first to |nodes|
        invariant forall i, k | 0 <= i < |nodes| && 0 <= k < |nodes[i]| ::
                    nodes[i][k].live <==> !(first <= i < ui)
      {
        for it := 0 to |nodes[ui]|
          invariant forall i, k | 0 <= i < |nodes| && 0 <= k < |nodes[i]| ::
                      nodes[i][k].live <==> !(first <= i < ui || (i == ui && k < it))
        {
          InSome(nodes, ui, it);
          nodes[ui][it].Delete();
          forall i, k | 0 <= i < |nodes| && 0 <= k < |nodes[i]| && (i != ui || k != it)
            ensures nodes[i][k] != nodes[ui][it]
          {
            if i < ui { assert Apart(nodes[i], nodes[ui]); } else if i > ui { assert Apart(nodes[ui], nodes[i]); }
          }
        }
      }
    }
  }

  lemma InSome<T>(lists: seq<seq<T>>, i: nat, k: nat)
    requires i < |lists| && k < |lists[i]|
    ensures lists[i][k] in AllOf(lists)
  {
    assert lists[i][k] in lists[i];
  }

  lemma MinusLists<T>(a: seq<seq<T>>, b: seq<seq<T>>, xs: set<T>)
    requires |a| == |b| && forall i | 0 <= i < |a| :: b[i] == Minus(a[i], xs)
    ensures AllOf(b) == AllOf(a) - xs
  {
    forall i | 0 <= i < |a| ensures forall x :: x in b[i] <==> x in a[i] && x !in xs { MinusMembers(a[i], xs); }
  }
}
