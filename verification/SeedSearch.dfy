/** The mask analysis that finds where a refresh may start: the accumulated emit and
    block maps, and the scan that picks the seeds. */
module SeedSearch {
  import opened Forests
  import opened Scans
  import opened Ancestry
  import opened Streams
  import opened RefreshSpec
  import opened FilterNodes
  import opened FilterTrees
  import opened Walks

  // ----- the accumulated masks -----

  /** The types that may leave `x` when `above` may arrive at the roots. */
  ghost function EmitAt<K>(f: Forest<K>, s: Filters<K>, above: Mask, x: K): Mask
    requires Items(f) <= s.Keys && x in Items(f)
  {
    var Cons(m, k, r) := f;
    if m == x then EmitAcc(s[m], above)
    else if x in Items(k) then EmitAt(k, s, EmitAcc(s[m], above), x)
    else EmitAt(r, s, above, x)
  }

  /** What may leave a filter is determined by what may leave its parent. */
  lemma {:induction false} EmitFromParent<K>(f: Forest<K>, s: Filters<K>, above: Mask, x: K, up: Option<K>, d: nat)
    requires Distinct(f) && Items(f) <= s.Keys && x in Items(f)
    ensures DepthOf(f, x, d) == d ==> EmitAt(f, s, above, x) == EmitAcc(s[x], above)
    ensures DepthOf(f, x, d) > d ==>
              var p := ParentOf(f, x, up);
              p.Some? && p.value in Items(f) && EmitAt(f, s, above, x) == EmitAcc(s[x], EmitAt(f, s, above, p.value))
  {
    var Cons(m, k, r) := f;
    ParentDepth(f, x, up, d);
    if m == x {
    } else if x in Items(k) {
      ParentDepth(k, x, Some(m), d + 1);
      EmitFromParent(k, s, EmitAcc(s[m], above), x, Some(m), d + 1);
    } else {
      ParentDepth(r, x, up, d);
      EmitFromParent(r, s, above, x, up, d);
    }
  }

  lemma RootFirst<K>(f: Forest<K>, p: K, x: K, j: nat) returns (q: nat)
    requires Distinct(f) && p in Items(f) && x in Items(Kids(f, p))
    requires j < |Table(f, 0)| && Table(f, 0)[j].item == x
    ensures q < j && Table(f, 0)[q].item == p
  {
    q := |Before(f, p, 0)|;
    BranchRows(f, p);
    RunMembers(f, p, q, 1 + Size(Kids(f, p)), j);
  }

  /** A parent precedes its children in pre-order. */
  lemma ParentEarlier<K>(f: Forest<K>, x: K, j: nat) returns (q: nat)
    requires Distinct(f) && x in Items(f) && DepthOf(f, x, 0) > 0
    requires j < |Table(f, 0)| && Table(f, 0)[j].item == x
    ensures q < j && ParentOf(f, x, None) == Some(Table(f, 0)[q].item)
  {
    ParentDepth(f, x, None, 0);
    var p := ParentOf(f, x, None).value;
    BelowParent(f, x, p, None, 0);
    q := RootFirst(f, p, x, j);
  }

  lemma EmitNext<K>(f: Forest<K>, s: Filters<K>, x: K)
    requires Distinct(f) && Items(f) <= s.Keys && x in Items(f)
    ensures DepthOf(f, x, 0) == 0 ==> EmitAt(f, s, {}, x) == s[x].Emit()
    ensures DepthOf(f, x, 0) > 0 ==>
              var p := ParentOf(f, x, None);
              p.Some? && p.value in Items(f)
              && EmitAt(f, s, {}, x) == (EmitAt(f, s, {}, p.value) * (MASK_ALL - s[x].Block())) + s[x].Emit()
  {
    EmitFromParent(f, s, {}, x, None, 0);
  }

  lemma EveryRow<K>(f: Forest<K>, rows: seq<Row<K>>, keys: set<K>)
    requires rows == Table(f, 0) && forall j | 0 <= j < |rows| :: rows[j].item in keys
    ensures Items(f) <= keys
  {
    forall x | x in Items(f) ensures x in keys {
      var j := RowFor(f, 0, x);
    }
  }

  /** The types that may leave the filter of row `it`, given those of all earlier rows. */
  method EmitTypesOf(t: FilterTree, rows: seq<Row<Filter>>, it: nat, emitTypes: map<Filter, Mask>,
                     ghost s: Filters<Filter>)
    returns (curEmit: Mask)
    requires t.Valid() && rows == Table(t.filters, 0) && it < |rows| && s == t.View().filters
    requires forall j | 0 <= j < it :: rows[j].item in emitTypes
    requires forall x | x in emitTypes :: x in t.members && emitTypes[x] == EmitAt(t.filters, s, {}, x)
    ensures rows[it].item in t.members && curEmit == EmitAt(t.filters, s, {}, rows[it].item)
  {
    var x := rows[it].item;
    RowFacts(t.filters, rows, it);
    EmitNext(t.filters, s, x);
    assert t.InGoodOrder(x);
    if rows[it].depth == 0 {
      curEmit := x.kind.emit(x.props);
    } else {
      ghost var q := ParentEarlier(t.filters, x, it);
      curEmit := emitTypes[ParentOf(t.filters, x, None).value];
      curEmit := curEmit * (MASK_ALL - x.kind.block(x.props));
      curEmit := curEmit + x.kind.emit(x.props);
    }
  }

  method AddEmitTypes(t: FilterTree, rows: seq<Row<Filter>>, it: nat, before: map<Filter, Mask>,
                      ghost s: Filters<Filter>)
    returns (emitTypes: map<Filter, Mask>)
    requires t.Valid() && rows == Table(t.filters, 0) && it < |rows| && s == t.View().filters
    requires forall j | 0 <= j < it :: rows[j].item in before
    requires forall x | x in before :: x in t.members && before[x] == EmitAt(t.filters, s, {}, x)
    ensures forall j | 0 <= j < it + 1 :: rows[j].item in emitTypes
    ensures forall x | x in emitTypes :: x in t.members && emitTypes[x] == EmitAt(t.filters, s, {}, x)
  {
    var curEmit := EmitTypesOf(t, rows, it, before, s);
    emitTypes := before[rows[it].item := curEmit];
  }

  /** The emit map: what each filter may send on, given what its parent may send it. */
  method AccumulateEmitTypes(t: FilterTree, ghost s: Filters<Filter>) returns (emitTypes: map<Filter, Mask>)
    requires t.Valid() && s == t.View().filters
    ensures emitTypes.Keys == t.members
    ensures forall x | x in t.members :: emitTypes[x] == EmitAt(t.filters, s, {}, x)
  {
    var rows := Table(t.filters, 0);
    emitTypes := map[];
    for it := 0 to |rows|
      invariant forall j | 0 <= j < it :: rows[j].item in emitTypes
      invariant forall x | x in emitTypes :: x in t.members && emitTypes[x] == EmitAt(t.filters, s, {}, x)
    {
      emitTypes := AddEmitTypes(t, rows, it, emitTypes, s);
    }
    EveryRow(t.filters, rows, emitTypes.Keys);
  }

  /** The types that the subtree of a filter is taken to stop. */
  method BlockMaskOf(t: FilterTree, x: Filter) returns (blockMask: Mask)
    requires t.Valid() && x in t.members
    ensures blockMask == BlockAcc(x.state)
  {
    assert t.InGoodOrder(x);
    blockMask := {};
    if x.cacheOK {
      var child := Kids(t.filters, x);
      while child.Cons?
        invariant blockMask == {}
        decreases child
      {
        if child.item.cacheOK {
          blockMask := blockMask * child.item.kind.block(child.item.props);
        } else {
          blockMask := {};
          break;
        }
        child := child.rest;
      }
      blockMask := blockMask + x.kind.block(x.props);
    } else {
      blockMask := {};
    }
  }

  /** Add the block masks of the filters at one depth. */
  method BlockTypesAtDepth(t: FilterTree, rows: seq<Row<Filter>>, ui: nat, before: map<Filter, Mask>)
    returns (blockTypes: map<Filter, Mask>)
    requires t.Valid() && before.Keys <= t.members && forall j | 0 <= j < |rows| :: rows[j].item in t.members
    requires forall x | x in before :: before[x] == BlockAcc(x.state)
    ensures before.Keys <= blockTypes.Keys <= t.members
    ensures forall x | x in blockTypes :: blockTypes[x] == BlockAcc(x.state)
    ensures forall j | 0 <= j < |rows| && rows[j].depth == ui :: rows[j].item in blockTypes
  {
    blockTypes := before;
    for it := 0 to |rows|
      invariant before.Keys <= blockTypes.Keys <= t.members
      invariant forall x | x in blockTypes :: blockTypes[x] == BlockAcc(x.state)
      invariant forall j | 0 <= j < it && rows[j].depth == ui :: rows[j].item in blockTypes
    {
      if rows[it].depth != ui { continue; }
      var blockMask := BlockMaskOf(t, rows[it].item);
      blockTypes := blockTypes[rows[it].item := blockMask];
    }
  }

  /** The block map, built one depth at a time from the deepest up. */
  method AccumulateBlockTypes(t: FilterTree) returns (blockTypes: map<Filter, Mask>)
    requires t.Valid()
    ensures blockTypes.Keys == t.members
    ensures forall x | x in t.members :: blockTypes[x] == BlockAcc(x.state)
    ensures forall x | x in t.members :: blockTypes[x] == if x.cacheOK then x.kind.block(x.props) else {}
  {
    var rows, ui := Table(t.filters, 0), MaxDepth(t.filters, 0) + 1;
    assert forall j | 0 <= j < |rows| :: rows[j].item in t.members && rows[j].depth < ui by {
      TableRows(t.filters, 0);
      MaxDepthRows(t.filters, 0);
    }
    blockTypes := map[];
    while ui != 0
      invariant 0 <= ui && blockTypes.Keys <= t.members
      invariant forall j | 0 <= j < |rows| && rows[j].depth >= ui :: rows[j].item in blockTypes
      invariant forall x | x in blockTypes :: blockTypes[x] == BlockAcc(x.state)
    {
      ui := ui - 1;
      blockTypes := BlockTypesAtDepth(t, rows, ui, blockTypes);
    }
    EveryRow(t.filters, rows, blockTypes.Keys);
    forall x | x in t.members ensures blockTypes[x] == if x.cacheOK then x.kind.block(x.props) else {} {
      assert t.InGoodOrder(x);
    }
  }

  // ----- picking the seeds -----

  /** Does `x` lie below one of these? */
  ghost predicate Below<K>(g: Forest<K>, seeds: seq<K>, x: K)
  {
    exists i :: 0 <= i < |seeds| && seeds[i] in Items(g) && x in Items(Kids(g, seeds[i]))
  }

  /** Is a filter of the whole tree `g` a seed, if nothing above it is? */
  ghost predicate MustStart<K>(g: Forest<K>, s: Filters<K>, x: K)
    requires Items(g) <= s.Keys && x in Items(g)
  {
    KidsItems(g, x);
    var k := Kids(g, x);
    k.Nil? || EmitAt(g, s, {}, x) * (MASK_ALL - BlockedByAll(k, s)) != {}
  }

  /** The scan takes a filter that must start and lies below none taken so far. */
  ghost predicate Takes<K>(g: Forest<K>, s: Filters<K>, taken: seq<K>, x: K)
    requires Items(g) <= s.Keys
  {
    x in Items(g) && !Below(g, taken, x) && MustStart(g, s, x)
  }

  ghost function SeedScan<K>(g: Forest<K>, s: Filters<K>, rows: seq<Row<K>>, taken: seq<K>): seq<K>
    requires Items(g) <= s.Keys
  {
    if rows == [] then taken
    else SeedScan(g, s, rows[1..], if Takes(g, s, taken, rows[0].item) then taken + [rows[0].item] else taken)
  }

  /** `f` is a chain of siblings of `g` to which `above` may be sent. */
  ghost predicate Within<K>(g: Forest<K>, s: Filters<K>, f: Forest<K>, above: Mask)
    requires Items(g) <= s.Keys && Items(f) <= s.Keys
  {
    forall x | x in Items(f) ::
      x in Items(g) && x in Items(f) && Kids(g, x) == Kids(f, x) && EmitAt(g, s, {}, x) == EmitAt(f, s, above, x)
  }

  lemma WithinParts<K>(g: Forest<K>, s: Filters<K>, m: K, k: Forest<K>, r: Forest<K>, above: Mask)
    requires Items(g) <= s.Keys && Items(Cons(m, k, r)) <= s.Keys && Distinct(Cons(m, k, r))
    requires Within(g, s, Cons(m, k, r), above)
    ensures m in Items(g) && Kids(g, m) == k && EmitAt(g, s, {}, m) == EmitAcc(s[m], above)
    ensures Within(g, s, k, EmitAcc(s[m], above)) && Within(g, s, r, above)
  {
    var f := Cons(m, k, r);
    assert m in Items(f);
    forall x | x in Items(k)
      ensures x in Items(g) && Kids(g, x) == Kids(k, x) && EmitAt(g, s, {}, x) == EmitAt(k, s, EmitAcc(s[m], above), x)
    {
      assert x in Items(f);
    }
    forall x | x in Items(r)
      ensures x in Items(g) && Kids(g, x) == Kids(r, x) && EmitAt(g, s, {}, x) == EmitAt(r, s, above, x)
    {
      assert x in Items(f);
    }
  }

  lemma OneRow<K>(g: Forest<K>, s: Filters<K>, row: Row<K>, rest: seq<Row<K>>, taken: seq<K>)
    requires Items(g) <= s.Keys
    ensures SeedScan(g, s, [row] + rest, taken)
         == SeedScan(g, s, rest, if Takes(g, s, taken, row.item) then taken + [row.item] else taken)
  {
    assert ([row] + rest)[1..] == rest;
  }

  /** Filters below one already taken are passed over. */
  lemma {:induction false} ScanSkips<K>(g: Forest<K>, s: Filters<K>, f: Forest<K>, d: nat, tail: seq<Row<K>>,
                                        taken: seq<K>)
    requires Items(g) <= s.Keys
    requires forall x | x in Items(f) :: Below(g, taken, x)
    ensures SeedScan(g, s, Onto(f, d, tail), taken) == SeedScan(g, s, tail, taken)
  {
    match f
    case Nil =>
    case Cons(m, k, r) =>
      OneRow(g, s, Row(m, d, k.Nil?), Onto(k, d + 1, Onto(r, d, tail)), taken);
      ScanSkips(g, s, k, d + 1, Onto(r, d, tail), taken);
      ScanSkips(g, s, r, d, tail, taken);
  }

  lemma BelowAppend<K>(g: Forest<K>, a: seq<K>, b: seq<K>, x: K)
    ensures Below(g, a + b, x) <==> Below(g, a, x) || Below(g, b, x)
  {
    var c := a + b;
    if Below(g, a, x) {
      var i :| 0 <= i < |a| && a[i] in Items(g) && x in Items(Kids(g, a[i]));
      assert c[i] == a[i];
    }
    if Below(g, b, x) {
      var i :| 0 <= i < |b| && b[i] in Items(g) && x in Items(Kids(g, b[i]));
      assert c[|a| + i] == b[i];
    }
    if Below(g, c, x) {
      var i :| 0 <= i < |c| && c[i] in Items(g) && x in Items(Kids(g, c[i]));
      assert c[i] == if i < |a| then a[i] else b[i - |a|];
    }
  }

  /** Later siblings lie below none of a tree's seeds. */
  lemma SeedsAside<K>(g: Forest<K>, s: Filters<K>, m: K, k: Forest<K>, r: Forest<K>, above: Mask)
    requires Items(g) <= s.Keys && Items(Cons(m, k, r)) <= s.Keys && Distinct(Cons(m, k, r))
    requires Within(g, s, Cons(m, k, r), above)
    ensures forall x | x in Items(r) ::
              !Below(g, if IsSeed(m, k, s, above) then [m] else Seeds(k, s, EmitAcc(s[m], above)), x)
  {
    var above' := EmitAcc(s[m], above);
    WithinParts(g, s, m, k, r, above);
    SeedItems(k, s, above');
    forall y | y in Items(k) ensures Items(Kids(g, y)) <= Items(k) { KidsItems(k, y); }
  }

  /** Scanning a chain of siblings that lies below nothing taken adds its seeds. */
  lemma {:induction false} ScanFindsSeeds<K>(g: Forest<K>, s: Filters<K>, f: Forest<K>, above: Mask, d: nat,
                                             tail: seq<Row<K>>, taken: seq<K>)
    requires Items(g) <= s.Keys && Items(f) <= s.Keys && Distinct(f) && Within(g, s, f, above)
    requires forall x | x in Items(f) :: !Below(g, taken, x)
    ensures SeedScan(g, s, Onto(f, d, tail), taken) == SeedScan(g, s, tail, taken + Seeds(f, s, above))
    decreases f, 1
  {
    match f
    case Nil =>
      assert taken + [] == taken;
    case Cons(m, k, r) =>
      var here := if IsSeed(m, k, s, above) then [m] else Seeds(k, s, EmitAcc(s[m], above));
      WithinParts(g, s, m, k, r, above);
      TreeFindsSeeds(g, s, m, k, r, above, d, Onto(r, d, tail), taken);
      NoneBelow(g, s, m, k, r, above, taken);
      ScanFindsSeeds(g, s, r, above, d, tail, taken + here);
      ConcatAssociates(taken, here, Seeds(r, s, above));
  }

  lemma {:induction false} TreeFindsSeeds<K>(g: Forest<K>, s: Filters<K>, m: K, k: Forest<K>, r: Forest<K>,
                                             above: Mask, d: nat, rest: seq<Row<K>>, taken: seq<K>)
    requires Items(g) <= s.Keys && Items(Cons(m, k, r)) <= s.Keys && Distinct(Cons(m, k, r))
    requires Within(g, s, Cons(m, k, r), above)
    requires forall x | x in Items(Cons(m, k, r)) :: !Below(g, taken, x)
    ensures SeedScan(g, s, [Row(m, d, k.Nil?)] + Onto(k, d + 1, rest), taken)
         == SeedScan(g, s, rest, taken + if IsSeed(m, k, s, above) then [m] else Seeds(k, s, EmitAcc(s[m], above)))
    decreases k, 2
  {
    WithinParts(g, s, m, k, r, above);
    OneRow(g, s, Row(m, d, k.Nil?), Onto(k, d + 1, rest), taken);
    assert Takes(g, s, taken, m) <==> IsSeed(m, k, s, above);
    if IsSeed(m, k, s, above) {
      forall x | x in Items(k) ensures Below(g, taken + [m], x) {
        assert (taken + [m])[|taken|] == m;
      }
      ScanSkips(g, s, k, d + 1, rest, taken + [m]);
    } else {
      ScanFindsSeeds(g, s, k, EmitAcc(s[m], above), d + 1, rest, taken);
    }
  }

  lemma NoneBelow<K>(g: Forest<K>, s: Filters<K>, m: K, k: Forest<K>, r: Forest<K>, above: Mask, taken: seq<K>)
    requires Items(g) <= s.Keys && Items(Cons(m, k, r)) <= s.Keys && Distinct(Cons(m, k, r))
    requires Within(g, s, Cons(m, k, r), above)
    requires forall x | x in Items(r) :: !Below(g, taken, x)
    ensures forall x | x in Items(r) ::
              !Below(g, taken + if IsSeed(m, k, s, above) then [m] else Seeds(k, s, EmitAcc(s[m], above)), x)
  {
    var here := if IsSeed(m, k, s, above) then [m] else Seeds(k, s, EmitAcc(s[m], above));
    SeedsAside(g, s, m, k, r, above);
    forall x | x in Items(r) ensures !Below(g, taken + here, x) { BelowAppend(g, taken, here, x); }
  }

  /** A scan of the whole tree in pre-order takes exactly the seeds. */
  lemma ScanIsSeeds<K>(g: Forest<K>, s: Filters<K>)
    requires Items(g) <= s.Keys && Distinct(g)
    ensures SeedScan(g, s, Table(g, 0), []) == Seeds(g, s, {})
  {
    OntoIsTable(g, 0, []);
    assert Table(g, 0) + [] == Table(g, 0);
    ScanFindsSeeds(g, s, g, {}, 0, [], []);
    assert [] + Seeds(g, s, {}) == Seeds(g, s, {});
  }

  /** Does `x` lie below one of the filters taken so far? */
  method BelowAny(g: Forest<Filter>, taken: seq<Filter>, x: Filter) returns (isChildFilt: bool)
    requires Distinct(g) && x in Items(g) && forall y | y in taken :: y in Items(g)
    ensures isChildFilt <==> Below(g, taken, x)
  {
    isChildFilt := false;
    for ui := 0 to |taken|
      invariant isChildFilt <==> Below(g, taken[..ui], x)
    {
      BelowAppend(g, taken[..ui], [taken[ui]], x);
      assert taken[..ui + 1] == taken[..ui] + [taken[ui]];
      assert [taken[ui]][0] == taken[ui];
      var below := IsChild(g, taken[ui], x);
      if below {
        isChildFilt := true;
      }
    }
    assert taken[..|taken|] == taken;
  }

  lemma {:induction false} BlockedListed<K>(f: Forest<K>, s: Filters<K>)
    requires Items(f) <= s.Keys
    ensures MASK_ALL * BlockedByAll(f, s) == BlockedByAll(f, s)
  {
    forall t | t in BlockedByAll(f, s) ensures t in MASK_ALL { EveryTypeIsListed(t); }
  }

  /** The types that all these siblings stop. */
  method BlockedByChildren(children: Forest<Filter>, blockTypes: map<Filter, Mask>, ghost s: Filters<Filter>)
    returns (blockMask: Mask)
    requires Items(children) <= s.Keys && Items(children) <= blockTypes.Keys
    requires forall x | x in Items(children) :: blockTypes[x] == BlockAcc(s[x])
    ensures blockMask == BlockedByAll(children, s)
  {
    blockMask := MASK_ALL;
    BlockedListed(children, s);
    var child := children;
    while child.Cons?
      invariant Items(child) <= Items(children)
      invariant blockMask * BlockedByAll(child, s) == BlockedByAll(children, s)
      decreases child
    {
      ghost var mask, here, rest := blockMask, BlockAcc(s[child.item]), BlockedByAll(child.rest, s);
      assert mask * (here * rest) == (mask * here) * rest;
      blockMask := blockMask * blockTypes[child.item];
      child := child.rest;
    }
    assert blockMask * MASK_ALL == blockMask by {
      forall t | t in blockMask ensures t in MASK_ALL { EveryTypeIsListed(t); }
    }
  }

  /** Must a refresh start at `x`, when nothing above it has been taken? */
  method MustStartAt(t: FilterTree, x: Filter, leaf: bool, emitTypes: map<Filter, Mask>, blockTypes: map<Filter, Mask>,
                     ghost s: Filters<Filter>) returns (must: bool)
    requires Distinct(t.filters) && x in Items(t.filters)
    requires Items(t.filters) == s.Keys == emitTypes.Keys == blockTypes.Keys
    requires emitTypes[x] == EmitAt(t.filters, s, {}, x) && leaf == Kids(t.filters, x).Nil?
    requires forall y | y in s :: blockTypes[y] == BlockAcc(s[y])
    ensures must == MustStart(t.filters, s, x)
  {
    if leaf { return true; }
    KidsItems(t.filters, x);
    var emitMask := emitTypes[x];
    var blockMask := BlockedByChildren(Kids(t.filters, x), blockTypes, s);
    must := emitMask * (MASK_ALL - blockMask) != {};
  }

  /** Scan the rows of the tree for filters that must start. */
  method PickStarts(t: FilterTree, rows: seq<Row<Filter>>, emitTypes: map<Filter, Mask>, blockTypes: map<Filter, Mask>,
                    ghost s: Filters<Filter>) returns (starts: seq<Filter>)
    requires Distinct(t.filters) && Items(t.filters) == s.Keys == emitTypes.Keys == blockTypes.Keys
    requires forall y | y in s :: emitTypes[y] == EmitAt(t.filters, s, {}, y) && blockTypes[y] == BlockAcc(s[y])
    requires forall j | 0 <= j < |rows| ::
               rows[j].item in Items(t.filters) && rows[j].leaf == Kids(t.filters, rows[j].item).Nil?
    ensures starts == SeedScan(t.filters, s, rows, [])
  {
    starts := [];
    for it := 0 to |rows|
      invariant SeedScan(t.filters, s, rows, []) == SeedScan(t.filters, s, rows[it..], starts)
      invariant forall y | y in starts :: y in Items(t.filters)
    {
      var x := rows[it].item;
      var take := BelowAny(t.filters, starts, x);
      take := !take;
      if take {
        take := MustStartAt(t, x, rows[it].leaf, emitTypes, blockTypes, s);
      }
      assert rows[it..] == [rows[it]] + rows[it + 1..];
      OneRow(t.filters, s, rows[it], rows[it + 1..], starts);
      if take {
        starts := starts + [x];
      }
    }
  }

  // ----- where a refresh starts -----

  /** The first of each tree. */
  ghost function Tops<K>(f: Forest<K>): set<K>
  {
    match f
    case Nil => {}
    case Cons(m, _, r) => {m} + Tops(r)
  }

  lemma {:induction false} TopsInside<K>(f: Forest<K>)
    ensures Tops(f) <= Items(f)
  {
    match f
    case Nil =>
    case Cons(_, _, r) => TopsInside(r);
  }

  /** A cached filter that blocks a type keeps it from everything below. */
  predicate Stops(m: FilterState, ty: StreamType)
  {
    m.cache.Some? && ty in m.kind.block(m.props)
  }

  lemma {:induction false} BlockedByAllIs<K>(f: Forest<K>, s: Filters<K>, ty: StreamType)
    requires Items(f) <= s.Keys
    ensures Tops(f) <= s.Keys && (ty in BlockedByAll(f, s) <==> forall c | c in Tops(f) :: Stops(s[c], ty))
  {
    TopsInside(f);
    match f
    case Nil => EveryTypeIsListed(ty);
    case Cons(_, _, r) => BlockedByAllIs(r, s, ty);
  }

  /** Some type that may leave `x` meets a child that does not stop it. */
  ghost predicate GetsThrough<K>(g: Forest<K>, s: Filters<K>, x: K)
    requires Items(g) <= s.Keys && x in Items(g)
  {
    exists ty, c :: ty in EmitAt(g, s, {}, x) && c in Tops(Kids(g, x)) && c in s && !Stops(s[c], ty)
  }

  lemma MustStartIs<K>(g: Forest<K>, s: Filters<K>, x: K)
    requires Items(g) <= s.Keys && x in Items(g)
    ensures MustStart(g, s, x) <==> Kids(g, x).Nil? || GetsThrough(g, s, x)
  {
    KidsItems(g, x);
    var k, emits := Kids(g, x), EmitAt(g, s, {}, x);
    forall ty ensures (ty in emits * (MASK_ALL - BlockedByAll(k, s))
                       <==> ty in emits && exists c :: c in Tops(k) && c in s && !Stops(s[c], ty))
    {
      EveryTypeIsListed(ty);
      BlockedByAllIs(k, s, ty);
    }
    if emits * (MASK_ALL - BlockedByAll(k, s)) != {} {
      var ty :| ty in emits * (MASK_ALL - BlockedByAll(k, s));
      var c :| c in Tops(k) && c in s && !Stops(s[c], ty);
      assert GetsThrough(g, s, x);
    }
  }

  /** A filter is a seed exactly when it must start and lies below no seed. */
  lemma {:induction false} SeedsExact<K>(g: Forest<K>, s: Filters<K>, f: Forest<K>, above: Mask, x: K)
    requires Items(g) <= s.Keys && Items(f) <= s.Keys && Distinct(f) && Within(g, s, f, above) && x in Items(f)
    ensures x in Seeds(f, s, above) <==> MustStart(g, s, x) && !Below(g, Seeds(f, s, above), x)
  {
    var Cons(m, k, r) := f;
    var above' := EmitAcc(s[m], above);
    var here := if IsSeed(m, k, s, above) then [m] else Seeds(k, s, above');
    WithinParts(g, s, m, k, r, above);
    SeedItems(k, s, above');
    SeedItems(r, s, above);
    BelowAppend(g, here, Seeds(r, s, above), x);
    forall y | y in Items(k) ensures Items(Kids(g, y)) <= Items(k) { KidsItems(k, y); }
    forall y | y in Items(r) ensures Items(Kids(g, y)) <= Items(r) { KidsItems(r, y); }
    if x == m {
    } else if x in Items(k) {
      if IsSeed(m, k, s, above) {
        assert here[0] == m && Below(g, here, x);
      } else {
        SeedsExact(g, s, k, above', x);
      }
    } else {
      SeedsExact(g, s, r, above, x);
    }
  }

  /** A refresh starts at a filter exactly when it starts at none above it and the filter is
      a leaf or can send something to a child that does not stop it. */
  lemma StartsExactly<K>(g: Forest<K>, s: Filters<K>, x: K)
    requires Items(g) <= s.Keys && Distinct(g) && x in Items(g)
    ensures x in Seeds(g, s, {}) <==>
            && (Kids(g, x).Nil? || GetsThrough(g, s, x))
            && forall y | y in Seeds(g, s, {}) && y in Items(g) :: x !in Items(Kids(g, y))
  {
    SeedsExact(g, s, g, {}, x);
    MustStartIs(g, s, x);
  }

  /** `starts` is where a refresh of the whole tree must start: a filter is in it exactly when
      none above it is, and it is a leaf or something gets through to one of its children. */
  ghost predicate StartsWhereNeeded<K>(g: Forest<K>, s: Filters<K>, starts: seq<K>)
    requires Items(g) <= s.Keys
  {
    forall x | x in Items(g) ::
      x in starts <==> && (Kids(g, x).Nil? || GetsThrough(g, s, x))
                       && forall y | y in starts && y in Items(g) :: x !in Items(Kids(g, y))
  }

  lemma SeedsAreNeeded<K>(g: Forest<K>, s: Filters<K>)
    requires Items(g) <= s.Keys && Distinct(g)
    ensures StartsWhereNeeded(g, s, Seeds(g, s, {}))
  {
    forall x | x in Items(g)
      ensures x in Seeds(g, s, {}) <==>
              && (Kids(g, x).Nil? || GetsThrough(g, s, x))
              && forall y | y in Seeds(g, s, {}) && y in Items(g) :: x !in Items(Kids(g, y))
    {
      StartsExactly(g, s, x);
    }
  }

  /** Find the filters from which a refresh starts. */
  method FilterRefreshStarts(t: FilterTree, ghost s: Filters<Filter>) returns (starts: seq<Filter>)
    requires t.Valid() && s == t.View().filters
    ensures Items(t.filters) == s.Keys && starts == Seeds(t.filters, s, {})
    ensures StartsWhereNeeded(t.filters, s, starts)
  {
    SeedsAreNeeded(t.filters, s);
    if t.filters.Nil? { return []; }
    var emitTypes := AccumulateEmitTypes(t, s);
    var blockTypes := AccumulateBlockTypes(t);
    var rows := Table(t.filters, 0);
    forall j | 0 <= j < |rows|
      ensures rows[j].item in Items(t.filters) && rows[j].leaf == Kids(t.filters, rows[j].item).Nil?
    {
      RowFacts(t.filters, rows, j);
    }
    starts := PickStarts(t, rows, emitTypes, blockTypes, s);
    ScanIsSeeds(t.filters, s);
  }
}
