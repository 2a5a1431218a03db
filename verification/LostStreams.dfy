/** A refresh after which a stream is neither deleted nor owned by anyone. */
module LostStreams {
  import opened Forests
  import opened Streams
  import opened Collector
  import opened RefreshSpec
  import opened CacheRuns
  import opened FilterNodes

  /** A filter that lets nothing through, and generates one stream. */
  function Source(): Kind
  {
    Kind(_ => MASK_ALL, _ => {Ions}, (_, _) => [Stream(Ions, 0)], false, (_, _) => false)
  }

  /** A filter that lets nothing through, and generates nothing. */
  function Sink(): Kind
  {
    Kind(_ => MASK_ALL, _ => {}, (_, _) => [], false, (_, _) => false)
  }

  lemma {:induction false} AllBlocked(ps: seq<StreamData>)
    ensures PassPtrs(ps, MASK_ALL) == []
  {
    if ps != [] {
      AllBlocked(ps[..|ps| - 1]);
      EveryTypeIsListed(ps[|ps| - 1].kind);
    }
  }

  /** Ready for a refresh: no cache, and none wanted. */
  ghost predicate Uncached(x: Filter)
    reads x, x.filterOutputs
  {
    x.Valid() && !x.cache && !x.cacheOK && x.kind.block(x.props) == MASK_ALL
  }

  /** Run such a filter. */
  method RunUncached(x: Filter, dataIn: seq<StreamData>) returns (curData: seq<StreamData>)
    requires Uncached(x) && AllLive(dataIn)
    modifies x`cacheOK, x`filterOutputs, x`state
    ensures Uncached(x) && x.filterOutputs == [] && fresh(curData) && NoRepeat(curData)
    ensures Values(curData) == x.kind.gen(x.props, Values(dataIn)) && forall p | p in curData :: p.live && !p.cached
  {
    ghost var made;
    curData, made := x.Refresh(dataIn);
    AllBlocked(dataIn);
    assert curData == made;
    PassValues(dataIn, MASK_ALL);
  }

  lemma {:induction false} NewIsFresh(c: FilterRefreshCollector, v: seq<StreamData>)
    requires forall p | p in v :: !p.cached && p !in AllOf(c.nodes) && p !in c.forgotten
    ensures c.Fresh(v) == v
  {
    if v != [] { NewIsFresh(c, v[..|v| - 1]); }
  }

  /** Track streams that are all new. */
  method TrackNew(c: FilterRefreshCollector, v: seq<StreamData>)
    requires c.Valid() && NoRepeat(v)
    requires forall p | p in v :: p.live && !p.cached && p !in AllOf(c.nodes) && p !in c.forgotten && p !in c.elders
    modifies c`nodes
    ensures c.Valid() && c.nodes == old(c.nodes) + [v]
  {
    NewIsFresh(c, v);
    c.TrackPointers(v);
  }

  /** One row of the walk, when nothing is tracked above the level it pops to but one level:
      pop, run the filter, and push and track its output unless it is a leaf. What a leaf puts
      out would be recorded; the leaves here put out nothing. */
  method Visit(row: Row<Filter>, stack: seq<seq<StreamData>>, c: FilterRefreshCollector)
    returns (pushed: seq<seq<StreamData>>, curData: seq<StreamData>)
    requires Uncached(row.item) && c.Valid() && row.depth + 1 <= |stack| && |c.nodes| <= row.depth + 2
    requires AllLive(stack[row.depth])
    modifies c`nodes, row.item`cacheOK, row.item`filterOutputs, row.item`state, AllOf(c.nodes)`live
    ensures Uncached(row.item) && row.item.filterOutputs == [] && c.Valid() && fresh(curData)
    ensures Values(curData) == row.item.kind.gen(row.item.props, Values(stack[row.depth]))
    ensures forall p | p in curData :: p.live && !p.cached
    ensures forall p | p in old(AllOf(c.nodes)) :: p.live
    ensures pushed == stack[..row.depth + 1] + if row.leaf then [] else [curData]
    ensures c.nodes == Resize(old(c.nodes), row.depth + 1) + if row.leaf then [] else [curData]
  {
    var popLevel := row.depth + 1;
    pushed := stack[..popLevel];
    assert pushed[popLevel - 1] == stack[row.depth];
    PopAll(c, popLevel);
    curData := RunUncached(row.item, stack[row.depth]);
    if !row.leaf {
      TrackNew(c, curData);
      pushed := pushed + [curData];
    }
  }

  /** Pop when there is nothing above to delete. */
  method PopAll(c: FilterRefreshCollector, popLevel: nat)
    requires c.Valid() && |c.nodes| <= popLevel + 1
    modifies c`nodes, AllOf(c.nodes)`live
    ensures c.Valid() && c.nodes == Resize(old(c.nodes), popLevel)
    ensures forall p | p in old(AllOf(c.nodes)) :: p.live
  {
    c.CollectToLevel(popLevel);
  }

  /** The tree: a base with two children, of which the first has a leaf. */
  function Four<K>(base: K, first: K, leaf: K, second: K): Forest<K>
  {
    Cons(base, Cons(first, Cons(leaf, Nil, Nil), Cons(second, Nil, Nil)), Nil)
  }

  function FourRows<K>(base: K, first: K, leaf: K, second: K): seq<Row<K>>
  {
    [Row(base, 0, false), Row(first, 1, false), Row(leaf, 2, true), Row(second, 1, true)]
  }

  lemma RowsOfFour<K>(base: K, first: K, leaf: K, second: K)
    ensures Table(Four(base, first, leaf, second), 0) == FourRows(base, first, leaf, second)
  {
    var k, r: Forest<K> := Cons(leaf, Nil, Nil), Cons(second, Nil, Nil);
    assert Table(k, 2) == [Row(leaf, 2, true)];
    assert Table(r, 1) == [Row(second, 1, true)];
    assert Table(Cons(first, k, r), 1) == [Row(first, 1, false), Row(leaf, 2, true), Row(second, 1, true)];
  }

  /** Without caches a refresh of this tree starts at the base. */
  lemma StartOfFour<K>(base: K, first: K, leaf: K, second: K, s: Filters<K>)
    requires Items(Four(base, first, leaf, second)) <= s.Keys && first in s && second in s
    requires s[first].cache.None? && s[second].cache.None? && s[base].Emit() == {Ions}
    ensures Seeds(Four(base, first, leaf, second), s, {}) == [base]
  {
    var k := Cons(first, Cons(leaf, Nil, Nil), Cons(second, Nil, Nil));
    assert Ions in MASK_ALL && Ions !in BlockedByAll(k, s);
    assert IsSeed(base, k, s, {});
  }

  method NewFilter(kind: Kind) returns (x: Filter)
    requires kind == Source() || kind == Sink()
    ensures fresh(x) && Uncached(x) && x.filterOutputs == [] && x.state == FilterState(kind, map[], None)
    ensures x.kind == kind
  {
    x := new Filter(kind, map[]);
    x.cache := false;
  }

  /** The rows of that tree: the pop for the second child drops the level of the first one's
      stream, which the leaf has blocked. */
  method WalkFour(c: FilterRefreshCollector, base: Filter, first: Filter, leaf: Filter, second: Filter)
    returns (lost: StreamData)
    requires base != first && base != leaf && base != second && first != leaf && first != second && leaf != second
    requires Uncached(base) && Uncached(first) && Uncached(leaf) && Uncached(second)
    requires base.kind == first.kind == Source() && leaf.kind == second.kind == Sink()
    requires c.Valid() && c.nodes == [[]]
    modifies c`nodes, base`cacheOK, base`filterOutputs, base`state, first`cacheOK, first`filterOutputs, first`state
    modifies leaf`cacheOK, leaf`filterOutputs, leaf`state, second`cacheOK, second`filterOutputs, second`state
    ensures c.Valid() && fresh(lost) && lost.live && !lost.cached && lost !in AllOf(c.nodes)
    ensures forall p | p in AllOf(c.nodes) :: fresh(p)
    ensures Uncached(base) && Uncached(first) && Uncached(leaf) && Uncached(second)
    ensures base.filterOutputs == first.filterOutputs == leaf.filterOutputs == second.filterOutputs == []
  {
    var rows := FourRows(base, first, leaf, second);
    var stack, ofBase := Visit(rows[0], [[]], c);
    assert c.nodes == [[], ofBase];
    var ofFirst, ofLeaf, ofSecond;
    stack, ofFirst := Visit(rows[1], stack, c);
    assert c.nodes == [[], ofBase, ofFirst];
    lost := ofFirst[0];
    InSome(c.nodes, 2, 0);
    assert lost !in ofBase by { assert Apart(c.nodes[1], c.nodes[2]); }
    stack, ofLeaf := Visit(rows[2], stack, c);
    assert c.nodes == [[], ofBase, ofFirst];
    stack, ofSecond := Visit(rows[3], stack, c);
    assert c.nodes == [[], ofBase];
    assert Values(ofLeaf) == [] && Values(ofSecond) == [];
  }

  lemma ItemsOfFour<K>(base: K, first: K, leaf: K, second: K)
    requires base != first && base != leaf && base != second && first != leaf && first != second && leaf != second
    ensures Items(Four(base, first, leaf, second)) == {base, first, leaf, second}
    ensures Distinct(Four(base, first, leaf, second))
  {
    var k, r: Forest<K> := Cons(leaf, Nil, Nil), Cons(second, Nil, Nil);
    assert Items(k) == {leaf} && Items(r) == {second};
    assert Distinct(k) && Distinct(r) && Items(Cons(first, k, r)) == {first, leaf, second};
    assert Distinct(Cons(first, k, r));
  }

  /** The tree of four new filters, its rows, and where its refresh starts. */
  lemma StatesOfFour(base: Filter, first: Filter, leaf: Filter, second: Filter, m: FilterState, n: FilterState)
    returns (f: Forest<Filter>, s: Filters<Filter>)
    requires base != first && base != leaf && base != second && first != leaf && first != second && leaf != second
    requires m == FilterState(Source(), map[], None) && n == FilterState(Sink(), map[], None)
    ensures f == Four(base, first, leaf, second) && s == map[base := m, first := m, leaf := n, second := n]
    ensures Items(f) == {base, first, leaf, second} == s.Keys && Distinct(f) && Seeds(f, s, {}) == [base]
    ensures Table(f, 0) == FourRows(base, first, leaf, second)
  {
    RowsOfFour(base, first, leaf, second);
    f := Four(base, first, leaf, second);
    s := map[base := m, first := m, leaf := n, second := n];
    ItemsOfFour(base, first, leaf, second);
    assert s.Keys == {base, first, leaf, second};
    StartOfFour(base, first, leaf, second, s);
  }

  method NewFour() returns (base: Filter, first: Filter, leaf: Filter, second: Filter)
    ensures fresh({base, first, leaf, second})
    ensures base != first && base != leaf && base != second && first != leaf && first != second && leaf != second
    ensures Uncached(base) && Uncached(first) && Uncached(leaf) && Uncached(second)
    ensures base.kind == first.kind == Source() && leaf.kind == second.kind == Sink()
    ensures base.state == first.state == FilterState(Source(), map[], None)
    ensures leaf.state == second.state == FilterState(Sink(), map[], None)
  {
    base := NewFilter(Source());
    first := NewFilter(Source());
    leaf := NewFilter(Sink());
    second := NewFilter(Sink());
  }

  /** The refresh of the base's branch, with its own collector. */
  method RefreshFour(base: Filter, first: Filter, leaf: Filter, second: Filter)
    returns (lost: StreamData, c: FilterRefreshCollector)
    requires base != first && base != leaf && base != second && first != leaf && first != second && leaf != second
    requires Uncached(base) && Uncached(first) && Uncached(leaf) && Uncached(second)
    requires base.kind == first.kind == Source() && leaf.kind == second.kind == Sink()
    modifies base`cacheOK, base`filterOutputs, base`state, first`cacheOK, first`filterOutputs, first`state
    modifies leaf`cacheOK, leaf`filterOutputs, leaf`state, second`cacheOK, second`filterOutputs, second`state
    ensures fresh(lost) && lost.live && !lost.cached && c.Valid() && c.nodes == []
    ensures Uncached(base) && Uncached(first) && Uncached(leaf) && Uncached(second)
    ensures base.filterOutputs == first.filterOutputs == leaf.filterOutputs == second.filterOutputs == []
  {
    ghost var elders := set p: StreamData | Exists(p);
    c := new FilterRefreshCollector(elders);
    c.TrackPointers([]);
    lost := WalkFour(c, base, first, leaf, second);
    c.CollectAll();
  }

  /** A refresh of four filters without caches that loses a stream: at its end the collector
      is empty, no filter holds the stream, no leaf has put anything out, and the stream is
      still alive. `s` holds the filters' states at the beginning. */
  method LoseStream()
    returns (lost: StreamData, ghost f: Forest<Filter>, c: FilterRefreshCollector, ghost s: Filters<Filter>)
    ensures Items(f) == s.Keys && Distinct(f) && f.Cons? && Seeds(f, s, {}) == [f.item]
    ensures fresh(lost) && lost.live && !lost.cached && c.Valid() && c.nodes == []
    ensures forall x | x in Items(f) :: Uncached(x) && x.filterOutputs == []
  {
    var base, first, leaf, second := NewFour();
    f, s := StatesOfFour(base, first, leaf, second, base.state, leaf.state);
    lost, c := RefreshFour(base, first, leaf, second);
  }
}
