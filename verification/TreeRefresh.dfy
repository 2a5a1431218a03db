/** A whole refresh: drop the caches of monitored branches, evaluate the branch of every
    seed, and clean the output. */
module TreeRefresh {
  import opened Forests
  import opened Scans
  import opened Streams
  import opened Collector
  import opened RefreshSpec
  import opened CacheRuns
  import opened FilterNodes
  import opened Walks
  import opened FilterTrees
  import opened Refreshing
  import opened SeedSearch
  import opened OutputScrub

  // ----- the seeds' branches, one after the other -----

  /** Evaluation depends only on the filters evaluated. */
  lemma {:induction false} EvalAgrees<K>(f: Forest<K>, s: Filters<K>, t: Filters<K>, input: seq<Stream>, keep: set<K>)
    requires Items(f) <= s.Keys && Items(f) <= t.Keys && Agree(f, s, t)
    ensures Eval(f, s, input, keep) == Eval(f, t, input, keep)
  {
    match f
    case Nil =>
    case Cons(m, k, r) =>
      EvalAgrees(k, s, t, Run(s[m], input), keep);
      EvalAgrees(r, s, t, input, keep);
  }

  /** Evaluate the branches of `seeds` of the tree `g` in order. */
  ghost function EvalBranches<K>(g: Forest<K>, s: Filters<K>, seeds: seq<K>, keep: set<K>): Trace<K>
    requires Items(g) <= s.Keys && forall x | x in seeds :: x in Items(g)
  {
    if seeds == [] then Trace([], map[])
    else
      var n := |seeds| - 1;
      KidsItems(g, seeds[n]);
      Then(EvalBranches(g, s, seeds[..n], keep), Eval(Branch(g, seeds[n]), s, [], keep))
  }

  lemma {:induction false} EvalBranchesConcat<K>(g: Forest<K>, s: Filters<K>, a: seq<K>, b: seq<K>, keep: set<K>)
    requires Items(g) <= s.Keys && (forall x | x in a :: x in Items(g)) && forall x | x in b :: x in Items(g)
    ensures EvalBranches(g, s, a + b, keep) == Then(EvalBranches(g, s, a, keep), EvalBranches(g, s, b, keep))
  {
    if b == [] {
      assert a + b == a;
      ThenNothing(EvalBranches(g, s, a, keep));
    } else {
      var n := |b| - 1;
      assert (a + b)[..|a + b| - 1] == a + b[..n];
      EvalBranchesConcat(g, s, a, b[..n], keep);
      KidsItems(g, b[n]);
      ThenAssociates(EvalBranches(g, s, a, keep), EvalBranches(g, s, b[..n], keep), Eval(Branch(g, b[n]), s, [], keep));
    }
  }

  ghost predicate InBranches<K>(g: Forest<K>, seeds: seq<K>, y: K)
  {
    exists i :: 0 <= i < |seeds| && seeds[i] in Items(g) && y in Items(Branch(g, seeds[i]))
  }

  lemma InMoreBranches<K>(g: Forest<K>, a: seq<K>, x: K, y: K)
    requires x in Items(g) && (InBranches(g, a, y) || y in Items(Branch(g, x)))
    ensures InBranches(g, a + [x], y)
  {
    var c := a + [x];
    if InBranches(g, a, y) {
      var i :| 0 <= i < |a| && a[i] in Items(g) && y in Items(Branch(g, a[i]));
      assert c[i] == a[i];
    } else {
      assert c[|a|] == x;
    }
  }

  lemma {:induction false} EvalBranchesKeys<K>(g: Forest<K>, s: Filters<K>, seeds: seq<K>, keep: set<K>)
    requires Items(g) <= s.Keys && forall x | x in seeds :: x in Items(g)
    ensures forall y | y in EvalBranches(g, s, seeds, keep).fills :: InBranches(g, seeds, y)
  {
    if seeds != [] {
      var n := |seeds| - 1;
      var x, a := seeds[n], seeds[..n];
      assert seeds == a + [x];
      KidsItems(g, x);
      EvalBranchesKeys(g, s, a, keep);
      FillsKeys(Branch(g, x), s, [], keep);
      var early, late := EvalBranches(g, s, a, keep).fills, Eval(Branch(g, x), s, [], keep).fills;
      assert EvalBranches(g, s, seeds, keep).fills == early + late;
      forall y | y in early + late ensures InBranches(g, seeds, y) {
        assert y in early || y in late;
        InMoreBranches(g, a, x, y);
      }
    }
  }

  /** `f` is a chain of siblings of `g`. */
  ghost predicate PartOf<K>(g: Forest<K>, f: Forest<K>)
  {
    forall x | x in Items(f) :: x in Items(g) && x in Items(f) && Kids(g, x) == Kids(f, x)
  }

  lemma PartParts<K>(g: Forest<K>, m: K, k: Forest<K>, r: Forest<K>)
    requires Distinct(Cons(m, k, r)) && PartOf(g, Cons(m, k, r))
    ensures m in Items(g) && Kids(g, m) == k && PartOf(g, k) && PartOf(g, r)
  {
    var f := Cons(m, k, r);
    assert m in Items(f);
    forall x | x in Items(k) ensures x in Items(g) && Kids(g, x) == Kids(k, x) { assert x in Items(f); }
    forall x | x in Items(r) ensures x in Items(g) && Kids(g, x) == Kids(r, x) { assert x in Items(f); }
  }

  ghost function Seeded<K>(f: Forest<K>, s: Filters<K>, above: Mask, keep: set<K>): Trace<K>
    requires Items(f) <= s.Keys
  {
    Trace(SeededLeaves(f, s, above), SeededFills(f, s, above, keep))
  }

  lemma SeededTree<K>(m: K, k: Forest<K>, r: Forest<K>, s: Filters<K>, above: Mask, keep: set<K>)
    requires Items(Cons(m, k, r)) <= s.Keys
    ensures Seeded(Cons(m, k, r), s, above, keep)
         == Then(if IsSeed(m, k, s, above) then Eval(Cons(m, k, Nil), s, [], keep)
                 else Seeded(k, s, EmitAcc(s[m], above), keep),
                 Seeded(r, s, above, keep))
  {
  }

  /** Evaluating the seeds' branches one after the other is the seeded evaluation. */
  lemma {:induction false} BranchesAreSeeded<K>(g: Forest<K>, s: Filters<K>, f: Forest<K>, above: Mask, keep: set<K>)
    requires Items(g) <= s.Keys && Items(f) <= s.Keys && Distinct(f) && PartOf(g, f)
    ensures (forall x | x in Seeds(f, s, above) :: x in Items(g))
    ensures EvalBranches(g, s, Seeds(f, s, above), keep) == Seeded(f, s, above, keep)
  {
    match f
    case Nil =>
    case Cons(m, k, r) =>
      PartParts(g, m, k, r);
      BranchesAreSeeded(g, s, r, above, keep);
      var here := if IsSeed(m, k, s, above) then [m] else Seeds(k, s, EmitAcc(s[m], above));
      if IsSeed(m, k, s, above) {
        assert here[..0] == [];
        ThenNothing(Eval(Branch(g, m), s, [], keep));
      } else {
        BranchesAreSeeded(g, s, k, EmitAcc(s[m], above), keep);
      }
      EvalBranchesConcat(g, s, here, Seeds(r, s, above), keep);
      SeededTree(m, k, r, s, above, keep);
  }

  /** Seeds in a list: nodes of the tree, none twice and none below another. */
  ghost predicate Cut<K>(g: Forest<K>, seeds: seq<K>)
  {
    && (forall x | x in seeds :: x in Items(g))
    && forall i, j | 0 <= i < |seeds| && 0 <= j < |seeds| && i != j ::
         seeds[i] in Items(g) && seeds[i] != seeds[j] && seeds[j] !in Items(Kids(g, seeds[i]))
  }

  lemma SeedsAreCut<K>(g: Forest<K>, s: Filters<K>)
    requires Items(g) <= s.Keys && Distinct(g)
    ensures Cut(g, Seeds(g, s, {}))
  {
    var seeds := Seeds(g, s, {});
    SeedItems(g, s, {});
    SeedsDistinct(g, s, {});
    forall i, j | 0 <= i < |seeds| && 0 <= j < |seeds| && i != j
      ensures seeds[i] in Items(g) && seeds[i] != seeds[j] && seeds[j] !in Items(Kids(g, seeds[i]))
    {
      SeedsApart(g, s, {}, seeds[i], seeds[j]);
    }
  }

  /** The branches evaluated so far leave the next seed's branch alone. */
  lemma NextUntouched<K>(g: Forest<K>, s: Filters<K>, seeds: seq<K>, n: nat, keep: set<K>)
    requires Items(g) <= s.Keys && Distinct(g) && Cut(g, seeds) && n < |seeds|
    ensures Items(Branch(g, seeds[n])) <= Items(g)
    ensures forall y | y in Items(Branch(g, seeds[n])) :: y !in EvalBranches(g, s, seeds[..n], keep).fills
  {
    KidsItems(g, seeds[n]);
    EvalBranchesKeys(g, s, seeds[..n], keep);
    forall y | y in Items(Branch(g, seeds[n]))
      ensures y !in EvalBranches(g, s, seeds[..n], keep).fills
    {
      if y in EvalBranches(g, s, seeds[..n], keep).fills {
        var i :| 0 <= i < n && seeds[..n][i] in Items(g) && y in Items(Branch(g, seeds[..n][i]));
        BranchesApart(g, seeds[n], seeds[i]);
      }
    }
  }

  /** The next seed's branch, which those before it leave alone. */
  lemma NextBranch<K>(g: Forest<K>, s: Filters<K>, seeds: seq<K>, n: nat, keep: set<K>) returns (whole: Trace<K>)
    requires Items(g) <= s.Keys && Distinct(g) && Cut(g, seeds) && n < |seeds|
    ensures Items(Branch(g, seeds[n])) <= Items(g) && whole == Eval(Branch(g, seeds[n]), s, [], keep)
    ensures EvalBranches(g, s, seeds[..n + 1], keep) == Then(EvalBranches(g, s, seeds[..n], keep), whole)
    ensures forall y | y in Items(Branch(g, seeds[n])) :: y !in EvalBranches(g, s, seeds[..n], keep).fills
  {
    NextUntouched(g, s, seeds, n, keep);
    assert seeds[..n + 1][..n] == seeds[..n];
    whole := Eval(Branch(g, seeds[n]), s, [], keep);
  }

  /** A branch untouched so far evaluates as in the states before. */
  lemma UntouchedAgrees<K>(b: Forest<K>, s: Filters<K>, s1: Filters<K>, before: Trace<K>, keep: set<K>)
    requires Items(b) <= s.Keys && s1.Keys == s.Keys && forall y | y in Items(b) :: y !in before.fills
    requires forall y | y in s :: s1[y] == Updated(s, before.fills, y)
    ensures Eval(b, s1, [], keep) == Eval(b, s, [], keep)
  {
    EvalAgrees(b, s, s1, [], keep);
  }

  lemma UpdatedTwice<K>(s: Filters<K>, s1: Filters<K>, a: Filters<K>, b: Filters<K>)
    requires s1.Keys == s.Keys && forall y | y in s :: s1[y] == Updated(s, a, y)
    ensures forall y | y in s :: Updated(s1, b, y) == Updated(s, a + b, y)
  {
  }

  // ----- the refresh -----

  /** One seed: its branch is evaluated after those before it. */
  method RefreshNext(t: FilterTree, base: Filter, stack0: seq<seq<StreamData>>,
                     c: FilterRefreshCollector, out: seq<Sent>, keep: set<Filter>, stops: set<Filter>,
                     ghost s: Filters<Filter>, ghost before: Trace<Filter>, ghost whole: Trace<Filter>)
    returns (stopped: bool, stack: seq<seq<StreamData>>, sent: seq<Sent>, ghost done: Filters<Filter>)
    requires t.Valid() && s.Keys == t.members && base in t.members
    requires stack0 != [] && stack0[0] == [] && c.Valid() && SentSafe(out, c)
    requires Items(Branch(t.filters, base)) <= s.Keys && whole == Eval(Branch(t.filters, base), s, [], keep)
    requires forall y | y in Items(Branch(t.filters, base)) :: y !in before.fills
    requires forall y | y in t.members :: y.state == Updated(s, before.fills, y)
    requires before.out == SentValues(out) && before.fills.Keys !! stops
    modifies t.members`cache, t.members`cacheOK, t.members`filterOutputs, t.members`state
    modifies t`owner, c, AllOf(c.nodes)`live
    ensures t.Valid() && c.Valid() && SentSafe(sent, c) && stack != [] && stack[0] == []
    ensures forall p | p in AllOf(c.nodes) :: fresh(p)
    ensures AllDone(Then(before, whole), stopped, stops, SentValues(sent), done)
    ensures s.Keys == t.members && forall y | y in t.members :: y.state == Updated(s, done, y)
  {
    ghost var s1, part := t.View().filters, whole.fills;
    UntouchedAgrees(Branch(t.filters, base), s, s1, before, keep);
    stopped, stack, sent, part := RefreshBase(t, base, stack0, c, out, keep, stops, s1, whole);
    done := before.fills + part;
    UpdatedTwice(s, s1, before.fills, part);
    FillsKeys(Branch(t.filters, base), s, [], keep);
    NextDone(before, whole, stopped, stops, SentValues(sent), part);
  }

  lemma NextDone<K>(before: Trace<K>, whole: Trace<K>, stopped: bool, stops: set<K>, out: seq<Output<K>>,
                    part: Filters<K>)
    requires AllDone(Trace(before.out + whole.out, whole.fills), stopped, stops, out, part)
    requires whole.fills.Keys !! before.fills.Keys && before.fills.Keys !! stops
    ensures AllDone(Then(before, whole), stopped, stops, out, before.fills + part)
  {
    assert (before.fills + whole.fills).Keys == before.fills.Keys + whole.fills.Keys;
  }

  /** Free what the collector still owns; caches and what was sent stay alive. */
  method CollectRest(t: FilterTree, c: FilterRefreshCollector, ghost sent: seq<Sent>)
    requires t.Valid() && c.Valid() && SentSafe(sent, c)
    modifies c`nodes, AllOf(c.nodes)`live
    ensures t.Valid() && c.nodes == []
    ensures forall p | p in SentStreams(sent) :: p.live
    ensures forall p | p in AllOf(old(c.nodes)) :: !p.live
  {
    c.CollectAll();
    forall x | x in t.members ensures t.InGoodOrder(x) {
      assert old(t.InGoodOrder(x));
    }
  }

  /** All streams that have been recorded, each once. */
  method DistinctStreams(sent: seq<Sent>) returns (uniqSet: set<StreamData>)
    ensures uniqSet == SentStreams(sent)
  {
    uniqSet := {};
    for it := 0 to |sent|
      invariant uniqSet == SentStreams(sent[..it])
    {
      ghost var before := uniqSet;
      for ui := 0 to |sent[it].1|
        invariant uniqSet == before + SetOf(sent[it].1[..ui])
      {
        uniqSet := uniqSet + {sent[it].1[ui]};
        assert sent[it].1[..ui + 1] == sent[it].1[..ui] + [sent[it].1[ui]];
      }
      assert sent[it].1[..|sent[it].1|] == sent[it].1;
      SentOneMore(sent, it);
    }
    assert sent[..|sent|] == sent;
  }

  lemma SentOneMore(sent: seq<Sent>, it: nat)
    requires it < |sent|
    ensures SentStreams(sent[..it + 1]) == SentStreams(sent[..it]) + SetOf(sent[it].1)
  {
    var a, b := sent[..it], sent[..it + 1];
    forall p | p in SentStreams(b) ensures p in SentStreams(a) + SetOf(sent[it].1) {
      var i :| 0 <= i < |b| && p in b[i].1;
      if i < it { assert p in a[i].1; }
    }
    forall p | p in SentStreams(a) ensures p in SentStreams(b) {
      var i :| 0 <= i < |a| && p in a[i].1;
      assert p in b[i].1;
    }
    forall p | p in sent[it].1 ensures p in SentStreams(b) { assert p in b[it].1; }
  }

  /** Delete the recorded streams that no filter keeps, each once. Caches stay alive, and so
      does what the collector tracks. */
  method DiscardOutput(t: FilterTree, c: FilterRefreshCollector, sent: seq<Sent>)
    requires t.Valid() && c.Valid() && SentSafe(sent, c)
    modifies (set p | p in SentStreams(sent) && !p.cached)`live
    ensures t.Valid() && c.Valid()
    ensures forall p | p in SentStreams(sent) :: p.live <==> p.cached
  {
    var uniqSet := DistinctStreams(sent);
    var left := uniqSet;
    while left != {}
      invariant left <= uniqSet && c.Valid()
      invariant forall p | p in uniqSet :: p.live <==> p in left || p.cached
      decreases left
    {
      var data :| data in left;
      left := left - {data};
      if !data.cached {
        data.Delete();
      }
    }
    forall x | x in t.members ensures t.InGoodOrder(x) {
      assert old(t.InGoodOrder(x));
    }
  }

  /** The exit of a refresh that has been stopped: what was recorded and what is still
      tracked is deleted. No stream is deleted twice, and no cached one at all. */
  method GiveUp(t: FilterTree, c: FilterRefreshCollector, sent: seq<Sent>)
    requires t.Valid() && c.Valid() && SentSafe(sent, c)
    modifies c`nodes, AllOf(c.nodes)`live, (set p | p in SentStreams(sent) && !p.cached)`live
    ensures t.Valid() && c.nodes == []
    ensures forall p | p in SentStreams(sent) :: p.live <==> p.cached
    ensures forall p | p in AllOf(old(c.nodes)) :: !p.live
  {
    DiscardOutput(t, c, sent);
    ghost var nodes := c.nodes;
    ghost var nothing: seq<Sent> := [];
    CollectRest(t, c, nothing);
  }

  /** Either exit of a refresh: what was sent lives on, unless the refresh gave up and no
      filter keeps it. */
  method EndRefresh(t: FilterTree, c: FilterRefreshCollector, sent: seq<Sent>, stopped: bool)
    requires t.Valid() && c.Valid() && SentSafe(sent, c)
    modifies c`nodes, AllOf(c.nodes)`live, (set p | p in SentStreams(sent) && !p.cached)`live
    ensures t.Valid() && c.nodes == []
    ensures forall p | p in SentStreams(sent) :: p.live <==> !stopped || p.cached
    ensures forall p | p in AllOf(old(c.nodes)) :: !p.live
  {
    if stopped {
      GiveUp(t, c, sent);
    } else {
      CollectRest(t, c, sent);
    }
  }

  /** Evaluate the branches of all seeds, unless a filter of `stops` is reached. */
  method RefreshEach(t: FilterTree, starts: seq<Filter>, c: FilterRefreshCollector, keep: set<Filter>,
                     stops: set<Filter>,
                     ghost s: Filters<Filter>)
    returns (stopped: bool, sent: seq<Sent>, ghost done: Filters<Filter>)
    requires t.Valid() && s.Keys == t.members && Cut(t.filters, starts) && c.Valid() && c.nodes == []
    requires forall y | y in t.members :: y.state == s[y]
    modifies t.members`cache, t.members`cacheOK, t.members`filterOutputs, t.members`state, t`owner, c
    ensures t.Valid() && c.Valid() && SentSafe(sent, c) && forall p | p in AllOf(c.nodes) :: fresh(p)
    ensures AllDone(EvalBranches(t.filters, s, starts, keep), stopped, stops, SentValues(sent), done)
    ensures forall y | y in t.members :: y.state == Updated(s, done, y)
  {
    var inDataStack: seq<seq<StreamData>> := [[]];
    stopped, sent := false, [];
    assert starts[..0] == [];
    ghost var acc := EvalBranches(t.filters, s, [], keep);
    done := acc.fills;
    for itPos := 0 to |starts|
      invariant t.Valid() && c.Valid() && SentSafe(sent, c)
      invariant inDataStack != [] && inDataStack[0] == [] && !stopped
      invariant forall p | p in AllOf(c.nodes) :: fresh(p)
      invariant acc == EvalBranches(t.filters, s, starts[..itPos], keep) && SentValues(sent) == acc.out
      invariant done == acc.fills && done.Keys !! stops && forall y | y in t.members :: y.state == Updated(s, done, y)
    {
      ghost var whole := NextBranch(t.filters, s, starts, itPos, keep);
      stopped, inDataStack, sent, done := RefreshNext(t, starts[itPos], inDataStack, c, sent, keep, stops, s, acc,
                                                      whole);
      acc := Then(acc, whole);
      if stopped {
        LaterDone(t.filters, s, starts, itPos + 1, keep, stops, SentValues(sent), done);
        return;
      }
    }
    assert starts[..|starts|] == starts;
  }

  /** Evaluate the branches of all seeds with one collector, and free what it still owns. When
      a filter of `stops` is reached the refresh gives up. */
  method RefreshSeeds(t: FilterTree, starts: seq<Filter>, keep: set<Filter>, stops: set<Filter>,
                      ghost s: Filters<Filter>)
    returns (stopped: bool, sent: seq<Sent>, ghost done: Filters<Filter>)
    requires t.Valid() && s.Keys == t.members && Cut(t.filters, starts)
    requires forall y | y in t.members :: y.state == s[y]
    modifies t.members`cache, t.members`cacheOK, t.members`filterOutputs, t.members`state, t`owner
    ensures t.Valid() && forall p | p in SentStreams(sent) :: p.live <==> !stopped || p.cached
    ensures AllDone(EvalBranches(t.filters, s, starts, keep), stopped, stops, SentValues(sent), done)
    ensures forall y | y in t.members :: y.state == Updated(s, done, y)
  {
    ghost var elders := set p: StreamData | Exists(p);
    var refreshCollector := new FilterRefreshCollector(elders);
    stopped, sent, done := RefreshEach(t, starts, refreshCollector, keep, stops, s);
    EndRefresh(t, refreshCollector, sent, stopped);
  }

  /** What the first branches do is part of what all of them do. */
  lemma LaterDone<K>(g: Forest<K>, s: Filters<K>, starts: seq<K>, n: nat, keep: set<K>, stops: set<K>,
                     out: seq<Output<K>>, done: Filters<K>)
    requires Items(g) <= s.Keys && Distinct(g) && Cut(g, starts) && n <= |starts|
    requires AllDone(EvalBranches(g, s, starts[..n], keep), true, stops, out, done)
    ensures AllDone(EvalBranches(g, s, starts, keep), true, stops, out, done)
  {
    LaterFills(g, s, starts, n, keep);
  }

  lemma {:induction false} LaterFills<K>(g: Forest<K>, s: Filters<K>, starts: seq<K>, n: nat, keep: set<K>)
    requires Items(g) <= s.Keys && Distinct(g) && Cut(g, starts) && n <= |starts|
    ensures SubMap(EvalBranches(g, s, starts[..n], keep).fills, EvalBranches(g, s, starts, keep).fills)
    decreases |starts| - n
  {
    if n < |starts| {
      var whole := NextBranch(g, s, starts, n, keep);
      FillsKeys(Branch(g, starts[n]), s, [], keep);
      LaterFills(g, s, starts, n + 1, keep);
    } else {
      assert starts[..n] == starts;
    }
  }

  /** The branches of those nodes of `rows` that are monitored. */
  ghost function MonitoredBranches<K>(f: Forest<K>, rows: seq<Row<K>>, monitored: set<K>): set<K>
    requires forall j | 0 <= j < |rows| :: rows[j].item in Items(f)
  {
    if rows == [] then {}
    else
      var x := rows[|rows| - 1].item;
      MonitoredBranches(f, rows[..|rows| - 1], monitored) + if x in monitored then BranchSet(f, x, true) else {}
  }

  lemma {:induction false} MonitoredMembers<K>(f: Forest<K>, rows: seq<Row<K>>, monitored: set<K>, y: K)
    requires forall j | 0 <= j < |rows| :: rows[j].item in Items(f)
    ensures y in MonitoredBranches(f, rows, monitored) <==>
              exists j :: 0 <= j < |rows| && rows[j].item in monitored && y in BranchSet(f, rows[j].item, true)
  {
    if rows != [] {
      var n := |rows| - 1;
      MonitoredMembers(f, rows[..n], monitored, y);
      if y in MonitoredBranches(f, rows[..n], monitored) {
        var j :| 0 <= j < n && rows[..n][j].item in monitored && y in BranchSet(f, rows[..n][j].item, true);
        assert rows[j] == rows[..n][j];
      }
      if j :| 0 <= j < |rows| && rows[j].item in monitored && y in BranchSet(f, rows[j].item, true) {
        if j < n { assert rows[..n][j] == rows[j]; }
      }
    }
  }

  lemma BranchIsSet<K>(f: Forest<K>, x: K)
    requires x in Items(f)
    ensures Items(Branch(f, x)) == BranchSet(f, x, true)
  {
  }

  lemma MonitoredIsBranches<K>(f: Forest<K>, monitored: set<K>)
    requires Distinct(f) && monitored <= Items(f)
    ensures forall j | 0 <= j < |Table(f, 0)| :: Table(f, 0)[j].item in Items(f)
    ensures MonitoredBranches(f, Table(f, 0), monitored) == BranchesOf(f, monitored)
  {
    TableRows(f, 0);
    var rows := Table(f, 0);
    var a, b := MonitoredBranches(f, rows, monitored), BranchesOf(f, monitored);
    forall y | y in a ensures y in b {
      MonitoredMembers(f, rows, monitored, y);
      var j :| 0 <= j < |rows| && rows[j].item in monitored && y in BranchSet(f, rows[j].item, true);
      BranchIsSet(f, rows[j].item);
    }
    forall y | y in b ensures y in a {
      var x :| x in monitored && y in Items(Branch(f, x));
      BranchIsSet(f, x);
      var j := RowFor(f, 0, x);
      MonitoredMembers(f, rows, monitored, y);
    }
    assert a == b;
  }

  /** Clear the branches of the monitored filters among `rows`. */
  method ClearMonitoredRows(t: FilterTree, rows: seq<Row<Filter>>, monitored: set<Filter>)
    requires t.Valid() && forall j | 0 <= j < |rows| :: rows[j].item in Items(t.filters)
    modifies t.members`cacheOK, t.members`filterOutputs, t.members`state, t.owner.Keys`live
    ensures t.Valid()
    ensures forall x | x in t.members ::
              x.state == if x in MonitoredBranches(t.filters, rows, monitored)
                         then old(x.state).(cache := None) else old(x.state)
  {
    for it := 0 to |rows|
      invariant t.Valid()
      invariant forall x | x in t.members ::
                  x.state == if x in MonitoredBranches(t.filters, rows[..it], monitored)
                             then old(x.state).(cache := None) else old(x.state)
    {
      assert rows[..it + 1][..it] == rows[..it];
      if rows[it].item in monitored {
        t.ClearBranch(rows[it].item, true);
      }
    }
    assert rows[..|rows|] == rows;
  }

  /** Drop the caches of every monitored filter that needs a refresh, and of all below it. */
  method ClearMonitored(t: FilterTree, monitored: set<Filter>)
    requires t.Valid() && monitored <= t.members
    modifies t.members`cacheOK, t.members`filterOutputs, t.members`state, t.owner.Keys`live
    ensures t.Valid()
    ensures t.View() == Model(t.filters, Cleared(old(t.View()).filters, BranchesOf(t.filters, monitored)))
  {
    ghost var was := t.View();
    MonitoredIsBranches(t.filters, monitored);
    ClearMonitoredRows(t, Table(t.filters, 0), monitored);
    OnlyClearedIs(was, t.View(), BranchesOf(t.filters, monitored));
  }

  /** The seeds form a cut, and evaluating their branches is the seeded evaluation. */
  lemma SeedsEvaluate<K>(g: Forest<K>, s: Filters<K>, keep: set<K>, seeds: seq<K>)
    requires Items(g) == s.Keys && Distinct(g) && seeds == Seeds(g, s, {})
    ensures Cut(g, seeds)
    ensures EvalBranches(g, s, seeds, keep) == Seeded(g, s, {}, keep)
    ensures SeededFills(g, s, {}, keep).Keys <= s.Keys
  {
    SeedsAreCut(g, s);
    BranchesAreSeeded(g, s, g, {}, keep);
    SeededFillsKeys(g, s, {}, keep);
  }

  lemma FilledIs<K>(u: Filters<K>, s: Filters<K>, fills: Filters<K>)
    requires u.Keys == s.Keys && fills.Keys <= s.Keys
    requires forall y | y in s :: u[y] == Updated(s, fills, y)
    ensures u == s + fills
  {
  }

  /** Evaluate from the seeds. */
  method EvaluateFromSeeds(t: FilterTree, keep: set<Filter>, stops: set<Filter>, ghost s: Filters<Filter>,
                           ghost whole: Trace<Filter>)
    returns (stopped: bool, sent: seq<Sent>, ghost done: Filters<Filter>)
    requires t.Valid() && s == t.View().filters && whole == Seeded(t.filters, s, {}, keep)
    modifies t.members`cache, t.members`cacheOK, t.members`filterOutputs, t.members`state, t`owner
    ensures t.Valid() && forall p | p in SentStreams(sent) :: p.live <==> !stopped || p.cached
    ensures AllDone(whole, stopped, stops, SentValues(sent), done) && t.View() == Model(t.filters, s + done)
  {
    var baseTreeNodes := FilterRefreshStarts(t, s);
    SeedsEvaluate(t.filters, s, keep, baseTreeNodes);
    stopped, sent, done := RefreshSeeds(t, baseTreeNodes, keep, stops, s);
    FilledIs(t.View().filters, s, done);
  }

  /** What a refresh that evaluated from the seeds has done. */
  lemma RefreshMeans<K>(t: Model<K>, u: Model<K>, monitored: set<K>, keep: set<K>, s: Filters<K>, out: seq<Output<K>>)
    requires Items(t.tree) == t.filters.Keys && monitored <= t.filters.Keys
    requires s == Cleared(t.filters, BranchesOf(t.tree, monitored)) && u.tree == t.tree
    requires u.filters == s + Seeded(t.tree, s, {}, keep).fills && out == Seeded(t.tree, s, {}, keep).out
    ensures u == Step(Refresh(monitored, keep), t) && out == RefreshOutput(t, monitored)
    ensures Sound(t) ==> Sound(u) && out == FullLeaves(t.tree, t.filters, [])
  {
    if Sound(t) {
      SoundRefreshExact(t, monitored);
      StepSound(Refresh(monitored, keep), t);
    }
  }

  method ClearAndEvaluate(t: FilterTree, monitored: set<Filter>, keep: set<Filter>, stops: set<Filter>)
    returns (stopped: bool, sent: seq<Sent>, ghost s: Filters<Filter>, ghost done: Filters<Filter>)
    requires t.Valid() && monitored <= t.members
    modifies t.members`cache, t.members`cacheOK, t.members`filterOutputs, t.members`state, t`owner, t.owner.Keys`live
    ensures t.Valid() && s == Cleared(old(t.View()).filters, BranchesOf(t.filters, monitored)) && s.Keys == t.members
    ensures AllDone(Seeded(t.filters, s, {}, keep), stopped, stops, SentValues(sent), done)
    ensures t.View() == Model(t.filters, s + done)
    ensures forall p | p in SentStreams(sent) :: p.live <==> !stopped || p.cached
  {
    ClearMonitored(t, monitored);
    s := t.View().filters;
    stopped, sent, done := EvaluateFromSeeds(t, keep, stops, s, Seeded(t.filters, s, {}, keep));
  }

  /** The step that a refresh has made; `done` are the filters evaluated before a stop. */
  ghost function Ended<K>(stopped: bool, monitored: set<K>, keep: set<K>, done: set<K>): Edit<K>
  {
    if stopped then StoppedRefresh(monitored, keep, done) else Refresh(monitored, keep)
  }

  /** All of a refresh but the cleaning of its output. */
  method RefreshRaw(t: FilterTree, monitored: set<Filter>, keep: set<Filter>, stops: set<Filter>)
    returns (stopped: bool, raw: seq<Sent>, ghost done: set<Filter>)
    requires t.Valid() && monitored <= t.members
    modifies t.members`cache, t.members`cacheOK, t.members`filterOutputs, t.members`state, t`owner, t.owner.Keys`live
    ensures t.Valid() && t.filters == old(t.filters) && (Sound(old(t.View())) ==> Sound(t.View()))
    ensures stopped <==> !(Evaluated(old(t.View()), monitored) !! stops)
    ensures t.View() == Step(Ended(stopped, monitored, keep, done), old(t.View()))
    ensures !stopped ==> SentValues(raw) == RefreshOutput(old(t.View()), monitored)
    ensures !stopped && Sound(old(t.View())) ==> SentValues(raw) == FullLeaves(t.filters, old(t.View()).filters, [])
    ensures forall p | p in SentStreams(raw) :: p.live <==> !stopped || p.cached
  {
    ghost var was := t.View();
    ghost var s, filled;
    stopped, raw, s, filled := ClearAndEvaluate(t, monitored, keep, stops);
    RefreshOutcome(was, t.View(), monitored, keep, stops, s, filled, stopped, SentValues(raw));
    done := filled.Keys;
  }

  /** A whole refresh. `monitored` holds the filters that ask for their branch to be
      evaluated anew, `keep` those that are allowed to cache, and `stops` those that report an
      error, or after which the user has aborted. `done` are those that have been evaluated. */
  method RefreshFilterTree(t: FilterTree, monitored: set<Filter>, keep: set<Filter>, stops: set<Filter>)
    returns (stopped: bool, outData: seq<Sent>, ghost raw: seq<Sent>, ghost done: set<Filter>)
    requires t.Valid() && monitored <= t.members
    modifies t.members`cache, t.members`cacheOK, t.members`filterOutputs, t.members`state, t`owner, t.owner.Keys`live
    ensures t.Valid() && t.filters == old(t.filters) && (Sound(old(t.View())) ==> Sound(t.View()))
    ensures stopped <==> !(Evaluated(old(t.View()), monitored) !! stops)
    ensures t.View() == Step(Ended(stopped, monitored, keep, done), old(t.View()))
    ensures !stopped ==> SentValues(raw) == RefreshOutput(old(t.View()), monitored)
    ensures !stopped ==> outData == Scrubbed(raw, {}) && CleanOf(raw, outData)
    ensures !stopped && Sound(old(t.View())) ==> SentValues(raw) == FullLeaves(t.filters, old(t.View()).filters, [])
    ensures forall p | p in SentStreams(raw) :: p.live <==> !stopped || p.cached
  {
    var sent: seq<Sent>;
    stopped, sent, done := RefreshRaw(t, monitored, keep, stops);
    raw, outData := sent, [];
    if !stopped {
      outData := ScrubOutput(sent);
    }
  }

  /** The filters that a refresh evaluates, if nothing stops it. */
  ghost function Evaluated<K>(t: Model<K>, monitored: set<K>): set<K>
    requires Items(t.tree) == t.filters.Keys && monitored <= t.filters.Keys
  {
    SeededFills(t.tree, Cleared(t.filters, BranchesOf(t.tree, monitored)), {}, {}).Keys
  }

  /** Whether caching is on does not matter for which filters are evaluated. */
  lemma {:induction false} SeededKeys<K>(f: Forest<K>, s: Filters<K>, above: Mask, a: set<K>, b: set<K>)
    requires Items(f) <= s.Keys
    ensures SeededFills(f, s, above, a).Keys == SeededFills(f, s, above, b).Keys
  {
    match f
    case Nil =>
    case Cons(m, k, r) =>
      FillsKeys(Cons(m, k, Nil), s, [], a);
      FillsKeys(Cons(m, k, Nil), s, [], b);
      SeededKeys(k, s, EmitAcc(s[m], above), a, b);
      SeededKeys(r, s, above, a, b);
  }

  lemma EvaluatedIs<K>(t: Model<K>, monitored: set<K>, keep: set<K>, s: Filters<K>)
    requires Items(t.tree) == t.filters.Keys && monitored <= t.filters.Keys
    requires s == Cleared(t.filters, BranchesOf(t.tree, monitored))
    ensures Seeded(t.tree, s, {}, keep).fills.Keys == Evaluated(t, monitored)
  {
    SeededKeys(t.tree, s, {}, keep, {});
  }

  lemma OnlyIs<K>(whole: Filters<K>, done: Filters<K>)
    requires SubMap(done, whole)
    ensures Only(whole, done.Keys) == done
  {
  }

  lemma StoppedStep<K>(t: Model<K>, u: Model<K>, monitored: set<K>, keep: set<K>, s: Filters<K>, done: Filters<K>)
    requires Items(t.tree) == t.filters.Keys && monitored <= t.filters.Keys
    requires s == Cleared(t.filters, BranchesOf(t.tree, monitored)) && u == Model(t.tree, s + done)
    requires SubMap(done, SeededFills(t.tree, s, {}, keep))
    ensures u == Step(StoppedRefresh(monitored, keep, done.Keys), t) && (Sound(t) ==> Sound(u))
  {
    OnlyIs(SeededFills(t.tree, s, {}, keep), done);
    if Sound(t) { StoppedSound(t, monitored, keep, done.Keys); }
  }

  /** What a refresh has done, whether it was stopped or not. */
  lemma RefreshOutcome<K>(t: Model<K>, u: Model<K>, monitored: set<K>, keep: set<K>, stops: set<K>, s: Filters<K>,
                          done: Filters<K>, stopped: bool, out: seq<Output<K>>)
    requires Items(t.tree) == t.filters.Keys && monitored <= t.filters.Keys
    requires s == Cleared(t.filters, BranchesOf(t.tree, monitored)) && u == Model(t.tree, s + done)
    requires AllDone(Seeded(t.tree, s, {}, keep), stopped, stops, out, done)
    ensures (Sound(t) ==> Sound(u)) && (stopped <==> !(Evaluated(t, monitored) !! stops))
    ensures u == Step(Ended(stopped, monitored, keep, done.Keys), t)
    ensures !stopped ==> out == RefreshOutput(t, monitored) && (Sound(t) ==> out == FullLeaves(t.tree, t.filters, []))
  {
    EvaluatedIs(t, monitored, keep, s);
    if stopped {
      StoppedStep(t, u, monitored, keep, s, done);
    } else {
      RefreshMeans(t, u, monitored, keep, s, out);
    }
  }
}
