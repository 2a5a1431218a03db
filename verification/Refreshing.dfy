/** Refreshing the tree: the seeds are evaluated one branch at a time with a stack of
    intermediate streams that the collector owns. */
module Refreshing {
  import opened Forests
  import opened Scans
  import opened Streams
  import opened Collector
  import opened RefreshSpec
  import opened CacheRuns
  import opened FilterNodes
  import opened Walks
  import opened FilterTrees
  import opened Ancestry

  /** What a leaf sent to the scene. */
  type Sent = (Filter, seq<StreamData>)

  function StackValues(stack: seq<seq<StreamData>>): seq<seq<Stream>>
  {
    seq(|stack|, i requires 0 <= i < |stack| => Values(stack[i]))
  }

  function SentValues(out: seq<Sent>): seq<Output<Filter>>
  {
    seq(|out|, i requires 0 <= i < |out| => (out[i].0, Values(out[i].1)))
  }

  /** Everything on the stack is alive and accounted for: cached by a filter that has
      been visited, tracked at its level or below, or forgotten on behalf of the scene. */
  ghost predicate StackSafe(stack: seq<seq<StreamData>>, c: FilterRefreshCollector,
                            owner: map<StreamData, Filter>, seen: set<Filter>)
    reads c, AllOf(stack)
  {
    && |c.nodes| == |stack|
    && forall j | 0 <= j < |stack| ::
         && NoRepeat(stack[j])
         && forall p | p in stack[j] ::
              && p in AllOf(stack) && p.live
              && (if p.cached then p in owner && owner[p] in seen
                  else p in c.forgotten || p in AllOf(c.nodes[..j + 1]))
  }

  ghost function SentStreams(out: seq<Sent>): set<StreamData>
  {
    set i, p | 0 <= i < |out| && p in out[i].1 :: p
  }

  /** Nothing sent to the scene is tracked for deletion, all of it is alive, and what no
      filter keeps is new. */
  ghost predicate SentSafe(out: seq<Sent>, c: FilterRefreshCollector)
    reads c, SentStreams(out)
  {
    forall p | p in SentStreams(out) :: p.live && p !in AllOf(c.nodes) && (p.cached || p !in c.elders)
  }

  lemma AllOfMember<T>(lists: seq<seq<T>>, i: nat, x: T)
    requires i < |lists| && x in lists[i]
    ensures x in AllOf(lists)
  {
  }

  /** Lists that are kept apart from those dropped. */
  lemma SeparateHalves<T>(lists: seq<seq<T>>, n: nat, m: nat)
    requires Separate(lists) && n <= m <= |lists|
    ensures AllOf(lists[..n]) !! AllOf(lists[m..])
    ensures AllOf(lists[..n]) <= AllOf(lists) && AllOf(lists[m..]) <= AllOf(lists)
  {
    forall x | x in AllOf(lists[..n]) ensures x !in AllOf(lists[m..]) {
      var i :| 0 <= i < n && x in lists[..n][i];
      forall j | 0 <= j < |lists| - m ensures x !in lists[m..][j] {
        assert x in lists[i] && Apart(lists[i], lists[m + j]);
      }
    }
    forall x | x in AllOf(lists[..n]) ensures x in AllOf(lists) {
      var i :| 0 <= i < n && x in lists[..n][i];
      assert x in lists[i];
    }
    forall x | x in AllOf(lists[m..]) ensures x in AllOf(lists) {
      var j :| 0 <= j < |lists| - m && x in lists[m..][j];
      assert x in lists[m + j];
    }
  }

  /** Pop the stack to `lvl` levels and let the collector delete what lies above. The
      levels from `height` on are left over from an earlier branch and are not read. */
  method PopTo(t: FilterTree, stack: seq<seq<StreamData>>, ghost height: nat, lvl: nat, c: FilterRefreshCollector,
               ghost out: seq<Sent>, ghost seen: set<Filter>) returns (popped: seq<seq<StreamData>>)
    requires 1 <= lvl <= height <= |stack| && c.Valid() && t.InOrder()
    requires StackSafe(stack[..height], c, t.owner, seen) && SentSafe(out, c)
    modifies c`nodes, AllOf(c.nodes)`live
    ensures popped == stack[..lvl] && c.Valid() && t.InOrder()
    ensures c.nodes == old(c.nodes)[..lvl]
    ensures StackSafe(popped, c, t.owner, seen) && SentSafe(out, c)
  {
    ghost var was := c.nodes;
    popped := stack[..lvl];
    c.CollectToLevel(lvl);
    forall x | x in t.members ensures t.InGoodOrder(x) {
      assert old(t.InGoodOrder(x));
    }
    SeparateHalves(was, lvl, if lvl + 1 <= |was| then lvl + 1 else lvl);
    forall j | 0 <= j < lvl
      ensures NoRepeat(popped[j])
      ensures forall p | p in popped[j] ::
                && p in AllOf(popped) && p.live
                && (if p.cached then p in t.owner && t.owner[p] in seen
                    else p in c.forgotten || p in AllOf(c.nodes[..j + 1]))
    {
      assert popped[j] == stack[..height][j];
      assert c.nodes[..j + 1] == was[..j + 1];
      forall p | p in popped[j]
        ensures p in AllOf(popped) && p.live
        ensures if p.cached then p in t.owner && t.owner[p] in seen
                else p in c.forgotten || p in AllOf(c.nodes[..j + 1])
      {
        AllOfMember(popped, j, p);
        SeparateHalves(was, j + 1, if lvl + 1 <= |was| then lvl + 1 else lvl);
      }
    }
  }

  /** The streams a filter contributes are apart from those it lets through. */
  lemma JoinNoRepeat(genFirst: bool, passed: seq<StreamData>, made: seq<StreamData>)
    requires NoRepeat(passed) && NoRepeat(made) && Apart(passed, made)
    ensures NoRepeat(JoinPtrs(genFirst, passed, made))
    ensures forall p :: p in JoinPtrs(genFirst, passed, made) <==> p in passed || p in made
  {
    if genFirst {
      forall x | x in made ensures x !in passed { }
      NoRepeatConcat(made, passed);
    } else {
      NoRepeatConcat(passed, made);
    }
  }

  /** Where the streams of a filter's output come from. */
  ghost predicate Accounted(cur: seq<StreamData>, top: seq<StreamData>, made: seq<StreamData>)
  {
    NoRepeat(cur) && forall p | p in cur :: p in top || p in made
  }

  /** Streams that a filter may read: alive, listed once, and none from its own cache. */
  ghost predicate Readable(top: seq<StreamData>, x: Filter, owner: map<StreamData, Filter>)
    reads top
  {
    NoRepeat(top) && forall p | p in top :: p.live && (p.cached ==> p in owner && owner[p] != x)
  }

  /** The owners after a filter ran. */
  ghost predicate OwnersGrow(before: map<StreamData, Filter>, after: map<StreamData, Filter>)
  {
    forall p | p in before :: p in after && after[p] == before[p]
  }

  /** Refresh a filter of the tree and record it as the owner of what it now keeps. */
  method RunFilter(t: FilterTree, x: Filter, top: seq<StreamData>)
    returns (cur: seq<StreamData>, ghost made: seq<StreamData>)
    requires t.InOrder() && x in t.members && AllLive(top)
    modifies x`cacheOK, x`filterOutputs, x`state, t`owner
    ensures t.InOrder() && OwnersGrow(old(t.owner), t.owner)
    ensures cur == JoinPtrs(x.kind.genFirst, PassPtrs(top, x.kind.block(x.props)), made) && NoRepeat(made)
    ensures Values(cur) == Run(old(x.state), Values(top))
    ensures x.state == AfterRun(old(x.state), Values(top), x.cache)
    ensures forall p | p in made :: p.live && if p.cached then p in t.owner && t.owner[p] == x else fresh(p)
    ensures old(x.cacheOK) || fresh(made)
  {
    assert t.InGoodOrder(x);
    cur, made := x.Refresh(top);
    if x.cacheOK {
      t.owner := t.owner + map p | p in made :: x;
    }
    forall y | y in t.members ensures t.InGoodOrder(y) {
      assert y != x ==> old(t.InGoodOrder(y));
    }
  }

  /** Refresh one filter, with caching switched on or off for it first. */
  method RunOne(t: FilterTree, x: Filter, top: seq<StreamData>, keepIt: bool)
    returns (cur: seq<StreamData>, ghost made: seq<StreamData>)
    requires t.InOrder() && x in t.members && Readable(top, x, t.owner)
    modifies x`cache, x`cacheOK, x`filterOutputs, x`state, t`owner
    ensures t.InOrder() && OwnersGrow(old(t.owner), t.owner)
    ensures Accounted(cur, top, made) && AllLive(cur)
    ensures Values(cur) == Run(old(x.state), Values(top))
    ensures x.state == AfterRun(old(x.state), Values(top), keepIt)
    ensures forall p | p in made :: if p.cached then p in t.owner && t.owner[p] == x else fresh(p)
  {
    assert t.InGoodOrder(x);
    if !x.cacheOK {
      x.cache := keepIt;
    }
    cur, made := RunFilter(t, x, top);
    PassValues(top, x.kind.block(x.props));
    JoinNoRepeat(x.kind.genFirst, PassPtrs(top, x.kind.block(x.props)), made);
  }

  lemma AllOfSplit<T>(lists: seq<seq<T>>, last: seq<T>)
    ensures AllOf(lists + [last]) == AllOf(lists) + SetOf(last)
  {
    var all := lists + [last];
    forall x | x in AllOf(all) ensures x in AllOf(lists) || x in last {
      var i :| 0 <= i < |all| && x in all[i];
      if i < |lists| { assert x in lists[i]; }
    }
    forall x | x in AllOf(lists) ensures x in AllOf(all) {
      var i :| 0 <= i < |lists| && x in lists[i];
      assert x in all[i];
    }
    forall x | x in last ensures x in AllOf(all) { assert x in all[|lists|]; }
  }

  /** Knowing more owners and having visited more filters keeps the stack safe. */
  lemma StackSafeGrows(stack: seq<seq<StreamData>>, c: FilterRefreshCollector,
                       owner: map<StreamData, Filter>, seen: set<Filter>,
                       owner': map<StreamData, Filter>, seen': set<Filter>)
    requires StackSafe(stack, c, owner, seen) && OwnersGrow(owner, owner') && seen <= seen'
    ensures StackSafe(stack, c, owner', seen')
  {
  }

  /** Push the output of a filter that has children, and let the collector own what
      nobody owns. */
  method PushOutput(stack: seq<seq<StreamData>>, cur: seq<StreamData>, c: FilterRefreshCollector,
                    ghost made: seq<StreamData>, ghost out: seq<Sent>,
                    ghost owner: map<StreamData, Filter>, ghost seen: set<Filter>)
    returns (pushed: seq<seq<StreamData>>)
    requires stack != [] && c.Valid() && StackSafe(stack, c, owner, seen) && SentSafe(out, c)
    requires Accounted(cur, stack[|stack| - 1], made) && AllLive(cur)
    requires forall p | p in made ::
               if p.cached then p in owner && owner[p] in seen else p !in SentStreams(out) && p !in c.elders
    modifies c`nodes
    ensures pushed == stack + [cur] && c.Valid()
    ensures StackSafe(pushed, c, owner, seen) && SentSafe(out, c)
    ensures forall p | p in AllOf(c.nodes) :: p in AllOf(old(c.nodes)) || (p in made && !p.cached)
  {
    ghost var was, n := c.nodes, |stack|;
    c.TrackPointers(cur);
    pushed := stack + [cur];
    AllOfSplit(was, c.nodes[n]);
    assert c.nodes == was + [c.nodes[n]];
    forall j | 0 <= j <= n
      ensures NoRepeat(pushed[j])
      ensures forall p | p in pushed[j] ::
                && p in AllOf(pushed) && p.live
                && (if p.cached then p in owner && owner[p] in seen
                    else p in c.forgotten || p in AllOf(c.nodes[..j + 1]))
    {
      forall p | p in pushed[j]
        ensures p in AllOf(pushed) && p.live
        ensures if p.cached then p in owner && owner[p] in seen
                else p in c.forgotten || p in AllOf(c.nodes[..j + 1])
      {
        AllOfMember(pushed, j, p);
        if j < n {
          assert c.nodes[..j + 1] == was[..j + 1];
        } else {
          assert c.nodes[..j + 1] == c.nodes && was[..n] == was;
        }
      }
    }
  }

  /** Send a leaf's output to the scene; the collector must no longer delete it. */
  method SendOutput(stack: seq<seq<StreamData>>, x: Filter, cur: seq<StreamData>, c: FilterRefreshCollector,
                    out: seq<Sent>, ghost owner: map<StreamData, Filter>, ghost seen: set<Filter>)
    returns (sent: seq<Sent>)
    requires c.Valid() && StackSafe(stack, c, owner, seen) && SentSafe(out, c) && AllLive(cur)
    requires forall p | p in cur :: p.cached || p !in c.elders
    modifies c
    ensures sent == (if cur == [] then out else out + [(x, cur)]) && c.Valid()
    ensures StackSafe(stack, c, owner, seen) && SentSafe(sent, c)
    ensures AllOf(c.nodes) <= AllOf(old(c.nodes))
  {
    if |cur| == 0 { return out; }
    ghost var was := c.nodes;
    sent := out + [(x, cur)];
    c.ForgetPointers(cur);
    MinusLists(was, c.nodes, SetOf(cur));
    forall p | p in SentStreams(sent) ensures p in SentStreams(out) || p in cur {
      var i :| 0 <= i < |sent| && p in sent[i].1;
      if i < |out| { assert sent[i] == out[i]; }
    }
    forall j | 0 <= j < |stack|
      ensures forall p | p in stack[j] && !p.cached :: p in c.forgotten || p in AllOf(c.nodes[..j + 1])
    {
      MinusLists(was[..j + 1], c.nodes[..j + 1], SetOf(cur));
      SeparateHalves(was, j + 1, j + 1);
    }
  }

  lemma StackValuesPush(stack: seq<seq<StreamData>>, cur: seq<StreamData>)
    ensures StackValues(stack + [cur]) == StackValues(stack) + [Values(cur)]
  {
  }

  lemma SentValuesPush(out: seq<Sent>, x: Filter, cur: seq<StreamData>)
    ensures SentValues(out + [(x, cur)]) == SentValues(out) + [(x, Values(cur))]
  {
  }

  /** The top of the stack may be read by a filter that has not been visited yet. */
  lemma TopReadable(stack: seq<seq<StreamData>>, c: FilterRefreshCollector,
                    owner: map<StreamData, Filter>, seen: set<Filter>, x: Filter)
    requires stack != [] && StackSafe(stack, c, owner, seen) && x !in seen
    ensures Readable(stack[|stack| - 1], x, owner)
  {
  }

  /** Where a filter's output goes: the stack, or for a leaf the scene. */
  method Deliver(stack: seq<seq<StreamData>>, x: Filter, leaf: bool, cur: seq<StreamData>,
                 c: FilterRefreshCollector, out: seq<Sent>, ghost made: seq<StreamData>,
                 ghost owner: map<StreamData, Filter>, ghost seen: set<Filter>)
    returns (pushed: seq<seq<StreamData>>, sent: seq<Sent>)
    requires stack != [] && c.Valid() && StackSafe(stack, c, owner, seen) && SentSafe(out, c)
    requires Accounted(cur, stack[|stack| - 1], made) && AllLive(cur)
    requires forall p | p in made ::
               if p.cached then p in owner && owner[p] in seen else p !in SentStreams(out) && p !in c.elders
    modifies c
    ensures c.Valid() && StackSafe(pushed, c, owner, seen) && SentSafe(sent, c)
    ensures pushed != [] && stack[0] == pushed[0]
    ensures forall p | p in AllOf(c.nodes) :: p in AllOf(old(c.nodes)) || (p in made && !p.cached)
    ensures StackValues(pushed) == if leaf then StackValues(stack) else StackValues(stack) + [Values(cur)]
    ensures SentValues(sent) == SentValues(out) + if leaf then Record(x, Values(cur)) else []
  {
    if leaf {
      pushed := stack;
      sent := SendOutput(stack, x, cur, c, out, owner, seen);
      SentValuesPush(out, x, cur);
    } else {
      sent := out;
      pushed := PushOutput(stack, cur, c, made, out, owner, seen);
      StackValuesPush(stack, cur);
    }
  }

  /** Run a filter on the top of the stack and deliver its output. */
  method VisitFilter(t: FilterTree, x: Filter, leaf: bool, stack: seq<seq<StreamData>>,
                     c: FilterRefreshCollector, out: seq<Sent>, keepIt: bool, ghost seen: set<Filter>)
    returns (pushed: seq<seq<StreamData>>, sent: seq<Sent>)
    requires t.InOrder() && x in t.members && x !in seen && stack != []
    requires c.Valid() && StackSafe(stack, c, t.owner, seen) && SentSafe(out, c)
    modifies x`cache, x`cacheOK, x`filterOutputs, x`state, t`owner, c
    ensures t.InOrder() && c.Valid()
    ensures StackSafe(pushed, c, t.owner, seen + {x}) && SentSafe(sent, c)
    ensures pushed != [] && stack[0] == pushed[0]
    ensures forall p | p in AllOf(c.nodes) :: p in AllOf(old(c.nodes)) || fresh(p)
    ensures var output := Run(old(x.state), Values(stack[|stack| - 1]));
            && StackValues(pushed) == (if leaf then StackValues(stack) else StackValues(stack) + [output])
            && SentValues(sent) == SentValues(out) + if leaf then Record(x, output) else []
    ensures x.state == AfterRun(old(x.state), Values(stack[|stack| - 1]), keepIt)
  {
    ghost var before := t.owner;
    TopReadable(stack, c, t.owner, seen, x);
    var cur: seq<StreamData>;
    ghost var made;
    cur, made := RunOne(t, x, stack[|stack| - 1], keepIt);
    StackSafeGrows(stack, c, before, seen, t.owner, seen + {x});
    pushed, sent := Deliver(stack, x, leaf, cur, c, out, made, t.owner, seen + {x});
    forall y | y in t.members ensures t.InGoodOrder(y) { }
  }

  /** The walk so far has left `acc`, and goes on to make `whole`. */
  ghost predicate OnTheWay<K>(rows: seq<Row<K>>, s: Filters<K>, base: nat, stack: seq<seq<Stream>>,
                              keep: set<K>, acc: Trace<K>, whole: Trace<K>)
  {
    Walkable(rows, s, base, |stack|) && Then(acc, Walk(rows, s, base, stack, keep)) == whole
  }

  /** One row of the walk: pop to its level, and visit its filter. */
  method VisitRow(t: FilterTree, x: Filter, leaf: bool, lvl: nat, stack: seq<seq<StreamData>>, ghost height: nat,
                  c: FilterRefreshCollector, out: seq<Sent>, keepIt: bool, ghost seen: set<Filter>,
                  ghost vals: seq<seq<Stream>>, ghost output: seq<Stream>)
    returns (pushed: seq<seq<StreamData>>, sent: seq<Sent>)
    requires t.InOrder() && x in t.members && x !in seen && 1 <= lvl <= height <= |stack|
    requires c.Valid() && StackSafe(stack[..height], c, t.owner, seen) && SentSafe(out, c)
    requires vals == StackValues(stack[..height]) && output == Run(x.state, vals[lvl - 1])
    modifies x`cache, x`cacheOK, x`filterOutputs, x`state, t`owner, c, AllOf(c.nodes)`live
    ensures t.InOrder() && c.Valid()
    ensures StackSafe(pushed, c, t.owner, seen + {x}) && SentSafe(sent, c)
    ensures pushed != [] && stack[0] == pushed[0]
    ensures forall p | p in AllOf(c.nodes) :: p in AllOf(old(c.nodes)) || fresh(p)
    ensures StackValues(pushed) == if leaf then vals[..lvl] else vals[..lvl] + [output]
    ensures SentValues(sent) == SentValues(out) + if leaf then Record(x, output) else []
    ensures x.state == AfterRun(old(x.state), vals[lvl - 1], keepIt)
  {
    SeparateHalves(c.nodes, lvl, lvl);
    var popped := PopTo(t, stack, height, lvl, c, out, seen);
    assert StackValues(popped) == vals[..lvl];
    pushed, sent := VisitFilter(t, x, leaf, popped, c, out, keepIt, seen);
  }

  /** The walk of a branch starts at its row with an empty input on the stack. */
  lemma BranchStart<K>(f: Forest<K>, p: K, b: Forest<K>, rows: seq<Row<K>>, i: nat, n: nat, run: seq<Row<K>>, d: nat,
                       s: Filters<K>, keep: set<K>, whole: Trace<K>)
    requires p in Items(f) && RunOf(f, p, i, n) && rows == Table(f, 0) && run == rows[i..i + n] && d == rows[i].depth
    requires b == Branch(f, p) && Items(b) <= s.Keys && whole == Eval(b, s, [], keep)
    ensures OnTheWay(run, s, d, [[]], keep, Trace([], map[]), whole)
  {
    assert run == Table(b, d) by {
      TableBranch(p, Kids(f, p), d);
      assert run == [rows[i]] + rows[i + 1..i + n];
    }
    WalkStarts(b, run, d, s, keep, whole);
  }

  lemma WalkStarts<K>(b: Forest<K>, run: seq<Row<K>>, d: nat, s: Filters<K>, keep: set<K>, whole: Trace<K>)
    requires run == Table(b, d) && Items(b) <= s.Keys && whole == Eval(b, s, [], keep)
    ensures OnTheWay(run, s, d, [[]], keep, Trace([], map[]), whole)
  {
    WalkBranch(b, d, s, keep);
    ThenNothing(whole);
  }

  /** The walk of a branch, stage by stage. */
  lemma BranchStages<K>(f: Forest<K>, p: K, b: Forest<K>, rows: seq<Row<K>>, i: nat, n: nat, run: seq<Row<K>>, d: nat,
                        s: Filters<K>, keep: set<K>, whole: Trace<K>) returns (plan: seq<Progress<K>>)
    requires p in Items(f) && RunOf(f, p, i, n) && rows == Table(f, 0) && run == rows[i..i + n] && d == rows[i].depth
    requires b == Branch(f, p) && Items(b) <= s.Keys && whole == Eval(b, s, [], keep) && RowsApart(run)
    ensures Stages(plan, run, s, d, keep, whole) && plan[0] == Progress([[]], [], map[])
  {
    BranchStart(f, p, b, rows, i, n, run, d, s, keep, whole);
    plan := StagesOfRun(run, d, s, keep, whole);
  }

  ghost predicate RowsApart<K>(rows: seq<Row<K>>)
  {
    forall j, k | 0 <= j < k < |rows| :: rows[j].item != rows[k].item
  }

  lemma StagesOfRun<K>(run: seq<Row<K>>, d: nat, s: Filters<K>, keep: set<K>, whole: Trace<K>)
    returns (plan: seq<Progress<K>>)
    requires RowsApart(run) && OnTheWay(run, s, d, [[]], keep, Trace([], map[]), whole)
    ensures Stages(plan, run, s, d, keep, whole) && plan[0] == Progress([[]], [], map[])
  {
    plan := WalkHasStages(run, s, d, keep, Progress([[]], [], map[]), whole);
  }

  lemma ThenNothing<K>(a: Trace<K>)
    ensures Then(Trace([], map[]), a) == a == Then(a, Trace([], map[]))
  {
  }

  /** How far the walk of a branch has come: what is on the stack, what has been recorded,
      and the filters visited, as they are now. */
  datatype Progress<!K> = Progress(stack: seq<seq<Stream>>, out: seq<Output<K>>, fills: Filters<K>)

  /** `h` is the progress once the filter of `row`, not visited before, has been visited. */
  ghost predicate NextOf<K>(g: Progress<K>, row: Row<K>, s: Filters<K>, base: nat, keep: set<K>, h: Progress<K>)
  {
    var Row(x, depth, leaf) := row;
    && x in s && x !in g.fills && base <= depth < base + |g.stack|
    && var popped, top := g.stack[..depth - base + 1], g.stack[depth - base];
    && h.stack == (if leaf then popped else popped + [Run(s[x], top)])
    && h.out == g.out + (if leaf then Record(x, Run(s[x], top)) else [])
    && h.fills == g.fills[x := AfterRun(s[x], top, x in keep)]
  }

  /** The stages of a walk that makes `whole`. */
  ghost predicate Stages<K>(plan: seq<Progress<K>>, rows: seq<Row<K>>, s: Filters<K>, base: nat, keep: set<K>,
                            whole: Trace<K>)
  {
    && |plan| == |rows| + 1
    && (forall k | 0 <= k < |rows| :: NextOf(plan[k], rows[k], s, base, keep, plan[k + 1]))
    && whole == Trace(plan[|rows|].out, plan[|rows|].fills)
  }

  lemma VisitIsNext<K>(g: Progress<K>, row: Row<K>, s: Filters<K>, base: nat, keep: set<K>, h: Progress<K>)
    requires var Row(x, depth, leaf) := row;
             && x in s && x !in g.fills && base <= depth < base + |g.stack|
             && h.stack == Pushed(x, leaf, s, g.stack[..depth - base + 1])
             && Trace(h.out, h.fills) == Then(Trace(g.out, g.fills), Visit(x, leaf, s, g.stack[depth - base], keep))
    ensures NextOf(g, row, s, base, keep, h)
  {
  }

  /** One row of the walk. */
  lemma StageNext<K>(rows: seq<Row<K>>, s: Filters<K>, base: nat, keep: set<K>, g: Progress<K>, whole: Trace<K>)
    returns (h: Progress<K>)
    requires rows != [] && OnTheWay(rows, s, base, g.stack, keep, Trace(g.out, g.fills), whole)
    requires rows[0].item !in g.fills
    ensures NextOf(g, rows[0], s, base, keep, h)
    ensures OnTheWay(rows[1..], s, base, h.stack, keep, Trace(h.out, h.fills), whole)
  {
    var here, stack, rest := WalkUnfolds(rows, s, base, g.stack, keep);
    h := NextProgress(g, here, stack, rest, whole);
    VisitIsNext(g, rows[0], s, base, keep, h);
  }

  lemma NextProgress<K>(g: Progress<K>, here: Trace<K>, stack: seq<seq<Stream>>, rest: Trace<K>, whole: Trace<K>)
    returns (h: Progress<K>)
    requires Then(Trace(g.out, g.fills), Then(here, rest)) == whole
    ensures h.stack == stack && Trace(h.out, h.fills) == Then(Trace(g.out, g.fills), here)
    ensures Then(Trace(h.out, h.fills), rest) == whole
  {
    ThenAssociates(Trace(g.out, g.fills), here, rest);
    h := Progress(stack, g.out + here.out, g.fills + here.fills);
  }

  lemma TailDistinct<K>(rows: seq<Row<K>>, g: Filters<K>, h: Filters<K>)
    requires rows != [] && forall j, k | 0 <= j < k < |rows| :: rows[j].item != rows[k].item
    requires forall j | 0 <= j < |rows| :: rows[j].item !in g
    requires h.Keys == g.Keys + {rows[0].item}
    ensures forall j, k | 0 <= j < k < |rows[1..]| :: rows[1..][j].item != rows[1..][k].item
    ensures forall j | 0 <= j < |rows[1..]| :: rows[1..][j].item !in h
  {
  }

  lemma {:induction false} WalkHasStages<K>(rows: seq<Row<K>>, s: Filters<K>, base: nat, keep: set<K>,
                                            g: Progress<K>, whole: Trace<K>) returns (plan: seq<Progress<K>>)
    requires OnTheWay(rows, s, base, g.stack, keep, Trace(g.out, g.fills), whole)
    requires forall j, k | 0 <= j < k < |rows| :: rows[j].item != rows[k].item
    requires forall j | 0 <= j < |rows| :: rows[j].item !in g.fills
    ensures Stages(plan, rows, s, base, keep, whole) && plan[0] == g
    decreases rows
  {
    if rows == [] {
      ThenNothing(Trace(g.out, g.fills));
      plan := [g];
    } else {
      var h := StageNext(rows, s, base, keep, g, whole);
      TailDistinct(rows, g.fills, h.fills);
      var rest := WalkHasStages(rows[1..], s, base, keep, h, whole);
      plan := StagesCons(g, rows, s, base, keep, rest, whole);
    }
  }

  lemma StagesCons<K>(g: Progress<K>, rows: seq<Row<K>>, s: Filters<K>, base: nat, keep: set<K>,
                      rest: seq<Progress<K>>, whole: Trace<K>) returns (plan: seq<Progress<K>>)
    requires rows != [] && Stages(rest, rows[1..], s, base, keep, whole) && NextOf(g, rows[0], s, base, keep, rest[0])
    ensures Stages(plan, rows, s, base, keep, whole) && plan[0] == g
  {
    plan := [g] + rest;
    forall k | 0 <= k < |rows| ensures NextOf(plan[k], rows[k], s, base, keep, plan[k + 1]) {
      if k > 0 { assert rows[k] == rows[1..][k - 1]; }
    }
  }

  /** The rows from `i` on: those of the branch of `base` come first, up to row `e`. */
  ghost predicate BranchFirst<K>(rows: seq<Row<K>>, i: nat, e: nat, f: Forest<K>, base: K)
    requires base in Items(f)
  {
    && i < e <= |rows| && rows[i].item == base
    && (forall j | i <= j < |rows| :: rows[j].item in Items(f))
    && (forall j | i < j < |rows| :: rows[j].item in Items(Kids(f, base)) <==> j < e)
    && RowsApart(rows[i..e])
  }

  lemma RunApart<K>(f: Forest<K>, rows: seq<Row<K>>, i: nat, e: nat, run: seq<Row<K>>)
    requires Distinct(f) && rows == Table(f, 0) && i <= e <= |rows| == Size(f) && run == rows[i..e]
    ensures RowsApart(run)
  {
    forall j, k | 0 <= j < k < |run| ensures run[j].item != run[k].item { RowsDiffer(f, i + j, i + k); }
  }

  lemma BranchIsFirst<K>(f: Forest<K>, base: K, rows: seq<Row<K>>, i: nat, n: nat)
    requires Distinct(f) && base in Items(f) && RunOf(f, base, i, n) && rows == Table(f, 0)
    ensures BranchFirst(rows, i, i + n, f, base)
  {
    assert |rows| == Size(f) by { TableRows(f, 0); }
    forall j | i <= j < |rows|
      ensures rows[j].item in Items(f)
      ensures i < j ==> (rows[j].item in Items(Kids(f, base)) <==> j < i + n)
    {
      TableRow(f, 0, j);
      RunMembers(f, base, i, n, j);
    }
    RunApart(f, rows, i, i + n, rows[i..i + n]);
  }

  /** The heap agrees with the progress of a walk that began in states `s`. */
  ghost predicate InStep(t: FilterTree, stack: seq<seq<StreamData>>, height: nat, c: FilterRefreshCollector,
                         sent: seq<Sent>, s: Filters<Filter>, before: seq<Output<Filter>>, g: Progress<Filter>)
    reads t, t.members, t.owner.Keys, c, AllOf(c.nodes), SentStreams(sent)
    reads AllOf(stack[..if height <= |stack| then height else 0])
  {
    && t.InOrder() && c.Valid() && SentSafe(sent, c)
    && 1 <= height <= |stack| && stack[0] == [] && StackSafe(stack[..height], c, t.owner, g.fills.Keys)
    && StackValues(stack[..height]) == g.stack
    && SentValues(sent) == before + g.out
    && s.Keys == t.members && forall y | y in t.members :: y.state == Updated(s, g.fills, y)
  }

  /** Empty the collector and track one empty level, below a stack whose first level is
      empty and whose other levels are left over. */
  method StartBase(t: FilterTree, stack: seq<seq<StreamData>>, c: FilterRefreshCollector, ghost out: seq<Sent>)
    requires t.InOrder() && c.Valid() && SentSafe(out, c) && stack != [] && stack[0] == []
    modifies c`nodes, AllOf(c.nodes)`live
    ensures t.InOrder() && c.Valid() && SentSafe(out, c)
    ensures AllOf(c.nodes) == {} && |stack[..1]| == 1 && StackSafe(stack[..1], c, t.owner, {})
    ensures StackValues(stack[..1]) == [[]]
  {
    c.CollectAll();
    c.TrackPointers([]);
    forall x | x in t.members ensures t.InGoodOrder(x) {
      assert old(t.InGoodOrder(x));
    }
    assert c.nodes == [[]];
  }

  /** The start of a branch, in step with a walk that has visited nothing. */
  method StartWalk(t: FilterTree, stack: seq<seq<StreamData>>, c: FilterRefreshCollector, ghost out: seq<Sent>,
                   ghost s: Filters<Filter>)
    requires t.InOrder() && c.Valid() && SentSafe(out, c) && stack != [] && stack[0] == []
    requires s.Keys == t.members && forall y | y in t.members :: s[y] == y.state
    modifies c`nodes, AllOf(c.nodes)`live
    ensures AllOf(c.nodes) == {}
    ensures InStep(t, stack, 1, c, out, s, SentValues(out), Progress([[]], [], map[]))
  {
    StartBase(t, stack, c, out);
    assert SentValues(out) + [] == SentValues(out);
    ghost var none: Filters<Filter> := map[];
    assert none.Keys == {};
  }

  lemma NextUpdates<K>(g: Progress<K>, row: Row<K>, s: Filters<K>, base: nat, keep: set<K>, h: Progress<K>,
                       before: seq<Output<K>>)
    requires NextOf(g, row, s, base, keep, h)
    ensures h.fills.Keys == g.fills.Keys + {row.item} && row.item in s && Updated(s, g.fills, row.item) == s[row.item]
    ensures forall y | y in s :: Updated(s, h.fills, y) == if y == row.item then h.fills[y] else Updated(s, g.fills, y)
    ensures before + h.out
         == before + g.out + if row.leaf then Record(row.item, Run(s[row.item], g.stack[row.depth - base])) else []
  {
  }

  /** Visit the next row of the branch. */
  method ScanRow(t: FilterTree, row: Row<Filter>, base: nat, stack: seq<seq<StreamData>>, ghost height: nat,
                 c: FilterRefreshCollector, out: seq<Sent>, keep: set<Filter>, ghost s: Filters<Filter>,
                 ghost before: seq<Output<Filter>>, ghost g: Progress<Filter>, ghost h: Progress<Filter>)
    returns (pushed: seq<seq<StreamData>>, sent: seq<Sent>)
    requires InStep(t, stack, height, c, out, s, before, g) && NextOf(g, row, s, base, keep, h)
    modifies row.item`cache, row.item`cacheOK, row.item`filterOutputs, row.item`state
    modifies t`owner, c, AllOf(c.nodes)`live
    ensures InStep(t, pushed, |pushed|, c, sent, s, before, h)
    ensures forall p | p in AllOf(c.nodes) :: p in AllOf(old(c.nodes)) || fresh(p)
  {
    NextUpdates(g, row, s, base, keep, h, before);
    pushed, sent := VisitRow(t, row.item, row.leaf, row.depth - base + 1, stack, height, c, out,
                             row.item in keep, g.fills.Keys, g.stack, Run(s[row.item], g.stack[row.depth - base]));
    forall y | y in t.members ensures y.state == Updated(s, h.fills, y) {
      if y != row.item { assert y.state == old(y.state); }
    }
    assert pushed[..|pushed|] == pushed;
  }

  /** Pop to the level of a filter, and run it. */
  method RunAndStop(t: FilterTree, x: Filter, lvl: nat, stack: seq<seq<StreamData>>, ghost height: nat,
                    c: FilterRefreshCollector, ghost out: seq<Sent>, keepIt: bool, ghost seen: set<Filter>,
                    ghost vals: seq<seq<Stream>>)
    requires t.InOrder() && x in t.members && x !in seen && 1 <= lvl <= height <= |stack|
    requires c.Valid() && StackSafe(stack[..height], c, t.owner, seen) && SentSafe(out, c)
    requires vals == StackValues(stack[..height])
    modifies x`cache, x`cacheOK, x`filterOutputs, x`state, t`owner, c`nodes, AllOf(c.nodes)`live
    ensures t.InOrder() && c.Valid() && SentSafe(out, c)
    ensures forall p | p in AllOf(c.nodes) :: p in AllOf(old(c.nodes))
    ensures x.state == AfterRun(old(x.state), vals[lvl - 1], keepIt)
  {
    SeparateHalves(c.nodes, lvl, lvl);
    var popped := PopTo(t, stack, height, lvl, c, out, seen);
    assert StackValues(popped) == vals[..lvl];
    TopReadable(popped, c, t.owner, seen, x);
    var cur;
    ghost var made;
    cur, made := RunOne(t, x, popped[lvl - 1], keepIt);
  }

  /** Run the filter of the next row and stop: what it puts out goes nowhere. */
  method StopRow(t: FilterTree, row: Row<Filter>, base: nat, stack: seq<seq<StreamData>>, ghost height: nat,
                 c: FilterRefreshCollector, ghost out: seq<Sent>, keep: set<Filter>, ghost s: Filters<Filter>,
                 ghost before: seq<Output<Filter>>, ghost g: Progress<Filter>, ghost h: Progress<Filter>)
    requires InStep(t, stack, height, c, out, s, before, g) && NextOf(g, row, s, base, keep, h)
    modifies row.item`cache, row.item`cacheOK, row.item`filterOutputs, row.item`state
    modifies t`owner, c`nodes, AllOf(c.nodes)`live
    ensures t.InOrder() && c.Valid() && SentSafe(out, c)
    ensures forall p | p in AllOf(c.nodes) :: p in AllOf(old(c.nodes))
    ensures forall y | y in t.members :: y.state == Updated(s, h.fills, y)
  {
    NextUpdates(g, row, s, base, keep, h, before);
    RunAndStop(t, row.item, row.depth - base + 1, stack, height, c, out, row.item in keep, g.fills.Keys, g.stack);
    forall y | y in t.members ensures y.state == Updated(s, h.fills, y) {
      if y != row.item { assert y.state == old(y.state); }
    }
  }

  /** The stage that the scan has reached at row `it`. */
  ghost function StageAt<K>(plan: seq<Progress<K>>, i: nat, it: nat): Progress<K>
    requires plan != [] && i <= it
  {
    if it - i < |plan| then plan[it - i] else plan[|plan| - 1]
  }

  /** The stages of a scan over all rows from `i` on. */
  ghost predicate ScanStages<K>(plan: seq<Progress<K>>, rows: seq<Row<K>>, i: nat, f: Forest<K>, base: K,
                                s: Filters<K>, keep: set<K>)
    requires base in Items(f)
  {
    && plan != [] && i < |rows| && |plan| <= |rows| - i + 1
    && forall j | i <= j < |rows| ::
         && rows[j].item in Items(f)
         && if j == i || rows[j].item in Items(Kids(f, base))
            then NextOf(StageAt(plan, i, j), rows[j], s, rows[i].depth, keep, StageAt(plan, i, j + 1))
            else StageAt(plan, i, j) == StageAt(plan, i, j + 1)
  }

  lemma StagesScan<K>(plan: seq<Progress<K>>, rows: seq<Row<K>>, i: nat, n: nat, f: Forest<K>, base: K,
                      s: Filters<K>, keep: set<K>, whole: Trace<K>)
    requires base in Items(f) && BranchFirst(rows, i, i + n, f, base)
    requires Stages(plan, rows[i..i + n], s, rows[i].depth, keep, whole)
    ensures ScanStages(plan, rows, i, f, base, s, keep)
  {
    forall j | i <= j < i + n
      ensures NextOf(StageAt(plan, i, j), rows[j], s, rows[i].depth, keep, StageAt(plan, i, j + 1))
    {
      assert rows[j] == rows[i..i + n][j - i];
    }
  }

  /** A scan from the row of `p` to the end of the tree evaluates the branch of `p`. */
  lemma BranchScan<K>(f: Forest<K>, p: K, rows: seq<Row<K>>, i: nat, s: Filters<K>, keep: set<K>, whole: Trace<K>)
    returns (plan: seq<Progress<K>>)
    requires p in Items(f) && Distinct(f) && Items(Branch(f, p)) <= s.Keys
    requires i == |Before(f, p, 0)| && rows == Table(f, 0) && whole == Eval(Branch(f, p), s, [], keep)
    ensures ScanStages(plan, rows, i, f, p, s, keep)
    ensures plan[0] == Progress([[]], [], map[])
    ensures whole == Trace(plan[|plan| - 1].out, plan[|plan| - 1].fills)
  {
    var n := 1 + Size(Kids(f, p));
    BranchRows(f, p);
    BranchIsFirst(f, p, rows, i, n);
    plan := BranchStages(f, p, Branch(f, p), rows, i, n, rows[i..i + n], rows[i].depth, s, keep, whole);
    StagesScan(plan, rows, i, n, f, p, s, keep, whole);
  }

  ghost predicate SubMap<K>(a: Filters<K>, b: Filters<K>)
  {
    forall x | x in a :: x in b && a[x] == b[x]
  }

  /** How much of an evaluation that would do `whole` has been done. */
  ghost predicate AllDone<K>(whole: Trace<K>, stopped: bool, stops: set<K>, out: seq<Output<K>>, done: Filters<K>)
  {
    && (stopped <==> !(whole.fills.Keys !! stops)) && SubMap(done, whole.fills)
    && (!stopped ==> out == whole.out && done == whole.fills)
  }

  /** What has been done at any row is part of what is done in the end. */
  lemma {:induction false} StageIsPart<K>(plan: seq<Progress<K>>, rows: seq<Row<K>>, i: nat, f: Forest<K>, base: K,
                                          s: Filters<K>, keep: set<K>, j: nat)
    requires base in Items(f) && ScanStages(plan, rows, i, f, base, s, keep) && i <= j <= |rows|
    ensures SubMap(StageAt(plan, i, j).fills, plan[|plan| - 1].fills)
    decreases |rows| - j
  {
    if j < |rows| { StageIsPart(plan, rows, i, f, base, s, keep, j + 1); }
  }

  /** The walk has been stopped by the filter of row `it`. */
  lemma StoppedAt<K>(plan: seq<Progress<K>>, rows: seq<Row<K>>, i: nat, f: Forest<K>, base: K, s: Filters<K>,
                     keep: set<K>,
                     it: nat, stops: set<K>, before: seq<Output<K>>, out: seq<Output<K>>)
    requires base in Items(f) && ScanStages(plan, rows, i, f, base, s, keep) && i <= it < |rows|
    requires rows[it].item in stops && rows[it].item in StageAt(plan, i, it + 1).fills
    ensures var last := plan[|plan| - 1];
            AllDone(Trace(before + last.out, last.fills), true, stops, out, StageAt(plan, i, it + 1).fills)
  {
    StageIsPart(plan, rows, i, f, base, s, keep, it + 1);
  }

  /** Visit a row if it is the first one or lies below `base`, and pass over it otherwise.
      `stops` holds the filters that report an error, or after which the user has aborted. */
  method ScanOrSkip(t: FilterTree, base: Filter, row: Row<Filter>, first: bool, depth: nat,
                    stack0: seq<seq<StreamData>>, ghost height0: nat,
                    c: FilterRefreshCollector, out: seq<Sent>, keep: set<Filter>, stops: set<Filter>,
                    ghost s: Filters<Filter>,
                    ghost before: seq<Output<Filter>>, ghost g: Progress<Filter>, ghost h: Progress<Filter>)
    returns (stopped: bool, stack: seq<seq<StreamData>>, ghost height: nat, sent: seq<Sent>)
    requires Distinct(t.filters) && base in Items(t.filters) && row.item in Items(t.filters)
    requires t.members == Items(t.filters)
    requires InStep(t, stack0, height0, c, out, s, before, g)
    requires if first || row.item in Items(Kids(t.filters, base)) then NextOf(g, row, s, depth, keep, h) else g == h
    modifies t.members`cache, t.members`cacheOK, t.members`filterOutputs, t.members`state
    modifies t`owner, c, AllOf(c.nodes)`live
    ensures stopped ==> t.InOrder() && c.Valid() && SentSafe(sent, c) && s.Keys == t.members
    ensures stopped ==> stack != [] && stack[0] == []
    ensures stopped ==> forall y | y in t.members :: y.state == Updated(s, h.fills, y)
    ensures !stopped ==> InStep(t, stack, height, c, sent, s, before, h)
    ensures if stopped then row.item in stops && row.item in h.fills else h.fills.Keys * stops <= g.fills.Keys
    ensures forall p | p in AllOf(c.nodes) :: p in AllOf(old(c.nodes)) || fresh(p)
  {
    var below := first;
    if !first {
      below := IsChild(t.filters, base, row.item);
    }
    stopped, stack, height, sent := false, stack0, height0, out;
    if below {
      if row.item in stops {
        StopRow(t, row, depth, stack0, height0, c, out, keep, s, before, g, h);
        stopped := true;
      } else {
        stack, sent := ScanRow(t, row, depth, stack0, height0, c, out, keep, s, before, g, h);
        height := |stack|;
      }
    }
  }

  /** The states of the filters after `done`, and an output that may be kept or discarded. */
  ghost predicate Settled(t: FilterTree, c: FilterRefreshCollector, sent: seq<Sent>, s: Filters<Filter>,
                          done: Filters<Filter>)
    reads t, t.members, t.owner.Keys, c, AllOf(c.nodes), SentStreams(sent)
  {
    && t.InOrder() && c.Valid() && SentSafe(sent, c)
    && s.Keys == t.members && forall y | y in t.members :: y.state == Updated(s, done, y)
  }

  /** Row `it` of the scan. */
  method RefreshRow(t: FilterTree, base: Filter, rows: seq<Row<Filter>>, i: nat, it: nat, stack0: seq<seq<StreamData>>,
                    ghost height0: nat, c: FilterRefreshCollector, out: seq<Sent>, keep: set<Filter>,
                    stops: set<Filter>,
                    ghost s: Filters<Filter>, ghost before: seq<Output<Filter>>, ghost plan: seq<Progress<Filter>>)
    returns (stopped: bool, stack: seq<seq<StreamData>>, ghost height: nat, sent: seq<Sent>)
    requires Distinct(t.filters) && base in Items(t.filters) && t.members == Items(t.filters)
    requires ScanStages(plan, rows, i, t.filters, base, s, keep) && i <= it < |rows|
    requires InStep(t, stack0, height0, c, out, s, before, StageAt(plan, i, it))
    requires StageAt(plan, i, it).fills.Keys !! stops
    modifies t.members`cache, t.members`cacheOK, t.members`filterOutputs, t.members`state
    modifies t`owner, c, AllOf(c.nodes)`live
    ensures stack != [] && stack[0] == []
    ensures stopped ==> Settled(t, c, sent, s, StageAt(plan, i, it + 1).fills)
    ensures stopped ==> var last := plan[|plan| - 1];
                        AllDone(Trace(before + last.out, last.fills), true, stops, SentValues(sent),
                                StageAt(plan, i, it + 1).fills)
    ensures !stopped ==> InStep(t, stack, height, c, sent, s, before, StageAt(plan, i, it + 1))
    ensures !stopped ==> StageAt(plan, i, it + 1).fills.Keys !! stops
    ensures forall p | p in AllOf(c.nodes) :: p in AllOf(old(c.nodes)) || fresh(p)
  {
    stopped, stack, height, sent := ScanOrSkip(t, base, rows[it], it == i, rows[i].depth, stack0, height0, c, out,
                                               keep, stops,
                                               s, before, StageAt(plan, i, it), StageAt(plan, i, it + 1));
    if stopped {
      StoppedAt(plan, rows, i, t.filters, base, s, keep, it, stops, before, SentValues(sent));
    }
  }

  /** Scan the rows from that of `base` to the end of the tree, pass over the filters that
      are not below it, and visit the others, unless one of them stops the refresh. */
  method RefreshRows(t: FilterTree, base: Filter, rows: seq<Row<Filter>>, i: nat, stack0: seq<seq<StreamData>>,
                     c: FilterRefreshCollector, out: seq<Sent>, keep: set<Filter>, stops: set<Filter>,
                     ghost s: Filters<Filter>, ghost plan: seq<Progress<Filter>>, ghost last: Progress<Filter>)
    returns (stopped: bool, stack: seq<seq<StreamData>>, sent: seq<Sent>, ghost done: Filters<Filter>)
    requires t.Valid() && base in t.members && ScanStages(plan, rows, i, t.filters, base, s, keep)
    requires AllOf(c.nodes) == {} && InStep(t, stack0, 1, c, out, s, SentValues(out), plan[0])
    requires plan[0].fills == map[] && last == plan[|plan| - 1]
    modifies t.members`cache, t.members`cacheOK, t.members`filterOutputs, t.members`state
    modifies t`owner, c
    ensures Settled(t, c, sent, s, done) && stack != [] && stack[0] == []
    ensures forall p | p in AllOf(c.nodes) :: fresh(p)
    ensures AllDone(Trace(SentValues(out) + last.out, last.fills), stopped, stops, SentValues(sent), done)
  {
    stopped, stack, sent, done := false, stack0, out, last.fills;
    ghost var height, before := 1, SentValues(out);
    for it := i to |rows|
      invariant InStep(t, stack, height, c, sent, s, before, StageAt(plan, i, it)) && !stopped
      invariant StageAt(plan, i, it).fills.Keys !! stops
      invariant forall p | p in AllOf(c.nodes) :: fresh(p)
    {
      stopped, stack, height, sent := RefreshRow(t, base, rows, i, it, stack, height, c, sent, keep, stops, s, before,
                                                 plan);
      if stopped {
        done := StageAt(plan, i, it + 1).fills;
        return;
      }
    }
    assert StageAt(plan, i, |rows|) == last;
  }

  /** Refresh the branch of one seed. */
  method RefreshBase(t: FilterTree, base: Filter, stack0: seq<seq<StreamData>>, c: FilterRefreshCollector,
                     out: seq<Sent>, keep: set<Filter>, stops: set<Filter>, ghost s: Filters<Filter>,
                     ghost whole: Trace<Filter>)
    returns (stopped: bool, stack: seq<seq<StreamData>>, sent: seq<Sent>, ghost done: Filters<Filter>)
    requires t.Valid() && base in t.members && stack0 != [] && stack0[0] == []
    requires c.Valid() && SentSafe(out, c)
    requires s.Keys == t.members && forall y | y in t.members :: s[y] == y.state
    requires Items(Branch(t.filters, base)) <= s.Keys && whole == Eval(Branch(t.filters, base), s, [], keep)
    modifies t.members`cache, t.members`cacheOK, t.members`filterOutputs, t.members`state
    modifies t`owner, c, AllOf(c.nodes)`live
    ensures Settled(t, c, sent, s, done) && stack != [] && stack[0] == []
    ensures forall p | p in AllOf(c.nodes) :: fresh(p)
    ensures AllDone(Trace(SentValues(out) + whole.out, whole.fills), stopped, stops, SentValues(sent), done)
  {
    var rows := Table(t.filters, 0);
    var i := t.RowNumber(base);
    ghost var plan := BranchScan(t.filters, base, rows, i, s, keep, whole);
    stopped, stack, sent, done := WalkRows(t, base, rows, i, stack0, c, out, keep, stops, s, plan, plan[|plan| - 1]);
  }

  method WalkRows(t: FilterTree, base: Filter, rows: seq<Row<Filter>>, i: nat, stack0: seq<seq<StreamData>>,
                  c: FilterRefreshCollector, out: seq<Sent>, keep: set<Filter>, stops: set<Filter>,
                  ghost s: Filters<Filter>, ghost plan: seq<Progress<Filter>>, ghost last: Progress<Filter>)
    returns (stopped: bool, stack: seq<seq<StreamData>>, sent: seq<Sent>, ghost done: Filters<Filter>)
    requires t.Valid() && base in t.members && stack0 != [] && stack0[0] == [] && c.Valid() && SentSafe(out, c)
    requires s.Keys == t.members && forall y | y in t.members :: s[y] == y.state
    requires ScanStages(plan, rows, i, t.filters, base, s, keep)
    requires plan[0] == Progress([[]], [], map[]) && last == plan[|plan| - 1]
    modifies t.members`cache, t.members`cacheOK, t.members`filterOutputs, t.members`state
    modifies t`owner, c, AllOf(c.nodes)`live
    ensures Settled(t, c, sent, s, done) && stack != [] && stack[0] == []
    ensures forall p | p in AllOf(c.nodes) :: fresh(p)
    ensures AllDone(Trace(SentValues(out) + last.out, last.fills), stopped, stops, SentValues(sent), done)
  {
    StartWalk(t, stack0, c, out, s);
    stopped, stack, sent, done := RefreshRows(t, base, rows, i, stack0, c, out, keep, stops, s, plan, last);
  }
}
