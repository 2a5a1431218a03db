/** The walk that initialises all filters: every filter pushes what it passes on, and the
    collector keeps one level for each level of the stack. */
module InitWalks {
  import opened Forests
  import opened Streams
  import opened Collector
  import opened Walks

  /** What initialising a filter passes on: some of its input, and streams of its own. */
  datatype InitRule<!K> = InitRule(passes: (K, seq<Stream>, nat) -> bool, makes: (K, seq<Stream>) -> seq<Stream>)
  {
    ghost function Out(x: K, input: seq<Stream>): seq<Stream>
    {
      Picked(x, input, |input|) + makes(x, input)
    }

    /** The streams passed on among the first `n`. */
    ghost function Picked(x: K, input: seq<Stream>, n: nat): seq<Stream>
      requires n <= |input|
    {
      if n == 0 then [] else Picked(x, input, n - 1) + if passes(x, input, n - 1) then [input[n - 1]] else []
    }
  }

  /** One filter and the input that it is initialised with. */
  datatype Call<!K> = Call(filter: K, input: seq<Stream>)

  /** The calls of the structural recursion: a filter gets what its parent passes on. */
  ghost function Calls<K>(f: Forest<K>, input: seq<Stream>, rule: InitRule<K>): seq<Call<K>>
  {
    match f
    case Nil => []
    case Cons(m, k, r) => [Call(m, input)] + Calls(k, rule.Out(m, input), rule) + Calls(r, input, rule)
  }

  /** Each row's parent has its level on a stack of the given height. */
  ghost predicate Climbs<K>(rows: seq<Row<K>>, height: nat)
  {
    rows == [] || (rows[0].depth < height && Climbs(rows[1..], rows[0].depth + 2))
  }

  /** The calls of the walk. */
  ghost function InitWalk<K>(rows: seq<Row<K>>, stack: seq<seq<Stream>>, rule: InitRule<K>): seq<Call<K>>
    requires Climbs(rows, |stack|)
  {
    if rows == [] then []
    else
      var Row(x, depth, _) := rows[0];
      var input := stack[depth];
      [Call(x, input)] + InitWalk(rows[1..], stack[..depth + 1] + [rule.Out(x, input)], rule)
  }

  lemma ClimbsHigher<K>(rows: seq<Row<K>>, low: nat, high: nat)
    requires Climbs(rows, low) && low <= high
    ensures Climbs(rows, high)
  {
  }

  lemma {:induction false} OntoClimbs<K>(f: Forest<K>, d: nat, tail: seq<Row<K>>)
    requires Ends(tail, d) && Climbs(tail, d + 1)
    ensures Climbs(Onto(f, d, tail), d + 1) && Ends(Onto(f, d, tail), d)
  {
    match f
    case Nil =>
    case Cons(m, k, r) =>
      OntoClimbs(r, d, tail);
      ClimbsHigher(Onto(r, d, tail), d + 1, d + 2);
      OntoClimbs(k, d + 1, Onto(r, d, tail));
      assert ([Row(m, d, k.Nil?)] + Onto(k, d + 1, Onto(r, d, tail)))[1..] == Onto(k, d + 1, Onto(r, d, tail));
  }

  /** Only the levels up to the next row's matter. */
  lemma InitPrefix<K>(rows: seq<Row<K>>, a: seq<seq<Stream>>, rule: InitRule<K>, n: nat)
    requires n <= |a| && Climbs(rows, n)
    ensures Climbs(rows, |a|) && InitWalk(rows, a, rule) == InitWalk(rows, a[..n], rule)
  {
    ClimbsHigher(rows, n, |a|);
    if rows != [] { assert a[..n][..rows[0].depth + 1] == a[..rows[0].depth + 1]; }
  }

  lemma InitRow<K>(m: K, d: nat, leaf: bool, rest: seq<Row<K>>, stack: seq<seq<Stream>>, rule: InitRule<K>)
    requires |stack| == d + 1 && Climbs(rest, d + 2)
    ensures Climbs([Row(m, d, leaf)] + rest, d + 1)
    ensures InitWalk([Row(m, d, leaf)] + rest, stack, rule)
         == [Call(m, stack[d])] + InitWalk(rest, stack + [rule.Out(m, stack[d])], rule)
  {
    assert ([Row(m, d, leaf)] + rest)[1..] == rest && stack[..d + 1] == stack;
  }

  /** The walk over the rows of a forest makes the calls of the structural recursion, and
      then goes on as if those rows were not there. */
  lemma {:induction false} InitIsRecursion<K>(f: Forest<K>, d: nat, tail: seq<Row<K>>, stack: seq<seq<Stream>>,
                                              rule: InitRule<K>)
    requires |stack| == d + 1 && Ends(tail, d) && Climbs(tail, d + 1)
    ensures Climbs(Onto(f, d, tail), d + 1)
    ensures InitWalk(Onto(f, d, tail), stack, rule) == Calls(f, stack[d], rule) + InitWalk(tail, stack, rule)
    decreases f
  {
    OntoClimbs(f, d, tail);
    match f
    case Nil =>
    case Cons(m, k, r) =>
      var rest, out := Onto(r, d, tail), rule.Out(m, stack[d]);
      var pushed := stack + [out];
      OntoClimbs(r, d, tail);
      ClimbsHigher(rest, d + 1, d + 2);
      OntoClimbs(k, d + 1, rest);
      InitRow(m, d, k.Nil?, Onto(k, d + 1, rest), stack, rule);
      InitIsRecursion(k, d + 1, rest, pushed, rule);
      InitPrefix(rest, pushed, rule, d + 1);
      assert pushed[..d + 1] == stack;
      InitIsRecursion(r, d, tail, stack, rule);
      CallsTogether([Call(m, stack[d])], Calls(k, out, rule), Calls(r, stack[d], rule), InitWalk(tail, stack, rule));
  }

  lemma CallsTogether<X>(a: seq<X>, b: seq<X>, c: seq<X>, d: seq<X>)
    ensures a + (b + (c + d)) == a + b + c + d
  {
  }

  /** The whole walk, from a stack that holds no input. */
  lemma InitWalkIsCalls<K>(f: Forest<K>, rule: InitRule<K>)
    ensures Climbs(Table(f, 0), 1) && InitWalk(Table(f, 0), [[]], rule) == Calls(f, [], rule)
  {
    InitIsRecursion(f, 0, [], [[]], rule);
    OntoIsTable(f, 0, []);
    assert Table(f, 0) + [] == Table(f, 0);
  }

  // ----- the walk in memory -----

  /** Each entry of a list occurs no later than on its own level. */
  ghost predicate Covered<T>(lists: seq<seq<T>>, nodes: seq<seq<T>>)
  {
    |lists| <= |nodes| && forall i, p | 0 <= i < |lists| && p in lists[i] :: p in AllOf(nodes[..i + 1])
  }

  lemma CoverPush<T>(lists: seq<seq<T>>, nodes: seq<seq<T>>, list: seq<T>, level: seq<T>)
    requires Covered(lists, nodes) && |lists| == |nodes|
    requires forall p | p in list :: p in level || p in AllOf(nodes)
    ensures Covered(lists + [list], nodes + [level])
  {
    var lists', nodes' := lists + [list], nodes + [level];
    forall i, p | 0 <= i < |lists'| && p in lists'[i] ensures p in AllOf(nodes'[..i + 1]) {
      if i < |lists| {
        assert p in lists[i] && nodes'[..i + 1] == nodes[..i + 1];
      } else {
        assert nodes'[..i + 1] == nodes';
        AllOfMore(nodes, level, p);
      }
    }
  }

  lemma AllOfMore<T>(nodes: seq<seq<T>>, level: seq<T>, p: T)
    ensures p in AllOf(nodes + [level]) <==> p in AllOf(nodes) || p in level
  {
    var all := nodes + [level];
    if p in level { assert p in all[|nodes|]; }
    if p in AllOf(nodes) {
      var j, q :| 0 <= j < |nodes| && q in nodes[j] && q == p;
      assert p in all[j];
    }
    if p in AllOf(all) {
      var j, q :| 0 <= j < |all| && q in all[j] && q == p;
      assert j < |nodes| ==> p in nodes[j];
    }
  }

  /** The streams on the stack are alive and tracked no later than on their own level. */
  ghost predicate Held(c: FilterRefreshCollector, stack: seq<seq<StreamData>>)
    reads c, AllOf(c.nodes)
  {
    && c.Valid() && c.forgotten == {} && |c.nodes| == |stack|
    && (forall i | 0 <= i < |stack| :: NoRepeat(stack[i]))
    && Covered(stack, c.nodes)
  }

  ghost function StackValues(stack: seq<seq<StreamData>>): (v: seq<seq<Stream>>)
    ensures |v| == |stack| && forall i | 0 <= i < |v| :: v[i] == Values(stack[i])
  {
    seq(|stack|, i requires 0 <= i < |stack| => Values(stack[i]))
  }

  lemma HeldIn(c: FilterRefreshCollector, stack: seq<seq<StreamData>>, i: nat)
    requires Held(c, stack) && i < |stack|
    ensures AllLive(stack[i]) && forall p | p in stack[i] :: p in AllOf(c.nodes) && !p.cached && p !in c.elders
  {
    forall p | p in stack[i] ensures p in AllOf(c.nodes) {
      assert p in AllOf(c.nodes[..i + 1]);
      var j, q :| 0 <= j < |c.nodes[..i + 1]| && q in c.nodes[..i + 1][j] && q == p;
      assert p in c.nodes[j];
    }
  }

  /** Pop both to the level of a row. They have the same height then. */
  method PopBoth(c: FilterRefreshCollector, stack: seq<seq<StreamData>>, level: nat)
    returns (popped: seq<seq<StreamData>>)
    requires Held(c, stack) && 1 <= level <= |stack|
    modifies c`nodes, AllOf(c.nodes)`live
    ensures popped == stack[..level] && Held(c, popped) && |c.nodes| == level
    ensures AllOf(c.nodes) <= old(AllOf(c.nodes))
  {
    popped := stack;
    while |popped| > level
      invariant level <= |popped| <= |stack| && popped == stack[..|popped|]
    {
      popped := popped[..|popped| - 1];
    }
    ghost var nodes := c.nodes;
    c.CollectToLevel(level);
    forall i, p | 0 <= i < level && p in popped[i] ensures p in AllOf(c.nodes[..i + 1]) {
      assert p in stack[i];
      assert c.nodes[..i + 1] == nodes[..i + 1];
    }
    forall p | p in AllOf(c.nodes) ensures p in AllOf(nodes) {
      var j, q :| 0 <= j < |c.nodes| && q in c.nodes[j] && q == p;
      assert p in nodes[j];
    }
  }

  /** Make the streams that a filter adds. */
  method MakeStreams(made: seq<Stream>) returns (ps: seq<StreamData>)
    ensures Values(ps) == made && NoRepeat(ps) && fresh(ps)
    ensures forall p | p in ps :: p.live && !p.cached
  {
    ps := [];
    for i := 0 to |made|
      invariant |ps| == i && Values(ps) == made[..i] && NoRepeat(ps) && fresh(ps)
      invariant forall p | p in ps :: p.live && !p.cached
    {
      var p := new StreamData(made[i]);
      NoRepeatConcat(ps, [p]);
      ps := ps + [p];
      assert made[..i + 1] == made[..i] + [made[i]];
    }
    assert made[..|made|] == made;
  }

  /** Initialise one filter. */
  method InitFilter<K>(x: K, input: seq<StreamData>, rule: InitRule<K>) returns (curData: seq<StreamData>)
    requires NoRepeat(input) && forall p | p in input :: p.live && !p.cached
    ensures Values(curData) == rule.Out(x, Values(input)) && NoRepeat(curData)
    ensures forall p | p in curData :: p.live && !p.cached && (p in input || fresh(p))
  {
    var dataIn := Values(input);
    curData := [];
    for i := 0 to |input|
      invariant Values(curData) == rule.Picked(x, dataIn, i)
      invariant NoRepeat(curData) && forall p | p in curData :: p in input[..i]
    {
      if rule.passes(x, dataIn, i) {
        assert input == input[..i] + input[i..] && input[i..][0] == input[i];
        NoRepeatSplit(input[..i], input[i..]);
        NoRepeatConcat(curData, [input[i]]);
        curData := curData + [input[i]];
      }
      assert input[..i + 1] == input[..i] + [input[i]];
    }
    var made := MakeStreams(rule.makes(x, dataIn));
    ghost var passed := curData;
    ValuesJoin(passed, made);
    NoRepeatConcat(passed, made);
    curData := curData + made;
  }

  lemma ValuesJoin(a: seq<StreamData>, b: seq<StreamData>)
    ensures Values(a + b) == Values(a) + Values(b)
  {
  }

  /** Push the output of a filter, and track it. */
  method PushBoth(c: FilterRefreshCollector, stack: seq<seq<StreamData>>, curData: seq<StreamData>)
    returns (pushed: seq<seq<StreamData>>)
    requires Held(c, stack) && NoRepeat(curData) && forall p | p in curData :: p.live && !p.cached && p !in c.elders
    modifies c`nodes
    ensures pushed == stack + [curData] && Held(c, pushed)
    ensures forall p | p in AllOf(c.nodes) :: p in AllOf(old(c.nodes)) || p in curData
  {
    ghost var nodes := c.nodes;
    pushed := stack + [curData];
    c.TrackPointers(curData);
    ghost var level := c.nodes[|nodes|];
    assert c.nodes == nodes + [level];
    CoverPush(stack, nodes, curData, level);
    forall p | p in AllOf(c.nodes) ensures p in AllOf(nodes) || p in curData { AllOfMore(nodes, level, p); }
  }

  /** Initialise the filter of one row. */
  method InitOne<K>(c: FilterRefreshCollector, stack0: seq<seq<StreamData>>, row: Row<K>, rule: InitRule<K>)
    returns (stack: seq<seq<StreamData>>, ghost call: Call<K>, ghost level: nat, ghost height: nat)
    requires Held(c, stack0) && row.depth < |stack0|
    modifies c`nodes, AllOf(c.nodes)`live
    ensures Held(c, stack) && call == Call(row.item, StackValues(stack0)[row.depth])
    ensures StackValues(stack) == StackValues(stack0)[..row.depth + 1] + [rule.Out(row.item, call.input)]
    ensures forall p | p in AllOf(c.nodes) :: p in AllOf(old(c.nodes)) || fresh(p)
    ensures level == height == row.depth + 1
  {
    stack := PopBoth(c, stack0, row.depth + 1);
    level, height := |c.nodes|, |stack|;
    HeldIn(c, stack, row.depth);
    var curData := InitFilter(row.item, stack[row.depth], rule);
    call := Call(row.item, Values(stack[row.depth]));
    stack := PushBoth(c, stack, curData);
  }

  /** One call more, and the walk goes on. */
  lemma {:induction false} NextCall<K>(calls: seq<Call<K>>, now: seq<Row<K>>, row: Row<K>, rest: seq<Row<K>>,
                                       before: seq<seq<Stream>>, after: seq<seq<Stream>>, call: Call<K>,
                                       rule: InitRule<K>, total: seq<Call<K>>)
    requires now != [] && now[0] == row && now[1..] == rest && Climbs(now, |before|)
    requires calls + InitWalk(now, before, rule) == total
    requires row.depth < |before| && call == Call(row.item, before[row.depth])
    requires after == before[..row.depth + 1] + [rule.Out(row.item, call.input)]
    ensures Climbs(rest, |after|) && calls + [call] + InitWalk(rest, after, rule) == total
  {
    var later := InitWalk(rest, after, rule);
    assert InitWalk(now, before, rule) == [call] + later;
    ConcatAssociates(calls, [call], later);
  }

  /** Initialise the filter of the next row, and leave the rest to come. */
  method InitNext<K>(c: FilterRefreshCollector, stack0: seq<seq<StreamData>>, row: Row<K>, rule: InitRule<K>,
                     ghost now: seq<Row<K>>, ghost rest: seq<Row<K>>, ghost calls: seq<Call<K>>,
                     ghost total: seq<Call<K>>)
    returns (stack: seq<seq<StreamData>>, ghost call: Call<K>, ghost level: nat, ghost height: nat)
    requires Held(c, stack0) && now != [] && now[0] == row && now[1..] == rest && Climbs(now, |stack0|)
    requires calls + InitWalk(now, StackValues(stack0), rule) == total
    modifies c`nodes, AllOf(c.nodes)`live
    ensures Held(c, stack) && forall p | p in AllOf(c.nodes) :: p in AllOf(old(c.nodes)) || fresh(p)
    ensures Climbs(rest, |stack|) && calls + [call] + InitWalk(rest, StackValues(stack), rule) == total
    ensures level == height == row.depth + 1
  {
    ghost var before := StackValues(stack0);
    stack, call, level, height := InitOne(c, stack0, row, rule);
    NextCall(calls, now, row, rest, before, StackValues(stack), call, rule, total);
  }

  /** One more than the depth of each row. */
  ghost function Heights<K>(rows: seq<Row<K>>): (h: seq<nat>)
    ensures |h| == |rows| && forall i | 0 <= i < |h| :: h[i] == rows[i].depth + 1
  {
    seq(|rows|, i requires 0 <= i < |rows| => rows[i].depth + 1)
  }

  /** Initialise all filters. The calls made are those of the structural recursion, and after
      every collection the collector has as many levels as the stack: one more than the
      depth of the filter to be initialised. No stream is deleted while it may still be read,
      or twice. */
  method InitFilterTree<K>(filters: Forest<K>, rule: InitRule<K>)
    returns (ghost calls: seq<Call<K>>, ghost levels: seq<nat>, ghost heights: seq<nat>)
    ensures calls == Calls(filters, [], rule)
    ensures levels == heights == Heights(Table(filters, 0))
  {
    ghost var total, all := Calls(filters, [], rule), Heights(Table(filters, 0));
    InitWalkIsCalls(filters, rule);
    var c := new FilterRefreshCollector({});
    var stack: seq<seq<StreamData>> := PushBoth(c, [], []);
    var rows := Table(filters, 0);
    calls, levels, heights := [], [], [];
    assert StackValues(stack) == [[]];
    while rows != []
      invariant fresh(c) && fresh(AllOf(c.nodes)) && Held(c, stack) && Climbs(rows, |stack|)
      invariant calls + InitWalk(rows, StackValues(stack), rule) == total
      invariant levels == heights && levels + Heights(rows) == all
      decreases |rows|
    {
      ghost var call, level, height;
      stack, call, level, height := InitNext(c, stack, rows[0], rule, rows, rows[1..], calls, total);
      NextHeight(levels, level, rows);
      calls, levels, heights := calls + [call], levels + [level], heights + [height];
      rows := rows[1..];
    }
    c.CollectAll();
  }

  lemma NextHeight<K>(levels: seq<nat>, level: nat, rows: seq<Row<K>>)
    requires rows != [] && level == rows[0].depth + 1
    ensures levels + [level] + Heights(rows[1..]) == levels + Heights(rows)
  {
    assert [level] + Heights(rows[1..]) == Heights(rows);
    ConcatAssociates(levels, [level], Heights(rows[1..]));
  }
}
