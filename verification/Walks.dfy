/** The refresh loop as a walk over pre-order rows with a stack that is popped to
    each row's depth, and why it is the structural recursion. */
module Walks {
  import opened Forests
  import opened Streams
  import opened RefreshSpec
  import opened CacheRuns

  /** What a stretch of the walk records, and the filters it leaves changed. */
  datatype Trace<!K> = Trace(out: seq<Output<K>>, fills: Filters<K>)

  ghost function Then<K>(a: Trace<K>, b: Trace<K>): Trace<K>
  {
    Trace(a.out + b.out, a.fills + b.fills)
  }

  lemma ThenAssociates<K>(a: Trace<K>, b: Trace<K>, c: Trace<K>)
    ensures Then(Then(a, b), c) == Then(a, Then(b, c))
  {
    assert a.out + b.out + c.out == a.out + (b.out + c.out);
    assert a.fills + b.fills + c.fills == a.fills + (b.fills + c.fills);
  }

  /** The rows of a forest, put in front of more rows. */
  ghost function Onto<K>(f: Forest<K>, d: nat, tail: seq<Row<K>>): seq<Row<K>>
  {
    match f
    case Nil => tail
    case Cons(m, k, r) => [Row(m, d, k.Nil?)] + Onto(k, d + 1, Onto(r, d, tail))
  }

  lemma {:induction false} OntoIsTable<K>(f: Forest<K>, d: nat, tail: seq<Row<K>>)
    ensures Onto(f, d, tail) == Table(f, d) + tail
  {
    match f
    case Nil =>
    case Cons(m, k, r) =>
      OntoIsTable(r, d, tail);
      OntoIsTable(k, d + 1, Onto(r, d, tail));
  }

  /** The rows can be walked with `height` levels on the stack: each row's filter is
      known and finds its parent's level there. */
  ghost predicate Walkable<K>(rows: seq<Row<K>>, s: Filters<K>, base: nat, height: nat)
  {
    rows == [] ||
    (var lvl := rows[0].depth - base + 1;
     rows[0].item in s && 1 <= lvl <= height
     && Walkable(rows[1..], s, base, if rows[0].leaf then lvl else lvl + 1))
  }

  /** Run one filter on the top of the stack. */
  ghost function Visit<K>(x: K, leaf: bool, s: Filters<K>, top: seq<Stream>, keep: set<K>): Trace<K>
    requires x in s
  {
    Trace(if leaf then Record(x, Run(s[x], top)) else [], map[x := AfterRun(s[x], top, x in keep)])
  }

  /** The stack after a visit: popped to the row's level, with the output of a filter
      that is not a leaf pushed. */
  ghost function Pushed<K>(x: K, leaf: bool, s: Filters<K>, popped: seq<seq<Stream>>): seq<seq<Stream>>
    requires x in s && popped != []
  {
    if leaf then popped else popped + [Run(s[x], popped[|popped| - 1])]
  }

  /** The walk: pop to the row's level, visit, go on. */
  ghost function Walk<K>(rows: seq<Row<K>>, s: Filters<K>, base: nat, stack: seq<seq<Stream>>, keep: set<K>): Trace<K>
    requires Walkable(rows, s, base, |stack|)
  {
    if rows == [] then Trace([], map[])
    else
      var Row(x, depth, leaf) := rows[0];
      var popped := stack[..depth - base + 1];
      Then(Visit(x, leaf, s, popped[|popped| - 1], keep),
           Walk(rows[1..], s, base, Pushed(x, leaf, s, popped), keep))
  }

  /** One step of the walk. */
  lemma WalkUnfolds<K>(rows: seq<Row<K>>, s: Filters<K>, base: nat, stack: seq<seq<Stream>>, keep: set<K>)
    returns (here: Trace<K>, next: seq<seq<Stream>>, rest: Trace<K>)
    requires rows != [] && Walkable(rows, s, base, |stack|)
    ensures var Row(x, depth, leaf) := rows[0];
            && x in s && base <= depth < base + |stack|
            && here == Visit(x, leaf, s, stack[depth - base], keep)
            && next == Pushed(x, leaf, s, stack[..depth - base + 1])
    ensures Walkable(rows[1..], s, base, |next|) && rest == Walk(rows[1..], s, base, next, keep)
    ensures Walk(rows, s, base, stack, keep) == Then(here, rest)
  {
    var Row(x, depth, leaf) := rows[0];
    here := Visit(x, leaf, s, stack[depth - base], keep);
    next := Pushed(x, leaf, s, stack[..depth - base + 1]);
    rest := Walk(rows[1..], s, base, next, keep);
  }

  ghost predicate Ends<K>(tail: seq<Row<K>>, d: nat)
  {
    tail == [] || tail[0].depth <= d
  }

  /** More levels on the stack do no harm. */
  lemma WalkableHigher<K>(rows: seq<Row<K>>, s: Filters<K>, base: nat, low: nat, high: nat)
    requires Walkable(rows, s, base, low) && low <= high
    ensures Walkable(rows, s, base, high)
  {
  }

  lemma {:induction false} OntoWalkable<K>(f: Forest<K>, d: nat, tail: seq<Row<K>>, s: Filters<K>, base: nat,
                                           height: nat)
    requires Items(f) <= s.Keys
    requires base <= d && height >= d - base + 1
    requires Ends(tail, d) && Walkable(tail, s, base, d - base + 1)
    ensures Walkable(Onto(f, d, tail), s, base, height)
    ensures Ends(Onto(f, d, tail), d)
  {
    match f
    case Nil => WalkableHigher(tail, s, base, d - base + 1, height);
    case Cons(m, k, r) =>
      OntoWalkable(r, d, tail, s, base, d - base + 1);
      if !k.Nil? {
        WalkableHigher(Onto(r, d, tail), s, base, d - base + 1, d - base + 2);
        OntoWalkable(k, d + 1, Onto(r, d, tail), s, base, d - base + 2);
      }
  }

  /** Only the levels up to the next row's matter. */
  lemma WalkPrefix<K>(rows: seq<Row<K>>, s: Filters<K>, base: nat, a: seq<seq<Stream>>, keep: set<K>, n: nat)
    requires n <= |a| && Walkable(rows, s, base, n)
    ensures Walkable(rows, s, base, |a|)
    ensures Walk(rows, s, base, a, keep) == Walk(rows, s, base, a[..n], keep)
  {
    WalkableHigher(rows, s, base, n, |a|);
    if rows != [] {
      var lvl := rows[0].depth - base + 1;
      assert a[..n][..lvl] == a[..lvl];
    }
  }

  /** The recursive evaluation of a forest. */
  ghost function Eval<K>(f: Forest<K>, s: Filters<K>, input: seq<Stream>, keep: set<K>): Trace<K>
    requires Items(f) <= s.Keys
  {
    Trace(CachedLeaves(f, s, input), Fills(f, s, input, keep))
  }

  lemma LeavesParts<K>(m: K, k: Forest<K>, r: Forest<K>, s: Filters<K>, input: seq<Stream>)
    requires Items(Cons(m, k, r)) <= s.Keys
    ensures CachedLeaves(Cons(m, k, r), s, input)
         == (if k.Nil? then Record(m, Run(s[m], input)) else []) + CachedLeaves(k, s, Run(s[m], input))
            + CachedLeaves(r, s, input)
  {
    var out := Run(s[m], input);
    if k.Nil? {
      assert Record(m, out) + [] == Record(m, out);
    } else {
      assert [] + CachedLeaves(k, s, out) == CachedLeaves(k, s, out);
    }
  }

  lemma EvalParts<K>(m: K, k: Forest<K>, r: Forest<K>, s: Filters<K>, input: seq<Stream>, keep: set<K>)
    requires Items(Cons(m, k, r)) <= s.Keys
    ensures Eval(Cons(m, k, r), s, input, keep)
         == Then(Then(Visit(m, k.Nil?, s, input, keep), Eval(k, s, Run(s[m], input), keep)), Eval(r, s, input, keep))
  {
    LeavesParts(m, k, r, s, input);
  }

  lemma ThenFour<K>(a: Trace<K>, b: Trace<K>, c: Trace<K>, d: Trace<K>, whole: Trace<K>)
    requires whole == Then(Then(a, b), c)
    ensures Then(a, Then(b, Then(c, d))) == Then(whole, d)
  {
    ThenAssociates(b, c, d);
    ThenAssociates(a, Then(b, c), d);
    ThenAssociates(a, b, c);
  }

  /** A walk of one row and then `rest`. */
  lemma WalkRow<K>(m: K, d: nat, leaf: bool, rest: seq<Row<K>>, s: Filters<K>, base: nat,
                   stack: seq<seq<Stream>>, keep: set<K>)
    requires m in s && base <= d && |stack| == d - base + 1
    requires Walkable(rest, s, base, if leaf then |stack| else |stack| + 1)
    ensures Walkable([Row(m, d, leaf)] + rest, s, base, |stack|)
    ensures Walk([Row(m, d, leaf)] + rest, s, base, stack, keep)
         == Then(Visit(m, leaf, s, stack[d - base], keep), Walk(rest, s, base, Pushed(m, leaf, s, stack), keep))
  {
    var rows := [Row(m, d, leaf)] + rest;
    assert rows[1..] == rest && stack[..|stack|] == stack;
  }

  /** Walking a forest's rows with its input on the stack is evaluating it recursively;
      the walk then goes on as if those rows were not there. */
  lemma {:induction false} WalkIsRecursion<K>(f: Forest<K>, d: nat, tail: seq<Row<K>>, s: Filters<K>,
                                              base: nat, stack: seq<seq<Stream>>, keep: set<K>)
    requires Items(f) <= s.Keys && base <= d && |stack| == d - base + 1
    requires Ends(tail, d) && Walkable(tail, s, base, |stack|)
    decreases f, 1
    ensures Walkable(Onto(f, d, tail), s, base, |stack|)
    ensures Walk(Onto(f, d, tail), s, base, stack, keep)
         == Then(Eval(f, s, stack[d - base], keep), Walk(tail, s, base, stack, keep))
  {
    match f
    case Nil =>
    case Cons(m, k, r) =>
      WalkIsRecursion(r, d, tail, s, base, stack, keep);
      OntoWalkable(r, d, tail, s, base, |stack|);
      var input, last := stack[d - base], Walk(tail, s, base, stack, keep);
      WalkTree(m, k, d, Onto(f, d, tail), Onto(r, d, tail), s, base, stack, input, keep, Eval(r, s, input, keep), last);
      EvalParts(m, k, r, s, input, keep);
      ThenFour(Visit(m, k.Nil?, s, input, keep), Eval(k, s, Run(s[m], input), keep),
               Eval(r, s, input, keep), last, Eval(f, s, input, keep));
  }

  /** A tree whose later siblings' rows `rest` walk as they should. */
  lemma {:induction false} WalkTree<K>(m: K, k: Forest<K>, d: nat, rows: seq<Row<K>>, rest: seq<Row<K>>, s: Filters<K>,
                                       base: nat, stack: seq<seq<Stream>>, input: seq<Stream>, keep: set<K>,
                                       others: Trace<K>, last: Trace<K>)
    requires m in s && Items(k) <= s.Keys && base <= d && |stack| == d - base + 1 && input == stack[d - base]
    requires rows == [Row(m, d, k.Nil?)] + Onto(k, d + 1, rest)
    requires Ends(rest, d) && Walkable(rest, s, base, |stack|)
    requires Walk(rest, s, base, stack, keep) == Then(others, last)
    decreases k, 4
    ensures Walkable(rows, s, base, |stack|)
    ensures Walk(rows, s, base, stack, keep)
         == Then(Visit(m, k.Nil?, s, input, keep), Then(Eval(k, s, Run(s[m], input), keep), Then(others, last)))
  {
    hide Onto, Walk, Walkable, Visit, Eval, Then;
    var below, out := Onto(k, d + 1, rest), Run(s[m], input);
    WalkKids(k, d, rest, s, base, stack, out, keep);
    WalkRow(m, d, k.Nil?, below, s, base, stack, keep);
    assert Pushed(m, k.Nil?, s, stack) == if k.Nil? then stack else stack + [out];
  }

  /** The rows below a filter, which are none for a leaf, and then its later siblings' rows. */
  lemma {:induction false} WalkKids<K>(k: Forest<K>, d: nat, rest: seq<Row<K>>, s: Filters<K>,
                                       base: nat, stack: seq<seq<Stream>>, out: seq<Stream>, keep: set<K>)
    requires Items(k) <= s.Keys && base <= d && |stack| == d - base + 1
    requires Ends(rest, d) && Walkable(rest, s, base, |stack|)
    decreases k, 3
    ensures var pushed := if k.Nil? then stack else stack + [out];
            && Walkable(Onto(k, d + 1, rest), s, base, |pushed|)
            && Walk(Onto(k, d + 1, rest), s, base, pushed, keep)
            == Then(Eval(k, s, out, keep), Walk(rest, s, base, stack, keep))
  {
    if k.Nil? {
      NothingThen(Walk(rest, s, base, stack, keep));
    } else {
      WalkBelow(k, d, rest, s, base, stack, out, keep);
    }
  }

  lemma NothingThen<K>(a: Trace<K>)
    ensures Then(Trace([], map[]), a) == a
  {
  }

  /** The rows below a filter that has pushed `out`, and then its later siblings' rows. */
  lemma {:induction false} WalkBelow<K>(k: Forest<K>, d: nat, rest: seq<Row<K>>, s: Filters<K>,
                                        base: nat, stack: seq<seq<Stream>>, out: seq<Stream>, keep: set<K>)
    requires Items(k) <= s.Keys && base <= d && |stack| == d - base + 1
    requires Ends(rest, d) && Walkable(rest, s, base, |stack|)
    decreases k, 2
    ensures Walkable(Onto(k, d + 1, rest), s, base, |stack + [out]|)
    ensures Walk(Onto(k, d + 1, rest), s, base, stack + [out], keep)
         == Then(Eval(k, s, out, keep), Walk(rest, s, base, stack, keep))
  {
    var pushed := stack + [out];
    WalkableHigher(rest, s, base, |stack|, |pushed|);
    WalkIsRecursion(k, d + 1, rest, s, base, pushed, keep);
    WalkPrefix(rest, s, base, pushed, keep, |stack|);
    assert pushed[..|stack|] == stack;
  }

  /** One branch, started on an empty input. */
  lemma WalkBranch<K>(b: Forest<K>, d: nat, s: Filters<K>, keep: set<K>)
    requires Items(b) <= s.Keys
    ensures Walkable(Table(b, d), s, d, 1)
    ensures Walk(Table(b, d), s, d, [[]], keep) == Eval(b, s, [], keep)
  {
    WalkIsRecursion(b, d, [], s, d, [[]], keep);
    OntoIsTable(b, d, []);
    assert Table(b, d) + [] == Table(b, d);
  }
}
