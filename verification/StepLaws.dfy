/** What the steps of the state machine do, seen from outside: which filter keeps which
    settings and which cache, and which output a leaf shows. */
module StepLaws {
  import opened Forests
  import opened Streams
  import opened RefreshSpec
  import opened CacheRuns

  // ----- caches after a step -----

  /** The same filter without its cache. */
  ghost predicate Emptied(was: FilterState, now: FilterState)
  {
    now.kind == was.kind && now.props == was.props && now.cache == None
  }

  /** Clearing everything leaves no cache. */
  lemma ClearAllStep<K>(t: Model<K>)
    requires Items(t.tree) == t.filters.Keys
    ensures var u := Step(ClearAll, t);
            u.tree == t.tree && u.filters.Keys == t.filters.Keys
            && forall y | y in t.filters :: Emptied(t.filters[y], u.filters[y])
  {
  }

  /** Clearing a branch leaves no cache there, but for its root if that is not included, and
      leaves every other filter alone. */
  lemma ClearBranchStep<K>(t: Model<K>, x: K, includeSelf: bool)
    requires Distinct(t.tree) && Items(t.tree) == t.filters.Keys && x in t.filters
    ensures var u := Step(Edit.ClearBranch(x, includeSelf), t);
            u.tree == t.tree && u.filters.Keys == t.filters.Keys
            && forall y | y in t.filters ::
                 if y in Items(Branch(t.tree, x)) && (includeSelf || y != x)
                 then Emptied(t.filters[y], u.filters[y]) else u.filters[y] == t.filters[y]
  {
    KidsItems(t.tree, x);
  }

  /** A new filter has its settings and no cache, and the others stay as they are. */
  lemma AddFilterStep<K>(t: Model<K>, x: K, kind: Kind, props: Props, parent: Option<K>)
    requires Items(t.tree) == t.filters.Keys && Allowed(Edit.AddFilter(x, kind, props, parent), t)
    ensures var u := Step(Edit.AddFilter(x, kind, props, parent), t);
            u.filters.Keys == t.filters.Keys + {x} && u.filters[x] == FilterState(kind, props, None)
            && forall y | y in t.filters :: u.filters[y] == t.filters[y]
  {
  }

  /** The filters of a removed branch are gone, and the others stay as they are. */
  lemma RemoveStep<K>(t: Model<K>, x: K)
    requires Items(t.tree) == t.filters.Keys && x in t.filters
    ensures var u := Step(Edit.RemoveSubtree(x), t);
            (forall y :: y in u.filters <==> y in t.filters && y !in Items(Branch(t.tree, x)))
            && forall y | y in u.filters :: u.filters[y] == t.filters[y]
  {
  }

  /** A move changes the caches in question, and neither adds nor loses a filter. */
  lemma ReparentStep<K>(t: Model<K>, x: K, parent: Option<K>)
    requires Items(t.tree) == t.filters.Keys && Allowed(Edit.Reparent(x, parent), t)
    requires !(parent.Some? && parent.value in Items(Branch(t.tree, x)))
    ensures var u := Step(Edit.Reparent(x, parent), t);
            u.filters.Keys == t.filters.Keys
            && forall y | y in t.filters ::
                 if y in ClearedByMove(t.tree, x) then Emptied(t.filters[y], u.filters[y])
                 else u.filters[y] == t.filters[y]
  {
  }

  // ----- a refresh -----

  /** What an evaluation may make of a filter: a cache stays; a new one is not empty, and only
      where caching is on. */
  ghost predicate Ran(was: FilterState, now: FilterState, keep: bool)
  {
    && now.kind == was.kind && now.props == was.props
    && (was.cache.Some? ==> now.cache == was.cache)
    && (was.cache.None? && now.cache.Some? ==> keep && now.cache.value != [])
  }

  lemma {:induction false} FillsRan<K>(f: Forest<K>, s: Filters<K>, input: seq<Stream>, keep: set<K>, y: K)
    requires Distinct(f) && Items(f) <= s.Keys && y in Items(f)
    ensures y in Fills(f, s, input, keep) && Ran(s[y], Fills(f, s, input, keep)[y], y in keep)
  {
    var Cons(m, k, r) := f;
    FillsKeys(k, s, Run(s[m], input), keep);
    FillsKeys(r, s, input, keep);
    if y in Items(k) { FillsRan(k, s, Run(s[m], input), keep, y); }
    if y in Items(r) { FillsRan(r, s, input, keep, y); }
  }

  /** One of the starts is the filter, or lies above it. */
  ghost predicate BelowSeed<K>(f: Forest<K>, seeds: seq<K>, y: K)
  {
    exists m :: m in seeds && m in Items(f) && y in Items(Branch(f, m))
  }

  lemma BranchInKids<K>(m: K, k: Forest<K>, r: Forest<K>, x: K)
    requires Distinct(Cons(m, k, r))
    ensures x in Items(k) ==> Branch(Cons(m, k, r), x) == Branch(k, x)
    ensures x in Items(r) ==> Branch(Cons(m, k, r), x) == Branch(r, x)
    ensures x in Items(k) ==> Items(Branch(k, x)) <= Items(k)
    ensures x in Items(r) ==> Items(Branch(r, x)) <= Items(r)
  {
    if x in Items(k) { KidsItems(k, x); }
    if x in Items(r) { KidsItems(r, x); }
  }

  /** A refresh evaluates exactly the starts and what lies below them. */
  lemma {:induction false} EvaluatedBelow<K>(f: Forest<K>, s: Filters<K>, above: Mask, keep: set<K>, y: K)
    requires Distinct(f) && Items(f) <= s.Keys && y in Items(f)
    ensures y in SeededFills(f, s, above, keep) <==> BelowSeed(f, Seeds(f, s, above), y)
    ensures y in SeededFills(f, s, above, keep) ==> Ran(s[y], SeededFills(f, s, above, keep)[y], y in keep)
  {
    hide Ran;
    var Cons(m, k, r) := f;
    var above' := EmitAcc(s[m], above);
    var head := if IsSeed(m, k, s, above) then [m] else Seeds(k, s, above');
    SeedItems(k, s, above');
    SeedItems(r, s, above);
    SeededFillsKeys(k, s, above', keep);
    SeededFillsKeys(r, s, above, keep);
    FillsKeys(Cons(m, k, Nil), s, [], keep);
    if y in Items(r) {
      EvaluatedBelow(r, s, above, keep, y);
      BelowRest(m, k, r, head, Seeds(r, s, above), y);
    } else if IsSeed(m, k, s, above) {
      FillsRan(Cons(m, k, Nil), s, [], keep, y);
      assert m in Seeds(f, s, above) && y in Items(Branch(f, m));
    } else if y in Items(k) {
      EvaluatedBelow(k, s, above', keep, y);
      BelowKids(m, k, r, head, Seeds(r, s, above), y);
    } else {
      RootBelow(m, k, r, head, Seeds(r, s, above));
    }
  }

  lemma BelowRest<K>(m: K, k: Forest<K>, r: Forest<K>, head: seq<K>, tail: seq<K>, y: K)
    requires Distinct(Cons(m, k, r)) && y in Items(r)
    requires (forall x | x in head :: x in Items(k) + {m}) && forall x | x in tail :: x in Items(r)
    ensures BelowSeed(Cons(m, k, r), head + tail, y) <==> BelowSeed(r, tail, y)
  {
    var f := Cons(m, k, r);
    if BelowSeed(f, head + tail, y) {
      var x :| x in head + tail && x in Items(f) && y in Items(Branch(f, x));
      if x == m {
        assert Items(Branch(f, m)) == {m} + Items(k);
        assert false;
      }
      BranchInKids(m, k, r, x);
    }
    if BelowSeed(r, tail, y) {
      var x :| x in tail && x in Items(r) && y in Items(Branch(r, x));
      BranchInKids(m, k, r, x);
      assert x in head + tail;
    }
  }

  lemma BelowKids<K>(m: K, k: Forest<K>, r: Forest<K>, head: seq<K>, tail: seq<K>, y: K)
    requires Distinct(Cons(m, k, r)) && y in Items(k)
    requires (forall x | x in head :: x in Items(k)) && forall x | x in tail :: x in Items(r)
    ensures BelowSeed(Cons(m, k, r), head + tail, y) <==> BelowSeed(k, head, y)
  {
    var f := Cons(m, k, r);
    if BelowSeed(f, head + tail, y) {
      var x :| x in head + tail && x in Items(f) && y in Items(Branch(f, x));
      BranchInKids(m, k, r, x);
    }
    if BelowSeed(k, head, y) {
      var x :| x in head && x in Items(k) && y in Items(Branch(k, x));
      BranchInKids(m, k, r, x);
      assert x in head + tail;
    }
  }

  lemma RootBelow<K>(m: K, k: Forest<K>, r: Forest<K>, head: seq<K>, tail: seq<K>)
    requires Distinct(Cons(m, k, r))
    requires (forall x | x in head :: x in Items(k)) && forall x | x in tail :: x in Items(r)
    ensures !BelowSeed(Cons(m, k, r), head + tail, m)
  {
    var f := Cons(m, k, r);
    if BelowSeed(f, head + tail, m) {
      var x :| x in head + tail && x in Items(f) && m in Items(Branch(f, x));
      BranchInKids(m, k, r, x);
      assert false;
    }
  }

  /** The filter lies in the branch of a monitored one. */
  ghost predicate Monitored<K>(f: Forest<K>, monitored: set<K>, y: K)
  {
    exists x :: x in monitored && x in Items(f) && y in Items(Branch(f, x))
  }

  /** After a refresh a filter has a cache only if it had one that no monitored filter called
      into question, or if it was evaluated, caching was on, and there was something to keep. */
  lemma RefreshStep<K>(t: Model<K>, monitored: set<K>, keep: set<K>, y: K)
    requires Distinct(t.tree) && Items(t.tree) == t.filters.Keys && monitored <= t.filters.Keys && y in t.filters
    ensures var u := Step(Edit.Refresh(monitored, keep), t);
            var s := Cleared(t.filters, BranchesOf(t.tree, monitored));
            && u.tree == t.tree && y in u.filters
            && u.filters[y].kind == t.filters[y].kind && u.filters[y].props == t.filters[y].props
            && (t.filters[y].cache.Some? && !Monitored(t.tree, monitored, y) ==> u.filters[y] == t.filters[y])
            && (u.filters[y].cache.Some? && (t.filters[y].cache.None? || Monitored(t.tree, monitored, y)) ==>
                  BelowSeed(t.tree, Seeds(t.tree, s, {}), y) && y in keep && u.filters[y].cache.value != [])
  {
    var s := Cleared(t.filters, BranchesOf(t.tree, monitored));
    assert y in BranchesOf(t.tree, monitored) <==> Monitored(t.tree, monitored, y);
    EvaluatedBelow(t.tree, s, {}, keep, y);
  }

  // ----- what a leaf shows -----

  /** What comes out at the end of a path when every filter on it is evaluated. */
  ghost function Along<K>(path: seq<K>, s: Filters<K>, input: seq<Stream>): seq<Stream>
    requires forall x | x in path :: x in s
  {
    if path == [] then input else Along(path[1..], s, Fresh(s[path[0]], input))
  }

  /** The path ends at `x`, and something comes out there. */
  ghost predicate Shows<K>(f: Forest<K>, s: Filters<K>, input: seq<Stream>, path: seq<K>, out: Output<K>)
    requires Items(f) <= s.Keys
  {
    && IsLeafPath(f, path) && path != [] && path[|path| - 1] == out.0 && (forall x | x in path :: x in s)
    && out.1 == Along(path, s, input) && out.1 != []
  }

  /** Each entry of the uncached output belongs to a path from a root to a leaf. */
  lemma {:induction false} LeavesShow<K>(f: Forest<K>, s: Filters<K>, input: seq<Stream>, out: Output<K>)
    returns (path: seq<K>)
    requires Items(f) <= s.Keys && out in FullLeaves(f, s, input)
    ensures Shows(f, s, input, path, out)
  {
    var Cons(m, k, r) := f;
    var fresh' := Fresh(s[m], input);
    if out in FullLeaves(r, s, input) {
      path := LeavesShow(r, s, input, out);
    } else if k.Nil? {
      path := [m];
      assert Along([m], s, input) == Along([m][1..], s, fresh') == fresh';
    } else {
      var below := LeavesShow(k, s, fresh', out);
      path := [m] + below;
      assert path[1..] == below;
    }
  }

  /** And each path shows what comes out of it. */
  lemma {:induction false} PathsAreShown<K>(f: Forest<K>, s: Filters<K>, input: seq<Stream>, path: seq<K>,
                                            out: Output<K>)
    requires Items(f) <= s.Keys && Shows(f, s, input, path, out)
    ensures out in FullLeaves(f, s, input)
  {
    var Cons(m, k, r) := f;
    var fresh' := Fresh(s[m], input);
    if path[0] == m && (if k.Nil? then |path| == 1 else IsLeafPath(k, path[1..])) {
      assert Along(path, s, input) == Along(path[1..], s, fresh');
      if k.Nil? {
        assert path[1..] == [];
        assert out in Record(m, fresh');
      } else {
        LeafPathItems(k, path[1..]);
        PathsAreShown(k, s, fresh', path[1..], out);
      }
    } else {
      PathsAreShown(r, s, input, path, out);
    }
  }
}
