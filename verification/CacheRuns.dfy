/** The filter tree as a state machine: every edit and refresh as a step on the
    tree and its filters, and cache coherence over all runs. */
module CacheRuns {
  import opened Forests
  import opened Streams
  import opened RefreshSpec

  /** A filter tree: who is whose child, and each filter's settings and cache. */
  datatype Model<!K> = Model(tree: Forest<K>, filters: Filters<K>)

  ghost predicate Sound<K>(t: Model<K>)
  {
    && Distinct(t.tree)
    && Items(t.tree) == t.filters.Keys
    && AllLawful(t.filters)
    && Coherent(t.tree, t.filters, [])
  }

  // ----- what a refresh stores -----

  /** A filter after it ran: it keeps what it generated when caching is on for it. */
  function AfterRun(m: FilterState, input: seq<Stream>, keep: bool): FilterState
  {
    if m.cache.Some? || !keep || m.Gen(input) == [] then m else m.(cache := Some(m.Gen(input)))
  }

  /** The filters after an evaluation of `f` on `input`; `keep` holds those allowed to cache. */
  ghost function Fills<K>(f: Forest<K>, s: Filters<K>, input: seq<Stream>, keep: set<K>): Filters<K>
    requires Items(f) <= s.Keys
  {
    match f
    case Nil => map[]
    case Cons(m, k, r) =>
      map[m := AfterRun(s[m], input, m in keep)]
      + Fills(k, s, Run(s[m], input), keep)
      + Fills(r, s, input, keep)
  }

  /** The filters that a refresh from the seeds evaluates, after it. */
  ghost function SeededFills<K>(f: Forest<K>, s: Filters<K>, above: Mask, keep: set<K>): Filters<K>
    requires Items(f) <= s.Keys
  {
    match f
    case Nil => map[]
    case Cons(m, k, r) =>
      (if IsSeed(m, k, s, above) then Fills(Cons(m, k, Nil), s, [], keep)
       else SeededFills(k, s, EmitAcc(s[m], above), keep))
      + SeededFills(r, s, above, keep)
  }

  lemma {:induction false} FillsKeys<K>(f: Forest<K>, s: Filters<K>, input: seq<Stream>, keep: set<K>)
    requires Items(f) <= s.Keys
    ensures Fills(f, s, input, keep).Keys == Items(f)
  {
    match f
    case Nil =>
    case Cons(m, k, r) =>
      FillsKeys(k, s, Run(s[m], input), keep);
      FillsKeys(r, s, input, keep);
  }

  lemma {:induction false} SeededFillsKeys<K>(f: Forest<K>, s: Filters<K>, above: Mask, keep: set<K>)
    requires Items(f) <= s.Keys
    ensures SeededFills(f, s, above, keep).Keys <= Items(f)
  {
    match f
    case Nil =>
    case Cons(m, k, r) =>
      FillsKeys(Cons(m, k, Nil), s, [], keep);
      SeededFillsKeys(k, s, EmitAcc(s[m], above), keep);
      SeededFillsKeys(r, s, above, keep);
  }

  /** `t` agrees with `s` on the nodes of `f`. */
  ghost predicate Agree<K>(f: Forest<K>, s: Filters<K>, t: Filters<K>)
    requires Items(f) <= s.Keys && Items(f) <= t.Keys
  {
    forall x | x in Items(f) :: t[x] == s[x]
  }

  /** An evaluation of coherent filters leaves coherent filters. */
  lemma {:induction false} FillsCoherent<K>(f: Forest<K>, s: Filters<K>, t: Filters<K>, input: seq<Stream>,
                                            keep: set<K>)
    requires Items(f) <= s.Keys && Items(f) <= t.Keys && Distinct(f)
    requires Coherent(f, s, input)
    requires Fills(f, s, input, keep).Keys == Items(f) && Agree(f, Fills(f, s, input, keep), t)
    ensures Coherent(f, t, input)
  {
    match f
    case Nil =>
    case Cons(m, k, r) =>
      FillsKeys(k, s, Run(s[m], input), keep);
      FillsKeys(r, s, input, keep);
      assert t[m] == AfterRun(s[m], input, m in keep);
      assert Run(s[m], input) == Fresh(s[m], input) == Fresh(t[m], input);
      FillsCoherent(k, s, t, Run(s[m], input), keep);
      FillsCoherent(r, s, t, input, keep);
  }

  /** The filter found at `x` once the updates in `g` are made to `s`. */
  ghost function Updated<K>(s: Filters<K>, g: Filters<K>, x: K): FilterState
    requires x in s
  {
    if x in g then g[x] else s[x]
  }

  /** Evaluating a shielded filter and its branch from an empty input stores what a
      full evaluation would. */
  lemma SeedCoherent<K>(m: K, k: Forest<K>, s: Filters<K>, t: Filters<K>, input: seq<Stream>, keep: set<K>)
    requires Items(k) + {m} <= s.Keys && Items(k) + {m} <= t.Keys && Distinct(Cons(m, k, Nil))
    requires Coherent(Cons(m, k, Nil), s, input) && Shielded(Cons(m, k, Nil), s, input)
    requires forall x | x in Items(k) + {m} :: t[x] == Updated(s, Fills(Cons(m, k, Nil), s, [], keep), x)
    ensures Coherent(Cons(m, k, Nil), t, input)
  {
    var out := Fresh(s[m], input);
    assert Run(s[m], []) == out;
    FillsKeys(k, s, out, keep);
    var fills := map[m := AfterRun(s[m], [], m in keep)] + Fills(k, s, out, keep);
    assert Fills(Cons(m, k, Nil), s, [], keep) == fills;
    assert t[m] == AfterRun(s[m], [], m in keep);
    FillsCoherent(k, s, t, out, keep);
  }

  lemma UpdatesApart<K>(s: Filters<K>, head: Filters<K>, tail: Filters<K>, a: set<K>, b: set<K>)
    requires head.Keys <= a && tail.Keys <= b && a !! b && a + b <= s.Keys
    ensures forall x | x in a :: Updated(s, head + tail, x) == Updated(s, head, x)
    ensures forall x | x in b :: Updated(s, head + tail, x) == Updated(s, tail, x)
  {
  }

  /** The filters `t` are those of `s` with the updates of a refresh from the seeds. */
  ghost predicate Refreshed<K>(f: Forest<K>, s: Filters<K>, t: Filters<K>, above: Mask, keep: set<K>)
    requires Items(f) <= s.Keys && Items(f) <= t.Keys
  {
    forall x | x in Items(f) :: t[x] == Updated(s, SeededFills(f, s, above, keep), x)
  }

  lemma RefreshedParts<K>(m: K, k: Forest<K>, r: Forest<K>, s: Filters<K>, t: Filters<K>, above: Mask, keep: set<K>)
    requires var f := Cons(m, k, r);
             Items(f) <= s.Keys && Items(f) <= t.Keys && Distinct(f) && Refreshed(f, s, t, above, keep)
    ensures Refreshed(r, s, t, above, keep)
    ensures IsSeed(m, k, s, above) ==>
              forall x | x in Items(k) + {m} :: t[x] == Updated(s, Fills(Cons(m, k, Nil), s, [], keep), x)
    ensures !IsSeed(m, k, s, above) ==> t[m] == s[m] && Refreshed(k, s, t, EmitAcc(s[m], above), keep)
  {
    var above' := EmitAcc(s[m], above);
    var head := if IsSeed(m, k, s, above) then Fills(Cons(m, k, Nil), s, [], keep)
                else SeededFills(k, s, above', keep);
    SeededFillsKeys(r, s, above, keep);
    SeededFillsKeys(k, s, above', keep);
    FillsKeys(Cons(m, k, Nil), s, [], keep);
    UpdatesApart(s, head, SeededFills(r, s, above, keep), Items(k) + {m}, Items(r));
  }

  /** A refresh from the seeds leaves coherent filters. */
  lemma {:induction false} SeededFillsCoherent<K>(f: Forest<K>, s: Filters<K>, t: Filters<K>,
                                                  input: seq<Stream>, above: Mask, keep: set<K>)
    requires Items(f) <= s.Keys && Items(f) <= t.Keys && Distinct(f) && AllLawful(s)
    requires Coherent(f, s, input) && Typed(input, above) && Shielded(f, s, input)
    requires Refreshed(f, s, t, above, keep)
    ensures Coherent(f, t, input)
  {
    match f
    case Nil =>
    case Cons(m, k, r) =>
      RefreshedParts(m, k, r, s, t, above, keep);
      SeededFillsCoherent(r, s, t, input, above, keep);
      if IsSeed(m, k, s, above) {
        SeedCoherent(m, k, s, t, input, keep);
      } else {
        NonSeedShields(m, k, s, input, above);
        FreshTyped(s[m], input, above);
        SeededFillsCoherent(k, s, t, Fresh(s[m], input), EmitAcc(s[m], above), keep);
      }
  }

  // ----- coherence under changes to the filters -----

  /** Same settings, and a cache that is either untouched or empty. */
  ghost predicate Trimmed(m: FilterState, n: FilterState)
  {
    n == m || n == m.(cache := None)
  }

  lemma {:induction false} TrimmedCoherent<K>(f: Forest<K>, s: Filters<K>, t: Filters<K>, input: seq<Stream>)
    requires Items(f) <= s.Keys && Items(f) <= t.Keys && Coherent(f, s, input)
    requires forall x | x in Items(f) :: Trimmed(s[x], t[x])
    ensures Coherent(f, t, input)
  {
    match f
    case Nil =>
    case Cons(m, k, r) =>
      assert Fresh(s[m], input) == Fresh(t[m], input);
      TrimmedCoherent(k, s, t, Fresh(s[m], input));
      TrimmedCoherent(r, s, t, input);
  }

  lemma {:induction false} UncachedCoherent<K>(f: Forest<K>, s: Filters<K>, input: seq<Stream>)
    requires Items(f) <= s.Keys
    requires forall x | x in Items(f) :: s[x].cache.None?
    ensures Coherent(f, s, input)
  {
    match f
    case Nil =>
    case Cons(m, k, r) =>
      UncachedCoherent(k, s, Fresh(s[m], input));
      UncachedCoherent(r, s, input);
  }

  /** A filter may change its settings when it and everything below it is uncached. */
  lemma {:induction false} ChangeCoherent<K>(f: Forest<K>, s: Filters<K>, t: Filters<K>, input: seq<Stream>, p: K)
    requires Items(f) <= s.Keys && Items(f) <= t.Keys && Distinct(f) && p in Items(f)
    requires Coherent(f, s, input)
    requires forall x | x in Items(f) ::
               if x == p || x in Items(Kids(f, p)) then t[x].cache.None? else Trimmed(s[x], t[x])
    ensures Coherent(f, t, input)
  {
    var Cons(m, k, r) := f;
    if m == p {
      KidsItems(f, p);
      UncachedCoherent(k, t, Fresh(t[m], input));
      TrimmedCoherent(r, s, t, input);
    } else if p in Items(k) {
      KidsItems(k, p);
      assert Trimmed(s[m], t[m]);
      ChangeCoherent(k, s, t, Fresh(s[m], input), p);
      TrimmedCoherent(r, s, t, input);
    } else {
      KidsItems(r, p);
      assert Trimmed(s[m], t[m]);
      TrimmedCoherent(k, s, t, Fresh(s[m], input));
      ChangeCoherent(r, s, t, input, p);
    }
  }

  // ----- coherence under changes to the tree -----

  lemma {:induction false} RemoveCoherent<K>(f: Forest<K>, s: Filters<K>, input: seq<Stream>, p: K)
    requires Items(f) <= s.Keys && Distinct(f) && Coherent(f, s, input)
    ensures Items(Remove(f, p)) <= Items(f) && Coherent(Remove(f, p), s, input)
  {
    match f
    case Nil =>
    case Cons(m, k, r) =>
      RemoveCoherent(k, s, Fresh(s[m], input), p);
      RemoveCoherent(r, s, input, p);
  }

  lemma {:induction false} AppendCoherent<K>(f: Forest<K>, g: Forest<K>, s: Filters<K>, input: seq<Stream>)
    requires Items(f) <= s.Keys && Items(g) <= s.Keys
    requires Coherent(f, s, input) && Coherent(g, s, input)
    ensures Items(Append(f, g)) == Items(f) + Items(g) && Coherent(Append(f, g), s, input)
  {
    AppendItems(f, g);
    match f
    case Nil =>
    case Cons(_, _, r) =>
      AppendItems(r, g);
      AppendCoherent(r, g, s, input);
  }

  ghost predicate Uncached<K>(g: Forest<K>, s: Filters<K>)
    requires Items(g) <= s.Keys
  {
    forall x | x in Items(g) :: s[x].cache.None?
  }

  /** Uncached branches may be hung below any filter. */
  lemma {:induction false} AppendKidsCoherent<K>(f: Forest<K>, s: Filters<K>, input: seq<Stream>, p: K, g: Forest<K>)
    requires Items(f) <= s.Keys && Items(g) <= s.Keys && Coherent(f, s, input) && Uncached(g, s)
    ensures Items(AppendKids(f, p, g)) <= Items(f) + Items(g)
    ensures Coherent(AppendKids(f, p, g), s, input)
  {
    match f
    case Nil =>
    case Cons(m, k, r) =>
      if m == p {
        UncachedCoherent(g, s, Fresh(s[m], input));
        AppendCoherent(k, g, s, Fresh(s[m], input));
      } else {
        AppendKidsCoherent(k, s, Fresh(s[m], input), p, g);
        AppendKidsCoherent(r, s, input, p, g);
      }
  }

  /** Uncached branches may be placed after any filter. */
  lemma {:induction false} InsertAfterCoherent<K>(f: Forest<K>, s: Filters<K>, input: seq<Stream>, p: K, g: Forest<K>)
    requires Items(f) <= s.Keys && Items(g) <= s.Keys && Coherent(f, s, input) && Uncached(g, s)
    ensures Items(InsertAfter(f, p, g)) <= Items(f) + Items(g)
    ensures Coherent(InsertAfter(f, p, g), s, input)
  {
    match f
    case Nil =>
    case Cons(m, k, r) =>
      if m == p {
        UncachedCoherent(g, s, input);
        AppendCoherent(g, r, s, input);
      } else {
        InsertAfterCoherent(k, s, Fresh(s[m], input), p, g);
        InsertAfterCoherent(r, s, input, p, g);
      }
  }

  // ----- the steps -----

  datatype Edit<K> =
    | SetProperty(target: K, key: nat, value: string)
    | ClearAll
    | ClearBranch(target: K, includeSelf: bool)
    | AddFilter(added: K, kind: Kind, props: Props, parent: Option<K>)
    | RemoveSubtree(target: K)
    | Reparent(target: K, parent: Option<K>)
    | CopyFilter(target: K, parent: Option<K>, clones: seq<K>)
    | Refresh(monitored: set<K>, keep: set<K>)
    | StoppedRefresh(monitored: set<K>, keep: set<K>, done: set<K>)

  ghost function Cleared<K>(s: Filters<K>, xs: set<K>): Filters<K>
  {
    map x | x in s :: if x in xs then s[x].(cache := None) else s[x]
  }

  /** What the callers guarantee: named filters exist, and new addresses are new. */
  ghost predicate Allowed<K>(e: Edit<K>, t: Model<K>)
  {
    match e
    case SetProperty(x, _, _) => x in t.filters
    case ClearAll => true
    case ClearBranch(x, _) => x in t.filters
    case AddFilter(x, kind, _, parent) =>
      x !in t.filters && Lawful(kind) && (parent.Some? ==> parent.value in t.filters)
    case RemoveSubtree(x) => x in t.filters
    case Reparent(x, parent) =>
      x in t.filters && (parent.Some? ==> parent.value in t.filters && parent.value != x)
    case CopyFilter(x, parent, clones) =>
      && x in t.filters && (parent.Some? ==> parent.value in t.filters)
      && NoRepeat(clones) && (forall c | c in clones :: c !in t.filters)
      && (x in Items(t.tree) ==> |clones| == Size(Branch(t.tree, x)))
    case Refresh(monitored, _) => monitored <= t.filters.Keys
    case StoppedRefresh(monitored, _, _) => monitored <= t.filters.Keys
  }

  /** A new base branch goes right after the first root, or becomes the first. */
  ghost function AddBase<K>(f: Forest<K>, g: Forest<K>): Forest<K>
  {
    if f.Nil? then g else InsertAfter(f, f.item, g)
  }

  /** The branch of `x` becomes the last child of its new parent, or the base branch
      after the first; the first base branch stays where it is. */
  ghost function Moved<K>(f: Forest<K>, x: K, parent: Option<K>): Forest<K>
    requires x in Items(f)
  {
    match parent
    case Some(p) => AppendKids(Remove(f, x), p, Branch(f, x))
    case None => if f.item == x then f else InsertAfter(Remove(f, x), f.item, Branch(f, x))
  }

  /** Filters whose cache a move drops: the moved one, and every filter from it on in
      pre-order that is not at its depth. */
  ghost function ClearedByMove<K>(f: Forest<K>, x: K): set<K>
    requires x in Items(f)
  {
    {x} + OffDepth(Table(Branch(f, x), DepthOf(f, x, 0)) + After(f, x, 0), DepthOf(f, x, 0))
  }

  ghost function Clone(m: FilterState): FilterState { m.(cache := None) }

  ghost function Clones<K>(s: Filters<K>, from: seq<K>, names: seq<K>): Filters<K>
    requires forall x | x in from :: x in s
    requires |from| == |names|
  {
    if from == [] then map[] else map[names[0] := Clone(s[from[0]])] + Clones(s, from[1..], names[1..])
  }

  ghost function BranchesOf<K>(f: Forest<K>, xs: set<K>): set<K>
    requires xs <= Items(f)
  {
    set x, y | x in xs && y in Items(Branch(f, x)) :: y
  }

  /** Of these filters only those among `xs`. */
  ghost function Only<K>(g: Filters<K>, xs: set<K>): Filters<K>
  {
    map x | x in g && x in xs :: g[x]
  }

  /** The successor state. A refresh that was stopped has evaluated only some filters, `done`,
      of those that it would have evaluated. */
  ghost function Step<K>(e: Edit<K>, t: Model<K>): Model<K>
    requires Items(t.tree) == t.filters.Keys && Allowed(e, t)
  {
    match e
    case SetProperty(x, key, value) =>
      var m := t.filters[x];
      if !m.kind.accepts(key, value) || (key in m.props && m.props[key] == value) then t
      else
        var changed := FilterState(m.kind, m.props[key := value], None);
        Model(t.tree, Cleared(t.filters, Items(Kids(t.tree, x)))[x := changed])
    case ClearAll => Model(t.tree, Cleared(t.filters, t.filters.Keys))
    case ClearBranch(x, includeSelf) =>
      Model(t.tree, Cleared(t.filters, if includeSelf then Items(Branch(t.tree, x)) else Items(Kids(t.tree, x))))
    case AddFilter(x, kind, props, parent) =>
      var single := Cons(x, Nil, Nil);
      Model(if parent.Some? then AppendKids(t.tree, parent.value, single) else AddBase(t.tree, single),
            t.filters[x := FilterState(kind, props, None)])
    case RemoveSubtree(x) => Model(Remove(t.tree, x), t.filters - Items(Branch(t.tree, x)))
    case Reparent(x, parent) =>
      if parent.Some? && parent.value in Items(Branch(t.tree, x)) then t
      else Model(Moved(t.tree, x, parent), Cleared(t.filters, ClearedByMove(t.tree, x)))
    case CopyFilter(x, parent, names) =>
      if parent.Some? && parent.value in Items(Branch(t.tree, x)) then t
      else
        BranchItems(t.tree, x);
        var copy := Rebuild(Branch(t.tree, x), names);
        Model(if parent.Some? then AppendKids(t.tree, parent.value, copy) else AddBase(t.tree, copy),
              t.filters + Clones(t.filters, Pre(Branch(t.tree, x)), names))
    case Refresh(monitored, keep) =>
      var s := Cleared(t.filters, BranchesOf(t.tree, monitored));
      Model(t.tree, s + SeededFills(t.tree, s, {}, keep))
    case StoppedRefresh(monitored, keep, done) =>
      var s := Cleared(t.filters, BranchesOf(t.tree, monitored));
      Model(t.tree, s + Only(SeededFills(t.tree, s, {}, keep), done))
  }

  // ----- every step keeps the tree sound -----

  /** Dropping any caches keeps the tree sound. */
  lemma ClearSound<K>(t: Model<K>, xs: set<K>)
    requires Sound(t)
    ensures Sound(Model(t.tree, Cleared(t.filters, xs)))
  {
    TrimmedCoherent(t.tree, t.filters, Cleared(t.filters, xs), []);
  }

  lemma SetPropertySound<K>(t: Model<K>, x: K, key: nat, value: string)
    requires Sound(t) && Allowed(SetProperty(x, key, value), t)
    ensures Sound(Step(SetProperty(x, key, value), t))
  {
    var u := Step(SetProperty(x, key, value), t);
    if u != t {
      KidsItems(t.tree, x);
      ChangeCoherent(t.tree, t.filters, u.filters, [], x);
    }
  }

  /** An uncached tree of new filters may be added below any filter or at the base. */
  lemma GraftSound<K>(t: Model<K>, parent: Option<K>, g: Forest<K>, added: Filters<K>)
    requires Sound(t) && (parent.Some? ==> parent.value in t.filters)
    requires Distinct(g) && Items(g) == added.Keys && added.Keys !! t.filters.Keys
    requires AllLawful(added) && forall x | x in added :: added[x].cache.None?
    ensures Sound(Model(if parent.Some? then AppendKids(t.tree, parent.value, g) else AddBase(t.tree, g),
                        t.filters + added))
  {
    var s := t.filters + added;
    assert Uncached(g, s);
    TrimmedCoherent(t.tree, t.filters, s, []);
    if parent.Some? {
      AppendKidsItems(t.tree, parent.value, g);
      AppendKidsCoherent(t.tree, s, [], parent.value, g);
    } else if t.tree.Nil? {
      UncachedCoherent(g, s, []);
    } else {
      InsertAfterItems(t.tree, t.tree.item, g);
      InsertAfterCoherent(t.tree, s, [], t.tree.item, g);
    }
  }

  lemma RemoveSound<K>(t: Model<K>, x: K)
    requires Sound(t) && x in t.filters
    ensures Sound(Step(RemoveSubtree(x), t))
  {
    var u := Step(RemoveSubtree(x), t);
    RemoveItems(t.tree, x);
    RemoveCoherent(t.tree, t.filters, [], x);
    TrimmedCoherent(u.tree, t.filters, u.filters, []);
  }

  /** What a move clears is the moved branch, and what follows it at other depths. */
  lemma MoveClears<K>(f: Forest<K>, x: K, d: nat, later: seq<Row<K>>)
    requires x in Items(f) && d == DepthOf(f, x, 0) && later == After(f, x, 0)
    ensures ClearedByMove(f, x) == Items(Branch(f, x)) + OffDepth(later, d)
  {
    var k := Kids(f, x);
    TableBranch(x, k, d);
    OffDepthConcat([Row(x, d, k.Nil?)], Table(k, d + 1), d);
    OffDepthConcat(Table(Branch(f, x), d), later, d);
    OffDepthDeeper(k, d + 1, d);
  }

  /** Everything in the moved branch loses its cache. */
  lemma MoveClearsBranch<K>(f: Forest<K>, x: K)
    requires x in Items(f)
    ensures Items(Branch(f, x)) <= ClearedByMove(f, x)
  {
    MoveClears(f, x, DepthOf(f, x, 0), After(f, x, 0));
  }

  lemma {:induction false} OffDepthRow<K>(rows: seq<Row<K>>, d: nat, j: nat)
    requires j < |rows| && rows[j].depth != d
    ensures rows[j].item in OffDepth(rows, d)
  {
    if j < |rows| - 1 { OffDepthRow(rows[..|rows| - 1], d, j); }
  }

  lemma {:induction false} OffDepthNone<K>(rows: seq<Row<K>>, d: nat)
    requires forall j | 0 <= j < |rows| :: rows[j].depth == d
    ensures OffDepth(rows, d) == {}
  {
    if rows != [] { OffDepthNone(rows[..|rows| - 1], d); }
  }

  /** A move clears nothing but the moved branch exactly when every filter that follows the
      branch lies at the moved one's depth. */
  lemma MoveClearsOnlyBranch<K>(f: Forest<K>, x: K)
    requires Distinct(f) && x in Items(f)
    ensures ClearedByMove(f, x) == Items(Branch(f, x)) <==>
            forall j | 0 <= j < |After(f, x, 0)| :: After(f, x, 0)[j].depth == DepthOf(f, x, 0)
  {
    var d, later := DepthOf(f, x, 0), After(f, x, 0);
    MoveClears(f, x, d, later);
    AfterOutside(f, x, 0);
    if j :| 0 <= j < |later| && later[j].depth != d {
      OffDepthRow(later, d, j);
    } else {
      OffDepthNone(later, d);
    }
  }

  /** Moving filter 1 clears filter 3, the child of another root. */
  lemma MoveClearsForeign()
    ensures var f := Cons(1, Nil, Cons(2, Cons(3, Nil, Nil), Nil));
            1 in Items(f) && 3 in ClearedByMove(f, 1) && 3 !in Items(Branch(f, 1))
  {
    var f := Cons(1, Nil, Cons(2, Cons(3, Nil, Nil), Nil));
    var later := After(f, 1, 0);
    assert Table(Cons(3, Nil, Nil), 1) == [Row(3, 1, true)];
    assert later == [Row(2, 0, false), Row(3, 1, true)];
    MoveClears(f, 1, 0, later);
    OffDepthRow(later, 0, 1);
  }

  /** A move keeps every node, the shape of the moved branch, and the places of all
      other nodes relative to each other. */
  lemma MovedConserves<K>(f: Forest<K>, x: K, parent: Option<K>)
    requires Distinct(f) && x in Items(f)
    requires parent.Some? ==> parent.value in Items(f) && parent.value !in Items(Branch(f, x))
    ensures Distinct(Moved(f, x, parent)) && Items(Moved(f, x, parent)) == Items(f)
    ensures Branch(Moved(f, x, parent), x) == Branch(f, x)
    ensures Remove(Moved(f, x, parent), x) == Remove(f, x)
  {
    var rest, b := Remove(f, x), Branch(f, x);
    RemoveItems(f, x);
    KidsItems(f, x);
    assert Distinct(b);
    if parent.Some? {
      var p := parent.value;
      AppendKidsItems(rest, p, b);
      AppendedBranch(rest, p, x, Kids(f, x));
    } else if f.item != x {
      InsertAfterItems(rest, f.item, b);
      InsertedBranch(rest, f.item, x, Kids(f, x));
    }
  }

  /** A branch just appended below `p` is found there, and removing it restores the forest. */
  lemma {:induction false} AppendedBranch<K>(f: Forest<K>, p: K, x: K, kids: Forest<K>)
    requires Distinct(f) && p in Items(f) && x !in Items(f)
    ensures var g := AppendKids(f, p, Cons(x, kids, Nil));
            x in Items(g) && (Items(kids) !! Items(f) && x !in Items(kids) ==> Kids(g, x) == kids) && Remove(g, x) == f
  {
    var b := Cons(x, kids, Nil);
    var Cons(m, k, r) := f;
    if m == p {
      AppendItems(k, b);
      LastBranch(k, x, kids);
      RemoveAbsent(r, x);
    } else if p in Items(k) {
      AppendKidsItems(k, p, b);
      AppendedBranch(k, p, x, kids);
      AppendKidsAbsent(r, p, b);
      RemoveAbsent(r, x);
    } else {
      AppendKidsItems(r, p, b);
      AppendedBranch(r, p, x, kids);
      AppendKidsAbsent(k, p, b);
      RemoveAbsent(k, x);
    }
  }

  lemma {:induction false} LastBranch<K>(f: Forest<K>, x: K, kids: Forest<K>)
    requires x !in Items(f)
    ensures var g := Append(f, Cons(x, kids, Nil));
            x in Items(g) && Kids(g, x) == kids && Remove(g, x) == f
  {
    match f
    case Nil =>
    case Cons(m, k, r) =>
      AppendItems(r, Cons(x, kids, Nil));
      LastBranch(r, x, kids);
      RemoveAbsent(k, x);
  }

  lemma {:induction false} InsertedBranch<K>(f: Forest<K>, p: K, x: K, kids: Forest<K>)
    requires Distinct(f) && p in Items(f) && x !in Items(f)
    ensures var g := InsertAfter(f, p, Cons(x, kids, Nil));
            x in Items(g) && (Items(kids) !! Items(f) && x !in Items(kids) ==> Kids(g, x) == kids) && Remove(g, x) == f
  {
    var b := Cons(x, kids, Nil);
    var Cons(m, k, r) := f;
    if m == p {
      assert Append(b, r) == Cons(x, kids, r);
      RemoveAbsent(k, x);
    } else if p in Items(k) {
      InsertAfterItems(k, p, b);
      InsertedBranch(k, p, x, kids);
      InsertAfterAbsent(r, p, b);
      RemoveAbsent(r, x);
    } else {
      InsertAfterItems(r, p, b);
      InsertedBranch(r, p, x, kids);
      InsertAfterAbsent(k, p, b);
      RemoveAbsent(k, x);
    }
  }

  lemma ReparentSound<K>(t: Model<K>, x: K, parent: Option<K>)
    requires Sound(t) && Allowed(Reparent(x, parent), t)
    ensures Sound(Step(Reparent(x, parent), t))
  {
    var u := Step(Reparent(x, parent), t);
    if parent.Some? && parent.value in Items(Branch(t.tree, x)) { return; }
    var s := u.filters;
    ClearSound(t, ClearedByMove(t.tree, x));
    MoveClearsBranch(t.tree, x);
    MovedConserves(t.tree, x, parent);
    RemoveCoherent(t.tree, s, [], x);
    KidsItems(t.tree, x);
    var b := Branch(t.tree, x);
    assert Uncached(b, s);
    if parent.Some? {
      AppendKidsCoherent(Remove(t.tree, x), s, [], parent.value, b);
    } else if t.tree.item != x {
      InsertAfterCoherent(Remove(t.tree, x), s, [], t.tree.item, b);
    }
  }

  lemma {:induction false} ClonesKeys<K>(s: Filters<K>, from: seq<K>, names: seq<K>)
    requires forall x | x in from :: x in s
    requires |from| == |names|
    ensures Clones(s, from, names).Keys == SetOf(names)
    ensures AllLawful(s) ==> AllLawful(Clones(s, from, names))
    ensures forall y | y in Clones(s, from, names) :: Clones(s, from, names)[y].cache.None?
  {
    if from != [] {
      ClonesKeys(s, from[1..], names[1..]);
      assert names == [names[0]] + names[1..];
    }
  }

  lemma CopyGraft<K>(t: Model<K>, b: Forest<K>, parent: Option<K>, names: seq<K>)
    requires Sound(t) && (parent.Some? ==> parent.value in t.filters)
    requires SetOf(names) !! t.filters.Keys && NoRepeat(names)
    requires |names| == Size(b) && |Pre(b)| == Size(b) && (forall x | x in Pre(b) :: x in t.filters)
    ensures var copy := Rebuild(b, names);
            Sound(Model(if parent.Some? then AppendKids(t.tree, parent.value, copy) else AddBase(t.tree, copy),
                        t.filters + Clones(t.filters, Pre(b), names)))
  {
    RebuildItems(b, names);
    ClonesKeys(t.filters, Pre(b), names);
    GraftSound(t, parent, Rebuild(b, names), Clones(t.filters, Pre(b), names));
  }

  lemma CopySound<K>(t: Model<K>, x: K, parent: Option<K>, names: seq<K>)
    requires Sound(t) && Allowed(CopyFilter(x, parent, names), t)
    ensures Sound(Step(CopyFilter(x, parent, names), t))
  {
    if !(parent.Some? && parent.value in Items(Branch(t.tree, x))) {
      BranchItems(t.tree, x);
      CopyGraft(t, Branch(t.tree, x), parent, names);
    }
  }

  lemma RefreshSound<K>(t: Model<K>, monitored: set<K>, keep: set<K>)
    requires Sound(t) && monitored <= t.filters.Keys
    ensures Sound(Step(Refresh(monitored, keep), t))
  {
    var xs := BranchesOf(t.tree, monitored);
    ClearSound(t, xs);
    var s := Cleared(t.filters, xs);
    var u := Step(Refresh(monitored, keep), t);
    var g := SeededFills(t.tree, s, {}, keep);
    SeededFillsKeys(t.tree, s, {}, keep);
    EmptyShields(t.tree, s);
    assert Refreshed(t.tree, s, u.filters, {}, keep);
    SeededFillsCoherent(t.tree, s, u.filters, [], {}, keep);
    SeededFillsLawful(t.tree, s, {}, keep);
  }

  lemma {:induction false} FillsLawful<K>(f: Forest<K>, s: Filters<K>, input: seq<Stream>, keep: set<K>)
    requires Items(f) <= s.Keys && AllLawful(s)
    ensures AllLawful(Fills(f, s, input, keep))
  {
    match f
    case Nil =>
    case Cons(m, k, r) =>
      FillsLawful(k, s, Run(s[m], input), keep);
      FillsLawful(r, s, input, keep);
  }

  lemma {:induction false} SeededFillsLawful<K>(f: Forest<K>, s: Filters<K>, above: Mask, keep: set<K>)
    requires Items(f) <= s.Keys && AllLawful(s)
    ensures AllLawful(SeededFills(f, s, above, keep))
  {
    match f
    case Nil =>
    case Cons(m, k, r) =>
      FillsLawful(Cons(m, k, Nil), s, [], keep);
      SeededFillsLawful(k, s, EmitAcc(s[m], above), keep);
      SeededFillsLawful(r, s, above, keep);
  }

  // ----- a refresh that was stopped -----

  /** Coherence is a matter of each cache alone: filters may have one of two coherent states. */
  lemma {:induction false} MixedCoherent<K>(f: Forest<K>, s: Filters<K>, u: Filters<K>, v: Filters<K>,
                                            input: seq<Stream>)
    requires Items(f) <= s.Keys && Items(f) <= u.Keys && Items(f) <= v.Keys
    requires Coherent(f, s, input) && Coherent(f, u, input)
    requires forall x | x in Items(f) :: u[x] == s[x].(cache := u[x].cache) && (v[x] == s[x] || v[x] == u[x])
    ensures Coherent(f, v, input)
  {
    match f
    case Nil =>
    case Cons(m, k, r) =>
      assert Fresh(s[m], input) == Fresh(u[m], input) == Fresh(v[m], input);
      MixedCoherent(k, s, u, v, Fresh(s[m], input));
      MixedCoherent(r, s, u, v, input);
  }

  /** A refresh changes nothing but caches. */
  lemma {:induction false} FillsSettings<K>(f: Forest<K>, s: Filters<K>, input: seq<Stream>, keep: set<K>)
    requires Items(f) <= s.Keys
    ensures var g := Fills(f, s, input, keep); forall x | x in g :: x in s && g[x] == s[x].(cache := g[x].cache)
  {
    match f
    case Nil =>
    case Cons(m, k, r) =>
      FillsSettings(k, s, Run(s[m], input), keep);
      FillsSettings(r, s, input, keep);
  }

  lemma {:induction false} SeededSettings<K>(f: Forest<K>, s: Filters<K>, above: Mask, keep: set<K>)
    requires Items(f) <= s.Keys
    ensures var g := SeededFills(f, s, above, keep); forall x | x in g :: x in s && g[x] == s[x].(cache := g[x].cache)
  {
    match f
    case Nil =>
    case Cons(m, k, r) =>
      FillsSettings(Cons(m, k, Nil), s, [], keep);
      SeededSettings(k, s, EmitAcc(s[m], above), keep);
      SeededSettings(r, s, above, keep);
  }

  /** Filters of which only some have been evaluated. */
  lemma PartlyFilled<K>(s: Filters<K>, whole: Filters<K>, done: Filters<K>)
    requires (forall x | x in done :: x in whole && done[x] == whole[x]) && whole.Keys <= s.Keys && AllLawful(s)
    requires forall x | x in whole :: whole[x] == s[x].(cache := whole[x].cache)
    ensures (s + done).Keys == s.Keys && AllLawful(s + done)
    ensures forall x | x in s :: (s + whole)[x] == s[x].(cache := (s + whole)[x].cache)
                                 && ((s + done)[x] == s[x] || (s + done)[x] == (s + whole)[x])
  {
  }

  /** Coherent before and after all of them have been evaluated is coherent in between. */
  lemma PartlyCoherent<K>(f: Forest<K>, s: Filters<K>, whole: Filters<K>, part: Filters<K>)
    requires Items(f) <= s.Keys && whole.Keys <= s.Keys && AllLawful(s)
    requires forall x | x in whole :: whole[x] == s[x].(cache := whole[x].cache)
    requires forall x | x in part :: x in whole && part[x] == whole[x]
    requires Coherent(f, s, []) && Coherent(f, s + whole, [])
    ensures (s + part).Keys == s.Keys && AllLawful(s + part) && Coherent(f, s + part, [])
  {
    PartlyFilled(s, whole, part);
    MixedCoherent(f, s, s + whole, s + part, []);
  }

  /** What a refresh starts from and would store is sound. */
  lemma RefreshEnds<K>(t: Model<K>, monitored: set<K>, keep: set<K>) returns (s: Filters<K>, whole: Filters<K>)
    requires Sound(t) && monitored <= t.filters.Keys
    ensures s == Cleared(t.filters, BranchesOf(t.tree, monitored)) && Items(t.tree) <= s.Keys
    ensures whole == SeededFills(t.tree, s, {}, keep) && Sound(Model(t.tree, s)) && Sound(Model(t.tree, s + whole))
  {
    s := Cleared(t.filters, BranchesOf(t.tree, monitored));
    whole := SeededFills(t.tree, s, {}, keep);
    ClearSound(t, BranchesOf(t.tree, monitored));
    RefreshSound(t, monitored, keep);
  }

  lemma StoppedIsSound<K>(f: Forest<K>, s: Filters<K>, whole: Filters<K>, keep: set<K>, part: Filters<K>)
    requires Sound(Model(f, s)) && Items(f) <= s.Keys && whole == SeededFills(f, s, {}, keep)
    requires Sound(Model(f, s + whole)) && forall x | x in part :: x in whole && part[x] == whole[x]
    ensures Sound(Model(f, s + part))
  {
    SeededFillsKeys(f, s, {}, keep);
    SeededSettings(f, s, {}, keep);
    PartlyCoherent(f, s, whole, part);
  }

  /** A refresh that is stopped anywhere leaves the caches coherent, too. */
  lemma StoppedSound<K>(t: Model<K>, monitored: set<K>, keep: set<K>, done: set<K>)
    requires Sound(t) && monitored <= t.filters.Keys
    ensures Sound(Step(StoppedRefresh(monitored, keep, done), t))
  {
    var s, whole := RefreshEnds(t, monitored, keep);
    StoppedIsSound(t.tree, s, whole, keep, Only(whole, done));
  }

  // ----- every step -----

  /** Every edit and every refresh keeps the tree sound, so its caches stay coherent. */
  lemma StepSound<K>(e: Edit<K>, t: Model<K>)
    requires Sound(t) && Allowed(e, t)
    ensures Sound(Step(e, t))
  {
    match e
    case SetProperty(x, key, value) => SetPropertySound(t, x, key, value);
    case ClearAll => ClearSound(t, t.filters.Keys);
    case ClearBranch(x, self) =>
      ClearSound(t, if self then Items(Branch(t.tree, x)) else Items(Kids(t.tree, x)));
    case AddFilter(x, kind, props, parent) =>
      GraftSound(t, parent, Cons(x, Nil, Nil), map[x := FilterState(kind, props, None)]);
      assert t.filters + map[x := FilterState(kind, props, None)] == t.filters[x := FilterState(kind, props, None)];
    case RemoveSubtree(x) => RemoveSound(t, x);
    case Reparent(x, parent) => ReparentSound(t, x, parent);
    case CopyFilter(x, parent, names) => CopySound(t, x, parent, names);
    case Refresh(monitored, keep) => RefreshSound(t, monitored, keep);
    case StoppedRefresh(monitored, keep, done) => StoppedSound(t, monitored, keep, done);
  }

  // ----- whole runs -----

  /** The states that edits and refreshes, stopped or not, lead to from an empty tree. */
  ghost predicate IsRun<K>(run: seq<Edit<K>>, states: seq<Model<K>>)
  {
    && |states| == |run| + 1 && states[0] == Model(Nil, map[])
    && forall i | 0 <= i < |run| ::
         && Items(states[i].tree) == states[i].filters.Keys && Allowed(run[i], states[i])
         && states[i + 1] == Step(run[i], states[i])
  }

  /** Cache coherence holds all along every run. */
  lemma {:induction false} RunSound<K>(run: seq<Edit<K>>, states: seq<Model<K>>, i: nat)
    requires IsRun(run, states) && i < |states|
    ensures Sound(states[i])
  {
    if i > 0 {
      RunSound(run, states, i - 1);
      StepSound(run[i - 1], states[i - 1]);
    }
  }

  /** What a refresh sends to the scene. */
  ghost function RefreshOutput<K>(t: Model<K>, monitored: set<K>): seq<Output<K>>
    requires Items(t.tree) == t.filters.Keys && monitored <= t.filters.Keys
  {
    SeededLeaves(t.tree, Cleared(t.filters, BranchesOf(t.tree, monitored)), {})
  }

  lemma {:induction false} FullIgnoresCaches<K>(f: Forest<K>, s: Filters<K>, t: Filters<K>, input: seq<Stream>)
    requires Items(f) <= s.Keys && Items(f) <= t.Keys
    requires forall x | x in Items(f) :: Trimmed(s[x], t[x])
    ensures FullLeaves(f, s, input) == FullLeaves(f, t, input)
  {
    match f
    case Nil =>
    case Cons(m, k, r) =>
      assert Fresh(s[m], input) == Fresh(t[m], input);
      FullIgnoresCaches(k, s, t, Fresh(s[m], input));
      FullIgnoresCaches(r, s, t, input);
  }

  /** In a sound state a refresh shows what evaluating every filter from the roots without
      any cache would show. */
  lemma SoundRefreshExact<K>(t: Model<K>, monitored: set<K>)
    requires Sound(t) && monitored <= t.filters.Keys
    ensures RefreshOutput(t, monitored) == FullLeaves(t.tree, t.filters, [])
  {
    var xs := BranchesOf(t.tree, monitored);
    ClearSound(t, xs);
    RefreshExact(t.tree, Cleared(t.filters, xs));
    FullIgnoresCaches(t.tree, t.filters, Cleared(t.filters, xs), []);
  }

  /** At any time in any run of edits and refreshes, a refresh shows what evaluating every
      filter from the roots without any cache would show. */
  lemma RunRefreshExact<K>(run: seq<Edit<K>>, states: seq<Model<K>>, i: nat, monitored: set<K>)
    requires IsRun(run, states) && i < |states|
    requires monitored <= states[i].filters.Keys
    ensures Items(states[i].tree) == states[i].filters.Keys
    ensures RefreshOutput(states[i], monitored) == FullLeaves(states[i].tree, states[i].filters, [])
  {
    RunSound(run, states, i);
    SoundRefreshExact(states[i], monitored);
  }
}
