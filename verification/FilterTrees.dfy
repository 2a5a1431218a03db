/** The tree of filter objects: edits as scans over pre-order rows, and refresh. */
module FilterTrees {
  import opened Forests
  import opened Scans
  import opened Collector
  import opened RefreshSpec
  import opened CacheRuns
  import opened FilterNodes

  function ToOption(p: Filter?): Option<Filter>
  {
    if p == null then None else Some(p)
  }

  /** Hang `g` below a parent, or at the base. */
  function Graft(f: Forest<Filter>, parent: Filter?, g: Forest<Filter>): Forest<Filter>
  {
    if parent != null then AppendKids(f, parent, g)
    else if f.Nil? then g else InsertAfter(f, f.item, g)
  }

  lemma GraftItems<K>(f: Forest<K>, parent: Option<K>, g: Forest<K>)
    requires Distinct(f) && Distinct(g) && Items(f) !! Items(g)
    requires parent.Some? ==> parent.value in Items(f)
    ensures var h := if parent.Some? then AppendKids(f, parent.value, g) else AddBase(f, g);
            Distinct(h) && Items(h) == Items(f) + Items(g)
  {
    if parent.Some? {
      AppendKidsItems(f, parent.value, g);
    } else if f.Cons? {
      InsertAfterItems(f, f.item, g);
    }
  }

  // ----- reading off a step -----

  /** `u` is `t` with the caches of `xs` dropped. */
  ghost predicate OnlyCleared<K>(t: Model<K>, u: Model<K>, xs: set<K>)
  {
    && u.tree == t.tree && u.filters.Keys == t.filters.Keys
    && forall y | y in t.filters ::
         u.filters[y] == if y in xs then t.filters[y].(cache := None) else t.filters[y]
  }

  lemma OnlyClearedIs<K>(t: Model<K>, u: Model<K>, xs: set<K>)
    requires OnlyCleared(t, u, xs)
    ensures u == Model(t.tree, Cleared(t.filters, xs))
  {
    assert u.filters == Cleared(t.filters, xs);
  }

  lemma ClearStep<K>(t: Model<K>, u: Model<K>, p: K, includeSelf: bool)
    requires Items(t.tree) == t.filters.Keys && p in t.filters
    requires OnlyCleared(t, u, BranchSet(t.tree, p, includeSelf))
    ensures u == Step(ClearBranch(p, includeSelf), t)
  {
    OnlyClearedIs(t, u, BranchSet(t.tree, p, includeSelf));
    assert Items(Branch(t.tree, p)) == {p} + Items(Kids(t.tree, p));
  }

  lemma SetPropertyStep<K>(t: Model<K>, u: Model<K>, p: K, key: nat, value: string, changed: bool)
    requires Items(t.tree) == t.filters.Keys && p in t.filters && p !in Items(Kids(t.tree, p))
    requires var m := t.filters[p];
             changed == (m.kind.accepts(key, value) && !(key in m.props && m.props[key] == value))
    requires u.tree == t.tree && u.filters.Keys == t.filters.Keys
    requires forall y | y in t.filters && y != p ::
               u.filters[y] == if changed && y in Items(Kids(t.tree, p)) then t.filters[y].(cache := None)
                               else t.filters[y]
    requires u.filters[p] == if changed then FilterState(t.filters[p].kind, t.filters[p].props[key := value], None)
                             else t.filters[p]
    ensures u == Step(SetProperty(p, key, value), t)
  {
    assert u.filters == Step(SetProperty(p, key, value), t).filters;
  }

  lemma RemoveRest<K>(f: Forest<K>, p: K)
    requires Distinct(f) && p in Items(f)
    ensures Distinct(Remove(f, p)) && Items(Remove(f, p)) == Items(f) - BranchSet(f, p, true)
  {
    RemoveItems(f, p);
    assert Items(Branch(f, p)) == {p} + Items(Kids(f, p));
  }

  lemma RemoveStep<K>(t: Model<K>, u: Model<K>, p: K)
    requires Items(t.tree) == t.filters.Keys && p in t.filters
    requires u.tree == Remove(t.tree, p) && u.filters.Keys == t.filters.Keys - BranchSet(t.tree, p, true)
    requires forall y | y in u.filters :: u.filters[y] == t.filters[y]
    ensures u == Step(RemoveSubtree(p), t)
  {
    assert Items(Branch(t.tree, p)) == {p} + Items(Kids(t.tree, p));
    assert u.filters == t.filters - Items(Branch(t.tree, p));
  }

  lemma ReparentStep<K>(t: Model<K>, u: Model<K>, p: K, parent: Option<K>)
    requires Items(t.tree) == t.filters.Keys && Allowed(Reparent(p, parent), t)
    requires !(parent.Some? && parent.value in Items(Branch(t.tree, p)))
    requires u.tree == Moved(t.tree, p, parent)
    requires OnlyCleared(t, Model(t.tree, u.filters), ClearedByMove(t.tree, p))
    ensures u == Step(Reparent(p, parent), t) && (Sound(t) ==> Sound(u))
  {
    OnlyClearedIs(t, Model(t.tree, u.filters), ClearedByMove(t.tree, p));
    KeepsSound(Reparent(p, parent), t, u);
  }

  lemma {:induction false} ClonesMatch<K>(s: Filters<K>, u: Filters<K>, from: seq<K>, names: seq<K>)
    requires |from| == |names| && forall x | x in from :: x in s
    requires forall i | 0 <= i < |names| :: names[i] in u && u[names[i]] == Clone(s[from[i]])
    ensures forall x | x in Clones(s, from, names) :: x in u && u[x] == Clones(s, from, names)[x]
  {
    if from != [] {
      ClonesMatch(s, u, from[1..], names[1..]);
      assert names[0] in u;
    }
  }

  lemma ClonesIs<K>(s: Filters<K>, u: Filters<K>, from: seq<K>, names: seq<K>)
    requires |from| == |names| && forall x | x in from :: x in s
    requires u.Keys == s.Keys + SetOf(names) && s.Keys !! SetOf(names)
    requires forall x | x in s :: u[x] == s[x]
    requires forall i | 0 <= i < |names| :: names[i] in u && u[names[i]] == Clone(s[from[i]])
    ensures u == s + Clones(s, from, names)
  {
    ClonesKeys(s, from, names);
    ClonesMatch(s, u, from, names);
  }

  lemma CopyStep<K>(t: Model<K>, u: Model<K>, p: K, parent: Option<K>, from: seq<K>, names: seq<K>)
    requires Items(t.tree) == t.filters.Keys && Allowed(CopyFilter(p, parent, names), t)
    requires !(parent.Some? && parent.value in Items(Branch(t.tree, p)))
    requires from == Pre(Branch(t.tree, p)) && |from| == |names| && forall x | x in from :: x in t.filters
    requires var copy := Rebuild(Branch(t.tree, p), names);
             u.tree == if parent.Some? then AppendKids(t.tree, parent.value, copy) else AddBase(t.tree, copy)
    requires u.filters.Keys == t.filters.Keys + SetOf(names)
    requires forall x | x in t.filters :: u.filters[x] == t.filters[x]
    requires forall i | 0 <= i < |names| && names[i] in u.filters :: u.filters[names[i]] == Clone(t.filters[from[i]])
    ensures u == Step(CopyFilter(p, parent, names), t)
  {
    forall i | 0 <= i < |names| ensures names[i] in u.filters { assert names[i] in SetOf(names); }
    ClonesIs(t.filters, u.filters, from, names);
  }

  /** Every edit keeps the tree sound. */
  lemma KeepsSound<K>(e: Edit<K>, t: Model<K>, u: Model<K>)
    requires Items(t.tree) == t.filters.Keys && Allowed(e, t) && u == Step(e, t)
    ensures Sound(t) ==> Sound(u)
  {
    if Sound(t) { StepSound(e, t); }
  }

  /** Look for `q` from row `i` to the first row that is no deeper. */
  method SearchScan<K(==)>(rows: seq<Row<K>>, i: nat, q: K) returns (found: bool, it: nat)
    requires i < |rows|
    ensures i <= it <= |rows| && forall j | i < j < it :: rows[j].depth > rows[i].depth
    ensures if found then it < |rows| && rows[it].item == q && (it > i ==> rows[it].depth > rows[i].depth)
            else ScanStops(rows, i, it) && forall j | i <= j < it :: rows[j].item != q
  {
    it := i;
    while it < |rows| && (rows[i].depth < rows[it].depth || it == i)
      invariant i <= it <= |rows| && forall j | i < j < it :: rows[j].depth > rows[i].depth
      invariant forall j | i <= j < it :: rows[j].item != q
    {
      if rows[it].item == q { return true, it; }
      it := it + 1;
    }
    found := false;
  }

  /** What the search says of a branch. */
  lemma SearchedBranch<K>(f: Forest<K>, rows: seq<Row<K>>, p: K, i: nat, it: nat, q: K, found: bool)
    requires Distinct(f) && p in Items(f) && rows == Table(f, 0) && i == |Before(f, p, 0)| < |rows|
    requires i <= it <= |rows| && forall j | i < j < it :: rows[j].depth > rows[i].depth
    requires if found then it < |rows| && rows[it].item == q && (it > i ==> rows[it].depth > rows[i].depth)
             else ScanStops(rows, i, it) && forall j | i <= j < it :: rows[j].item != q
    ensures found <==> q in Items(Branch(f, p))
  {
    if found {
      FoundInside(f, rows, p, i, 1 + Size(Kids(f, p)), it);
    } else {
      ScanVisitsBranch(f, p, i, it, true);
      if q in BranchSet(f, p, true) { var j := ScannedFrom(rows, i, it, true, q); }
    }
  }

  lemma FoundInside<K>(f: Forest<K>, rows: seq<Row<K>>, p: K, i: nat, n: nat, it: nat)
    requires Distinct(f) && p in Items(f) && rows == Table(f, 0) && i == |Before(f, p, 0)| <= it < |rows|
    requires n == 1 + Size(Kids(f, p)) && forall j | i < j <= it :: rows[j].depth > rows[i].depth
    ensures rows[it].item in Items(Branch(f, p))
  {
    BranchRows(f, p);
    if it == i {
      assert rows[i].item == p;
    } else {
      assert i + n < |rows| && i + n <= it ==> rows[i + n].depth > rows[i].depth;
      InsideRun(f, p, i, n, it);
    }
  }

  // ----- the tree of filters -----

  /** The clones are of the same kinds as the originals, with the same properties, cache when
      they do, and have no cache. */
  ghost predicate SameSettings(from: seq<Filter>, clones: seq<Filter>)
    reads from, clones
  {
    && |clones| == |from|
    && forall i | 0 <= i < |clones| ::
         clones[i].kind == from[i].kind && clones[i].props == from[i].props && clones[i].cache == from[i].cache
         && !clones[i].cacheOK
  }

  class FilterTree {
    var filters: Forest<Filter>
    /** The filters in the tree, and which filter keeps which stream. */
    ghost var members: set<Filter>
    ghost var owner: map<StreamData, Filter>

    /** The abstract state that the edits are specified on. */
    ghost function View(): Model<Filter>
      reads this, members
    {
      Model(filters, map x | x in members :: x.state)
    }

    ghost predicate InGoodOrder(x: Filter)
      reads this`owner, x, owner.Keys
    {
      (forall p | p in x.filterOutputs :: p in owner.Keys && owner[p] == x) && x.Valid()
    }

    ghost predicate InOrder()
      reads this`owner, this`members, members, owner.Keys
    {
      forall x | x in members :: InGoodOrder(x)
    }

    /** Filters occur once, are in good order and do not share cached streams. */
    ghost predicate Valid()
      reads this, members, owner.Keys
    {
      Distinct(filters) && members == Items(filters) && InOrder()
    }

    constructor ()
      ensures Valid() && View() == Model(Nil, map[])
    {
      filters := Nil;
      members, owner := {}, map[];
    }

    /** The row number of `p`. */
    method RowNumber(p: Filter) returns (i: nat)
      requires p in Items(filters) && Distinct(filters)
      ensures i == |Before(filters, p, 0)| < |Table(filters, 0)|
    {
      var rows := Table(filters, 0);
      RowAt(filters, p);
      i := 0;
      while rows[i].item != p
        invariant i <= |Before(filters, p, 0)|
        decreases |Before(filters, p, 0)| - i
      {
        i := i + 1;
      }
      TableRows(filters, 0);
      RowsDiffer(filters, i, |Before(filters, p, 0)|);
    }

    /** Clear one cache. */
    method ClearOne(x: Filter)
      requires InOrder() && x in members
      modifies x`cacheOK, x`filterOutputs, x`state, owner.Keys`live
      ensures InOrder() && x.state == old(x.state).(cache := None)
    {
      x.ClearCache();
      forall y | y in members
        ensures InGoodOrder(y)
      {
        assert y != x ==> old(InGoodOrder(y));
      }
    }

    /** Clear the caches met by a scan from row `i`, which stops at the first row that is
        no deeper. */
    method ClearScan(rows: seq<Row<Filter>>, i: nat, includeSelf: bool) returns (it: nat)
      requires InOrder() && i < |rows| && forall j | 0 <= j < |rows| :: rows[j].item in members
      modifies members`cacheOK, members`filterOutputs, members`state, owner.Keys`live
      ensures InOrder() && ScanStops(rows, i, it)
      ensures forall x | x in members ::
                x.state == if x in Scanned(rows, i, it, includeSelf) then old(x.state).(cache := None) else old(x.state)
    {
      it := i;
      while it < |rows| && (rows[i].depth < rows[it].depth || it == i)
        invariant i <= it <= |rows| && forall j | i < j < it :: rows[j].depth > rows[i].depth
        invariant InOrder()
        invariant forall x | x in members ::
                    x.state == if x in Scanned(rows, i, it, includeSelf) then old(x.state).(cache := None)
                               else old(x.state)
      {
        if includeSelf || it != i {
          ClearOne(rows[it].item);
        }
        it := it + 1;
      }
    }

    /** Drop the caches of a branch, with or without its root. */
    method ClearBranch(p: Filter, includeSelf: bool)
      requires Valid() && p in members
      modifies members`cacheOK, members`filterOutputs, members`state, owner.Keys`live
      ensures Valid()
      ensures forall x | x in members ::
                x.state == if x in BranchSet(filters, p, includeSelf) then old(x.state).(cache := None)
                           else old(x.state)
    {
      var i := RowNumber(p);
      TableRows(filters, 0);
      var it := ClearScan(Table(filters, 0), i, includeSelf);
      ScanVisitsBranch(filters, p, i, it, includeSelf);
    }

    // ----- edits -----

    /** Set a property. When the filter says its output changes, its own cache is gone
        already and everything below it is cleared. */
    method SetFilterProperty(target: Filter, key: nat, value: string) returns (ok: bool, needUpdate: bool)
      requires Valid() && target in members
      modifies members, owner.Keys`live
      ensures Valid() && View() == Step(SetProperty(target, key, value), old(View()))
      ensures Sound(old(View())) ==> Sound(View())
      ensures ok == target.kind.accepts(key, value)
      ensures needUpdate == (ok && !(key in old(target.props) && old(target.props)[key] == value))
    {
      ghost var t := View();
      ok, needUpdate := target.SetProperty(key, value);
      forall y | y in members ensures InGoodOrder(y) {
        assert y != target ==> old(InGoodOrder(y));
      }
      KidsItems(filters, target);
      if needUpdate {
        ClearBranch(target, false);
      }
      SetPropertyStep(t, View(), target, key, value, needUpdate);
      KeepsSound(SetProperty(target, key, value), t, View());
    }

    /** Drop the caches of one branch, with or without its root. */
    method ClearCacheBelow(filter: Filter, includeSelf: bool)
      requires Valid() && filter in members
      modifies members`cacheOK, members`filterOutputs, members`state, owner.Keys`live
      ensures Valid() && View() == Step(Edit.ClearBranch(filter, includeSelf), old(View()))
      ensures Sound(old(View())) ==> Sound(View())
    {
      ghost var t := View();
      ClearBranch(filter, includeSelf);
      ClearStep(t, View(), filter, includeSelf);
      KeepsSound(Edit.ClearBranch(filter, includeSelf), t, View());
    }

    method ClearRows(rows: seq<Row<Filter>>)
      requires Valid() && rows == Table(filters, 0)
      modifies members`cacheOK, members`filterOutputs, members`state, owner.Keys`live
      ensures Valid() && forall x | x in members :: x.state == old(x.state).(cache := None)
    {
      TableRows(filters, 0);
      for i := 0 to |rows|
        invariant InOrder()
        invariant forall x | x in members ::
                    x.state == if x in Scanned(rows, 0, i, true) then old(x.state).(cache := None) else old(x.state)
      {
        ClearOne(rows[i].item);
      }
      forall x | x in members ensures x in Scanned(rows, 0, |rows|, true) {
        var j := RowFor(filters, 0, x);
        ScannedHas(rows, 0, |rows|, true, j);
      }
    }

    /** Drop every cache. */
    method ClearAllCaches()
      requires Valid()
      modifies members`cacheOK, members`filterOutputs, members`state, owner.Keys`live
      ensures Valid() && View() == Step(ClearAll, old(View()))
      ensures Sound(old(View())) ==> Sound(View())
    {
      ghost var t := View();
      ClearRows(Table(filters, 0));
      OnlyClearedIs(t, View(), t.filters.Keys);
      KeepsSound(ClearAll, t, View());
    }

    /** Add a filter below a parent, or at the base after the first root. */
    method AddFilter(f: Filter, parentFilter: Filter?)
      requires Valid() && f !in members && f.Valid() && !f.cacheOK && Lawful(f.kind)
      requires parentFilter != null ==> parentFilter in members
      modifies this`filters, this`members
      ensures Valid()
      ensures View() == Step(Edit.AddFilter(f, f.kind, f.props, ToOption(parentFilter)), old(View()))
      ensures Sound(old(View())) ==> Sound(View())
    {
      ghost var t := View();
      var single := Cons(f, Nil, Nil);
      filters := Graft(filters, parentFilter, single);
      members := members + {f};
      GraftItems(t.tree, ToOption(parentFilter), single);
      assert View().filters == t.filters[f := FilterState(f.kind, f.props, None)];
      KeepsSound(Edit.AddFilter(f, f.kind, f.props, ToOption(parentFilter)), t, View());
    }

    /** Take the nodes of a branch out of the tree. */
    method EraseNodes(p: Filter)
      requires Valid() && p in members
      modifies this`filters, this`members
      ensures Valid() && filters == Remove(old(filters), p)
      ensures members == old(members) - BranchSet(old(filters), p, true)
    {
      RemoveRest(filters, p);
      members := members - BranchSet(filters, p, true);
      filters := Remove(filters, p);
    }

    /** Delete a branch: every filter in it, and then its nodes. */
    method RemoveSubtree(removeFilt: Filter)
      requires Valid() && removeFilt in members
      modifies this`filters, this`members, members`cacheOK, members`filterOutputs, members`state, owner.Keys`live
      ensures Valid() && View() == Step(Edit.RemoveSubtree(removeFilt), old(View()))
      ensures Sound(old(View())) ==> Sound(View())
    {
      ghost var t := View();
      ClearBranch(removeFilt, true);
      EraseNodes(removeFilt);
      RemoveStep(t, View(), removeFilt);
      KeepsSound(Edit.RemoveSubtree(removeFilt), t, View());
    }

    /** Does `q` lie in the branch of `p`? The scan stops like the clearing one. */
    method InBranch(p: Filter, q: Filter) returns (found: bool)
      requires Valid() && p in members
      ensures found <==> q in Items(Branch(filters, p))
    {
      var i := RowNumber(p);
      var it;
      var rows := Table(filters, 0);
      found, it := SearchScan(rows, i, q);
      SearchedBranch(filters, rows, p, i, it, q, found);
    }

    /** Drop the caches from `p` to the end of the tree, passing over the filters at its
        depth, and then its own. */
    method ClearForMove(p: Filter)
      requires Valid() && p in members
      modifies members`cacheOK, members`filterOutputs, members`state, owner.Keys`live
      ensures Valid()
      ensures forall x | x in members ::
                x.state == if x in ClearedByMove(filters, p) then old(x.state).(cache := None) else old(x.state)
    {
      var i := RowNumber(p);
      RowsFrom(filters, p);
      TableRows(filters, 0);
      BranchRows(filters, p);
      var later := Table(filters, 0)[i..];
      ClearLater(later);
      ClearOne(p);
    }

    method ClearLater(rows: seq<Row<Filter>>)
      requires InOrder() && rows != [] && forall j | 0 <= j < |rows| :: rows[j].item in members
      modifies members`cacheOK, members`filterOutputs, members`state, owner.Keys`live
      ensures InOrder()
      ensures forall x | x in members ::
                x.state == if x in OffDepth(rows, rows[0].depth) then old(x.state).(cache := None) else old(x.state)
    {
      for it := 0 to |rows|
        invariant InOrder()
        invariant forall x | x in members ::
                    x.state == if x in OffDepth(rows[..it], rows[0].depth) then old(x.state).(cache := None)
                               else old(x.state)
      {
        assert rows[..it + 1][..it] == rows[..it];
        if rows[it].depth != rows[0].depth {
          ClearOne(rows[it].item);
        }
      }
      assert rows[..|rows|] == rows;
    }

    /** Move the nodes of a branch below a new parent, or to the base. */
    method MoveNodes(p: Filter, newParent: Filter?)
      requires Valid() && p in members
      requires newParent != null ==> newParent in members && newParent !in Items(Branch(filters, p))
      modifies this`filters
      ensures Valid() && filters == Moved(old(filters), p, ToOption(newParent))
    {
      MovedConserves(filters, p, ToOption(newParent));
      var branch := Branch(filters, p);
      if newParent != null {
        filters := AppendKids(Remove(filters, p), newParent, branch);
      } else if filters.item != p {
        filters := InsertAfter(Remove(filters, p), filters.item, branch);
      }
    }

    /** Move a branch, unless the new parent lies inside it. */
    method ReparentFilter(f: Filter, newParent: Filter?) returns (ok: bool)
      requires Valid() && f in members && newParent != f
      requires newParent != null ==> newParent in members
      modifies this`filters, members`cacheOK, members`filterOutputs, members`state, owner.Keys`live
      ensures Valid() && View() == Step(Edit.Reparent(f, ToOption(newParent)), old(View()))
      ensures Sound(old(View())) ==> Sound(View())
      ensures ok <==> newParent == null || newParent !in Items(Branch(old(filters), f))
    {
      ghost var t := View();
      if newParent != null {
        var inside := InBranch(f, newParent);
        if inside { return false; }
      }
      ClearForMove(f);
      MoveNodes(f, newParent);
      ReparentStep(t, View(), f, ToOption(newParent));
      return true;
    }

    /** Clone filters one by one, without their caches. */
    static method CloneAll(from: seq<Filter>) returns (clones: seq<Filter>)
      requires forall x | x in from :: x.Valid()
      ensures |clones| == |from| && NoRepeat(clones) && fresh(clones)
      ensures forall i | 0 <= i < |clones| ::
                clones[i].Valid() && clones[i].filterOutputs == [] && clones[i].state == Clone(from[i].state)
      ensures SameSettings(from, clones)
    {
      clones := [];
      for i := 0 to |from|
        invariant |clones| == i && NoRepeat(clones) && fresh(clones)
        invariant forall j | 0 <= j < i ::
                    clones[j].Valid() && clones[j].filterOutputs == [] && clones[j].state == Clone(from[j].state)
        invariant SameSettings(from[..i], clones)
      {
        var c := from[i].CloneUncached();
        clones := clones + [c];
      }
      assert from[..|from|] == from;
    }

    /** Clone the filters of a branch, in pre-order. */
    method CloneBranch(p: Filter) returns (clones: seq<Filter>, ghost originals: seq<Filter>)
      requires Valid() && p in members
      ensures |clones| == Size(Branch(filters, p)) && NoRepeat(clones) && fresh(clones)
      ensures forall i | 0 <= i < |clones| :: clones[i].Valid() && clones[i].filterOutputs == []
      ensures originals == Pre(Branch(filters, p)) && SameSettings(originals, clones)
      ensures forall i | 0 <= i < |clones| ::
                originals[i] in members && clones[i].state == Clone(View().filters[originals[i]])
    {
      BranchItems(filters, p);
      var from := Pre(Branch(filters, p));
      clones := CloneAll(from);
      originals := from;
      forall i | 0 <= i < |clones|
        ensures originals[i] in members && clones[i].state == Clone(View().filters[originals[i]])
      {
        assert from[i] in from;
      }
    }

    /** Hang clones, in the shape of `branch`, below a filter or at the base. */
    method GraftClones(branch: Forest<Filter>, clones: seq<Filter>, newParent: Filter?)
      requires Valid() && |clones| == Size(branch) && NoRepeat(clones) && SetOf(clones) !! members
      requires newParent != null ==> newParent in members
      requires forall i | 0 <= i < |clones| :: clones[i].Valid() && clones[i].filterOutputs == []
      modifies this`filters, this`members
      ensures Valid() && filters == Graft(old(filters), newParent, Rebuild(branch, clones))
      ensures members == old(members) + SetOf(clones)
    {
      var copy := Rebuild(branch, clones);
      RebuildItems(branch, clones);
      GraftItems(filters, ToOption(newParent), copy);
      filters := Graft(filters, newParent, copy);
      members := members + SetOf(clones);
    }

    /** Hang the clones of a branch below a filter outside it, or at the base. */
    method GraftBranch(toCopy: Filter, newParent: Filter?, clones: seq<Filter>, ghost originals: seq<Filter>)
      requires Valid() && toCopy in members
      requires newParent != null ==> newParent in members && newParent !in Items(Branch(filters, toCopy))
      requires originals == Pre(Branch(filters, toCopy)) && |clones| == |originals| == Size(Branch(filters, toCopy))
      requires NoRepeat(clones) && SetOf(clones) !! members
      requires forall i | 0 <= i < |clones| :: clones[i].Valid() && clones[i].filterOutputs == []
      requires forall i | 0 <= i < |clones| ::
                 originals[i] in members && clones[i].state == Clone(View().filters[originals[i]])
      modifies this`filters, this`members
      ensures Valid()
      ensures Allowed(Edit.CopyFilter(toCopy, ToOption(newParent), clones), old(View()))
      ensures View() == Step(Edit.CopyFilter(toCopy, ToOption(newParent), clones), old(View()))
    {
      ghost var t := View();
      GraftClones(Branch(filters, toCopy), clones, newParent);
      CopyStep(t, View(), toCopy, ToOption(newParent), originals, clones);
    }

    /** Copy a branch, uncached, below a filter outside it or to the base. */
    method CopyBranch(toCopy: Filter, newParent: Filter?)
      returns (clones: seq<Filter>, ghost originals: seq<Filter>)
      requires Valid() && toCopy in members
      requires newParent != null ==> newParent in members && newParent !in Items(Branch(filters, toCopy))
      modifies this`filters, this`members
      ensures Valid()
      ensures Allowed(Edit.CopyFilter(toCopy, ToOption(newParent), clones), old(View()))
      ensures View() == Step(Edit.CopyFilter(toCopy, ToOption(newParent), clones), old(View()))
      ensures originals == Pre(Branch(old(filters), toCopy)) && fresh(clones) && SameSettings(originals, clones)
    {
      clones, originals := CloneBranch(toCopy);
      GraftBranch(toCopy, newParent, clones, originals);
    }

    /** Copy a branch, unless the new parent lies inside it. */
    method CopyFilter(toCopy: Filter, newParent: Filter?)
      returns (ok: bool, clones: seq<Filter>, ghost originals: seq<Filter>)
      requires Valid() && toCopy in members
      requires newParent != null ==> newParent in members
      modifies this`filters, this`members
      ensures Valid()
      ensures ok <==> newParent == null || newParent !in Items(Branch(old(filters), toCopy))
      ensures !ok ==> View() == old(View())
      ensures ok ==> Allowed(Edit.CopyFilter(toCopy, ToOption(newParent), clones), old(View()))
      ensures ok ==> View() == Step(Edit.CopyFilter(toCopy, ToOption(newParent), clones), old(View()))
      ensures ok ==> originals == Pre(Branch(old(filters), toCopy))
      ensures ok ==> fresh(clones) && SameSettings(originals, clones)
      ensures Sound(old(View())) ==> Sound(View())
    {
      if newParent != null {
        var inside := InBranch(toCopy, newParent);
        if inside { return false, [], []; }
      }
      ok := true;
      ghost var t := View();
      clones, originals := CopyBranch(toCopy, newParent);
      KeepsSound(Edit.CopyFilter(toCopy, ToOption(newParent), clones), t, View());
    }
  }
}
