/** How the filter tree moves and grafts branches with the operations of its container: a
    dummy node is added, replaced by a copy of the branch, and the original erased. */
module TreeMoves {
  import opened Forests
  import opened LinkAlgebra
  import opened TreeShapes
  import opened TreeNodes
  import opened LinkedTree
  import opened CopyShapes
  import opened TreeCopies
  import opened TreeXml
  import opened CacheRuns

  // ----- adding a dummy, and replacing it -----

  lemma {:induction false} AppendReplaced<T>(f: Forest<T>, p: T, d: T, g: Forest<T>)
    requires Distinct(f) && p in Items(f) && d !in Items(f)
    ensures ReplaceTree(AppendKids(f, p, Cons(d, Nil, Nil)), d, g) == AppendKids(f, p, g)
  {
    var Cons(m, k, r) := f;
    if m == p {
      ReplaceLast(k, d, g);
      ReplaceAbsent(r, d, g);
    } else if p in Items(k) {
      AppendReplaced(k, p, d, g);
      AppendKidsAbsent(r, p, Cons(d, Nil, Nil));
      AppendKidsAbsent(r, p, g);
      ReplaceAbsent(r, d, g);
    } else {
      AppendReplaced(r, p, d, g);
      AppendKidsAbsent(k, p, Cons(d, Nil, Nil));
      AppendKidsAbsent(k, p, g);
      ReplaceAbsent(k, d, g);
    }
  }

  lemma {:induction false} ReplaceLast<T>(k: Forest<T>, d: T, g: Forest<T>)
    requires d !in Items(k)
    ensures ReplaceTree(Append(k, Cons(d, Nil, Nil)), d, g) == Append(k, g)
  {
    match k
    case Nil => AppendNil(g);
    case Cons(_, kids, r) =>
      ReplaceLast(r, d, g);
      ReplaceAbsent(kids, d, g);
  }

  lemma {:induction false} InsertReplaced<T>(f: Forest<T>, p: T, d: T, g: Forest<T>)
    requires Distinct(f) && p in Items(f) && d !in Items(f)
    ensures ReplaceTree(InsertAfter(f, p, Cons(d, Nil, Nil)), d, g) == InsertAfter(f, p, g)
  {
    var Cons(m, k, r) := f;
    if m == p {
      ReplaceAbsent(k, d, g);
      assert Append(Cons(d, Nil, Nil), r) == Cons(d, Nil, r);
    } else if p in Items(k) {
      InsertReplaced(k, p, d, g);
      InsertAfterAbsent(r, p, Cons(d, Nil, Nil));
      InsertAfterAbsent(r, p, g);
      ReplaceAbsent(r, d, g);
    } else {
      InsertReplaced(r, p, d, g);
      InsertAfterAbsent(k, p, Cons(d, Nil, Nil));
      InsertAfterAbsent(k, p, g);
      ReplaceAbsent(k, d, g);
    }
  }

  // ----- erasing the original -----

  lemma {:induction false} RemoveFromAppend<T>(a: Forest<T>, b: Forest<T>, x: T)
    requires Distinct(a) && x !in Items(b)
    ensures Remove(Append(a, b), x) == Append(Remove(a, x), b)
  {
    match a
    case Nil => RemoveAbsent(b, x);
    case Cons(m, k, r) =>
      if m != x { RemoveFromAppend(r, b, x); }
  }

  /** A branch that does not hold `p` is removed from beside what has been added to `p`. */
  lemma {:induction false} RemoveAppended<T>(f: Forest<T>, p: T, g: Forest<T>, x: T)
    requires Distinct(f) && x !in Items(g) && (x in Items(f) ==> p !in Items(Branch(f, x)))
    ensures Remove(AppendKids(f, p, g), x) == AppendKids(Remove(f, x), p, g)
  {
    match f
    case Nil =>
    case Cons(m, k, r) =>
      if m == x {
        AppendKidsAbsent(k, p, g);
      } else {
        if x in Items(k) { KidsItems(k, x); RemoveAbsent(r, x); }
        if m == p {
          RemoveFromAppend(k, g, x);
        } else {
          RemoveAppended(k, p, g, x);
        }
        RemoveAppended(r, p, g, x);
      }
  }

  lemma {:induction false} RemoveInserted<T>(f: Forest<T>, p: T, g: Forest<T>, x: T)
    requires Distinct(f) && x !in Items(g) && (x in Items(f) ==> p !in Items(Branch(f, x)))
    ensures Remove(InsertAfter(f, p, g), x) == InsertAfter(Remove(f, x), p, g)
  {
    match f
    case Nil =>
    case Cons(m, k, r) =>
      if m == x {
        InsertAfterAbsent(k, p, g);
      } else {
        if x in Items(k) { KidsItems(k, x); RemoveAbsent(r, x); }
        if m == p {
          RemoveBehind(g, r, x);
        } else {
          RemoveInserted(k, p, g, x);
          RemoveInserted(r, p, g, x);
        }
      }
  }

  lemma {:induction false} RemoveBehind<T>(a: Forest<T>, b: Forest<T>, x: T)
    requires x !in Items(a)
    ensures Remove(Append(a, b), x) == Append(a, Remove(b, x))
  {
    match a
    case Nil =>
    case Cons(_, k, r) =>
      RemoveBehind(r, b, x);
      RemoveAbsent(k, x);
  }

  // ----- the branch to be copied is still there -----

  lemma {:induction false} KidsKeptByAppend<T>(f: Forest<T>, p: T, d: T, x: T)
    requires Distinct(f) && x in Items(f) && d !in Items(f) && p !in Items(Branch(f, x)) && p in Items(f)
    ensures var h := AppendKids(f, p, Cons(d, Nil, Nil)); x in Items(h) && Kids(h, x) == Kids(f, x)
  {
    var g := Cons(d, Nil, Nil);
    SingleItems(d);
    AppendKidsItems(f, p, g);
    var Cons(m, k, r) := f;
    if m == x {
      AppendKidsAbsent(k, p, g);
    } else if x in Items(k) {
      KidsItems(k, x);
      if m == p {
        KidsInFront(k, g, x);
        AppendItems(k, g);
      } else if p in Items(k) {
        KidsKeptByAppend(k, p, d, x);
      } else {
        AppendKidsAbsent(k, p, g);
      }
    } else {
      KidsItems(r, x);
      if m == p { AppendItems(k, g); } else if p in Items(k) { AppendKidsItems(k, p, g); AppendKidsAbsent(r, p, g); }
      if p in Items(r) { AppendKidsAbsent(k, p, g); KidsKeptByAppend(r, p, d, x); }
    }
  }

  lemma {:induction false} KidsInFront<T>(k: Forest<T>, g: Forest<T>, x: T)
    requires x in Items(k)
    ensures x in Items(Append(k, g)) && Kids(Append(k, g), x) == Kids(k, x)
  {
    AppendItems(k, g);
    if k.item != x && x !in Items(k.kids) { KidsInFront(k.rest, g, x); }
  }

  /** Nothing changes inside the trees when a tree is put behind the first root. */
  lemma KidsKeptByInsert<T>(f: Forest<T>, d: T, x: T)
    requires Distinct(f) && x in Items(f) && d !in Items(f) && f.Cons?
    ensures var h := InsertAfter(f, f.item, Cons(d, Nil, Nil)); x in Items(h) && Kids(h, x) == Kids(f, x)
  {
    assert Append(Cons(d, Nil, Nil), f.rest) == Cons(d, Nil, f.rest);
    assert InsertAfter(f, f.item, Cons(d, Nil, Nil)) == Cons(f.item, f.kids, Cons(d, Nil, f.rest));
  }

  // ----- between the sentinels -----

  lemma {:induction false} ButLastRemove<T>(r: Forest<T>, x: T, feet: T)
    requires EndsWith(r, feet) && x != feet
    ensures EndsWith(Remove(r, x), feet) && ButLast(Remove(r, x)) == Remove(ButLast(r), x)
  {
    if r.rest.Cons? { ButLastRemove(r.rest, x, feet); }
  }

  lemma {:induction false} ButLastAppendKids<T>(r: Forest<T>, p: T, g: Forest<T>, feet: T)
    requires EndsWith(r, feet) && p != feet
    ensures EndsWith(AppendKids(r, p, g), feet) && ButLast(AppendKids(r, p, g)) == AppendKids(ButLast(r), p, g)
  {
    if r.rest.Cons? { ButLastAppendKids(r.rest, p, g, feet); }
  }

  lemma {:induction false} ButLastBehind<T>(g: Forest<T>, r: Forest<T>, feet: T)
    requires EndsWith(r, feet)
    ensures EndsWith(Append(g, r), feet) && ButLast(Append(g, r)) == Append(g, ButLast(r))
  {
    if g.Cons? { ButLastBehind(g.rest, r, feet); }
  }

  lemma {:induction false} ButLastInsert<T>(r: Forest<T>, p: T, g: Forest<T>, feet: T)
    requires EndsWith(r, feet) && p != feet
    ensures EndsWith(InsertAfter(r, p, g), feet) && ButLast(InsertAfter(r, p, g)) == InsertAfter(ButLast(r), p, g)
  {
    if r.rest.Cons? {
      if r.item == p { ButLastBehind(g, r.rest, feet); } else { ButLastInsert(r.rest, p, g, feet); }
    }
  }

  // ----- data -----

  /** Different nodes hold different data. */
  ghost predicate Faithful<T>(s: set<Node<T>>)
  {
    forall a, b | a in s && b in s :: a.data == b.data ==> a == b
  }

  lemma {:induction false} ValuesHas<T>(f: Forest<Node<T>>, n: Node<T>, s: set<Node<T>>)
    requires Faithful(s) && Items(f) <= s && n in s
    ensures n.data in Items(Values(f)) <==> n in Items(f)
  {
    match f
    case Nil =>
    case Cons(m, k, r) =>
      assert m in s;
      ValuesHas(k, n, s);
      ValuesHas(r, n, s);
  }

  lemma {:induction false} ValuesKids<T>(f: Forest<Node<T>>, x: Node<T>, s: set<Node<T>>)
    requires Faithful(s) && Items(f) <= s && x in Items(f)
    ensures x.data in Items(Values(f)) && Kids(Values(f), x.data) == Values(Kids(f, x))
  {
    ValuesHas(f, x, s);
    var Cons(m, k, r) := f;
    assert m in s;
    ValuesHas(k, x, s);
    if m == x {
    } else if x in Items(k) {
      ValuesKids(k, x, s);
    } else {
      ValuesKids(r, x, s);
    }
  }

  lemma {:induction false} ValuesRemove<T>(f: Forest<Node<T>>, x: Node<T>, s: set<Node<T>>)
    requires Faithful(s) && Items(f) <= s && x in s
    ensures Values(Remove(f, x)) == Remove(Values(f), x.data)
  {
    match f
    case Nil =>
    case Cons(m, k, r) =>
      assert m in s;
      ValuesRemove(k, x, s);
      ValuesRemove(r, x, s);
  }

  lemma {:induction false} ValuesAppendKids<T>(f: Forest<Node<T>>, p: Node<T>, g: Forest<Node<T>>, s: set<Node<T>>)
    requires Faithful(s) && Items(f) <= s && p in s
    ensures Values(AppendKids(f, p, g)) == AppendKids(Values(f), p.data, Values(g))
  {
    match f
    case Nil =>
    case Cons(m, k, r) =>
      assert m in s;
      ValuesAppend(k, g);
      ValuesAppendKids(k, p, g, s);
      ValuesAppendKids(r, p, g, s);
  }

  lemma {:induction false} ValuesInsertAfter<T>(f: Forest<Node<T>>, p: Node<T>, g: Forest<Node<T>>, s: set<Node<T>>)
    requires Faithful(s) && Items(f) <= s && p in s
    ensures Values(InsertAfter(f, p, g)) == InsertAfter(Values(f), p.data, Values(g))
  {
    match f
    case Nil =>
    case Cons(m, k, r) =>
      assert m in s;
      ValuesAppend(g, r);
      ValuesInsertAfter(k, p, g, s);
      ValuesInsertAfter(r, p, g, s);
  }

  ghost predicate SameData<T>(a: seq<Node<T>>, b: seq<Node<T>>)
  {
    |a| == |b| && forall i | 0 <= i < |a| :: a[i].data == b[i].data
  }

  lemma SameDataSplit<T>(ns: seq<Node<T>>, m: Node<T>, a: seq<Node<T>>, c: seq<Node<T>>, u: seq<Node<T>>,
                         v: seq<Node<T>>)
    requires SameData(ns, [m] + a + c) && u == ns[1..1 + |a|] && v == ns[1 + |a|..]
    ensures ns[0].data == m.data && SameData(u, a) && SameData(v, c)
  {
    var all := [m] + a + c;
    assert all[0] == m;
    forall i | 0 <= i < |a| ensures u[i].data == a[i].data { assert u[i] == ns[1 + i] && all[1 + i] == a[i]; }
    forall i | 0 <= i < |c| ensures v[i].data == c[i].data {
      assert v[i] == ns[1 + |a| + i] && all[1 + |a| + i] == c[i];
    }
  }

  /** A copy holds the same data in the same places. */
  lemma {:induction false} ValuesRebuild<T>(b: Forest<Node<T>>, ns: seq<Node<T>>)
    requires SameData(ns, Pre(b))
    ensures Values(Rebuild(b, ns)) == Values(b)
  {
    match b
    case Nil =>
    case Cons(m, k, r) =>
      PreItems(k);
      var t := ns[1..];
      var u, v := Take(t, Size(k)), Drop(t, Size(k));
      assert u == ns[1..1 + |Pre(k)|] && v == ns[1 + |Pre(k)|..];
      SameDataSplit(ns, m, Pre(k), Pre(r), u, v);
      ValuesRebuild(k, u);
      ValuesRebuild(r, v);
  }

  // ----- grafting a copy -----

  /** Where a branch goes: below `parent`, or right after the first root. */
  ghost function Grafted<T>(f: Forest<T>, parent: Option<T>, g: Forest<T>): Forest<T>
    requires f.Cons? && f.rest.Cons?
  {
    InsertOrAppend(f, f.rest.item, parent, g)
  }

  ghost function InsertOrAppend<T>(f: Forest<T>, first: T, parent: Option<T>, g: Forest<T>): Forest<T>
  {
    if parent.Some? then AppendKids(f, parent.value, g) else InsertAfter(f, first, g)
  }

  /** A new place for a branch. */
  ghost predicate MayGraft<T>(t: Tree<T>, parent: Node?<T>)
    reads t, t.members
  {
    && t.Valid() && (parent != null ==> parent in t.members && parent != t.head && parent != t.feet)
    && (parent == null ==> t.chain.rest.item != t.feet)
  }

  lemma FirstInside<T>(f: Forest<T>, head: T, feet: T)
    requires Shaped(f, head, feet)
    ensures f.rest.Cons? && f.rest.item in Items(f) && f.rest.item != head && head in Items(f)
    ensures Links(f, head).next == Some(f.rest.item)
  {
  }

  /** Add a dummy node where the branch is to go. */
  method AddDummy<T>(t: Tree<T>, parent: Node?<T>, dummy: T) returns (node: Node<T>)
    requires MayGraft(t, parent)
    modifies t`chain, t`members, t.members`prev_sibling, t.members`next_sibling
    modifies t.members`first_child, t.members`last_child
    ensures t.Valid() && fresh(node) && node.data == dummy && t.members == old(t.members) + {node}
    ensures old(t.chain).Cons? && old(t.chain).rest.Cons?
    ensures t.chain == Grafted(old(t.chain), ToNode(parent), Cons(node, Nil, Nil))
  {
    FirstInside(t.chain, t.head, t.feet);
    if parent == null {
      node := t.InsertAfterNode(t.head.next_sibling, dummy);
    } else {
      node := t.AppendChild(parent, dummy);
    }
  }

  /** After the dummy has been added it can be replaced. */
  lemma DummyReady<T>(f: Forest<T>, parent: Option<T>, d: T, g: Forest<T>, head: T, feet: T)
    requires Shaped(f, head, feet) && d !in Items(f) && (parent.Some? ==> parent.value in Items(f))
    ensures var h := Grafted(f, parent, Cons(d, Nil, Nil));
            && d in Items(h) && d != head && d != feet && ReplaceTree(h, d, g) == Grafted(f, parent, g)
  {
    FirstInside(f, head, feet);
    FeetIsItem(f.rest, feet);
    SingleItems(d);
    if parent.Some? {
      AppendReplaced(f, parent.value, d, g);
      AppendKidsItems(f, parent.value, Cons(d, Nil, Nil));
    } else {
      InsertReplaced(f, f.rest.item, d, g);
      InsertAfterItems(f, f.rest.item, Cons(d, Nil, Nil));
    }
  }

  /** Graft a copy of the branch of `from`, in another tree, below a parent or behind the
      first root. */
  method GraftCopy<T>(t: Tree<T>, parent: Node?<T>, from: Node<T>, src: Tree<T>, dummy: T)
    returns (ghost ns: seq<Node<T>>)
    requires MayGraft(t, parent) && src.Valid() && from in src.members && t.members !! src.members
    modifies t`chain, t`members, t.members`prev_sibling, t.members`next_sibling
    modifies t.members`first_child, t.members`last_child, t.members`live
    ensures t.Valid() && old(t.chain).Cons? && old(t.chain).rest.Cons?
    ensures |ns| == Size(Branch(src.chain, from)) && SameData(ns, Pre(Branch(src.chain, from)))
    ensures forall n | n in ns :: fresh(n)
    ensures t.chain == Grafted(old(t.chain), ToNode(parent), Rebuild(Branch(src.chain, from), ns))
  {
    ghost var f, b := t.chain, Branch(src.chain, from);
    BranchItems(src.chain, from);
    var node := AddDummy(t, parent, dummy);
    DummyReady(f, ToNode(parent), node, Nil, t.head, t.feet);
    var tmp;
    tmp, ns := Replace(t, node, from, src, b, DataOf(Pre(b)));
    DummyReady(f, ToNode(parent), node, Rebuild(b, ns), t.head, t.feet);
  }

  // ----- moving a branch -----

  /** The branch of `x` is where it was after a dummy has been added outside it. */
  lemma BranchStays<T>(f: Forest<T>, parent: Option<T>, d: T, head: T, feet: T, x: T)
    requires Shaped(f, head, feet) && d !in Items(f) && x in Items(f) && x != head
    requires parent.Some? ==> parent.value in Items(f) && parent.value !in Items(Branch(f, x))
    ensures var h := Grafted(f, parent, Cons(d, Nil, Nil));
            && x in Items(h) && Branch(h, x) == Branch(f, x) && d in Items(h) && Branch(h, d) == Cons(d, Nil, Nil)
            && d !in Items(Branch(f, x)) && x != d
  {
    FirstInside(f, head, feet);
    KidsItems(f, x);
    SingleItems(d);
    if parent.Some? {
      KidsKeptByAppend(f, parent.value, d, x);
      AppendedBranch(f, parent.value, d, Nil);
    } else {
      assert Distinct(f.rest) && x in Items(f.rest) && Kids(f, x) == Kids(f.rest, x);
      KidsKeptByInsert(f.rest, d, x);
      InsertedBranch(f, f.rest.item, d, Nil);
    }
  }

  /** Graft a copy of the branch of `move` in the same tree. */
  method GraftBranch<T>(t: Tree<T>, move: Node<T>, parent: Node?<T>, dummy: T, ghost f: Forest<Node<T>>,
                        ghost b: Forest<Node<T>>) returns (ghost ns: seq<Node<T>>)
    requires MayGraft(t, parent) && move in t.members && move != t.head && move != t.feet
    requires f == t.chain && b == Branch(f, move) && (parent != null ==> parent !in Items(b))
    modifies t`chain, t`members, t.members`prev_sibling, t.members`next_sibling
    modifies t.members`first_child, t.members`last_child, t.members`live
    ensures t.Valid() && move in t.members && f.Cons? && f.rest.Cons?
    ensures SameData(ns, Pre(b)) && forall n | n in ns :: fresh(n)
    ensures forall n | n in t.members :: n in old(t.members) || fresh(n)
    ensures t.chain == Grafted(f, ToNode(parent), Rebuild(b, ns))
  {
    FirstInside(f, t.head, t.feet);
    var node := AddDummy(t, parent, dummy);
    BranchStays(f, ToNode(parent), node, t.head, t.feet, move);
    ns := CopyOver(t, node, move, f, b, parent);
  }

  /** Move the branch of `move`: graft a copy, and erase the original. */
  method MoveByCopy<T>(t: Tree<T>, move: Node<T>, parent: Node?<T>, dummy: T) returns (ghost ns: seq<Node<T>>)
    requires MayGraft(t, parent) && move in t.members && move != t.head && move != t.feet
    requires parent != null ==> parent !in Items(Branch(t.chain, move))
    modifies t`chain, t`members, t.members`prev_sibling, t.members`next_sibling
    modifies t.members`first_child, t.members`last_child, t.members`live
    ensures t.Valid() && old(t.chain).Cons? && old(t.chain).rest.Cons?
    ensures SameData(ns, Pre(Branch(old(t.chain), move))) && forall n | n in ns :: fresh(n)
    ensures t.chain == Remove(Grafted(old(t.chain), ToNode(parent), Rebuild(Branch(old(t.chain), move), ns)), move)
  {
    ghost var f, b := t.chain, Branch(t.chain, move);
    ns := GraftBranch(t, move, parent, dummy, f, b);
    t.Erase(move);
  }

  /** Put the copy in the place of the dummy. */
  method CopyOver<T>(t: Tree<T>, node: Node<T>, move: Node<T>, ghost f: Forest<Node<T>>, ghost b: Forest<Node<T>>,
                     ghost parent: Node?<T>) returns (ghost ns: seq<Node<T>>)
    requires t.Valid() && Shaped(f, t.head, t.feet) && node !in Items(f) && move in Items(f) && b == Branch(f, move)
    requires (parent != null ==> parent in Items(f)) && f.rest.Cons?
    requires t.chain == Grafted(f, ToNode(parent), Cons(node, Nil, Nil))
    requires move in t.members && Branch(t.chain, move) == b && node in t.members
    requires Branch(t.chain, node) == Cons(node, Nil, Nil)
    requires node !in Items(b) && move != node && move != t.head && move != t.feet
    modifies t`chain, t`members, t.members`prev_sibling, t.members`next_sibling
    modifies t.members`first_child, t.members`last_child, t.members`live
    ensures t.Valid() && move in t.members && forall n | n in t.members :: n in old(t.members) || n in ns
    ensures SameData(ns, Pre(b)) && forall n | n in ns :: fresh(n)
    ensures t.chain == Grafted(f, ToNode(parent), Rebuild(b, ns))
  {
    DummyReady(f, ToNode(parent), node, Nil, t.head, t.feet);
    SingleItems(node);
    BranchItems(f, move);
    ghost var was := t.chain;
    var tmp;
    tmp, ns := Replace(t, node, move, t, b, DataOf(Pre(b)));
    DummyReady(f, ToNode(parent), node, Rebuild(b, ns), t.head, t.feet);
    ReplaceItems(was, node, Rebuild(b, ns));
  }

  /** `r` is the chain behind `head`, and `g` holds the data of the branch of `x`. */
  ghost predicate MoveReady<T>(r: Forest<Node<T>>, feet: Node<T>, x: Node<T>, g: Forest<Node<T>>)
  {
    && EndsWith(r, feet) && Distinct(r) && x in Items(r) && x != feet && x !in Items(g)
    && Faithful(Items(ButLast(r))) && Values(g) == Values(Branch(r, x))
  }

  lemma InnerMovedBelow<T>(r: Forest<T>, feet: T, x: T, p: T, g: Forest<T>)
    requires EndsWith(r, feet) && Distinct(r) && x in Items(r) && x != feet && x !in Items(g)
    requires p in Items(r) && p != feet && p !in Items(Branch(r, x))
    ensures ButLast(Remove(AppendKids(r, p, g), x)) == AppendKids(Remove(ButLast(r), x), p, g)
  {
    RemoveAppended(r, p, g, x);
    ButLastRemove(r, x, feet);
    ButLastAppendKids(Remove(r, x), p, g, feet);
  }

  lemma MovedBelow<T>(r: Forest<Node<T>>, feet: Node<T>, x: Node<T>, p: Node<T>, g: Forest<Node<T>>)
    requires MoveReady(r, feet, x, g) && p in Items(r) && p != feet && p !in Items(Branch(r, x))
    ensures x.data in Items(Values(ButLast(r)))
    ensures Values(ButLast(Remove(AppendKids(r, p, g), x))) == Moved(Values(ButLast(r)), x.data, Some(p.data))
  {
    InnerItems(r, feet);
    InnerMovedBelow(r, feet, x, p, g);
    var inner := ButLast(r);
    ValuesMovedBelow(inner, Items(inner), x, p, g);
  }

  lemma ValuesMovedBelow<T>(inner: Forest<Node<T>>, s: set<Node<T>>, x: Node<T>, p: Node<T>, g: Forest<Node<T>>)
    requires Faithful(s) && Distinct(inner) && s == Items(inner) && x in s && p in s
    requires Values(g) == Values(Branch(inner, x))
    ensures x.data in Items(Values(inner))
    ensures Values(AppendKids(Remove(inner, x), p, g)) == Moved(Values(inner), x.data, Some(p.data))
  {
    ValuesKids(inner, x, s);
    ValuesRemove(inner, x, s);
    RemoveItems(inner, x);
    ValuesAppendKids(Remove(inner, x), p, g, s);
  }

  lemma MovedBehind<T>(r: Forest<Node<T>>, feet: Node<T>, x: Node<T>, g: Forest<Node<T>>)
    requires MoveReady(r, feet, x, g) && r.item != feet
    ensures x.data in Items(Values(ButLast(r)))
    ensures Values(ButLast(Remove(InsertAfter(r, r.item, g), x))) == Moved(Values(ButLast(r)), x.data, None)
  {
    InnerItems(r, feet);
    var inner := ButLast(r);
    assert r.rest.Cons? && EndsWith(r.rest, feet);
    if x == r.item {
      ButLastBehind(g, r.rest, feet);
      ValuesAppend(g, inner.rest);
      assert Remove(InsertAfter(r, x, g), x) == Append(g, r.rest);
      assert Kids(r, x) == r.kids && Values(Branch(r, x)) == Cons(x.data, Values(r.kids), Nil);
      assert Append(Values(g), Values(inner.rest)) == Values(inner);
    } else {
      InnerMovedBehind(r, feet, x, g);
      ValuesMovedBehind(inner, Items(inner), x, g);
    }
  }

  lemma InnerMovedBehind<T>(r: Forest<T>, feet: T, x: T, g: Forest<T>)
    requires EndsWith(r, feet) && Distinct(r) && x in Items(r) && x != feet && x !in Items(g)
    requires r.item != feet && x != r.item
    ensures ButLast(Remove(InsertAfter(r, r.item, g), x)) == InsertAfter(Remove(ButLast(r), x), r.item, g)
  {
    RootOutside(r, x);
    RemoveInserted(r, r.item, g, x);
    ButLastRemove(r, x, feet);
    ButLastInsert(Remove(r, x), r.item, g, feet);
  }

  lemma ValuesMovedBehind<T>(inner: Forest<Node<T>>, s: set<Node<T>>, x: Node<T>, g: Forest<Node<T>>)
    requires Faithful(s) && Distinct(inner) && s == Items(inner) && x in s && Values(g) == Values(Branch(inner, x))
    requires inner.Cons? && x != inner.item
    ensures x.data in Items(Values(inner))
    ensures Values(InsertAfter(Remove(inner, x), inner.item, g)) == Moved(Values(inner), x.data, None)
  {
    assert inner.item in s;
    ValuesKids(inner, x, s);
    ValuesRemove(inner, x, s);
    RemoveItems(inner, x);
    ValuesInsertAfter(Remove(inner, x), inner.item, g, s);
  }

  lemma RootOutside<T>(r: Forest<T>, x: T)
    requires Distinct(r) && x in Items(r) && x != r.item
    ensures r.item !in Items(Branch(r, x))
  {
    if x in Items(r.kids) { KidsItems(r.kids, x); } else { KidsItems(r.rest, x); }
  }

  /** What a move does to the data: it is the move of the filter tree's own model. */
  lemma MovedValues<T>(f: Forest<Node<T>>, head: Node<T>, feet: Node<T>, x: Node<T>, parent: Node?<T>,
                       g: Forest<Node<T>>)
    requires Shaped(f, head, feet) && x != head && MoveReady(f.rest, feet, x, g) && f.rest.item != feet
    requires parent != null ==> parent in Items(f.rest) && parent != feet && parent !in Items(Branch(f, x))
    ensures var after := Remove(Grafted(f, ToNode(parent), g), x);
            && after.Cons? && x.data in Items(Values(ButLast(f.rest)))
            && Values(ButLast(after.rest))
            == Moved(Values(ButLast(f.rest)), x.data, if parent == null then None else Some(parent.data))
  {
    assert Kids(f, x) == Kids(f.rest, x);
    if parent != null { MovedBelow(f.rest, feet, x, parent, g); } else { MovedBehind(f.rest, feet, x, g); }
  }

  lemma {:induction false} InnerItems<T>(r: Forest<T>, feet: T)
    requires EndsWith(r, feet) && Distinct(r)
    ensures Items(ButLast(r)) == Items(r) - {feet} && Distinct(ButLast(r))
    ensures forall x | x in Items(ButLast(r)) :: Kids(ButLast(r), x) == Kids(r, x)
  {
    if r.rest.Cons? { InnerItems(r.rest, feet); FeetIsItem(r.rest, feet); }
  }
}
