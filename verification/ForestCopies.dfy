/** Clearing the tree container, and copying a whole one. */
module ForestCopies {
  import opened Forests
  import opened LinkAlgebra
  import opened TreeShapes
  import opened TreeNodes
  import opened TreeOrders
  import opened LinkedTree
  import opened TreeIterators
  import opened CopyShapes
  import opened TreeCopies

  lemma FirstRoot<T>(f: Forest<T>, head: T, feet: T)
    requires Shaped(f, head, feet)
    ensures f.rest.Cons? && Links(f, head).next == Some(f.rest.item) && f.rest.item in Items(f) && f.rest.item != head
    ensures Remove(f, f.rest.item) == Cons(head, Nil, f.rest.rest)
    ensures f.rest.item == feet ==> f == Cons(head, Nil, Cons(feet, Nil, Nil))
  {
    assert Distinct(f.rest);
    if f.rest.rest.Cons? {
      FeetIsItem(f.rest.rest, feet);
    } else {
      assert f.rest == Cons(feet, Nil, Nil);
    }
  }

  /** Erase the first root. */
  method EraseFirstRoot<T>(t: Tree<T>)
    requires t.Valid() && t.head.next_sibling != null && t.head.next_sibling != t.feet
    modifies t`chain, t`members, t.members`prev_sibling, t.members`next_sibling
    modifies t.members`first_child, t.members`last_child, t.members`live
    ensures t.Valid() && old(t.chain).rest.Cons? && t.chain == Cons(t.head, Nil, old(t.chain).rest.rest)
    ensures t.members <= old(t.members) && forall n | n in old(t.members) && n !in t.members :: !n.live
    ensures Size(t.chain) < Size(old(t.chain))
  {
    FirstRoot(t.chain, t.head, t.feet);
    t.Erase(t.head.next_sibling);
  }

  /** Erase the roots one by one. */
  method Clear<T>(t: Tree<T>)
    requires t.Valid()
    modifies t`chain, t`members, t.members`prev_sibling, t.members`next_sibling
    modifies t.members`first_child, t.members`last_child, t.members`live
    ensures t.Valid() && t.chain == Cons(t.head, Nil, Cons(t.feet, Nil, Nil))
    ensures t.members <= old(t.members) && forall n | n in old(t.members) && n !in t.members :: !n.live
  {
    FirstRoot(t.chain, t.head, t.feet);
    while t.head.next_sibling != t.feet
      invariant t.Valid() && t.members <= old(t.members) && t.head.next_sibling != null
      invariant forall n | n in old(t.members) && n !in t.members :: !n.live
      decreases Size(t.chain)
    {
      EraseFirstRoot(t);
      FirstRoot(t.chain, t.head, t.feet);
    }
    FirstRoot(t.chain, t.head, t.feet);
  }

  // ----- copying a whole forest -----

  /** Childless trees in a row. */
  ghost function Singles<T>(xs: seq<T>): Forest<T>
  {
    if xs == [] then Nil else Cons(xs[0], Nil, Singles(xs[1..]))
  }

  ghost function Trees<T>(f: Forest<T>): nat
  {
    if f.Nil? then 0 else 1 + Trees(f.rest)
  }

  /** The next root of a chain, seen from a root. */
  lemma NextRoot<T>(f: Forest<T>, left: Forest<T>, head: T, feet: T)
    requires Shaped(f, head, feet) && TailOf(f, left) && EndsWith(left, feet) && left.item != feet
    ensures left.item in Items(f) && Branch(f, left.item) == Cons(left.item, left.kids, Nil)
    ensures TailOf(f, left.rest) && EndsWith(left.rest, feet)
    ensures NextAfter(f, left.item, None) == Some(left.rest.item)
  {
    TailFacts(f, left, None);
    ClimbStep(f, None, None, None, left.item);
  }

  /** The chain `f` between the sentinels. */
  ghost function Framed<T>(head: T, f: Forest<T>, feet: T): Forest<T>
  {
    Cons(head, Nil, Append(f, Cons(feet, Nil, Nil)))
  }

  lemma BeforeFirst<T>(head: T, f: Forest<T>, feet: T, x: T)
    requires Shaped(Framed(head, f, feet), head, feet)
    ensures var c := Framed(head, f, feet);
            InsertBefore(c, c.rest.item, Cons(x, Nil, Nil)) == Framed(head, Cons(x, Nil, f), feet)
  {
    var s := Append(f, Cons(feet, Nil, Nil));
    assert s.Cons? && s.item != head;
    assert Append(Cons(x, Nil, Nil), s) == Cons(x, Nil, s);
    assert InsertBefore(s, s.item, Cons(x, Nil, Nil)) == Cons(x, Nil, s);
  }

  /** Insert a single node before all others. */
  method InsertFirst<T>(t: Tree<T>, to: Node<T>, x: T, ghost f: Forest<Node<T>>) returns (tmp: Node<T>)
    requires t.Valid() && t.chain == Framed(t.head, f, t.feet) && to == t.chain.rest.item
    modifies t`chain, t`members, t.members`prev_sibling, t.members`next_sibling, t.members`first_child
    ensures t.Valid() && fresh(tmp) && tmp.data == x && t.members == old(t.members) + {tmp}
    ensures t.chain == Framed(t.head, Cons(tmp, Nil, f), t.feet)
  {
    FirstRoot(t.chain, t.head, t.feet);
    tmp := t.Insert(to, x);
    BeforeFirst(t.head, f, t.feet, tmp);
  }

  lemma FeetEnds<T>(left: Forest<T>, feet: T)
    requires EndsWith(left, feet) && left.item == feet && Distinct(left)
    ensures left == Cons(feet, Nil, Nil)
  {
    if left.rest.Cons? {
      FeetIsItem(left.rest, feet);
    }
  }

  /** The iterator stands at the root where `left` begins. */
  ghost predicate AtRoot<T>(it: PreOrderIterator<T>, src: Tree<T>, left: Forest<Node<T>>)
    reads it, src, src.members
  {
    && src.Valid() && TailOf(src.chain, left) && EndsWith(left, src.feet)
    && it.node == left.item && !it.skipCurrentChildren
  }

  /** Go on to the next root. */
  method ToNextRoot<T>(it: PreOrderIterator<T>, src: Tree<T>, ghost left: Forest<Node<T>>)
    requires AtRoot(it, src, left) && it.node != src.feet
    modifies it
    ensures AtRoot(it, src, left.rest)
  {
    NextRoot(src.chain, left, src.head, src.feet);
    it.SkipChildren();
    it.Increment(src);
  }

  method BeginRoots<T>(src: Tree<T>) returns (it: PreOrderIterator<T>)
    requires src.Valid()
    ensures fresh(it) && AtRoot(it, src, src.chain.rest)
  {
    FirstRoot(src.chain, src.head, src.feet);
    assert TailOf(src.chain, src.chain.rest) by { assert TailOf(src.chain.rest, src.chain.rest); }
    it := new PreOrderIterator(src.head.next_sibling);
  }

  /** Insert a single node for the root that the iterator stands at, and go on. */
  method InsertNextRoot<T>(t: Tree<T>, src: Tree<T>, it: PreOrderIterator<T>, to0: Node<T>, ghost f: Forest<Node<T>>,
                           ghost left: Forest<Node<T>>) returns (to: Node<T>)
    requires t.Valid() && AtRoot(it, src, left) && t.members !! src.members && it.node != src.feet
    requires t.chain == Framed(t.head, f, t.feet) && t.chain.rest.item == to0
    modifies it, t`chain, t`members, t.members`prev_sibling, t.members`next_sibling, t.members`first_child
    ensures t.Valid() && AtRoot(it, src, left.rest) && t.members == old(t.members) + {to} && fresh(to)
    ensures t.chain == Framed(t.head, Cons(to, Nil, f), t.feet)
  {
    TailFacts(src.chain, left, None);
    to := InsertFirst(t, to0, it.node.data, f);
    ToNextRoot(it, src, left);
  }

  /** Insert a single node for every root of `src`, each before the one inserted last. */
  method InsertRoots<T>(t: Tree<T>, src: Tree<T>) returns (ghost xs: seq<Node<T>>)
    requires t.Valid() && src.Valid() && t.members !! src.members
    requires t.chain == Framed(t.head, Nil, t.feet)
    modifies t`chain, t`members, t.members`prev_sibling, t.members`next_sibling, t.members`first_child
    ensures t.Valid() && t.members !! src.members && |xs| + 1 == Trees(src.chain.rest)
    ensures t.chain == Framed(t.head, Singles(xs), t.feet)
    ensures forall n | n in t.members :: n in old(t.members) || fresh(n)
  {
    var it := BeginRoots(src);
    var to := t.feet;
    xs := [];
    ghost var left := src.chain.rest;
    while it.node != src.feet
      invariant t.Valid() && AtRoot(it, src, left) && t.members !! src.members
      invariant forall n | n in t.members :: n in old(t.members) || fresh(n)
      invariant |xs| + Trees(left) == Trees(src.chain.rest)
      invariant t.chain == Framed(t.head, Singles(xs), t.feet) && t.chain.rest.item == to
      decreases left
    {
      to := InsertNextRoot(t, src, it, to, Singles(xs), left);
      xs, left := [to] + xs, left.rest;
    }
    TailFacts(src.chain, left, None);
    FeetEnds(left, src.feet);
  }

  lemma {:induction false} AppendAppend<T>(a: Forest<T>, b: Forest<T>, c: Forest<T>)
    ensures Append(Append(a, b), c) == Append(a, Append(b, c))
  {
    match a
    case Nil =>
    case Cons(_, _, r) => AppendAppend(r, b, c);
  }

  lemma {:induction false} ReplaceInChain<T>(a: Forest<T>, y: T, r: Forest<T>, g: Forest<T>)
    requires Distinct(Append(a, Cons(y, Nil, r)))
    ensures ReplaceTree(Append(a, Cons(y, Nil, r)), y, g) == Append(a, Append(g, r))
  {
    AppendDistinct(a, Cons(y, Nil, r));
    match a
    case Nil =>
    case Cons(m, k, rest) =>
      ReplaceInChain(rest, y, r, g);
      ReplaceAbsent(k, y, g);
  }

  /** Between the sentinels a childless root is replaced. */
  lemma ReplaceFramed<T>(head: T, feet: T, a: Forest<T>, y: T, r: Forest<T>, g: Forest<T>)
    requires Shaped(Framed(head, Append(a, Cons(y, Nil, r)), feet), head, feet)
    ensures y in Items(Framed(head, Append(a, Cons(y, Nil, r)), feet)) && y != head && y != feet
    ensures ReplaceTree(Framed(head, Append(a, Cons(y, Nil, r)), feet), y, g)
         == Framed(head, Append(Append(a, g), r), feet)
  {
    var end := Cons(feet, Nil, Nil);
    var tail := Append(r, end);
    AppendAppend(a, Cons(y, Nil, r), end);
    assert Append(Cons(y, Nil, r), end) == Cons(y, Nil, tail);
    AppendItems(a, Cons(y, Nil, tail));
    AppendDistinct(a, Cons(y, Nil, tail));
    AppendItems(r, end);
    SingleItems(feet);
    ReplaceInChain(a, y, tail, g);
    AppendAppend(g, r, end);
    AppendAppend(Append(a, g), r, end);
    AppendAppend(a, g, tail);
  }

  /** The root after the last one copied. */
  lemma {:induction false} AfterCopy<T>(f: Forest<T>, x: T, k: Forest<T>, r: Forest<T>, a: Forest<T>)
    requires f == Append(a, Cons(x, k, r)) && Distinct(f) && r.Cons?
    ensures x in Items(f) && NextAfter(f, x, None) == Some(r.item)
  {
    AppendDistinct(a, Cons(x, k, r));
    match a
    case Nil =>
    case Cons(_, _, rest) => AfterCopy(Append(rest, Cons(x, k, r)), x, k, r, rest);
  }

  /** Copies of chains put together are the copy of the chains put together. */
  lemma {:induction false} RebuildAppend<T, U>(a: Forest<T>, b: Forest<T>, ns: seq<U>, ms: seq<U>)
    requires |ns| == Size(a)
    ensures Rebuild(Append(a, b), ns + ms) == Append(Rebuild(a, ns), Rebuild(b, ms))
  {
    match a
    case Nil =>
      assert ns + ms == ms;
    case Cons(m, k, r) =>
      var s, t := ns[1..1 + Size(k)], ns[1 + Size(k)..];
      assert ns == [ns[0]] + s + t;
      assert ns + ms == [ns[0]] + s + (t + ms);
      CopyBeside(m, k, r, ns[0], s, t);
      CopyBeside(m, k, Append(r, b), ns[0], s, t + ms);
      RebuildAppend(r, b, t, ms);
  }

  lemma {:induction false} SizeAppend<T>(a: Forest<T>, b: Forest<T>)
    ensures Size(Append(a, b)) == Size(a) + Size(b)
  {
    match a
    case Nil =>
    case Cons(_, _, r) => SizeAppend(r, b);
  }

  lemma FramedSplit<T>(head: T, feet: T, a: Forest<T>, x: T, k: Forest<T>, r: Forest<T>)
    ensures Framed(head, Append(Append(a, Cons(x, k, Nil)), r), feet)
         == Append(Cons(head, Nil, a), Cons(x, k, Append(r, Cons(feet, Nil, Nil))))
  {
    var end, g := Cons(feet, Nil, Nil), Cons(x, k, Nil);
    AppendAppend(Append(a, g), r, end);
    AppendAppend(a, g, Append(r, end));
    assert Append(g, Append(r, end)) == Cons(x, k, Append(r, end));
  }

  /** What follows a root `x` among the roots. */
  lemma AfterFramed<T>(head: T, feet: T, a: Forest<T>, x: T, k: Forest<T>, r: Forest<T>, c: Forest<T>)
    requires c == Framed(head, Append(Append(a, Cons(x, k, Nil)), r), feet) && Distinct(c)
    ensures x in Items(c) && Append(r, Cons(feet, Nil, Nil)).Cons?
    ensures NextAfter(c, x, None) == Some(Append(r, Cons(feet, Nil, Nil)).item)
  {
    FramedSplit(head, feet, a, x, k, r);
    AfterCopy(c, x, k, Append(r, Cons(feet, Nil, Nil)), Cons(head, Nil, a));
  }

  /** The copy of a tree is a tree. */
  lemma CopyIsTree<T, U>(b: Forest<T>, ns: seq<U>)
    requires b.Cons? && b.rest.Nil? && |ns| == Size(b)
    ensures Rebuild(b, ns) == Cons(ns[0], Rebuild(b.kids, ns[1..]), Nil)
  {
    CopyBelow(b.item, b.kids, b.rest, ns[0], ns[1..]);
    assert ns == [ns[0]] + ns[1..];
  }

  /** The next root of the source: its tree, and that its copy may be made. */
  lemma RootReady<T>(t: Tree<T>, src: Tree<T>, it: PreOrderIterator<T>, left: Forest<Node<T>>, a: Forest<Node<T>>,
                     y: Node<T>, r: Forest<Node<T>>, b: Forest<Node<T>>)
    requires t.Valid() && AtRoot(it, src, left) && t.members !! src.members && it.node != src.feet
    requires t.chain == Framed(t.head, Append(a, Cons(y, Nil, r)), t.feet) && b == Cons(left.item, left.kids, Nil)
    ensures it.node in src.members && b == Branch(src.chain, it.node)
    ensures MayCopy(t, y, src, it.node) && y != t.head && y != t.feet
  {
    NextRoot(src.chain, left, src.head, src.feet);
    ReplaceFramed(t.head, t.feet, a, y, r, Nil);
    assert t.head in t.members;
  }

  /** Copy the root that `it` stands at to where `position` stands. */
  method CopyRoot<T>(t: Tree<T>, src: Tree<T>, it: PreOrderIterator<T>, position: Node<T>,
                     ghost left: Forest<Node<T>>, ghost a: Forest<Node<T>>, ghost r: Forest<Node<T>>,
                     ghost b: Forest<Node<T>>, ghost ds: seq<T>) returns (tmp: Node<T>, ghost ns: seq<Node<T>>)
    requires t.Valid() && AtRoot(it, src, left) && t.members !! src.members && it.node != src.feet
    requires t.chain == Framed(t.head, Append(a, Cons(position, Nil, r)), t.feet)
    requires b == Cons(left.item, left.kids, Nil) && ds == DataOf(Pre(b))
    modifies t`chain, t`members, t.members`prev_sibling, t.members`next_sibling
    modifies t.members`first_child, t.members`last_child, t.members`live
    ensures t.Valid() && AtRoot(it, src, left)
    ensures |ns| == Size(b) && NoRepeat(ns) && ns[0] == tmp && DataOf(ns) == ds && forall n | n in ns :: fresh(n)
    ensures forall n | n in t.members :: n in old(t.members) || n in ns
    ensures t.chain == Framed(t.head, Append(Append(a, Rebuild(b, ns)), r), t.feet)
  {
    RootReady(t, src, it, left, a, position, r, b);
    tmp, ns := Replace(t, position, it.node, src, b, ds);
    ReplaceFramed(t.head, t.feet, a, position, r, Rebuild(b, ns));
  }

  /** Let `to` stand at the copy just made, and go on to the root after it. */
  method PastCopy<T>(t: Tree<T>, to: PreOrderIterator<T>, tmp: Node<T>, ghost a: Forest<Node<T>>,
                     ghost b: Forest<Node<T>>,
                     ghost ns: seq<Node<T>>, ghost r: Forest<Node<T>>)
    requires t.Valid() && b.Cons? && b.rest.Nil? && |ns| == Size(b) && ns[0] == tmp
    requires t.chain == Framed(t.head, Append(Append(a, Rebuild(b, ns)), r), t.feet)
    modifies to
    ensures t.Valid()
    ensures Append(r, Cons(t.feet, Nil, Nil)).Cons? && ToNode(to.node) == Some(Append(r, Cons(t.feet, Nil, Nil)).item)
  {
    CopyIsTree(b, ns);
    AfterFramed(t.head, t.feet, a, tmp, Rebuild(b.kids, ns[1..]), r, t.chain);
    to.node := tmp;
    to.SkipChildren();
    to.Increment(t);
  }

  /** Go on with both iterators. */
  method StepBoth<T>(t: Tree<T>, src: Tree<T>, it: PreOrderIterator<T>, to: PreOrderIterator<T>, tmp: Node<T>,
                     ghost left: Forest<Node<T>>, ghost a: Forest<Node<T>>, ghost b: Forest<Node<T>>,
                     ghost ns: seq<Node<T>>, ghost r: Forest<Node<T>>)
    requires t.Valid() && AtRoot(it, src, left) && it.node != src.feet && it != to
    requires b.Cons? && b.rest.Nil? && |ns| == Size(b) && ns[0] == tmp
    requires t.chain == Framed(t.head, Append(Append(a, Rebuild(b, ns)), r), t.feet)
    modifies it, to
    ensures t.Valid() && AtRoot(it, src, left.rest)
    ensures Append(r, Cons(t.feet, Nil, Nil)).Cons? && ToNode(to.node) == Some(Append(r, Cons(t.feet, Nil, Nil)).item)
  {
    PastCopy(t, to, tmp, a, b, ns, r);
    ToNextRoot(it, src, left);
  }

  /** Copy one root, and go on with both iterators. */
  method CopyNextRoot<T>(t: Tree<T>, src: Tree<T>, it: PreOrderIterator<T>, to: PreOrderIterator<T>,
                         ghost left: Forest<Node<T>>, ghost a: Forest<Node<T>>, ghost y: Node<T>,
                         ghost r: Forest<Node<T>>,
                         ghost b: Forest<Node<T>>, ghost ds: seq<T>) returns (ghost ns: seq<Node<T>>)
    requires t.Valid() && AtRoot(it, src, left) && t.members !! src.members && it.node != src.feet && it != to
    requires t.chain == Framed(t.head, Append(a, Cons(y, Nil, r)), t.feet) && to.node == y
    requires b == Cons(left.item, left.kids, Nil) && ds == DataOf(Pre(b))
    modifies it, to, t`chain, t`members, t.members`prev_sibling, t.members`next_sibling
    modifies t.members`first_child, t.members`last_child, t.members`live
    ensures t.Valid() && AtRoot(it, src, left.rest)
    ensures |ns| == Size(b) && NoRepeat(ns) && DataOf(ns) == ds && forall n | n in ns :: fresh(n)
    ensures forall n | n in t.members :: n in old(t.members) || n in ns
    ensures t.chain == Framed(t.head, Append(Append(a, Rebuild(b, ns)), r), t.feet)
    ensures Append(r, Cons(t.feet, Nil, Nil)).Cons? && ToNode(to.node) == Some(Append(r, Cons(t.feet, Nil, Nil)).item)
  {
    var tmp;
    tmp, ns := CopyRoot(t, src, it, to.node, left, a, r, b, ds);
    StepBoth(t, src, it, to, tmp, left, a, b, ns, r);
  }

  /** The trees in `done` have been copied as `ns`; those in `left` are still single nodes `ys`. */
  ghost predicate Copied<T>(c: Forest<T>, head: T, feet: T, all: Forest<T>, done: Forest<T>, left: Forest<T>,
                            ns: seq<T>, ys: seq<T>)
  {
    && all == Append(done, left) && |ns| == Size(done) && |ys| + 1 == Trees(left)
    && c == Framed(head, Append(Rebuild(done, ns), Singles(ys)), feet)
  }

  lemma CopiedOne<T>(c: Forest<T>, head: T, feet: T, all: Forest<T>, done: Forest<T>, left: Forest<T>,
                     ns: seq<T>, ys: seq<T>, ms: seq<T>, c': Forest<T>)
    requires Copied(c, head, feet, all, done, left, ns, ys) && ys != []
    requires var b := Cons(left.item, left.kids, Nil);
             |ms| == Size(b)
             && c' == Framed(head, Append(Append(Rebuild(done, ns), Rebuild(b, ms)), Singles(ys[1..])), feet)
    ensures Copied(c', head, feet, all, Append(done, Cons(left.item, left.kids, Nil)), left.rest, ns + ms, ys[1..])
  {
    var b := Cons(left.item, left.kids, Nil);
    RebuildAppend(done, b, ns, ms);
    SizeAppend(done, b);
    AppendAppend(done, b, left.rest);
    assert Append(b, left.rest) == left;
  }

  lemma {:induction false} DataAppend<T>(a: seq<Node<T>>, b: seq<Node<T>>)
    ensures DataOf(a + b) == DataOf(a) + DataOf(b)
  {
    if a == [] {
      assert a + b == b;
    } else {
      assert (a + b)[1..] == a[1..] + b;
      DataAppend(a[1..], b);
    }
  }

  lemma DataOfBoth<T>(ns: seq<Node<T>>, ms: seq<Node<T>>, done: Forest<Node<T>>, b: Forest<Node<T>>)
    requires DataOf(ns) == DataOf(Pre(done)) && DataOf(ms) == DataOf(Pre(b))
    ensures DataOf(ns + ms) == DataOf(Pre(Append(done, b)))
  {
    DataAppend(ns, ms);
    AppendPre(done, b);
    DataAppend(Pre(done), Pre(b));
  }

  /** The second walk of a copy: the iterators stand at the next root and at its single node. */
  ghost predicate CopyState<T>(t: Tree<T>, src: Tree<T>, it: PreOrderIterator<T>, to: PreOrderIterator<T>,
                               done: Forest<Node<T>>, left: Forest<Node<T>>, ns: seq<Node<T>>, ys: seq<Node<T>>)
    reads t, src, it, to, t.members, src.members
  {
    && t.Valid() && AtRoot(it, src, left) && t.members !! src.members && it != to
    && Copied(t.chain, t.head, t.feet, src.chain.rest, done, left, ns, ys)
    && ToNode(to.node) == FirstOr(Append(Singles(ys), Cons(t.feet, Nil, Nil)), None)
  }

  lemma MoreSingles<T>(left: Forest<T>, feet: T, ys: seq<T>)
    requires EndsWith(left, feet) && |ys| + 1 == Trees(left)
    ensures left.item != feet ==> ys != []
    ensures left.item == feet && Distinct(left) ==> ys == []
  {
    if left.item == feet && Distinct(left) {
      FeetEnds(left, feet);
    }
  }

  /** What is known before a root is copied. */
  lemma BeforeRoot<T>(t: Tree<T>, src: Tree<T>, it: PreOrderIterator<T>, to: PreOrderIterator<T>,
                      done: Forest<Node<T>>, left: Forest<Node<T>>, ns: seq<Node<T>>, ys: seq<Node<T>>)
    requires CopyState(t, src, it, to, done, left, ns, ys) && it.node != src.feet
    ensures ys != [] && to.node == ys[0]
    ensures t.chain == Framed(t.head, Append(Rebuild(done, ns), Cons(ys[0], Nil, Singles(ys[1..]))), t.feet)
  {
    TailFacts(src.chain, left, None);
    MoreSingles(left, src.feet, ys);
  }

  /** One round of the second walk. */
  method CopyOneRoot<T>(t: Tree<T>, src: Tree<T>, it: PreOrderIterator<T>, to: PreOrderIterator<T>,
                        ghost done: Forest<Node<T>>, ghost left: Forest<Node<T>>, ghost ns: seq<Node<T>>,
                        ghost ys: seq<Node<T>>, ghost b: Forest<Node<T>>) returns (ghost ms: seq<Node<T>>)
    requires CopyState(t, src, it, to, done, left, ns, ys) && it.node != src.feet
    requires b == Cons(left.item, left.kids, Nil)
    modifies it, to, t`chain, t`members, t.members`prev_sibling, t.members`next_sibling
    modifies t.members`first_child, t.members`last_child, t.members`live
    ensures ys != [] && CopyState(t, src, it, to, Append(done, b), left.rest, ns + ms, ys[1..])
    ensures forall n | n in t.members :: n in old(t.members) || n in ms
    ensures DataOf(ms) == DataOf(Pre(b)) && forall n | n in ms :: fresh(n)
  {
    BeforeRoot(t, src, it, to, done, left, ns, ys);
    ghost var c, a, ds := t.chain, Rebuild(done, ns), DataOf(Pre(b));
    ms := CopyNextRoot(t, src, it, to, left, a, ys[0], Singles(ys[1..]), b, ds);
    CopiedOne(c, t.head, t.feet, src.chain.rest, done, left, ns, ys, ms, t.chain);
  }

  /** One round of the second walk, and the data copied so far. */
  method CopyOneMore<T>(t: Tree<T>, src: Tree<T>, it: PreOrderIterator<T>, to: PreOrderIterator<T>,
                        ghost done: Forest<Node<T>>, ghost left: Forest<Node<T>>, ghost ns: seq<Node<T>>,
                        ghost ys: seq<Node<T>>) returns (ghost done': Forest<Node<T>>, ghost ns': seq<Node<T>>)
    requires CopyState(t, src, it, to, done, left, ns, ys) && it.node != src.feet && DataOf(ns) == DataOf(Pre(done))
    modifies it, to, t`chain, t`members, t.members`prev_sibling, t.members`next_sibling
    modifies t.members`first_child, t.members`last_child, t.members`live
    ensures ys != [] && CopyState(t, src, it, to, done', left.rest, ns', ys[1..]) && DataOf(ns') == DataOf(Pre(done'))
    ensures forall n | n in t.members :: n in old(t.members) || fresh(n)
    ensures forall n | n in ns' :: n in ns || fresh(n)
  {
    ghost var b := Cons(left.item, left.kids, Nil);
    ghost var ms := CopyOneRoot(t, src, it, to, done, left, ns, ys, b);
    DataOfBoth(ns, ms, done, b);
    done', ns' := Append(done, b), ns + ms;
  }

  lemma RootsCopied<T>(t: Tree<T>, src: Tree<T>, it: PreOrderIterator<T>, to: PreOrderIterator<T>,
                       done: Forest<Node<T>>, left: Forest<Node<T>>, ns: seq<Node<T>>, ys: seq<Node<T>>)
    requires CopyState(t, src, it, to, done, left, ns, ys) && it.node == src.feet
    ensures src.chain.rest == Append(done, Cons(src.feet, Nil, Nil))
    ensures |ns| == Size(done) && t.chain == Framed(t.head, Rebuild(done, ns), t.feet)
  {
    TailFacts(src.chain, left, None);
    FeetEnds(left, src.feet);
    MoreSingles(left, src.feet, ys);
    AppendNil(Rebuild(done, ns));
  }

  /** Start the second walk: both iterators stand at the first roots. */
  method BeginCopy<T>(t: Tree<T>, src: Tree<T>, ghost xs: seq<Node<T>>)
    returns (it: PreOrderIterator<T>, to: PreOrderIterator<T>)
    requires t.Valid() && src.Valid() && t.members !! src.members && |xs| + 1 == Trees(src.chain.rest)
    requires t.chain == Framed(t.head, Singles(xs), t.feet)
    ensures fresh(it) && fresh(to) && CopyState(t, src, it, to, Nil, src.chain.rest, [], xs)
  {
    it := BeginRoots(src);
    FirstRoot(t.chain, t.head, t.feet);
    to := new PreOrderIterator(t.head.next_sibling);
  }

  /** Replace the single nodes by copies of the roots of `src`, one by one. */
  method ReplaceRoots<T>(t: Tree<T>, src: Tree<T>, ghost xs: seq<Node<T>>)
    returns (ghost done: Forest<Node<T>>, ghost ns: seq<Node<T>>)
    requires t.Valid() && src.Valid() && t.members !! src.members && |xs| + 1 == Trees(src.chain.rest)
    requires t.chain == Framed(t.head, Singles(xs), t.feet)
    modifies t`chain, t`members, t.members`prev_sibling, t.members`next_sibling
    modifies t.members`first_child, t.members`last_child, t.members`live
    ensures t.Valid() && src.chain.rest == Append(done, Cons(src.feet, Nil, Nil))
    ensures |ns| == Size(done) && t.chain == Framed(t.head, Rebuild(done, ns), t.feet)
    ensures DataOf(ns) == DataOf(Pre(done)) && forall n | n in ns :: fresh(n)
  {
    var it, to := BeginCopy(t, src, xs);
    ghost var left, ys := src.chain.rest, xs;
    done, ns := Nil, [];
    while it.node != src.feet
      invariant CopyState(t, src, it, to, done, left, ns, ys) && fresh(it) && fresh(to)
      invariant forall n | n in t.members :: n in old(t.members) || fresh(n)
      invariant DataOf(ns) == DataOf(Pre(done)) && forall n | n in ns :: fresh(n)
      decreases left
    {
      done, ns := CopyOneMore(t, src, it, to, done, left, ns, ys);
      left, ys := left.rest, ys[1..];
    }
    RootsCopied(t, src, it, to, done, left, ns, ys);
  }

  /** Copy all of `src`: afterwards the tree holds a copy of the same forest, with the
      same data in the same places, made of new nodes only. */
  method CopyForest<T>(t: Tree<T>, src: Tree<T>) returns (ghost done: Forest<Node<T>>, ghost ns: seq<Node<T>>)
    requires t.Valid() && src.Valid() && t.members !! src.members
    modifies t`chain, t`members, t.members`prev_sibling, t.members`next_sibling
    modifies t.members`first_child, t.members`last_child, t.members`live
    ensures t.Valid() && src.chain == Framed(src.head, done, src.feet)
    ensures |ns| == Size(done) && t.chain == Framed(t.head, Rebuild(done, ns), t.feet)
    ensures DataOf(ns) == DataOf(Pre(done)) && forall n | n in ns :: fresh(n)
  {
    Clear(t);
    var xs := InsertRoots(t, src);
    done, ns := ReplaceRoots(t, src, xs);
    FirstRoot(src.chain, src.head, src.feet);
  }
}
