/** Whole runs of the iterators: from the beginning until `feet` is reached. */
module TreeTours {
  import opened Forests
  import opened LinkAlgebra
  import opened TreeShapes
  import opened TreeNodes
  import opened TreeOrders
  import opened LinkedTree
  import opened TreeIterators
  import opened TreeXml

  lemma InPost<T>(f: Forest<T>, x: T)
    ensures x in Post(f) <==> x in Items(f)
  {
    PostItems(f);
  }

  /** No node is listed twice in post-order. */
  lemma {:induction false} PostOnce<T>(f: Forest<T>)
    requires Distinct(f)
    ensures NoRepeat(Post(f))
  {
    match f
    case Nil =>
    case Cons(m, k, r) =>
      PostOnce(k);
      PostOnce(r);
      InPost(k, m);
      NoRepeatConcat(Post(k), [m]);
      forall x | x in Post(k) + [m] ensures x !in Post(r) { InPost(k, x); InPost(r, x); }
      NoRepeatConcat(Post(k) + [m], Post(r));
  }

  // ----- the sentinels come first and last -----

  lemma {:induction false} PostEnds<T>(f: Forest<T>, feet: T)
    requires EndsWith(f, feet)
    ensures Post(f) == Post(ButLast(f)) + [feet]
  {
    if f.rest.Cons? {
      PostEnds(f.rest, feet);
      ConcatAssociates(Post(f.kids) + [f.item], Post(ButLast(f.rest)), [feet]);
    }
  }

  lemma {:induction false} LeavesEnd<T>(f: Forest<T>, feet: T)
    requires EndsWith(f, feet)
    ensures Leaves(f) == Leaves(ButLast(f)) + [feet]
  {
    if f.rest.Cons? {
      LeavesEnd(f.rest, feet);
      ConcatAssociates(if f.kids.Nil? then [f.item] else Leaves(f.kids), Leaves(ButLast(f.rest)), [feet]);
    }
  }

  lemma {:induction false} PreEnds<T>(f: Forest<T>, feet: T)
    requires EndsWith(f, feet)
    ensures Pre(f) == Pre(ButLast(f)) + [feet]
  {
    if f.rest.Cons? {
      PreEnds(f.rest, feet);
      ConcatAssociates([f.item] + Pre(f.kids), Pre(ButLast(f.rest)), [feet]);
    }
  }

  /** `order` lists all nodes that a tour visits, with the sentinels at the ends. */
  ghost predicate Between<T>(order: seq<T>, head: T, inner: seq<T>, feet: T)
  {
    order == [head] + inner + [feet] && NoRepeat(order)
  }

  lemma BetweenAt<T>(order: seq<T>, head: T, inner: seq<T>, feet: T, i: nat)
    requires Between(order, head, inner, feet) && 1 <= i <= |inner| + 1
    ensures order[i] == feet <==> i == |inner| + 1
    ensures i <= |inner| ==> order[i] == inner[i - 1] && inner[..i] == inner[..i - 1] + [order[i]]
  {
    assert order[|inner| + 1] == feet;
    if i <= |inner| { assert order[i] == inner[i - 1]; }
  }

  lemma PostOrder<T>(f: Forest<T>, head: T, feet: T)
    requires Shaped(f, head, feet)
    ensures Between(Post(f), head, Post(ButLast(f.rest)), feet)
  {
    PostEnds(f.rest, feet);
    PostOnce(f);
    ConcatAssociates([head], Post(ButLast(f.rest)), [feet]);
  }

  lemma LeafOrder<T>(f: Forest<T>, head: T, feet: T)
    requires Shaped(f, head, feet)
    ensures Between(Leaves(f), head, Leaves(ButLast(f.rest)), feet)
  {
    LeavesEnd(f.rest, feet);
    LeavesOnce(f);
    ConcatAssociates([head], Leaves(ButLast(f.rest)), [feet]);
  }

  lemma PreOrder<T>(f: Forest<T>, head: T, feet: T)
    requires Shaped(f, head, feet)
    ensures Between(Pre(f), head, Pre(ButLast(f.rest)), feet)
  {
    PreEnds(f.rest, feet);
    DistinctPre(f);
    ConcatAssociates([head], Pre(ButLast(f.rest)), [feet]);
  }

  // ----- where the tours begin -----

  /** Go to the node after `head`, and from there follow first children down. */
  method FirstOfAll<T>(t: Tree<T>) returns (tmp: Node<T>)
    requires t.Valid()
    ensures tmp in t.members && |Post(t.chain)| >= 2 && tmp == Post(t.chain)[1]
    ensures |Leaves(t.chain)| >= 2 && tmp == Leaves(t.chain)[1]
  {
    FirstNodes(t.chain, t.head, t.feet);
    tmp := t.head.next_sibling;
    if tmp != t.feet {
      tmp := DescendFirst(tmp, t);
    }
  }

  lemma FirstNodes<T>(f: Forest<T>, head: T, feet: T)
    requires Shaped(f, head, feet)
    ensures f.rest.Cons? && head in Items(f) && Links(f, head).next == Some(f.rest.item) && f.rest.item in Items(f)
    ensures |Post(f)| >= 2 && Post(f)[1] == FirstPost(Branch(f, f.rest.item))
    ensures |Leaves(f)| >= 2 && Leaves(f)[1] == FirstPost(Branch(f, f.rest.item))
    ensures f.rest.item == feet ==> FirstPost(Branch(f, f.rest.item)) == feet
  {
    var c := f.rest.item;
    FirstOfPost(f.rest);
    FirstLeaf(f.rest);
    assert Kids(f, c) == f.rest.kids;
    assert FirstPost(f.rest) == FirstPost(Branch(f, c));
    if c == feet {
      assert Distinct(f.rest);
      assert f.rest.kids.Nil? by { if f.rest.rest.Cons? { FeetIsItem(f.rest.rest, feet); } }
    }
    assert Post(f)[1] == Post(f.rest)[0] && Leaves(f)[1] == Leaves(f.rest)[0];
  }

  method BeginPost<T>(t: Tree<T>) returns (it: PostOrderIterator<T>)
    requires t.Valid()
    ensures fresh(it) && it.node in t.members && |Post(t.chain)| >= 2 && it.node == Post(t.chain)[1]
    ensures !it.skipCurrentChildren
  {
    var tmp := FirstOfAll(t);
    it := new PostOrderIterator(tmp);
  }

  method BeginLeaf<T>(t: Tree<T>) returns (it: LeafIterator<T>)
    requires t.Valid()
    ensures fresh(it) && it.node in t.members && |Leaves(t.chain)| >= 2 && it.node == Leaves(t.chain)[1]
  {
    var tmp := FirstOfAll(t);
    it := new LeafIterator(tmp);
  }

  // ----- the tours -----

  /** All nodes in post-order. */
  method PostTour<T>(t: Tree<T>) returns (visited: seq<Node<T>>)
    requires t.Valid()
    ensures visited == Post(Inner(t)) && NoRepeat(visited)
  {
    ghost var order, inner := Post(t.chain), Post(Inner(t));
    PostOrder(t.chain, t.head, t.feet);
    var it := BeginPost(t);
    ghost var i := 1;
    visited := [];
    while it.node != t.feet
      invariant 1 <= i <= |inner| + 1 && it.node == order[i] && visited == inner[..i - 1] && !it.skipCurrentChildren
      decreases |inner| - i
    {
      BetweenAt(order, t.head, inner, t.feet, i);
      PostSucc(t.chain, i, None);
      visited := visited + [it.node];
      it.Increment(t);
      i := i + 1;
    }
    BetweenAt(order, t.head, inner, t.feet, i);
    TourOnce(order, t.head, inner, t.feet);
  }

  /** All leaves in order. */
  method LeafTour<T>(t: Tree<T>) returns (visited: seq<Node<T>>)
    requires t.Valid()
    ensures visited == Leaves(Inner(t)) && NoRepeat(visited)
  {
    ghost var order, inner := Leaves(t.chain), Leaves(Inner(t));
    LeafOrder(t.chain, t.head, t.feet);
    var it := BeginLeaf(t);
    ghost var i := 1;
    visited := [];
    while it.node != t.feet
      invariant 1 <= i <= |inner| + 1 && it.node == order[i] && visited == inner[..i - 1]
      decreases |inner| - i
    {
      BetweenAt(order, t.head, inner, t.feet, i);
      LeafSucc(t.chain, i, None);
      visited := visited + [it.node];
      it.Increment(t);
      i := i + 1;
    }
    BetweenAt(order, t.head, inner, t.feet, i);
    TourOnce(order, t.head, inner, t.feet);
  }

  /** All nodes in pre-order. */
  method PreTour<T>(t: Tree<T>) returns (visited: seq<Node<T>>)
    requires t.Valid()
    ensures visited == Pre(Inner(t)) && NoRepeat(visited)
  {
    ghost var order, inner := Pre(t.chain), Pre(Inner(t));
    PreOrder(t.chain, t.head, t.feet);
    FirstNodes(t.chain, t.head, t.feet);
    var it := new PreOrderIterator(t.head.next_sibling);
    ghost var i := 1;
    visited := [];
    while it.node != t.feet
      invariant 1 <= i <= |inner| + 1 && it.node == order[i] && visited == inner[..i - 1] && !it.skipCurrentChildren
      decreases |inner| - i
    {
      BetweenAt(order, t.head, inner, t.feet, i);
      PreNext(t.chain, i);
      visited := visited + [it.node];
      it.Increment(t);
      i := i + 1;
    }
    BetweenAt(order, t.head, inner, t.feet, i);
    TourOnce(order, t.head, inner, t.feet);
  }

  lemma PreNext<T>(f: Forest<T>, i: nat)
    requires Distinct(f) && i < |Pre(f)|
    ensures Pre(f)[i] in Items(f)
    ensures NextPre(f, Pre(f)[i]) == if i + 1 < |Pre(f)| then Some(Pre(f)[i + 1]) else None
  {
    TableRows(f, 0);
    PreSucc(f, Table(f, 0), i);
  }

  lemma TourOnce<T>(order: seq<T>, head: T, inner: seq<T>, feet: T)
    requires Between(order, head, inner, feet)
    ensures NoRepeat(inner)
  {
    forall i, j | 0 <= i < j < |inner| ensures inner[i] != inner[j] { assert order[i + 1] != order[j + 1]; }
  }

  /** The nodes that lie between the sentinels are all the others. */
  lemma InnerNodes<T>(t: Tree<T>)
    requires t.Valid()
    ensures forall n :: n in Pre(Inner(t)) <==> n in t.members && n != t.head && n != t.feet
    ensures forall n :: n in Post(Inner(t)) <==> n in t.members && n != t.head && n != t.feet
    ensures forall n :: n in Leaves(Inner(t)) <==> n in t.members && n != t.head && n != t.feet && Kids(t.chain, n).Nil?
  {
    var f, inner := t.chain, Inner(t);
    PreOrder(f, t.head, t.feet);
    PostOrder(f, t.head, t.feet);
    LeafOrder(f, t.head, t.feet);
    PreItems(f);
    PostItems(f);
    InMiddle(Pre(f), t.head, Pre(inner), t.feet);
    InMiddle(Post(f), t.head, Post(inner), t.feet);
    InMiddle(Leaves(f), t.head, Leaves(inner), t.feet);
    forall n ensures n in Leaves(inner) <==> n in t.members && n != t.head && n != t.feet && Kids(f, n).Nil? {
      LeafMember(f, n);
    }
  }

  lemma InMiddle<T>(order: seq<T>, head: T, inner: seq<T>, feet: T)
    requires Between(order, head, inner, feet)
    ensures forall n :: n in inner <==> n in order && n != head && n != feet
  {
    forall n | n in inner ensures n in order && n != head && n != feet {
      var i :| 0 <= i < |inner| && inner[i] == n;
      assert order[i + 1] == n && order[0] == head && order[|inner| + 1] == feet;
    }
  }
}
