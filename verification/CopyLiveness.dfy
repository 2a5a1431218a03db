/** When `replace` may still read its source: it first deallocates the tree it replaces. */
module CopyLiveness {
  import opened Forests
  import opened LinkAlgebra
  import opened TreeShapes
  import opened TreeNodes
  import opened LinkedTree
  import opened CopyShapes
  import opened TreeCopies

  /** The branches of two nodes have nothing in common exactly when neither node lies in
      the branch of the other. */
  lemma BranchesMeet<T>(f: Forest<T>, a: T, b: T)
    requires Distinct(f) && a in Items(f) && b in Items(f)
    ensures Items(Branch(f, a)) !! Items(Branch(f, b)) <==> a !in Items(Branch(f, b)) && b !in Items(Branch(f, a))
  {
    if a != b && b !in Items(Kids(f, a)) && a !in Items(Kids(f, b)) { BranchesApart(f, a, b); }
  }

  /** The tree of `from` survives the deallocation of the tree of `p` exactly when neither
      node lies in the branch of the other. */
  lemma SourceSurvives<T>(f: Forest<Node<T>>, g: Forest<Node<T>>, nodes: set<Node<T>>, p: Node<T>, from: Node<T>)
    requires Distinct(f) && p in Items(f) && from in Items(f)
    requires LinkedAs(g, nodes) && Items(f) - Items(Branch(f, p)) <= nodes
    requires forall n | n in Items(Branch(f, p)) :: !n.live
    ensures from.live <==> from !in Items(Branch(f, p))
    ensures (forall n | n in Items(Branch(f, from)) :: n.live) <==>
            from !in Items(Branch(f, p)) && p !in Items(Branch(f, from))
  {
    BranchesMeet(f, from, p);
    KidsItems(f, from);
    if Items(Branch(f, from)) !! Items(Branch(f, p)) {
      forall n | n in Items(Branch(f, from)) ensures n.live { assert n in nodes; }
    } else {
      assert !from.live || !p.live;
    }
  }

  /** The rest of the swap, after the children of `position` have been erased. */
  method FinishSwap<T>(ghost f: Forest<Node<T>>, ghost h: Forest<Node<T>>, ghost nodes: set<Node<T>>,
                       ghost head: Node<T>, ghost feet: Node<T>, position: Node<T>, x: T)
    returns (tmp: Node<T>, ghost g: Forest<Node<T>>)
    requires Shaped(f, head, feet) && position in nodes && position != head && position != feet && nodes == Items(f)
    requires h == SetKids(f, position, Nil) && Shaped(h, head, feet) && LinkedAs(h, nodes - Items(Kids(f, position)))
    requires forall n | n in nodes && n in Items(Kids(f, position)) :: !n.live
    modifies nodes`prev_sibling, nodes`next_sibling, nodes`first_child, nodes`last_child, position`live
    ensures fresh(tmp) && g == ReplaceTree(f, position, Cons(tmp, Nil, Nil)) && Shaped(g, head, feet)
    ensures LinkedAs(g, nodes - Items(Branch(f, position)) + {tmp})
    ensures forall n | n in nodes && n in Items(Branch(f, position)) :: !n.live
  {
    ghost var others := nodes - Items(Kids(f, position));
    RemoveChildless(f, position);
    KidsItems(f, position);
    tmp, g := SwapLeaf(h, others, head, feet, position, x);
    ReplaceChildless(f, position, Cons(tmp, Nil, Nil));
    assert others - {position} + {tmp} == nodes - Items(Branch(f, position)) + {tmp};
  }

  /** Erase and swap in memory. */
  method EraseAndSwap<T>(ghost f: Forest<Node<T>>, ghost nodes: set<Node<T>>, ghost head: Node<T>, ghost feet: Node<T>,
                         position: Node<T>, from: Node<T>)
    returns (tmp: Node<T>, ghost g: Forest<Node<T>>, ghost dataAlive: bool)
    requires Shaped(f, head, feet) && LinkedAs(f, nodes) && position in nodes && from in nodes
    requires position != head && position != feet
    modifies nodes`prev_sibling, nodes`next_sibling, nodes`first_child, nodes`last_child, nodes`live
    ensures fresh(tmp) && g == ReplaceTree(f, position, Cons(tmp, Nil, Nil)) && Shaped(g, head, feet)
    ensures LinkedAs(g, nodes - Items(Branch(f, position)) + {tmp})
    ensures forall n | n in nodes && n in Items(Branch(f, position)) :: !n.live
    ensures dataAlive <==> from !in Items(Kids(f, position))
  {
    ghost var h := EraseChildrenIn(f, nodes, head, feet, position);
    dataAlive := from.live;
    tmp, g := FinishSwap(f, h, nodes, head, feet, position, from.data);
  }

  /** `replace` within one tree, up to the point from which only the source is read. What
      has been found then: whether the source's data was alive when it was read, right after
      the children of `position` had been erased. */
  method BeginReplace<T>(t: Tree<T>, position: Node<T>, from: Node<T>) returns (tmp: Node<T>, ghost dataAlive: bool)
    requires t.Valid() && position in t.members && from in t.members && position != t.head && position != t.feet
    modifies t`chain, t`members, t.members`prev_sibling, t.members`next_sibling
    modifies t.members`first_child, t.members`last_child, t.members`live
    ensures t.Valid() && t.chain == ReplaceTree(old(t.chain), position, Cons(tmp, Nil, Nil))
    ensures dataAlive <==> from !in Items(Kids(old(t.chain), position))
    ensures from.live <==> from !in Items(Branch(old(t.chain), position))
    ensures (forall n | n in Items(Branch(old(t.chain), from)) :: n.live) <==>
            from !in Items(Branch(old(t.chain), position)) && position !in Items(Branch(old(t.chain), from))
  {
    ghost var f, g, nodes := t.chain, t.chain, t.members;
    KidsItems(f, position);
    tmp, g, dataAlive := EraseAndSwap(f, nodes, t.head, t.feet, position, from);
    t.chain := g;
    t.members := nodes - Items(Branch(f, position)) + {tmp};
    SourceSurvives(f, g, t.members, position, from);
  }

  /** A root `p` with one child `x` between the sentinels. */
  ghost function OneChild<T>(head: T, p: T, x: T, feet: T): Forest<T>
  {
    Cons(head, Nil, Cons(p, Cons(x, Nil, Nil), Cons(feet, Nil, Nil)))
  }

  lemma ChildOfOne<T>(f: Forest<T>, head: T, p: T, x: T, feet: T)
    requires f == OneChild(head, p, x, feet) && Distinct(f)
    ensures p in Items(f) && x in Items(f) && x in Items(Kids(f, p)) && x in Items(Branch(f, p))
    ensures p !in Items(Branch(f, x))
  {
    SingleItems(x);
    assert Kids(f, p) == Cons(x, Nil, Nil);
    KidsItems(f, p);
    assert x != head && x != p && Kids(Cons(x, Nil, Nil), x) == Nil;
    assert Kids(f, x) == Kids(f.rest, x) == Kids(f.rest.kids, x);
  }

  /** That tree is built from an empty one in two steps. */
  lemma OneChildSteps<T>(head: T, p: T, x: T, feet: T)
    requires head != feet && p != head
    ensures var f := Cons(head, Nil, Cons(p, Nil, Cons(feet, Nil, Nil)));
            && InsertBefore(Cons(head, Nil, Cons(feet, Nil, Nil)), feet, Cons(p, Nil, Nil)) == f
            && AppendKids(f, p, Cons(x, Nil, Nil)) == OneChild(head, p, x, feet)
  {
    var e, g := Cons(feet, Nil, Nil), Cons(x, Nil, Nil);
    assert InsertBefore(e, feet, Cons(p, Nil, Nil)) == Append(Cons(p, Nil, Nil), e) == Cons(p, Nil, e);
    assert Append(Nil, g) == g;
  }

  method NewOneChild() returns (t: Tree<int>, position: Node<int>, from: Node<int>)
    ensures fresh(t) && fresh(t.members) && t.Valid() && position in t.members && from in t.members
    ensures t.chain == OneChild(t.head, position, from, t.feet) && position != t.head && position != t.feet
  {
    t := new Tree(0);
    position := t.Insert(t.feet, 1);
    from := t.AppendChild(position, 2);
    OneChildSteps(t.head, position, from, t.feet);
  }

  /** An input on which the source is lost although `position` is not inside its branch: in
      the tree 1 with child 2, 1 is to be replaced by a copy of 2. The data is deallocated
      when it is read. `f` is the tree before that. */
  method SourceBelowPosition()
    returns (t: Tree<int>, position: Node<int>, from: Node<int>, ghost f: Forest<Node<int>>, ghost dataAlive: bool)
    ensures f == OneChild(t.head, position, from, t.feet) && Shaped(f, t.head, t.feet)
    ensures from in Items(f) && position !in Items(Branch(f, from)) && !dataAlive && !from.live
  {
    t, position, from := NewOneChild();
    f := t.chain;
    ChildOfOne(f, t.head, position, from, t.feet);
    var tmp;
    tmp, dataAlive := BeginReplace(t, position, from);
  }

  /** With `from` at `position` itself the data can still be read, but not the links that
      are read after the swap. */
  method SourceAtPosition() returns (t: Tree<int>, position: Node<int>, ghost dataAlive: bool)
    ensures dataAlive && !position.live
  {
    t := new Tree(0);
    position := t.Insert(t.feet, 1);
    ghost var f := t.chain;
    KidsItems(f, position);
    var tmp;
    tmp, dataAlive := BeginReplace(t, position, position);
  }
}
