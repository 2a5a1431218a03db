/** The iterators of the tree container: they keep one node and move it along the links. */
module TreeIterators {
  import opened Forests
  import opened LinkAlgebra
  import opened TreeShapes
  import opened TreeNodes
  import opened TreeOrders
  import opened LinkedTree

  class PreOrderIterator<T> {
    var node: Node?<T>
    var skipCurrentChildren: bool

    constructor (n: Node?<T>)
      ensures node == n && !skipCurrentChildren
    {
      node := n;
      skipCurrentChildren := false;
    }

    /** The next increment passes over the children of the current node. */
    method SkipChildren()
      modifies this`skipCurrentChildren
      ensures skipCurrentChildren
    {
      skipCurrentChildren := true;
    }

    /** Step to the next node in pre-order, or past the current branch. */
    method Increment(ghost t: Tree<T>)
      requires t.Valid() && node in t.members
      modifies this
      ensures !skipCurrentChildren
      ensures ToNode(node) == if old(skipCurrentChildren) then NextAfter(t.chain, old(node), None)
                              else NextPre(t.chain, old(node))
    {
      KidsBothEnds(t.chain, node);
      if !skipCurrentChildren && node.first_child != null {
        node := node.first_child;
      } else {
        skipCurrentChildren := false;
        node := ClimbOn(node, t);
      }
    }

    /** Step back to the node before in pre-order. */
    method Decrement(ghost t: Tree<T>)
      requires t.Valid() && node in t.members
      modifies this`node
      ensures ToNode(node) == PrevPre(t.chain, old(node))
    {
      LinksMembers(t.chain, node);
      if node.prev_sibling != null {
        node := DescendLast(node.prev_sibling, t);
      } else {
        node := node.parent;
      }
    }
  }

  /** Climb from `n` until there is a next sibling, and go there. */
  method ClimbOn<T>(n: Node<T>, ghost t: Tree<T>) returns (r: Node?<T>)
    requires t.Valid() && n in t.members
    ensures ToNode(r) == NextAfter(t.chain, n, None)
  {
    r := n;
    while r.next_sibling == null
      invariant r in t.members && NextAfter(t.chain, r, None) == NextAfter(t.chain, n, None)
      decreases DepthOf(t.chain, r, 0)
    {
      ClimbStep(t.chain, None, None, None, r);
      UpStep(t.chain, r);
      r := r.parent;
      if r == null { return; }
    }
    ClimbStep(t.chain, None, None, None, r);
    r := r.next_sibling;
  }

  /** Follow last children down. */
  method DescendLast<T>(n: Node<T>, ghost t: Tree<T>) returns (r: Node<T>)
    requires t.Valid() && n in t.members
    ensures r in t.members && r == LastPre(Branch(t.chain, n))
  {
    r := n;
    while r.last_child != null
      invariant r in t.members && LastPre(Branch(t.chain, r)) == LastPre(Branch(t.chain, n))
      decreases Size(Branch(t.chain, r))
    {
      LastStep(t.chain, r);
      r := r.last_child;
    }
    LastStep(t.chain, r);
  }

  /** Follow first children down. */
  method DescendFirst<T>(n: Node<T>, ghost t: Tree<T>) returns (r: Node<T>)
    requires t.Valid() && n in t.members
    ensures r in t.members && r == FirstPost(Branch(t.chain, n))
  {
    r := n;
    while r.first_child != null
      invariant r in t.members && FirstPost(Branch(t.chain, r)) == FirstPost(Branch(t.chain, n))
      decreases Size(Branch(t.chain, r))
    {
      FirstStep(t.chain, r);
      r := r.first_child;
    }
    FirstStep(t.chain, r);
  }

  /** Erase a branch; the iterator returned stands on the node that follows it. */
  method EraseAt<T>(t: Tree<T>, it: Node<T>) returns (ret: PreOrderIterator<T>)
    requires t.Valid() && it in t.members && it != t.head && it != t.feet
    modifies t`chain, t`members, t.members`prev_sibling, t.members`next_sibling
    modifies t.members`first_child, t.members`last_child, t.members`live
    ensures t.Valid() && t.chain == Remove(old(t.chain), it) && fresh(ret) && !ret.skipCurrentChildren
    ensures ret.node in t.members && NextAfter(old(t.chain), it, None) == ToNode(ret.node)
    ensures t.members == old(t.members) - Items(Branch(old(t.chain), it))
    ensures forall n | n in old(t.members) - t.members :: !n.live
  {
    ret := new PreOrderIterator(it);
    ret.SkipChildren();
    ret.Increment(t);
    NextStays(t.chain, t.head, t.feet, it);
    t.Erase(it);
  }

  /** The node that follows a branch is not erased with it. */
  lemma NextStays<T>(f: Forest<T>, head: T, feet: T, n: T)
    requires Shaped(f, head, feet) && n in Items(f) && n != head && n != feet
    ensures var next := NextAfter(f, n, None);
            next.Some? && next.value in Items(f) && next.value !in Items(Branch(f, n))
  {
    SomethingFollows(f.rest, feet, n);
    AfterNext(f, n, 0, None);
    AfterOutside(f, n, 0);
    NextAfterRange(f, n, None);
  }

  lemma {:induction false} SomethingFollows<T>(r: Forest<T>, feet: T, n: T)
    requires EndsWith(r, feet) && Distinct(r) && n in Items(r) && n != feet
    ensures After(r, n, 0) != []
  {
    if n != r.item && n !in Items(r.kids) { SomethingFollows(r.rest, feet, n); }
  }

  class PostOrderIterator<T> {
    var node: Node?<T>
    var skipCurrentChildren: bool

    constructor (n: Node?<T>)
      ensures node == n && !skipCurrentChildren
    {
      node := n;
      skipCurrentChildren := false;
    }

    /** The next increment does not go down into the next sibling. */
    method SkipChildren()
      modifies this`skipCurrentChildren
      ensures skipCurrentChildren
    {
      skipCurrentChildren := true;
    }

    /** Step to the next node in post-order, or to the next sibling itself when children are
        to be skipped. */
    method Increment(ghost t: Tree<T>)
      requires t.Valid() && node in t.members
      modifies this
      ensures !skipCurrentChildren
      ensures ToNode(node) == if old(skipCurrentChildren) && Links(t.chain, old(node)).next.Some?
                              then Links(t.chain, old(node)).next else NextPost(t.chain, old(node), None)
    {
      PostStep(t.chain, None, None, node);
      if node.next_sibling == null {
        node := node.parent;
        skipCurrentChildren := false;
      } else if skipCurrentChildren {
        node := node.next_sibling;
        skipCurrentChildren := false;
      } else {
        node := DescendFirst(node.next_sibling, t);
      }
    }
  }

  class LeafIterator<T> {
    var node: Node<T>

    constructor (n: Node<T>)
      ensures node == n
    {
      node := n;
    }

    /** Step from a leaf to the next leaf; the last leaf is left only for where it is. */
    method Increment(ghost t: Tree<T>)
      requires t.Valid() && node in t.members
      modifies this
      ensures node in t.members
      ensures Kids(t.chain, old(node)).Cons? ==> node == FirstPost(Branch(t.chain, old(node)))
      ensures Kids(t.chain, old(node)).Nil? && LeafAfter(t.chain, old(node), None).Some? ==>
                Some(node) == LeafAfter(t.chain, old(node), None)
    {
      KidsBothEnds(t.chain, node);
      if node.first_child != null {
        node := DescendFirst(node, t);
      } else {
        ghost var start := node;
        while node.next_sibling == null
          invariant node in t.members && LeafAfter(t.chain, node, None) == LeafAfter(t.chain, start, None)
          decreases DepthOf(t.chain, node, 0)
        {
          LeafStep(t.chain, None, None, None, node);
          UpStep(t.chain, node);
          if node.parent == null { return; }
          node := node.parent;
        }
        LeafStep(t.chain, None, None, None, node);
        node := DescendFirst(node.next_sibling, t);
      }
    }
  }
}
