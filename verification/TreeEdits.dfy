/** The edits of the filter tree as the calls that it makes to its container, seen by the
    filters that the nodes hold: they are the edits of the model. */
module TreeEdits {
  import opened Forests
  import opened LinkAlgebra
  import opened TreeShapes
  import opened TreeNodes
  import opened LinkedTree
  import opened TreeXml
  import opened CacheRuns
  import opened TreeMoves

  /** Where the model's edits put a branch. */
  ghost function Planted<K>(f: Forest<K>, parent: Option<K>, g: Forest<K>): Forest<K>
  {
    if parent.Some? then AppendKids(f, parent.value, g) else AddBase(f, g)
  }

  ghost function DataAt<T>(n: Node?<T>): Option<T>
  {
    if n == null then None else Some(n.data)
  }

  /** Those are the places of the model: what each edit does to the tree. */
  lemma StepTrees<K>(t: Model<K>, e: Edit<K>)
    requires Items(t.tree) == t.filters.Keys && Allowed(e, t)
    ensures e.AddFilter? ==> Step(e, t).tree == Planted(t.tree, e.parent, Cons(e.added, Nil, Nil))
    ensures e.RemoveSubtree? ==> Step(e, t).tree == Remove(t.tree, e.target)
    ensures e.Reparent? && (e.parent.Some? ==> e.parent.value !in Items(Branch(t.tree, e.target))) ==>
              Step(e, t).tree == Moved(t.tree, e.target, e.parent)
    ensures e.CopyFilter? && (e.parent.Some? ==> e.parent.value !in Items(Branch(t.tree, e.target))) ==>
              |e.clones| == Size(Branch(t.tree, e.target))
              && Step(e, t).tree == Planted(t.tree, e.parent, Rebuild(Branch(t.tree, e.target), e.clones))
  {
  }

  /** The tree is well formed, and no filter is held by two nodes. */
  ghost predicate OneNodeEach<T>(t: Tree<T>)
    reads t, t.members
  {
    t.Valid() && Distinct(Values(Inner(t)))
  }

  lemma {:induction false} DataOfItems<T>(f: Forest<Node<T>>)
    ensures forall n | n in Items(f) :: n.data in Items(Values(f))
  {
    match f
    case Nil =>
    case Cons(_, k, r) =>
      DataOfItems(k);
      DataOfItems(r);
  }

  lemma {:induction false} DistinctIsFaithful<T>(f: Forest<Node<T>>)
    requires Distinct(Values(f))
    ensures Faithful(Items(f))
  {
    match f
    case Nil =>
    case Cons(m, k, r) =>
      DataOfItems(k);
      DataOfItems(r);
      DistinctIsFaithful(k);
      DistinctIsFaithful(r);
  }

  lemma PlantedDistinct<K>(f: Forest<K>, parent: Option<K>, g: Forest<K>)
    requires Distinct(f) && Distinct(g) && Items(f) !! Items(g) && (parent.Some? ==> parent.value in Items(f))
    ensures Distinct(Planted(f, parent, g)) && Items(Planted(f, parent, g)) == Items(f) + Items(g)
  {
    if parent.Some? {
      AppendKidsItems(f, parent.value, g);
    } else if f.Cons? {
      InsertAfterItems(f, f.item, g);
    }
  }

  ghost predicate Inside<T>(t: Tree<T>, n: Node<T>)
    reads t
  {
    n in t.members && n != t.head && n != t.feet
  }

  /** A branch grafted onto the linked tree is planted in the tree of filters. */
  lemma PlantedValues<T>(f: Forest<Node<T>>, head: Node<T>, feet: Node<T>, parent: Node?<T>, g: Forest<Node<T>>)
    requires Shaped(f, head, feet) && f.rest.item != feet && Distinct(Values(ButLast(f.rest)))
    requires parent != null ==> parent in Items(f.rest) && parent != feet
    ensures var after := Grafted(f, ToNode(parent), g);
            && after.Cons?
            && Values(ButLast(after.rest)) == Planted(Values(ButLast(f.rest)), DataAt(parent), Values(g))
  {
    var r := f.rest;
    var inner := ButLast(r);
    InnerItems(r, feet);
    DistinctIsFaithful(inner);
    if parent != null {
      ButLastAppendKids(r, parent, g, feet);
      ValuesAppendKids(inner, parent, g, Items(inner));
    } else {
      ButLastInsert(r, r.item, g, feet);
      ValuesInsertAfter(inner, r.item, g, Items(inner));
    }
  }

  /** Add a filter below a parent, or at the base. */
  method AddNode<T>(t: Tree<T>, parent: Node?<T>, x: T) returns (node: Node<T>)
    requires OneNodeEach(t) && x !in Items(Values(Inner(t))) && (parent != null ==> Inside(t, parent))
    modifies t`chain, t`members, t.members`prev_sibling, t.members`next_sibling
    modifies t.members`first_child, t.members`last_child
    ensures OneNodeEach(t) && fresh(node) && node.data == x
    ensures Values(Inner(t)) == Planted(old(Values(Inner(t))), DataAt(parent), Cons(x, Nil, Nil))
  {
    ghost var f := t.chain;
    FirstInside(f, t.head, t.feet);
    if parent == null && t.head.next_sibling == t.feet {
      node := t.Insert(t.feet, x);
      OnlyFilter(f, t.head, t.feet, node);
    } else {
      if parent != null { NotEmpty(f, t.head, t.feet, parent); }
      node := AddDummy(t, parent, x);
      PlantedValues(f, t.head, t.feet, parent, Cons(node, Nil, Nil));
    }
    ParentInside(f, t.head, t.feet, parent);
    PlantedDistinct(Values(ButLast(f.rest)), DataAt(parent), Cons(x, Nil, Nil));
  }

  /** Nothing follows the last root. */
  lemma LastAlone<T>(r: Forest<T>, feet: T)
    requires EndsWith(r, feet) && Distinct(r) && r.item == feet
    ensures r == Cons(feet, Nil, Nil)
  {
    if r.rest.Cons? { FeetIsItem(r.rest, feet); }
  }

  /** The first filter of an empty tree. */
  lemma OnlyFilter<T>(f: Forest<Node<T>>, head: Node<T>, feet: Node<T>, node: Node<T>)
    requires Shaped(f, head, feet) && f.rest.item == feet
    ensures Values(ButLast(f.rest)) == Nil
    ensures var after := InsertBefore(f, feet, Cons(node, Nil, Nil));
            after.Cons? && Values(ButLast(after.rest)) == Cons(node.data, Nil, Nil)
  {
    LastAlone(f.rest, feet);
    assert Append(Cons(node, Nil, Nil), f.rest) == Cons(node, Nil, f.rest);
  }

  /** Remove a branch: erase what lies below its root, and then the root. */
  method RemoveBranch<T>(t: Tree<T>, x: Node<T>)
    requires OneNodeEach(t) && Inside(t, x)
    modifies t`chain, t`members, t.members`prev_sibling, t.members`next_sibling
    modifies t.members`first_child, t.members`last_child, t.members`live
    ensures OneNodeEach(t) && Values(Inner(t)) == Remove(old(Values(Inner(t))), x.data)
  {
    ghost var f := t.chain;
    t.EraseChildrenOf(x);
    RemoveChildless(f, x);
    t.Erase(x);
    ErasedValues(f, t.head, t.feet, x);
  }

  lemma ErasedValues<T>(f: Forest<Node<T>>, head: Node<T>, feet: Node<T>, x: Node<T>)
    requires Shaped(f, head, feet) && x in Items(f) && x != head && x != feet && Distinct(Values(ButLast(f.rest)))
    ensures Remove(f, x).Cons? && Values(ButLast(Remove(f, x).rest)) == Remove(Values(ButLast(f.rest)), x.data)
    ensures Distinct(Values(ButLast(Remove(f, x).rest)))
  {
    var inner := ButLast(f.rest);
    InnerItems(f.rest, feet);
    DistinctIsFaithful(inner);
    ButLastRemove(f.rest, x, feet);
    ValuesRemove(inner, x, Items(inner));
    DataOfItems(inner);
    RemoveItems(Values(inner), x.data);
  }

  /** Copy the branch of `x`. `from` is the root of the temporary tree, which holds the clones
      in the shape of that branch. */
  method CopyBranch<T>(t: Tree<T>, parent: Node?<T>, src: Tree<T>, from: Node<T>, dummy: T, ghost x: Node<T>,
                       ghost clones: seq<T>)
    requires OneNodeEach(t) && Inside(t, x) && (parent != null ==> Inside(t, parent))
    requires src.Valid() && from in src.members && t.members !! src.members
    requires |clones| == Size(Values(Branch(t.chain, x))) && NoRepeat(clones)
    requires forall c | c in clones :: c !in Items(Values(Inner(t)))
    requires Values(Branch(src.chain, from)) == Rebuild(Values(Branch(t.chain, x)), clones)
    modifies t`chain, t`members, t.members`prev_sibling, t.members`next_sibling
    modifies t.members`first_child, t.members`last_child, t.members`live
    ensures OneNodeEach(t)
    ensures x.data in Items(old(Values(Inner(t)))) && |clones| == Size(Branch(old(Values(Inner(t))), x.data))
    ensures Values(Inner(t)) == Planted(old(Values(Inner(t))), DataAt(parent),
                                        Rebuild(Branch(old(Values(Inner(t))), x.data), clones))
  {
    ghost var f, b := t.chain, Branch(src.chain, from);
    NotEmpty(f, t.head, t.feet, x);
    var ns := GraftCopy(t, parent, from, src, dummy);
    PlantedValues(f, t.head, t.feet, parent, Rebuild(b, ns));
    ValuesRebuild(b, ns);
    BranchInside(f, t.head, t.feet, x);
    ParentInside(f, t.head, t.feet, parent);
    RebuildItems(Values(Branch(f, x)), clones);
    PlantedDistinct(Values(ButLast(f.rest)), DataAt(parent), Rebuild(Values(Branch(f, x)), clones));
  }

  /** A node between the sentinels holds one of the filters. */
  lemma ParentInside<T>(f: Forest<Node<T>>, head: Node<T>, feet: Node<T>, parent: Node?<T>)
    requires Shaped(f, head, feet) && (parent != null ==> parent in Items(f) && parent != head && parent != feet)
    ensures parent != null ==> parent.data in Items(Values(ButLast(f.rest)))
  {
    InnerItems(f.rest, feet);
    DataOfItems(ButLast(f.rest));
  }

  lemma NotEmpty<T>(f: Forest<Node<T>>, head: Node<T>, feet: Node<T>, x: Node<T>)
    requires Shaped(f, head, feet) && x in Items(f) && x != head && x != feet
    ensures f.rest.item != feet
  {
    if f.rest.item == feet { LastAlone(f.rest, feet); }
  }

  /** The branch of a node, seen by the filters. */
  lemma BranchInside<T>(f: Forest<Node<T>>, head: Node<T>, feet: Node<T>, x: Node<T>)
    requires Shaped(f, head, feet) && x in Items(f) && x != head && x != feet && Distinct(Values(ButLast(f.rest)))
    ensures x.data in Items(Values(ButLast(f.rest)))
    ensures Branch(Values(ButLast(f.rest)), x.data) == Values(Branch(f, x))
  {
    var inner := ButLast(f.rest);
    InnerItems(f.rest, feet);
    DistinctIsFaithful(inner);
    ValuesKids(inner, x, Items(inner));
    assert Kids(f, x) == Kids(f.rest, x);
  }

  /** Move a branch. */
  method MoveBranch<T>(t: Tree<T>, move: Node<T>, parent: Node?<T>, dummy: T)
    requires OneNodeEach(t) && Inside(t, move) && (parent != null ==> Inside(t, parent))
    requires parent != null ==> parent !in Items(Branch(t.chain, move))
    modifies t`chain, t`members, t.members`prev_sibling, t.members`next_sibling
    modifies t.members`first_child, t.members`last_child, t.members`live
    ensures OneNodeEach(t) && move.data in Items(old(Values(Inner(t))))
    ensures Values(Inner(t)) == Moved(old(Values(Inner(t))), move.data, DataAt(parent))
  {
    ghost var f, b := t.chain, Branch(t.chain, move);
    NotEmpty(f, t.head, t.feet, move);
    ghost var ns := MoveByCopy(t, move, parent, dummy);
    ValuesRebuild(b, ns);
    PreItems(b);
    RebuildPre(b, ns);
    PreSet(Rebuild(b, ns));
    DistinctIsFaithful(ButLast(f.rest));
    MovedValues(f, t.head, t.feet, move, parent, Rebuild(b, ns));
    MovedDistinct(f, t.head, t.feet, move, parent);
  }

  /** After a move every filter is still held by one node. */
  lemma MovedDistinct<T>(f: Forest<Node<T>>, head: Node<T>, feet: Node<T>, move: Node<T>, parent: Node?<T>)
    requires Shaped(f, head, feet) && Distinct(Values(ButLast(f.rest)))
    requires move in Items(f) && move != head && move != feet
    requires parent != null ==> parent in Items(f) && parent != head && parent != feet
    requires parent != null ==> parent !in Items(Branch(f, move))
    ensures move.data in Items(Values(ButLast(f.rest)))
    ensures Distinct(Moved(Values(ButLast(f.rest)), move.data, DataAt(parent)))
  {
    var inner := ButLast(f.rest);
    BranchInside(f, head, feet, move);
    ParentInside(f, head, feet, parent);
    if parent != null {
      InnerItems(f.rest, feet);
      DistinctIsFaithful(inner);
      KidsItems(inner, move);
      assert Kids(f, move) == Kids(f.rest, move);
      ValuesHas(Branch(inner, move), parent, Items(inner));
    }
    MovedConserves(Values(inner), move.data, DataAt(parent));
  }
}
