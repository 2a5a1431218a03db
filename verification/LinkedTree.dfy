/** The n-ary tree container: a forest of linked nodes between two sentinels. */
module LinkedTree {
  import opened Forests
  import opened LinkAlgebra
  import opened TreeShapes
  import opened TreeNodes

  class Tree<T> {
    const head: Node<T>
    const feet: Node<T>
    /** All nodes: the roots of the tree, with the two sentinels at the ends. */
    ghost var chain: Forest<Node<T>>
    ghost var members: set<Node<T>>

    /** The links of all nodes are those of the forest. */
    ghost predicate Valid()
      reads this, members
    {
      Shaped(chain, head, feet) && LinkedAs(chain, members)
    }

    constructor (x: T)
      ensures Valid() && fresh(members) && chain == Cons(head, Nil, Cons(feet, Nil, Nil))
    {
      var h := new Node(x);
      var f := new Node(x);
      h.next_sibling := f;
      f.prev_sibling := h;
      EmptyTree(h, f);
      head, feet, members := h, f, {h, f};
      chain := Cons(h, Nil, Cons(f, Nil, Nil));
    }

    /** Insert a node before `position`. */
    method Insert(position: Node<T>, x: T) returns (tmp: Node<T>)
      requires Valid() && position in members && position != head
      modifies this`chain, this`members, members`prev_sibling, members`next_sibling, members`first_child
      ensures Valid() && fresh(tmp) && tmp.data == x && members == old(members) + {tmp}
      ensures chain == InsertBefore(old(chain), position, Cons(tmp, Nil, Nil))
    {
      ghost var g;
      tmp, g := InsertIn(chain, members, head, feet, position, x);
      chain := g;
      members := members + {tmp};
    }

    /** Insert a node after `position`. */
    method InsertAfterNode(position: Node<T>, x: T) returns (tmp: Node<T>)
      requires Valid() && position in members && position != feet
      modifies this`chain, this`members, members`prev_sibling, members`next_sibling, members`last_child
      ensures Valid() && fresh(tmp) && tmp.data == x && members == old(members) + {tmp}
      ensures chain == InsertAfter(old(chain), position, Cons(tmp, Nil, Nil))
    {
      ghost var g;
      tmp, g := InsertAfterIn(chain, members, head, feet, position, x);
      chain := g;
      members := members + {tmp};
    }

    /** Hang a node behind the children of `position`. */
    method AppendChild(position: Node<T>, x: T) returns (tmp: Node<T>)
      requires Valid() && position in members && position != head && position != feet
      modifies this`chain, this`members, members`next_sibling, members`first_child, members`last_child
      ensures Valid() && fresh(tmp) && tmp.data == x && members == old(members) + {tmp}
      ensures chain == AppendKids(old(chain), position, Cons(tmp, Nil, Nil))
    {
      ghost var g;
      tmp, g := AppendChildIn(chain, members, head, feet, position, x);
      chain := g;
      members := members + {tmp};
    }

    /** Hang a node before the children of `position`. */
    method PrependChild(position: Node<T>, x: T) returns (tmp: Node<T>)
      requires Valid() && position in members && position != head && position != feet
      modifies this`chain, this`members, members`prev_sibling, members`first_child, members`last_child
      ensures Valid() && fresh(tmp) && tmp.data == x && members == old(members) + {tmp}
      ensures chain == PrependKids(old(chain), position, Cons(tmp, Nil, Nil))
    {
      ghost var g;
      tmp, g := PrependChildIn(chain, members, head, feet, position, x);
      chain := g;
      members := members + {tmp};
    }

    /** Deallocate all nodes below `it`. */
    method EraseChildrenOf(it: Node<T>)
      requires Valid() && it in members
      modifies this`chain, this`members, members`first_child, members`last_child, members`live
      ensures Valid() && chain == SetKids(old(chain), it, Nil)
      ensures members == old(members) - Items(Kids(old(chain), it))
      ensures forall n | n in old(members) - members :: !n.live
    {
      ghost var g := EraseChildrenIn(chain, members, head, feet, it);
      members := members - Items(Kids(chain, it));
      chain := g;
    }

    /** Lift the children of `position` to its own level, right after it. */
    method FlattenAt(position: Node<T>)
      requires Valid() && position in members
      modifies this`chain, members`parent, members`prev_sibling, members`next_sibling
      modifies members`first_child, members`last_child
      ensures Valid() && members == old(members) && chain == Flatten(old(chain), position)
      ensures Pre(chain) == Pre(old(chain))
    {
      FlattenPre(chain, position);
      ghost var g := FlattenIn(chain, members, head, feet, position);
      chain := g;
    }

    /** Deallocate the tree of `cur`. */
    method Erase(cur: Node<T>)
      requires Valid() && cur in members && cur != head && cur != feet
      modifies this`chain, this`members, members`prev_sibling, members`next_sibling
      modifies members`first_child, members`last_child, members`live
      ensures Valid() && chain == Remove(old(chain), cur)
      ensures members == old(members) - Items(Branch(old(chain), cur))
      ensures forall n | n in old(members) - members :: !n.live
    {
      ghost var g := EraseIn(chain, members, head, feet, cur);
      members := members - Items(Branch(chain, cur));
      chain := g;
    }

    /** Move the siblings from `begin` up to `end` behind the children of `position`. The
        stretch `seg` they make must not hold `position`. */
    method Reparent(position: Node<T>, begin: Node<T>, end: Node?<T>, ghost seg: Forest<Node<T>>,
                    ghost rest: Forest<Node<T>>) returns (ret: Node<T>)
      requires Valid() && Stretch(chain, seg, rest) && head !in Items(seg) && feet !in Items(seg)
      requires seg.item == begin && FirstOr(rest, None) == ToNode(end)
      requires position in members && position !in Items(seg) && position != head && position != feet
      modifies this`chain, members`parent, members`prev_sibling, members`next_sibling
      modifies members`first_child, members`last_child
      ensures Valid() && members == old(members) && ret == begin
      ensures chain == AppendKids(CutOut(old(chain), seg, rest), position, seg)
    {
      ghost var g := ReparentIn(chain, members, head, feet, position, begin, end, seg, rest);
      chain := g;
      ret := begin;
    }

    /** Move all children of `from` behind those of `position`. */
    method ReparentChildren(position: Node<T>, from: Node<T>)
      requires Valid() && from in members && from != head && from != feet
      requires position in members && position !in Items(Kids(chain, from)) && position != head && position != feet
      modifies this`chain, members`parent, members`prev_sibling, members`next_sibling
      modifies members`first_child, members`last_child
      ensures Valid() && members == old(members)
      ensures chain == if Kids(old(chain), from).Nil? then old(chain)
                       else AppendKids(CutOut(old(chain), Kids(old(chain), from), Nil), position,
                                       Kids(old(chain), from))
    {
      KidsBothEnds(chain, from);
      if from.first_child == null { return; }
      AllChildren(chain, from);
      SentinelsApart(chain, from, head, feet);
      var ret := Reparent(position, from.first_child, null, Kids(chain, from), Nil);
    }

    /** Put a new node in the place of `position`, and `position` below it. */
    method Wrap(position: Node<T>, x: T) returns (ret: Node<T>)
      requires Valid() && position in members && position != head && position != feet
      modifies this`chain, this`members, members`parent, members`prev_sibling, members`next_sibling
      modifies members`first_child, members`last_child
      ensures Valid() && fresh(ret) && ret.data == x && members == old(members) + {ret}
      ensures chain == Wrapped(old(chain), position, ret)
    {
      ghost var g;
      ret, g := WrapIn(chain, members, head, feet, position, x);
      chain := g;
      members := members + {ret};
    }

    /** Move the tree of `source` to stand after `target`. */
    method MoveAfter(target: Node<T>, source: Node<T>)
      requires Valid() && source in members && source != head && source != feet
      requires target in members && target != feet && (target == source || target !in Items(Branch(chain, source)))
      modifies this`chain, members`parent, members`prev_sibling, members`next_sibling
      modifies members`first_child, members`last_child
      ensures Valid() && members == old(members)
      ensures chain == if target == source then old(chain)
                       else InsertAfter(Remove(old(chain), source), target, Branch(old(chain), source))
    {
      if target == source { return; }
      if target.next_sibling == source {
        AlreadyAfter(chain, target, source, None, None);
        return;
      }
      ghost var g := MoveAfterIn(chain, members, head, feet, target, source);
      chain := g;
    }
  }
}
