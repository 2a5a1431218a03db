/** The nodes of the tree container, and surgery on their links in place. */
module TreeNodes {
  import opened Forests
  import opened LinkAlgebra
  import opened TreeShapes

  class Node<T> {
    var parent: Node?<T>
    var first_child: Node?<T>
    var last_child: Node?<T>
    var prev_sibling: Node?<T>
    var next_sibling: Node?<T>
    const data: T
    /** False once the node has been deallocated. */
    ghost var live: bool

    constructor (x: T)
      ensures data == x && live && Linked() == Link(None, None, None, None, None)
    {
      parent, first_child, last_child, prev_sibling, next_sibling := null, null, null, null, null;
      data := x;
      live := true;
    }

    method Deallocate()
      requires live
      modifies this`live
      ensures !live
    {
      live := false;
    }

    /** The links as they are in memory. */
    ghost function Linked(): Link<Node<T>>
      reads this`parent, this`first_child, this`last_child, this`prev_sibling, this`next_sibling
    {
      Link(ToNode(parent), ToNode(first_child), ToNode(last_child), ToNode(prev_sibling), ToNode(next_sibling))
    }
  }

  function ToNode<T>(n: Node?<T>): Option<Node<T>>
  {
    if n == null then None else Some(n)
  }

  /** The nodes are alive, and their links in memory are those of the forest. */
  ghost predicate LinkedAs<T>(f: Forest<Node<T>>, nodes: set<Node<T>>)
    reads nodes
  {
    nodes == Items(f) && forall n | n in nodes :: n.live && n.Linked() == Links(f, n)
  }

  method InsertIn<T>(ghost f: Forest<Node<T>>, ghost nodes: set<Node<T>>, ghost head: Node<T>, ghost feet: Node<T>,
                     position: Node<T>, x: T) returns (tmp: Node<T>, ghost g: Forest<Node<T>>)
    requires Shaped(f, head, feet) && LinkedAs(f, nodes) && position in nodes && position != head
    modifies nodes`prev_sibling, nodes`next_sibling, nodes`first_child
    ensures g == InsertBefore(f, position, Cons(tmp, Nil, Nil)) && fresh(tmp) && tmp.data == x
    ensures Shaped(g, head, feet) && LinkedAs(g, nodes + {tmp})
  {
    LinksMembers(f, position);
    tmp := LinkBefore(position, x, nodes);
    g := InsertBefore(f, position, Cons(tmp, Nil, Nil));
    InsertShape(f, position, tmp, g, head, feet);
  }

  /** Link a new node in before `position`. */
  method LinkBefore<T>(position: Node<T>, x: T, ghost nodes: set<Node<T>>) returns (tmp: Node<T>)
    requires position in nodes
    requires position.prev_sibling != null ==> position.prev_sibling in nodes
    requires position.parent != null ==> position.parent in nodes
    modifies nodes`prev_sibling, nodes`next_sibling, nodes`first_child
    ensures fresh(tmp) && tmp.data == x && tmp.live
    ensures tmp.Linked() == Link(old(position.Linked()).parent, None, None, old(position.Linked()).prev, Some(position))
    ensures forall n | n in nodes ::
              n.Linked() == WithBefore(n, old(n.Linked()), position, old(position.Linked()), tmp)
  {
    tmp := new Node(x);
    tmp.parent := position.parent;
    tmp.next_sibling := position;
    tmp.prev_sibling := position.prev_sibling;
    position.prev_sibling := tmp;
    if tmp.prev_sibling == null {
      if tmp.parent != null {
        tmp.parent.first_child := tmp;
      }
    } else {
      tmp.prev_sibling.next_sibling := tmp;
    }
  }

  method InsertAfterIn<T>(ghost f: Forest<Node<T>>, ghost nodes: set<Node<T>>, ghost head: Node<T>, ghost feet: Node<T>,
                          position: Node<T>, x: T) returns (tmp: Node<T>, ghost g: Forest<Node<T>>)
    requires Shaped(f, head, feet) && LinkedAs(f, nodes) && position in nodes && position != feet
    modifies nodes`prev_sibling, nodes`next_sibling, nodes`last_child
    ensures g == InsertAfter(f, position, Cons(tmp, Nil, Nil)) && fresh(tmp) && tmp.data == x
    ensures Shaped(g, head, feet) && LinkedAs(g, nodes + {tmp})
  {
    LinksMembers(f, position);
    tmp := LinkAfter(position, x, nodes);
    g := InsertAfter(f, position, Cons(tmp, Nil, Nil));
    AfterShape(f, position, tmp, g, head, feet);
  }

  /** Link a new node in after `position`. */
  method LinkAfter<T>(position: Node<T>, x: T, ghost nodes: set<Node<T>>) returns (tmp: Node<T>)
    requires position in nodes
    requires position.next_sibling != null ==> position.next_sibling in nodes
    requires position.parent != null ==> position.parent in nodes
    modifies nodes`prev_sibling, nodes`next_sibling, nodes`last_child
    ensures fresh(tmp) && tmp.data == x && tmp.live
    ensures tmp.Linked() == Link(old(position.Linked()).parent, None, None, Some(position), old(position.Linked()).next)
    ensures forall n | n in nodes ::
              n.Linked() == WithNext(n, old(n.Linked()), position, old(position.Linked()), tmp, tmp)
  {
    tmp := new Node(x);
    tmp.parent := position.parent;
    tmp.prev_sibling := position;
    tmp.next_sibling := position.next_sibling;
    position.next_sibling := tmp;
    if tmp.next_sibling == null {
      if tmp.parent != null {
        tmp.parent.last_child := tmp;
      }
    } else {
      tmp.next_sibling.prev_sibling := tmp;
    }
  }

  method AppendChildIn<T>(ghost f: Forest<Node<T>>, ghost nodes: set<Node<T>>, ghost head: Node<T>, ghost feet: Node<T>,
                          position: Node<T>, x: T) returns (tmp: Node<T>, ghost g: Forest<Node<T>>)
    requires Shaped(f, head, feet) && LinkedAs(f, nodes)
    requires position in nodes && position != head && position != feet
    modifies nodes`next_sibling, nodes`first_child, nodes`last_child
    ensures g == AppendKids(f, position, Cons(tmp, Nil, Nil)) && fresh(tmp) && tmp.data == x
    ensures Shaped(g, head, feet) && LinkedAs(g, nodes + {tmp})
    ensures forall n | n in nodes ::
              n.Linked() == WithKids(n, old(n.Linked()), position, old(position.Linked()), tmp, tmp)
  {
    LinksMembers(f, position);
    KidsBothEnds(f, position);
    tmp := LinkLast(position, x, nodes);
    g := AppendKids(f, position, Cons(tmp, Nil, Nil));
    KidShape(f, position, tmp, g, head, feet);
  }

  /** Link a new node in behind the children of `position`. */
  method LinkLast<T>(position: Node<T>, x: T, ghost nodes: set<Node<T>>) returns (tmp: Node<T>)
    requires position in nodes
    requires position.last_child != null ==> position.last_child in nodes && position.last_child != position
    requires position.first_child == null <==> position.last_child == null
    modifies nodes`next_sibling, nodes`first_child, nodes`last_child
    ensures fresh(tmp) && tmp.data == x && tmp.live
    ensures tmp.Linked() == Link(Some(position), None, None, old(position.Linked()).last, None)
    ensures forall n | n in nodes ::
              n.Linked() == WithKids(n, old(n.Linked()), position, old(position.Linked()), tmp, tmp)
  {
    tmp := new Node(x);
    tmp.parent := position;
    if position.last_child != null {
      position.last_child.next_sibling := tmp;
    } else {
      position.first_child := tmp;
    }
    tmp.prev_sibling := position.last_child;
    position.last_child := tmp;
    tmp.next_sibling := null;
  }

  method PrependChildIn<T>(ghost f: Forest<Node<T>>, ghost nodes: set<Node<T>>, ghost head: Node<T>,
                           ghost feet: Node<T>,
                           position: Node<T>, x: T) returns (tmp: Node<T>, ghost g: Forest<Node<T>>)
    requires Shaped(f, head, feet) && LinkedAs(f, nodes)
    requires position in nodes && position != head && position != feet
    modifies nodes`prev_sibling, nodes`first_child, nodes`last_child
    ensures g == PrependKids(f, position, Cons(tmp, Nil, Nil)) && fresh(tmp) && tmp.data == x
    ensures Shaped(g, head, feet) && LinkedAs(g, nodes + {tmp})
  {
    LinksMembers(f, position);
    KidsBothEnds(f, position);
    tmp := LinkFirst(position, x, nodes);
    g := PrependKids(f, position, Cons(tmp, Nil, Nil));
    PrependShape(f, position, tmp, g, head, feet);
  }

  /** Link a new node in before the children of `position`. */
  method LinkFirst<T>(position: Node<T>, x: T, ghost nodes: set<Node<T>>) returns (tmp: Node<T>)
    requires position in nodes
    requires position.first_child != null ==> position.first_child in nodes && position.first_child != position
    requires position.first_child == null <==> position.last_child == null
    modifies nodes`prev_sibling, nodes`first_child, nodes`last_child
    ensures fresh(tmp) && tmp.data == x && tmp.live
    ensures tmp.Linked() == Link(Some(position), None, None, None, old(position.Linked()).first)
    ensures forall n | n in nodes ::
              n.Linked() == WithFirst(n, old(n.Linked()), position, old(position.Linked()), tmp)
  {
    tmp := new Node(x);
    tmp.parent := position;
    if position.first_child != null {
      position.first_child.prev_sibling := tmp;
    } else {
      position.last_child := tmp;
    }
    tmp.next_sibling := position.first_child;
    position.first_child := tmp;
    tmp.prev_sibling := null;
  }

  // ----- erasing -----

  /** The chain `kids`, made of `nodes`, hangs below `it` in memory, all of it alive. */
  ghost predicate HangsBelow<T>(kids: Forest<Node<T>>, nodes: set<Node<T>>, it: Node<T>, prev: Option<Node<T>>)
    reads nodes
  {
    && Distinct(kids) && nodes == Items(kids) && it !in nodes
    && forall n | n in nodes :: n.live && n.Linked() == LinkAt(kids, Some(it), prev, None, n)
  }

  lemma TreesBelow<T>(left: Forest<Node<T>>, nodes: set<Node<T>>, it: Node<T>, prev: Option<Node<T>>,
                      below: set<Node<T>>, others: set<Node<T>>)
    requires left.Cons? && HangsBelow(left, nodes, it, prev) && below == Items(left.kids) && others == Items(left.rest)
    ensures left.item.live && ToNode(left.item.next_sibling) == FirstOr(left.rest, None)
    ensures ToNode(left.item.first_child) == FirstOr(left.kids, None)
    ensures HangsBelow(left.kids, below, left.item, None) && HangsBelow(left.rest, others, it, Some(left.item))
    ensures left.item !in below && left.item !in others && below !! others
    ensures nodes == {left.item} + below + others
  {
    assert left.item in Items(left);
  }

  /** Deallocate the first tree of a chain. */
  method EraseFirst<T>(node: Node<T>, ghost left: Forest<Node<T>>, ghost nodes: set<Node<T>>, ghost it: Node<T>,
                       ghost prev: Option<Node<T>>) returns (next: Node?<T>, ghost others: set<Node<T>>)
    requires left.Cons? && left.item == node && HangsBelow(left, nodes, it, prev)
    modifies nodes`first_child, nodes`last_child, nodes`live
    ensures ToNode(next) == FirstOr(left.rest, None) && HangsBelow(left.rest, others, it, Some(node))
    ensures others <= nodes && forall n | n in nodes && n !in others :: !n.live
    decreases Size(left), 0
  {
    ghost var below := Items(left.kids);
    others := Items(left.rest);
    TreesBelow(left, nodes, it, prev, below, others);
    next := node.next_sibling;
    EraseBelow(node, left.kids, below);
    node.Deallocate();
  }

  /** Deallocate every node below `it`, each exactly once. */
  method EraseBelow<T>(it: Node<T>, ghost kids: Forest<Node<T>>, ghost nodes: set<Node<T>>)
    requires HangsBelow(kids, nodes, it, None) && ToNode(it.first_child) == FirstOr(kids, None)
    modifies it`first_child, it`last_child, nodes`first_child, nodes`last_child, nodes`live
    ensures it.first_child == null && it.last_child == null
    ensures forall n | n in nodes :: !n.live
    decreases Size(kids), 1
  {
    var cur := it.first_child;
    ghost var left, left_nodes := kids, nodes;
    ghost var before: Option<Node<T>> := None;
    while cur != null
      invariant ToNode(cur) == FirstOr(left, None) && HangsBelow(left, left_nodes, it, before)
      invariant left_nodes <= nodes && Size(left) <= Size(kids)
      invariant forall n | n in nodes && n !in left_nodes :: !n.live
      decreases Size(left)
    {
      var prev: Node<T> := cur;
      cur, left_nodes := EraseFirst(prev, left, left_nodes, it, before);
      before, left := Some(prev), left.rest;
    }
    it.first_child := null;
    it.last_child := null;
  }

  method EraseChildrenIn<T>(ghost f: Forest<Node<T>>, ghost nodes: set<Node<T>>, ghost head: Node<T>,
                            ghost feet: Node<T>,
                            it: Node<T>) returns (ghost g: Forest<Node<T>>)
    requires Shaped(f, head, feet) && LinkedAs(f, nodes) && it in nodes
    modifies nodes`first_child, nodes`last_child, nodes`live
    ensures g == SetKids(f, it, Nil) && Shaped(g, head, feet)
    ensures LinkedAs(g, nodes - Items(Kids(f, it)))
    ensures forall n | n in nodes && n in Items(Kids(f, it)) :: !n.live
  {
    KidsLinks(f, it);
    KidsBothEnds(f, it);
    EraseBelow(it, Kids(f, it), Items(Kids(f, it)));
    g := SetKids(f, it, Nil);
    ChildlessShape(f, it, g, head, feet);
  }

  // ----- flatten -----

  /** The nodes of `roots` follow each other in memory, and `end` comes after them. */
  ghost predicate Linked<T>(roots: seq<Node<T>>, end: Node?<T>)
    reads roots
  {
    && NoRepeat(roots)
    && (forall i | 0 < i < |roots| :: roots[i - 1].next_sibling == roots[i])
    && (roots != [] ==> roots[|roots| - 1].next_sibling == end)
  }

  /** Give all nodes of a chain of siblings a new parent. */
  method LiftParents<T>(first: Node?<T>, up: Node?<T>, ghost roots: seq<Node<T>>)
    requires Linked(roots, null) && first == if roots == [] then null else roots[0]
    modifies roots`parent
    ensures forall n | n in roots :: n.parent == up
  {
    var tmp := first;
    ghost var i := 0;
    while tmp != null
      invariant i <= |roots| && tmp == if i < |roots| then roots[i] else null
      invariant forall j | 0 <= j < i :: roots[j].parent == up
      decreases |roots| - i
    {
      tmp.parent := up;
      tmp := tmp.next_sibling;
      i := i + 1;
    }
  }

  /** What links may be relied on around a node with children. */
  ghost predicate Surrounded<T>(position: Node<T>, nodes: set<Node<T>>)
    reads position, nodes
  {
    && position in nodes && position.first_child in nodes && position.last_child in nodes
    && (position.next_sibling == null ==> position.parent != null)
    && (position.next_sibling != null ==> position.next_sibling in nodes)
    && (position.parent != null ==> position.parent in nodes && position.parent != position)
    && position.first_child != position && position.last_child != position && position.next_sibling != position
    && position.last_child.next_sibling == null
    && position.first_child != position.next_sibling && position.last_child != position.next_sibling
    && position.last_child != position.parent
  }

  /** Link the children of `position` in after it. */
  method LinkLifted<T>(position: Node<T>, ghost nodes: set<Node<T>>)
    requires Surrounded(position, nodes)
    modifies nodes`prev_sibling, nodes`next_sibling, nodes`first_child, nodes`last_child
    ensures forall n | n in nodes ::
              n.Linked()
              == Lifted(n, old(n.Linked()), position, old(position.Linked())).(parent := old(n.Linked()).parent)
  {
    if position.next_sibling != null {
      position.last_child.next_sibling := position.next_sibling;
      position.next_sibling.prev_sibling := position.last_child;
    } else {
      position.parent.last_child := position.last_child;
    }
    position.next_sibling := position.first_child;
    position.next_sibling.prev_sibling := position;
    position.first_child := null;
    position.last_child := null;
  }

  /** Give the children of `position`, listed in `roots`, its own parent. */
  method RaiseChildren<T>(position: Node<T>, ghost nodes: set<Node<T>>, ghost roots: seq<Node<T>>)
    requires Surrounded(position, nodes) && Linked(roots, null) && roots != [] && position.first_child == roots[0]
    requires position !in roots && forall n | n in roots :: n in nodes
    modifies nodes`parent
    ensures Surrounded(position, nodes)
    ensures forall n | n in nodes :: n.Linked() == WithParent(n, old(n.Linked()), roots, old(position.Linked()).parent)
  {
    LiftParents(position.first_child, position.parent, roots);
  }

  /** Lift the children of `position`, listed in `roots`. */
  method LinkFlat<T>(position: Node<T>, ghost nodes: set<Node<T>>, ghost roots: seq<Node<T>>)
    requires Surrounded(position, nodes) && Linked(roots, null) && roots != [] && position.first_child == roots[0]
    requires position !in roots && forall n | n in roots :: n in nodes
    requires forall n | n in nodes :: n.parent == position <==> n in roots
    modifies nodes`parent, nodes`prev_sibling, nodes`next_sibling, nodes`first_child, nodes`last_child
    ensures forall n | n in nodes :: n.Linked() == Lifted(n, old(n.Linked()), position, old(position.Linked()))
  {
    ghost var at := position.Linked();
    RaiseChildren(position, nodes, roots);
    label Raised:
    LinkLifted(position, nodes);
    forall n | n in nodes ensures n.Linked() == Lifted(n, old(n.Linked()), position, at) {
      LiftedTwice(n, old(n.Linked()), position, at, roots, old@Raised(n.Linked()), n.Linked());
    }
  }

  method FlattenIn<T>(ghost f: Forest<Node<T>>, ghost nodes: set<Node<T>>, ghost head: Node<T>, ghost feet: Node<T>,
                      position: Node<T>) returns (ghost g: Forest<Node<T>>)
    requires Shaped(f, head, feet) && LinkedAs(f, nodes) && position in nodes
    modifies nodes`parent, nodes`prev_sibling, nodes`next_sibling, nodes`first_child, nodes`last_child
    ensures g == Flatten(f, position) && Shaped(g, head, feet) && LinkedAs(g, nodes)
  {
    g := Flatten(f, position);
    if position.first_child == null {
      KidsBothEnds(f, position);
      NothingToLift(f, position);
      return;
    }
    ghost var roots := Roots(Kids(f, position));
    FlatReady(f, nodes, head, feet, position, roots);
    LinkFlat(position, nodes, roots);
    FlattenShape(f, position, g, head, feet);
  }

  lemma FlatReady<T>(f: Forest<Node<T>>, nodes: set<Node<T>>, head: Node<T>, feet: Node<T>, position: Node<T>,
                     roots: seq<Node<T>>)
    requires Shaped(f, head, feet) && LinkedAs(f, nodes) && position in nodes && position.first_child != null
    requires roots == Roots(Kids(f, position))
    ensures Kids(f, position).Cons? && Surrounded(position, nodes)
    ensures roots != [] && position.first_child == roots[0] && position !in roots
    ensures forall n | n in roots :: n in nodes
    ensures Linked(roots, null)
    ensures forall n | n in nodes :: n.parent == position <==> n in roots
  {
    KidsBothEnds(f, position);
    LinksMembers(f, position);
    Around(f, position, head, feet);
    ChildList(f, position, Kids(f, position), roots);
    RootsListed(Kids(f, position));
    assert roots[|roots| - 1] in nodes && position.last_child == roots[|roots| - 1];
    assert position.last_child.Linked().next == Links(f, roots[|roots| - 1]).next == None;
  }

  // ----- moving -----

  /** What links may be relied on around the stretch from `first` to `last`. */
  ghost predicate Removable<T>(first: Node<T>, last: Node<T>, nodes: set<Node<T>>)
    reads first, last
  {
    && first in nodes && last in nodes
    && (first.prev_sibling == null ==> first.parent != null)
    && (last.next_sibling == null ==> last.parent != null)
    && (first.prev_sibling != null ==> first.prev_sibling in nodes)
    && (last.next_sibling != null ==> last.next_sibling in nodes)
    && (first.parent != null ==> first.parent in nodes) && last.parent == first.parent
    && first.prev_sibling != last && last.next_sibling != first
  }

  /** Take the stretch from `first` to `last` out of its chain. */
  method Unlink<T>(first: Node<T>, last: Node<T>, ghost nodes: set<Node<T>>)
    requires Removable(first, last, nodes)
    modifies nodes`prev_sibling, nodes`next_sibling, nodes`first_child, nodes`last_child
    ensures forall n | n in nodes :: n.Linked() == Without(n, old(n.Linked()), old(first.Linked()), old(last.Linked()))
  {
    if first.prev_sibling == null {
      first.parent.first_child := last.next_sibling;
    } else {
      first.prev_sibling.next_sibling := last.next_sibling;
    }
    if last.next_sibling == null {
      last.parent.last_child := first.prev_sibling;
    } else {
      last.next_sibling.prev_sibling := first.prev_sibling;
    }
  }

  /** The nodes of a stretch that was taken out, with their links as they were. */
  ghost predicate CutOff<T>(seg: Forest<Node<T>>, nodes: set<Node<T>>, up: Option<Node<T>>, prev: Option<Node<T>>,
                            end: Option<Node<T>>)
    reads nodes
  {
    && Distinct(seg) && nodes == Items(seg)
    && forall n | n in nodes :: n.live && n.Linked() == LinkAt(seg, up, prev, end, n)
  }

  /** The stretch `seg`, made of `moved`, is taken out; its own links stay as they were. */
  method UnlinkIn<T>(ghost f: Forest<Node<T>>, ghost nodes: set<Node<T>>, ghost head: Node<T>, ghost feet: Node<T>,
                     first: Node<T>, last: Node<T>, ghost seg: Forest<Node<T>>, ghost rest: Forest<Node<T>>,
                     ghost roots: seq<Node<T>>, ghost moved: set<Node<T>>) returns (ghost g: Forest<Node<T>>)
    requires Shaped(f, head, feet) && LinkedAs(f, nodes) && Stretch(f, seg, rest) && roots == Roots(seg)
    requires head !in Items(seg) && feet !in Items(seg) && moved == Items(seg)
    requires roots != [] && first == roots[0] && last == roots[|roots| - 1]
    modifies nodes`prev_sibling, nodes`next_sibling, nodes`first_child, nodes`last_child
    ensures g == CutOut(f, seg, rest) && Shaped(g, head, feet) && moved <= nodes && LinkedAs(g, nodes - moved)
    ensures CutOff(seg, moved, old(first.Linked()).parent, old(first.Linked()).prev, old(last.Linked()).next)
  {
    UnlinkReady(f, nodes, head, feet, first, last, seg, rest, roots, moved);
    Unlink(first, last, nodes);
    g := CutOut(f, seg, rest);
    CutShape(f, seg, rest, last, g, head, feet);
  }

  lemma UnlinkReady<T>(f: Forest<Node<T>>, nodes: set<Node<T>>, head: Node<T>, feet: Node<T>, first: Node<T>,
                       last: Node<T>,
                       seg: Forest<Node<T>>, rest: Forest<Node<T>>, roots: seq<Node<T>>, moved: set<Node<T>>)
    requires Shaped(f, head, feet) && LinkedAs(f, nodes) && Stretch(f, seg, rest) && roots == Roots(seg)
    requires head !in Items(seg) && feet !in Items(seg) && moved == Items(seg)
    requires roots != [] && first == roots[0] && last == roots[|roots| - 1]
    ensures Removable(first, last, nodes) && seg.Cons? && seg.item == first && LastOr(seg, None) == Some(last)
    ensures moved <= nodes && CutOff(seg, moved, first.Linked().parent, first.Linked().prev, last.Linked().next)
    ensures forall n | n in moved :: first.prev_sibling != n && last.next_sibling != n && first.parent != n
  {
    StretchList(f, seg, rest, roots, head, feet);
    StretchLinks(f, seg, rest, last);
    LinksMembers(f, first);
    LinksMembers(f, last);
  }

  /** Find the last node before `end`, from `first` on. */
  method FindLast<T>(first: Node<T>, end: Node?<T>, ghost roots: seq<Node<T>>) returns (last: Node<T>)
    requires Linked(roots, end) && roots != [] && first == roots[0]
    requires forall j | 0 <= j < |roots| :: roots[j] != end
    ensures last == roots[|roots| - 1]
  {
    last := first;
    var begin := first.next_sibling;
    ghost var i := 0;
    while begin != end
      invariant i < |roots| && last == roots[i] && begin == if i + 1 < |roots| then roots[i + 1] else end
      decreases |roots| - i
    {
      last := last.next_sibling;
      begin := begin.next_sibling;
      i := i + 1;
    }
  }

  /** Give the nodes from `first` to `last` the parent `position`. */
  method SetParents<T>(first: Node<T>, last: Node<T>, position: Node<T>, ghost roots: seq<Node<T>>)
    requires Linked(roots, null) && roots != [] && first == roots[0] && last == roots[|roots| - 1]
    modifies roots`parent
    ensures forall n | n in roots :: n.parent == position
  {
    var pos := first;
    ghost var i := 0;
    while true
      invariant i < |roots| && pos == roots[i]
      invariant forall j | 0 <= j < i :: roots[j].parent == position
      decreases |roots| - i
    {
      pos.parent := position;
      if pos == last { break; }
      pos := pos.next_sibling;
      i := i + 1;
    }
  }

  /** Hang the chain from `first` to `last` behind the children of `position`. */
  method LinkStretch<T>(position: Node<T>, first: Node<T>, last: Node<T>, ghost nodes: set<Node<T>>)
    requires position in nodes && first !in nodes && last !in nodes
    requires position.last_child != null ==> position.last_child in nodes && position.last_child != position
    requires position.first_child == null <==> position.last_child == null
    modifies nodes`next_sibling, nodes`first_child, nodes`last_child, first`prev_sibling, last`next_sibling
    ensures first.prev_sibling == old(position.last_child) && last.next_sibling == null
    ensures forall n | n in nodes ::
              n.Linked() == WithKids(n, old(n.Linked()), position, old(position.Linked()), first, last)
  {
    if position.first_child == null {
      position.first_child := first;
      position.last_child := last;
      first.prev_sibling := null;
    } else {
      position.last_child.next_sibling := first;
      first.prev_sibling := position.last_child;
      position.last_child := last;
    }
    last.next_sibling := null;
  }

  /** Hang a chain that was cut off behind the children of `position`: the links of all nodes. */
  method LinkUnder<T>(position: Node<T>, first: Node<T>, last: Node<T>, ghost nodes: set<Node<T>>,
                      ghost moved: set<Node<T>>, ghost roots: seq<Node<T>>)
    requires position in nodes && nodes !! moved && (forall n | n in roots :: n in moved)
    requires roots != [] && first == roots[0] && last == roots[|roots| - 1] && NoRepeat(roots)
    requires forall i | 0 <= i < |roots| - 1 :: roots[i].next_sibling == roots[i + 1]
    requires position.last_child != null ==> position.last_child in nodes && position.last_child != position
    requires position.first_child == null <==> position.last_child == null
    modifies nodes`next_sibling, nodes`first_child, nodes`last_child
    modifies moved`parent, moved`prev_sibling, moved`next_sibling
    ensures forall n | n in nodes ::
              n.Linked() == WithKids(n, old(n.Linked()), position, old(position.Linked()), first, last)
    ensures forall n | n in moved ::
              n.Linked() == Rehung(n, old(n.Linked()), roots, Some(position), old(position.Linked()).last, None)
  {
    LinkStretch(position, first, last, nodes);
    SetParents(first, last, position, roots);
  }

  method HangIn<T>(ghost f: Forest<Node<T>>, ghost nodes: set<Node<T>>, ghost head: Node<T>, ghost feet: Node<T>,
                   position: Node<T>, first: Node<T>, last: Node<T>, ghost seg: Forest<Node<T>>,
                   ghost moved: set<Node<T>>,
                   ghost roots: seq<Node<T>>, ghost up: Option<Node<T>>, ghost prev: Option<Node<T>>,
                   ghost end: Option<Node<T>>) returns (ghost g: Forest<Node<T>>)
    requires Shaped(f, head, feet) && LinkedAs(f, nodes) && position in nodes && position != head && position != feet
    requires CutOff(seg, moved, up, prev, end) && seg.Cons? && moved !! nodes && roots == Roots(seg)
    requires roots != [] && first == roots[0] && last == roots[|roots| - 1]
    modifies nodes`next_sibling, nodes`first_child, nodes`last_child
    modifies moved`parent, moved`prev_sibling, moved`next_sibling
    ensures g == AppendKids(f, position, seg) && Shaped(g, head, feet) && LinkedAs(g, nodes + moved)
  {
    HangReady(f, nodes, position, seg, moved, roots, up, prev, end);
    LinkUnder(position, first, last, nodes, moved, roots);
    g := AppendKids(f, position, seg);
    HungShape(f, seg, roots, position, g, head, feet);
    forall n | n in moved
      ensures LinkAt(seg, Some(position), Links(f, position).last, None, n)
           == Rehung(n, LinkAt(seg, up, prev, end, n), roots, Some(position), Links(f, position).last, None)
    {
      RehungIs(seg, roots, up, prev, end, Some(position), Links(f, position).last, None, n);
    }
  }

  lemma HangReady<T>(f: Forest<Node<T>>, nodes: set<Node<T>>, position: Node<T>, seg: Forest<Node<T>>,
                     moved: set<Node<T>>, roots: seq<Node<T>>, up: Option<Node<T>>, prev: Option<Node<T>>,
                     end: Option<Node<T>>)
    requires Distinct(f) && LinkedAs(f, nodes) && position in nodes
    requires CutOff(seg, moved, up, prev, end) && roots == Roots(seg)
    ensures (forall n | n in roots :: n in moved) && NoRepeat(roots)
    ensures forall i | 0 <= i < |roots| - 1 :: roots[i].next_sibling == roots[i + 1]
    ensures position.last_child != null ==> position.last_child in nodes && position.last_child != position
    ensures position.first_child == null <==> position.last_child == null
  {
    RootsListed(seg);
    LinksMembers(f, position);
    KidsBothEnds(f, position);
    forall i | 0 <= i < |roots| - 1 ensures roots[i].next_sibling == roots[i + 1] {
      RootsLinked(seg, up, prev, end, i);
      assert roots[i].Linked() == LinkAt(seg, up, prev, end, roots[i]);
    }
  }

  /** Move the stretch from `first` to `last` behind the children of `position`. */
  method MoveStretch<T>(ghost f: Forest<Node<T>>, ghost nodes: set<Node<T>>, ghost head: Node<T>, ghost feet: Node<T>,
                        position: Node<T>, first: Node<T>, last: Node<T>, ghost seg: Forest<Node<T>>,
                        ghost rest: Forest<Node<T>>, ghost roots: seq<Node<T>>) returns (ghost g: Forest<Node<T>>)
    requires Shaped(f, head, feet) && LinkedAs(f, nodes) && Stretch(f, seg, rest) && roots == Roots(seg)
    requires head !in Items(seg) && feet !in Items(seg)
    requires roots != [] && first == roots[0] && last == roots[|roots| - 1]
    requires position in nodes && position !in Items(seg) && position != head && position != feet
    modifies nodes`parent, nodes`prev_sibling, nodes`next_sibling, nodes`first_child, nodes`last_child
    ensures g == AppendKids(CutOut(f, seg, rest), position, seg) && Shaped(g, head, feet) && LinkedAs(g, nodes)
  {
    ghost var moved := Items(seg);
    ghost var af, al := first.Linked(), last.Linked();
    ghost var h := UnlinkIn(f, nodes, head, feet, first, last, seg, rest, roots, moved);
    g := HangIn(h, nodes - moved, head, feet, position, first, last, seg, moved, roots, af.parent, af.prev, al.next);
    assert nodes - moved + moved == nodes;
  }

  /** Move the siblings from `begin` up to `end` behind the children of `position`. */
  method ReparentIn<T>(ghost f: Forest<Node<T>>, ghost nodes: set<Node<T>>, ghost head: Node<T>, ghost feet: Node<T>,
                       position: Node<T>, begin: Node<T>, end: Node?<T>, ghost seg: Forest<Node<T>>,
                       ghost rest: Forest<Node<T>>) returns (ghost g: Forest<Node<T>>)
    requires Shaped(f, head, feet) && LinkedAs(f, nodes) && Stretch(f, seg, rest)
    requires head !in Items(seg) && feet !in Items(seg) && seg.item == begin && FirstOr(rest, None) == ToNode(end)
    requires position in nodes && position !in Items(seg) && position != head && position != feet
    modifies nodes`parent, nodes`prev_sibling, nodes`next_sibling, nodes`first_child, nodes`last_child
    ensures g == AppendKids(CutOut(f, seg, rest), position, seg) && Shaped(g, head, feet) && LinkedAs(g, nodes)
  {
    ghost var roots := Roots(seg);
    StretchReady(f, nodes, head, feet, end, seg, rest, roots);
    var last := FindLast(begin, end, roots);
    g := MoveStretch(f, nodes, head, feet, position, begin, last, seg, rest, roots);
  }

  lemma StretchReady<T>(f: Forest<Node<T>>, nodes: set<Node<T>>, head: Node<T>, feet: Node<T>, end: Node?<T>,
                        seg: Forest<Node<T>>, rest: Forest<Node<T>>, roots: seq<Node<T>>)
    requires Shaped(f, head, feet) && LinkedAs(f, nodes) && Stretch(f, seg, rest) && roots == Roots(seg)
    requires head !in Items(seg) && feet !in Items(seg) && FirstOr(rest, None) == ToNode(end)
    ensures roots != [] && roots[0] == seg.item && Linked(roots, end) && LastOr(seg, None) == Some(roots[|roots| - 1])
    ensures forall j | 0 <= j < |roots| :: roots[j] != end
  {
    StretchList(f, seg, rest, roots, head, feet);
    forall i | 0 <= i < |roots|
      ensures roots[i].next_sibling == (if i + 1 < |roots| then roots[i + 1] else end) && roots[i] != end
    {
      assert roots[i].Linked() == Links(f, roots[i]);
    }
  }

  /** Link a node that was cut off in after `dst`. */
  method LinkFollow<T>(dst: Node<T>, src: Node<T>, ghost nodes: set<Node<T>>)
    requires dst in nodes && src !in nodes
    requires dst.next_sibling == null ==> dst.parent != null
    requires dst.next_sibling != null ==> dst.next_sibling in nodes
    requires dst.parent != null ==> dst.parent in nodes
    modifies nodes`prev_sibling, nodes`next_sibling, nodes`last_child, src`parent, src`prev_sibling, src`next_sibling
    ensures src.Linked() == Link(old(dst.Linked()).parent, old(src.Linked()).first, old(src.Linked()).last,
                                 Some(dst), old(dst.Linked()).next)
    ensures forall n | n in nodes :: n.Linked() == WithNext(n, old(n.Linked()), dst, old(dst.Linked()), src, src)
  {
    if dst.next_sibling != null {
      dst.next_sibling.prev_sibling := src;
    } else {
      dst.parent.last_child := src;
    }
    src.next_sibling := dst.next_sibling;
    dst.next_sibling := src;
    src.prev_sibling := dst;
    src.parent := dst.parent;
  }

  method FollowIn<T>(ghost f: Forest<Node<T>>, ghost nodes: set<Node<T>>, ghost head: Node<T>, ghost feet: Node<T>,
                     dst: Node<T>, src: Node<T>, ghost branch: Forest<Node<T>>, ghost moved: set<Node<T>>,
                     ghost up: Option<Node<T>>, ghost prev: Option<Node<T>>, ghost end: Option<Node<T>>)
    returns (ghost g: Forest<Node<T>>)
    requires Shaped(f, head, feet) && LinkedAs(f, nodes) && dst in nodes && dst != feet
    requires branch.Cons? && branch == Cons(src, branch.kids, Nil) && CutOff(branch, moved, up, prev, end)
    requires moved !! nodes
    modifies nodes`prev_sibling, nodes`next_sibling, nodes`last_child, src`parent, src`prev_sibling, src`next_sibling
    ensures g == InsertAfter(f, dst, branch) && Shaped(g, head, feet) && LinkedAs(g, nodes + moved)
  {
    NotEdge(f, dst, head, feet);
    LinksMembers(f, dst);
    assert src in moved;
    LinkFollow(dst, src, nodes);
    g := InsertAfter(f, dst, branch);
    FollowShape(f, src, branch.kids, dst, g, head, feet);
  }

  /** Move the tree of `src` to stand after `dst`. */
  method MoveAfterIn<T>(ghost f: Forest<Node<T>>, ghost nodes: set<Node<T>>, ghost head: Node<T>, ghost feet: Node<T>,
                        dst: Node<T>, src: Node<T>) returns (ghost g: Forest<Node<T>>)
    requires Shaped(f, head, feet) && LinkedAs(f, nodes) && src in nodes && src != head && src != feet
    requires dst in nodes && dst != feet && dst !in Items(Branch(f, src))
    modifies nodes`parent, nodes`prev_sibling, nodes`next_sibling, nodes`first_child, nodes`last_child
    ensures g == InsertAfter(Remove(f, src), dst, Branch(f, src)) && Shaped(g, head, feet) && LinkedAs(g, nodes)
  {
    ghost var branch, moved, at := Branch(f, src), Items(Branch(f, src)), src.Linked();
    OneTree(f, src);
    SentinelsApart(f, src, head, feet);
    ghost var h := UnlinkIn(f, nodes, head, feet, src, src, branch, Suffix(f, src).rest, [src], moved);
    g := FollowIn(h, nodes - moved, head, feet, dst, src, branch, moved, at.parent, at.prev, at.next);
    assert nodes - moved + moved == nodes;
  }

  /** Erase the tree of `cur`. */
  method EraseIn<T>(ghost f: Forest<Node<T>>, ghost nodes: set<Node<T>>, ghost head: Node<T>, ghost feet: Node<T>,
                    cur: Node<T>) returns (ghost g: Forest<Node<T>>)
    requires Shaped(f, head, feet) && LinkedAs(f, nodes) && cur in nodes && cur != head && cur != feet
    modifies nodes`prev_sibling, nodes`next_sibling, nodes`first_child, nodes`last_child, nodes`live
    ensures g == Remove(f, cur) && Shaped(g, head, feet) && LinkedAs(g, nodes - Items(Branch(f, cur)))
    ensures forall n | n in nodes && n in Items(Branch(f, cur)) :: !n.live
  {
    ghost var h := EraseChildrenIn(f, nodes, head, feet, cur);
    RemoveChildless(f, cur);
    KidsItems(f, cur);
    OneTree(h, cur);
    SingleItems(cur);
    ghost var others := nodes - Items(Kids(f, cur));
    g := UnlinkIn(h, others, head, feet, cur, cur, Branch(h, cur), Suffix(h, cur).rest, [cur], {cur});
    cur.Deallocate();
    assert others - {cur} == nodes - Items(Branch(f, cur));
  }

  /** Put a new node in the place of `position`, and `position` below it. */
  method WrapIn<T>(ghost f: Forest<Node<T>>, ghost nodes: set<Node<T>>, ghost head: Node<T>, ghost feet: Node<T>,
                   position: Node<T>, x: T) returns (ret: Node<T>, ghost g: Forest<Node<T>>)
    requires Shaped(f, head, feet) && LinkedAs(f, nodes) && position in nodes && position != head && position != feet
    modifies nodes`parent, nodes`prev_sibling, nodes`next_sibling, nodes`first_child, nodes`last_child
    ensures fresh(ret) && ret.data == x
    ensures g == Wrapped(f, position, ret) && Shaped(g, head, feet) && LinkedAs(g, nodes + {ret})
  {
    var to := position.next_sibling;
    assert ToNode(to) == Links(f, position).next;
    ghost var h;
    ret, h := InsertIn(f, nodes, head, feet, position, x);
    WrapReady(f, position, ret, h, head, feet);
    SentinelsApart(h, position, head, feet);
    g := ReparentIn(h, nodes + {ret}, head, feet, ret, position, to, Branch(h, position), Suffix(h, position).rest);
  }
}
