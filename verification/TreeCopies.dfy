/** Replacing a node of the tree container by a copy of a tree, and copying whole trees. */
module TreeCopies {
  import opened Forests
  import opened LinkAlgebra
  import opened TreeShapes
  import opened TreeNodes
  import opened TreeOrders
  import opened LinkedTree
  import opened CopyShapes

  /** Put a new node with data `x` where `position` is linked in. */
  method LinkSwap<T>(position: Node<T>, x: T, ghost nodes: set<Node<T>>) returns (tmp: Node<T>)
    requires position in nodes && position.prev_sibling != position && position.next_sibling != position
    requires position.prev_sibling != null ==> position.prev_sibling in nodes
    requires position.next_sibling != null ==> position.next_sibling in nodes
    requires position.parent != null ==> position.parent in nodes
    modifies nodes`prev_sibling, nodes`next_sibling, nodes`first_child, nodes`last_child
    ensures fresh(tmp) && tmp.data == x && tmp.live
    ensures tmp.Linked() == Link(old(position.Linked()).parent, None, None, old(position.Linked()).prev,
                                 old(position.Linked()).next)
    ensures forall n | n in nodes && n != position ::
              n.Linked() == Swapped(n, old(n.Linked()), old(position.Linked()), tmp)
  {
    tmp := new Node(x);
    if position.prev_sibling == null {
      if position.parent != null {
        position.parent.first_child := tmp;
      }
    } else {
      position.prev_sibling.next_sibling := tmp;
    }
    tmp.prev_sibling := position.prev_sibling;
    if position.next_sibling == null {
      if position.parent != null {
        position.parent.last_child := tmp;
      }
    } else {
      position.next_sibling.prev_sibling := tmp;
    }
    tmp.next_sibling := position.next_sibling;
    tmp.parent := position.parent;
  }

  lemma SwapShape<T>(f: Forest<T>, p: T, x: T, g: Forest<T>, head: T, feet: T)
    requires Shaped(f, head, feet) && p in Items(f) && p != head && p != feet && Kids(f, p).Nil? && x !in Items(f)
    requires g == ReplaceTree(f, p, Cons(x, Nil, Nil))
    ensures Shaped(g, head, feet) && Items(g) == Items(f) - {p} + {x}
    ensures Links(g, x) == Link(Links(f, p).parent, None, None, Links(f, p).prev, Links(f, p).next)
    ensures forall n | n in Items(f) && n != p :: Links(g, n) == Swapped(n, Links(f, n), Links(f, p), x)
  {
    var single := Cons(x, Nil, Nil);
    SingleItems(x);
    SingleItems(p);
    ReplaceItems(f, p, single);
    assert Items(single) !! Items(f);
    ReplacedLinks(f, p, single, x);
    ReplaceEndsWith(f.rest, p, single, feet);
    forall n | n in Items(f) && n != p ensures Links(g, n) == Swapped(n, Links(f, n), Links(f, p), x) {
      SwapLinksAt(f, p, x, n);
    }
  }

  lemma {:induction false} ReplaceEndsWith<T>(f: Forest<T>, p: T, g: Forest<T>, feet: T)
    requires EndsWith(f, feet) && p != feet
    ensures EndsWith(ReplaceTree(f, p, g), feet)
  {
    if f.rest.Cons? {
      if f.item == p { AppendEndsWith(g, f.rest, feet); } else { ReplaceEndsWith(f.rest, p, g, feet); }
    }
  }

  /** Put a new node in the place of a childless one. */
  method SwapLeaf<T>(ghost f: Forest<Node<T>>, ghost nodes: set<Node<T>>, ghost head: Node<T>, ghost feet: Node<T>,
                     position: Node<T>, x: T) returns (tmp: Node<T>, ghost g: Forest<Node<T>>)
    requires Shaped(f, head, feet) && LinkedAs(f, nodes) && position in nodes && position != head && position != feet
    requires Kids(f, position).Nil?
    modifies nodes`prev_sibling, nodes`next_sibling, nodes`first_child, nodes`last_child, position`live
    ensures fresh(tmp) && tmp.data == x && g == ReplaceTree(f, position, Cons(tmp, Nil, Nil))
    ensures Shaped(g, head, feet) && LinkedAs(g, nodes - {position} + {tmp}) && !position.live
  {
    LinksMembers(f, position);
    LinkRange(f, None, None, None, position);
    SelfNext(f, position);
    tmp := LinkSwap(position, x, nodes);
    position.Deallocate();
    g := ReplaceTree(f, position, Cons(tmp, Nil, Nil));
    SwapShape(f, position, tmp, g, head, feet);
  }

  /** Erase what is below `position` and put a new node in its place. */
  method SwapIn<T>(ghost f: Forest<Node<T>>, ghost nodes: set<Node<T>>, ghost head: Node<T>, ghost feet: Node<T>,
                   position: Node<T>, x: T) returns (tmp: Node<T>, ghost g: Forest<Node<T>>)
    requires Shaped(f, head, feet) && LinkedAs(f, nodes) && position in nodes && position != head && position != feet
    modifies nodes`prev_sibling, nodes`next_sibling, nodes`first_child, nodes`last_child, nodes`live
    ensures fresh(tmp) && tmp.data == x && g == ReplaceTree(f, position, Cons(tmp, Nil, Nil))
    ensures Shaped(g, head, feet) && LinkedAs(g, nodes - Items(Branch(f, position)) + {tmp})
    ensures forall n | n in nodes && n in Items(Branch(f, position)) :: !n.live
  {
    ghost var h := EraseChildrenIn(f, nodes, head, feet, position);
    ghost var others := nodes - Items(Kids(f, position));
    RemoveChildless(f, position);
    KidsItems(f, position);
    tmp, g := SwapLeaf(h, others, head, feet, position, x);
    ReplaceChildless(f, position, Cons(tmp, Nil, Nil));
    assert others - {position} + {tmp} == nodes - Items(Branch(f, position)) + {tmp};
  }

  lemma SelfNext<T>(f: Forest<T>, p: T)
    requires Distinct(f) && p in Items(f)
    ensures Links(f, p).next != Some(p)
  {
    Unchanged(f, p);
  }

  // ----- the copying walk -----

  /** The tree `b` with data `ds`, made of `nodes` and rooted at `from`, as the walk may
      read it. */
  ghost predicate Source<T>(b: Forest<Node<T>>, ds: seq<T>, nodes: set<Node<T>>, from: Node<T>, last: Node?<T>)
    reads nodes
  {
    && b.Cons? && b.item == from && b.rest.Nil? && Distinct(b) && nodes == Items(b) && from in nodes
    && from.next_sibling == last && (last != null ==> last !in nodes)
    && ToNode(from.first_child) == FirstOr(b.kids, None)
    && (forall n | n in nodes && n != from :: n.Linked() == Links(b, n))
    && |ds| == |Pre(b)| && forall i | 0 <= i < |ds| :: Pre(b)[i] in nodes && Pre(b)[i].data == ds[i]
  }

  /** The first |ns| nodes of `b` have been copied to where `p` stood in `f`; the copies
      are none of the nodes `taken` before. */
  ghost predicate Copying<T>(f: Forest<Node<T>>, p: Node<T>, head: Node<T>, feet: Node<T>, b: Forest<Node<T>>,
                             ds: seq<T>, taken: set<Node<T>>, ns: seq<Node<T>>, h: Forest<Node<T>>, nodes: set<Node<T>>)
    reads nodes
  {
    && Distinct(f) && p in Items(f) && head in Items(f) && feet in Items(f)
    && Distinct(b) && b.Cons? && b.rest.Nil? && NoRepeat(ns) && 1 <= |ns| <= |Pre(b)|
    && h == ReplaceTree(f, p, Rebuild(b, ns)) && Shaped(h, head, feet) && LinkedAs(h, nodes)
    && Items(f) <= taken && Items(b) <= taken && (forall n | n in ns :: n in nodes && n !in taken)
    && |ds| == |Pre(b)| && forall i | 0 <= i < |ns| :: ns[i].data == ds[i]
  }

  lemma CopyApart<T>(f: Forest<T>, b: Forest<T>, ns: seq<T>)
    requires NoRepeat(ns) && |ns| <= |Pre(b)| && forall n | n in ns :: n !in Items(f)
    ensures |Pre(b)| == Size(b) && Distinct(Rebuild(b, ns)) && Items(Rebuild(b, ns)) == SetOf(ns)
    ensures SetOf(ns) !! Items(f)
  {
    PreItems(b);
    RebuildItems(b, ns);
  }

  /** In the copy, parents are the copies of parents. */
  lemma CopiedParent<T>(f: Forest<Node<T>>, p: Node<T>, head: Node<T>, feet: Node<T>, b: Forest<Node<T>>,
                        ds: seq<T>, taken: set<Node<T>>, ns: seq<Node<T>>, h: Forest<Node<T>>,
                        nodes: set<Node<T>>, c: nat) returns (q: nat)
    requires Copying(f, p, head, feet, b, ds, taken, ns, h, nodes) && 1 <= c < |ns|
    ensures q < c && Pre(b)[c] in Items(b) && Links(b, Pre(b)[c]).parent == Some(Pre(b)[q])
    ensures ns[c].parent == ns[q]
  {
    var up := Links(f, p).parent;
    var g := Rebuild(b, ns);
    CopyApart(f, b, ns);
    q := ImageParent(b, ns, c, None, up);
    NotFirst(b, c);
    UpStep(b, Pre(b)[c]);
    assert ns[c] in SetOf(ns);
    ReplacedLinks(f, p, g, ns[c]);
    ParentLink(g, up, Links(f, p).prev, Links(f, p).next, ns[c]);
    assert ns[c] in ns && ns[c].Linked() == Links(h, ns[c]);
  }

  lemma NotFirst<T>(b: Forest<T>, c: nat)
    requires Distinct(b) && b.Cons? && b.rest.Nil? && 1 <= c < |Pre(b)|
    ensures !IsRoot(b, Pre(b)[c]) && Pre(b)[c] != b.item
  {
    DistinctPre(b);
    assert Pre(b)[0] == b.item;
  }

  /** Climb from both nodes until the original has a next sibling or is `from`. */
  method ClimbBoth<T>(from: Node<T>, last: Node?<T>, current0: Node<T>, toit0: Node<T>,
                      ghost f: Forest<Node<T>>, ghost p: Node<T>, ghost head: Node<T>, ghost feet: Node<T>,
                      ghost b: Forest<Node<T>>, ghost ds: seq<T>, ghost bnodes: set<Node<T>>,
                      ghost taken: set<Node<T>>, ghost ns: seq<Node<T>>,
                      ghost h: Forest<Node<T>>, ghost nodes: set<Node<T>>, ghost c0: nat)
    returns (current: Node<T>, toit: Node<T>, ghost c: nat)
    requires Source(b, ds, bnodes, from, last) && Copying(f, p, head, feet, b, ds, taken, ns, h, nodes)
    requires c0 < |ns| && Pre(b)[c0] == current0 && ns[c0] == toit0
    ensures c < |ns| && Pre(b)[c] == current && ns[c] == toit && current in bnodes && current0 in bnodes
    ensures current == from || current.next_sibling != null
    ensures NextAfter(b, current0, None) == NextAfter(b, current, None)
  {
    current, toit, c := current0, toit0, c0;
    PreItems(b);
    while current.next_sibling == null && current != from
      invariant c < |ns| && Pre(b)[c] == current && ns[c] == toit && current in bnodes && current0 in bnodes
      invariant NextAfter(b, current0, None) == NextAfter(b, current, None)
      decreases c
    {
      ghost var q := CopiedParent(f, p, head, feet, b, ds, taken, ns, h, nodes, c);
      ClimbStep(b, None, None, None, current);
      current := current.parent;
      toit := toit.parent;
      c := q;
    }
  }

  /** Where the next copy goes: below the copy of the parent. */
  lemma NextCopy<T>(f: Forest<T>, p: T, b: Forest<T>, ns: seq<T>, h: Forest<T>, c: nat, x: T)
    requires Distinct(f) && p in Items(f) && Distinct(b) && b.Cons? && b.rest.Nil?
    requires NoRepeat(ns) && 1 <= |ns| < |Pre(b)| && c < |ns| && ns[c] !in Items(f)
    requires Pre(b)[|ns|] in Items(b) && Links(b, Pre(b)[|ns|]).parent == Some(Pre(b)[c])
    requires h == ReplaceTree(f, p, Rebuild(b, ns))
    ensures AppendKids(h, ns[c], Cons(x, Nil, Nil)) == ReplaceTree(f, p, Rebuild(b, ns + [x]))
  {
    var y := Pre(b)[|ns|];
    var q := RebuildGrows(b, ns, x, None);
    NotFirst(b, |ns|);
    UpStep(b, y);
    DistinctPre(b);
    assert q == c;
    ReplaceGrows(f, p, Rebuild(b, ns), ns[c], Cons(x, Nil, Nil));
  }

  /** The children of a copy are copies. */
  lemma CopiedChildren<T>(f: Forest<T>, p: T, b: Forest<T>, ns: seq<T>, h: Forest<T>, n: T)
    requires Distinct(f) && p in Items(f) && NoRepeat(ns) && |ns| <= |Pre(b)| && (forall x | x in ns :: x !in Items(f))
    requires h == ReplaceTree(f, p, Rebuild(b, ns)) && n in ns
    ensures n in Items(h) && Links(h, n).last.Some? ==> Links(h, n).last.value in ns
  {
    var g, at := Rebuild(b, ns), Links(f, p);
    CopyApart(f, b, ns);
    assert n in SetOf(ns);
    ReplacedLinks(f, p, g, n);
    LinksStay(g, at.parent, at.prev, at.next, n);
  }

  /** Hang a new node below `under` without touching the links of `others`. */
  method AppendKeep<T>(under: Node<T>, x: T, ghost h: Forest<Node<T>>, ghost nodes: set<Node<T>>, ghost head: Node<T>,
                       ghost feet: Node<T>, ghost others: set<Node<T>>) returns (tmp: Node<T>, ghost g: Forest<Node<T>>)
    requires Shaped(h, head, feet) && LinkedAs(h, nodes) && under in nodes && under != head && under != feet
    requires under !in others && (under.last_child != null ==> under.last_child !in others)
    modifies nodes`next_sibling, nodes`first_child, nodes`last_child
    ensures g == AppendKids(h, under, Cons(tmp, Nil, Nil)) && fresh(tmp) && tmp.data == x
    ensures Shaped(g, head, feet) && LinkedAs(g, nodes + {tmp})
    ensures forall n | n in others :: n.Linked() == old(n.Linked())
  {
    tmp, g := AppendChildIn(h, nodes, head, feet, under, x);
  }

  /** Hang a new node below `under` without touching what the walk reads. */
  method AppendApart<T>(under: Node<T>, x: T, ghost h: Forest<Node<T>>, ghost nodes: set<Node<T>>, ghost head: Node<T>,
                        ghost feet: Node<T>, ghost b: Forest<Node<T>>, ghost ds: seq<T>, ghost bnodes: set<Node<T>>,
                        ghost from: Node<T>, ghost last: Node?<T>) returns (tmp: Node<T>, ghost g: Forest<Node<T>>)
    requires Shaped(h, head, feet) && LinkedAs(h, nodes) && under in nodes && under != head && under != feet
    requires Source(b, ds, bnodes, from, last)
    requires under !in bnodes && (under.last_child != null ==> under.last_child !in bnodes)
    modifies nodes`next_sibling, nodes`first_child, nodes`last_child
    ensures g == AppendKids(h, under, Cons(tmp, Nil, Nil)) && fresh(tmp) && tmp.data == x
    ensures Shaped(g, head, feet) && LinkedAs(g, nodes + {tmp})
    ensures Source(b, ds, bnodes, from, last)
  {
    tmp, g := AppendKeep(under, x, h, nodes, head, feet, bnodes);
    assert from.Linked() == old(from.Linked());
  }

  lemma CopyingGrows<T>(f: Forest<Node<T>>, p: Node<T>, head: Node<T>, feet: Node<T>, b: Forest<Node<T>>, ds: seq<T>,
                        taken: set<Node<T>>, ns: seq<Node<T>>, tmp: Node<T>, g: Forest<Node<T>>, nodes: set<Node<T>>)
    requires Distinct(f) && p in Items(f) && head in Items(f) && feet in Items(f)
    requires Distinct(b) && b.Cons? && b.rest.Nil? && NoRepeat(ns) && |ns| < |Pre(b)| == |ds|
    requires Items(f) <= taken && Items(b) <= taken && forall n | n in ns :: n in nodes && n !in taken
    requires forall i | 0 <= i < |ns| :: ns[i].data == ds[i]
    requires tmp !in taken && tmp !in nodes && tmp.data == ds[|ns|]
    requires g == ReplaceTree(f, p, Rebuild(b, ns + [tmp])) && Shaped(g, head, feet) && LinkedAs(g, nodes + {tmp})
    ensures Copying(f, p, head, feet, b, ds, taken, ns + [tmp], g, nodes + {tmp})
  {
    assert tmp !in ns;
    OneMoreCopy(ns, tmp, taken);
    assert |ns + [tmp]| == |ns| + 1 && (ns + [tmp])[|ns|] == tmp;
  }

  lemma OneMoreCopy<T>(ns: seq<T>, x: T, taken: set<T>)
    requires NoRepeat(ns) && x !in ns && x !in taken && forall n | n in ns :: n !in taken
    ensures NoRepeat(ns + [x]) && forall n | n in ns + [x] :: n !in taken
  {
  }

  /** Copy the next node of `b` below `under`, the copy of its parent. */
  method AttachCopy<T>(under: Node<T>, x: T, ghost from: Node<T>, ghost last: Node?<T>,
                       ghost f: Forest<Node<T>>, ghost p: Node<T>, ghost head: Node<T>, ghost feet: Node<T>,
                       ghost b: Forest<Node<T>>, ghost ds: seq<T>, ghost bnodes: set<Node<T>>,
                       ghost taken: set<Node<T>>, ghost ns: seq<Node<T>>,
                       ghost h: Forest<Node<T>>, ghost nodes: set<Node<T>>, ghost c: nat)
    returns (tmp: Node<T>, ghost g: Forest<Node<T>>)
    requires Source(b, ds, bnodes, from, last) && Copying(f, p, head, feet, b, ds, taken, ns, h, nodes)
    requires |ns| < |Pre(b)| && x == ds[|ns|] && c < |ns| && ns[c] == under && bnodes <= taken
    requires Pre(b)[|ns|] in Items(b) && Links(b, Pre(b)[|ns|]).parent == Some(Pre(b)[c])
    modifies nodes`next_sibling, nodes`first_child, nodes`last_child
    ensures fresh(tmp) && Source(b, ds, bnodes, from, last)
    ensures Copying(f, p, head, feet, b, ds, taken, ns + [tmp], g, nodes + {tmp})
  {
    assert under in ns;
    CopiedChildren(f, p, b, ns, h, under);
    tmp, g := AppendApart(under, x, h, nodes, head, feet, b, ds, bnodes, from, last);
    NextCopy(f, p, b, ns, h, c, tmp);
    CopyingGrows(f, p, head, feet, b, ds, taken, ns, tmp, g, nodes);
  }

  /** The node to copy next is the first child of the one copied last. */
  lemma DownNext<T>(b: Forest<T>, n: T, j: nat)
    requires Distinct(b) && 1 <= j <= |Pre(b)| && Pre(b)[j - 1] == n && n in Items(b) && Kids(b, n).Cons?
    ensures j < |Pre(b)| && Pre(b)[j] == Kids(b, n).item && Pre(b)[j] in Items(b)
    ensures Links(b, Pre(b)[j]).parent == Some(n)
  {
    TableRows(b, 0);
    PreSucc(b, Table(b, 0), j - 1);
    FirstChildLinks(b, n);
  }

  /** The node to copy next follows the branch of the one copied last. */
  lemma OnNext<T>(b: Forest<T>, n: T, j: nat)
    requires Distinct(b) && 1 <= j <= |Pre(b)| && Pre(b)[j - 1] == n && n in Items(b) && Kids(b, n).Nil?
    ensures NextAfter(b, n, None) == if j < |Pre(b)| then Some(Pre(b)[j]) else None
  {
    TableRows(b, 0);
    PreSucc(b, Table(b, 0), j - 1);
  }

  lemma {:induction false} SiblingParent<T>(f: Forest<T>, up: Option<T>, prev: Option<T>, n: T)
    requires Distinct(f) && n in Items(f)
    ensures var l := LinkAt(f, up, prev, None, n);
            l.next.Some? ==> l.next.value in Items(f) && LinkAt(f, up, prev, None, l.next.value).parent == l.parent
  {
    var Cons(m, k, r) := f;
    if m == n {
    } else if n in Items(k) {
      SiblingParent(k, Some(m), None, n);
    } else {
      SiblingParent(r, up, Some(m), n);
    }
  }

  /** One round of the copying walk after a leaf: climb, and copy the next sibling if the
      walk has not come back to `from`. */
  method CopyOn<T>(from: Node<T>, last: Node?<T>, current0: Node<T>, toit0: Node<T>,
                   ghost f: Forest<Node<T>>, ghost p: Node<T>, ghost head: Node<T>, ghost feet: Node<T>,
                   ghost b: Forest<Node<T>>, ghost ds: seq<T>, ghost bnodes: set<Node<T>>, ghost taken: set<Node<T>>,
                   ghost ns: seq<Node<T>>, ghost h: Forest<Node<T>>, ghost nodes: set<Node<T>>)
    returns (done: bool, current: Node<T>, toit: Node<T>, ghost ns': seq<Node<T>>, ghost g: Forest<Node<T>>,
             ghost nodes': set<Node<T>>)
    requires Source(b, ds, bnodes, from, last) && Copying(f, p, head, feet, b, ds, taken, ns, h, nodes)
    requires bnodes <= taken
    requires Pre(b)[|ns| - 1] == current0 && ns[|ns| - 1] == toit0 && current0 in bnodes && Kids(b, current0).Nil?
    modifies nodes`next_sibling, nodes`first_child, nodes`last_child
    ensures Source(b, ds, bnodes, from, last) && Copying(f, p, head, feet, b, ds, taken, ns', g, nodes')
    ensures fresh(nodes' - nodes) && ns'[0] == ns[0]
    ensures if done then |ns'| == |ns| == |Pre(b)| else |ns'| == |ns| + 1
    ensures Pre(b)[|ns'| - 1] == current && ns'[|ns'| - 1] == toit && current in bnodes
  {
    ghost var c;
    var cur, under;
    current, toit, ns', g, nodes' := current0, toit0, ns, h, nodes;
    cur, under, c := ClimbBoth(from, last, current0, toit0, f, p, head, feet, b, ds, bnodes, taken, ns, h, nodes,
                               |ns| - 1);
    OnNext(b, current0, |ns|);
    ClimbStep(b, None, None, None, cur);
    SiblingParent(b, None, None, cur);
    done := cur.next_sibling == last;
    if !done {
      DistinctPre(b);
      ghost var q := CopiedParent(f, p, head, feet, b, ds, taken, ns, h, nodes, c);
      current := cur.next_sibling;
      toit, g := AttachCopy(under.parent, current.data, from, last, f, p, head, feet, b, ds, bnodes, taken, ns, h,
                            nodes, q);
      ns', nodes' := ns + [toit], nodes + {toit};
      assert |ns'| - 1 == |ns| && ns'[|ns|] == toit && ns'[0] == ns[0];
    }
  }

  /** One round of the copying walk after a node with children: copy its first child. */
  method CopyDown<T>(from: Node<T>, last: Node?<T>, current0: Node<T>, toit0: Node<T>,
                     ghost f: Forest<Node<T>>, ghost p: Node<T>, ghost head: Node<T>, ghost feet: Node<T>,
                     ghost b: Forest<Node<T>>, ghost ds: seq<T>, ghost bnodes: set<Node<T>>, ghost taken: set<Node<T>>,
                     ghost ns: seq<Node<T>>, ghost h: Forest<Node<T>>, ghost nodes: set<Node<T>>)
    returns (current: Node<T>, toit: Node<T>, ghost g: Forest<Node<T>>)
    requires Source(b, ds, bnodes, from, last) && Copying(f, p, head, feet, b, ds, taken, ns, h, nodes)
    requires bnodes <= taken
    requires Pre(b)[|ns| - 1] == current0 && ns[|ns| - 1] == toit0 && current0 in bnodes && Kids(b, current0).Cons?
    requires ToNode(current0.first_child) == Some(Kids(b, current0).item)
    modifies nodes`next_sibling, nodes`first_child, nodes`last_child
    ensures Source(b, ds, bnodes, from, last) && fresh(toit)
    ensures Copying(f, p, head, feet, b, ds, taken, ns + [toit], g, nodes + {toit})
    ensures |ns| < |Pre(b)| && Pre(b)[|ns|] == current && current in bnodes
  {
    DownNext(b, current0, |ns|);
    current := current0.first_child;
    toit, g := AttachCopy(toit0, current.data, from, last, f, p, head, feet, b, ds, bnodes, taken, ns, h, nodes,
                          |ns| - 1);
  }

  lemma FirstOfSource<T>(b: Forest<Node<T>>, ds: seq<T>, nodes: set<Node<T>>, from: Node<T>, last: Node?<T>, n: Node<T>)
    requires Source(b, ds, nodes, from, last) && n in nodes
    ensures ToNode(n.first_child) == FirstOr(Kids(b, n), None)
  {
    KidsBothEnds(b, n);
  }

  /** One round of the copying walk. */
  method CopyRound<T>(from: Node<T>, last: Node?<T>, current0: Node<T>, toit0: Node<T>,
                      ghost f: Forest<Node<T>>, ghost p: Node<T>, ghost head: Node<T>, ghost feet: Node<T>,
                      ghost b: Forest<Node<T>>, ghost ds: seq<T>, ghost bnodes: set<Node<T>>, ghost taken: set<Node<T>>,
                      ghost ns: seq<Node<T>>, ghost h: Forest<Node<T>>, ghost nodes: set<Node<T>>)
    returns (done: bool, current: Node<T>, toit: Node<T>, ghost ns': seq<Node<T>>, ghost g: Forest<Node<T>>,
             ghost nodes': set<Node<T>>)
    requires Source(b, ds, bnodes, from, last) && Copying(f, p, head, feet, b, ds, taken, ns, h, nodes)
    requires bnodes <= taken
    requires Pre(b)[|ns| - 1] == current0 && ns[|ns| - 1] == toit0 && current0 in bnodes
    modifies nodes`next_sibling, nodes`first_child, nodes`last_child
    ensures Source(b, ds, bnodes, from, last) && Copying(f, p, head, feet, b, ds, taken, ns', g, nodes')
    ensures fresh(nodes' - nodes) && ns'[0] == ns[0]
    ensures if done then |ns'| == |ns| == |Pre(b)| else |ns'| == |ns| + 1
    ensures Pre(b)[|ns'| - 1] == current && ns'[|ns'| - 1] == toit && current in bnodes
  {
    FirstOfSource(b, ds, bnodes, from, last, current0);
    if current0.first_child != null {
      done := false;
      current, toit, g := CopyDown(from, last, current0, toit0, f, p, head, feet, b, ds, bnodes, taken, ns, h, nodes);
      ns', nodes' := ns + [toit], nodes + {toit};
    } else {
      done, current, toit, ns', g, nodes' :=
        CopyOn(from, last, current0, toit0, f, p, head, feet, b, ds, bnodes, taken, ns, h, nodes);
    }
  }

  /** Copy the tree of `from` node by node below `tmp`, which already copies `from`. */
  method CopyTree<T>(from: Node<T>, last: Node?<T>, tmp: Node<T>,
                     ghost f: Forest<Node<T>>, ghost p: Node<T>, ghost head: Node<T>, ghost feet: Node<T>,
                     ghost b: Forest<Node<T>>, ghost ds: seq<T>, ghost bnodes: set<Node<T>>, ghost taken: set<Node<T>>,
                     ghost h: Forest<Node<T>>, ghost nodes0: set<Node<T>>)
    returns (ghost ns: seq<Node<T>>, ghost g: Forest<Node<T>>, ghost nodes: set<Node<T>>)
    requires Source(b, ds, bnodes, from, last) && Copying(f, p, head, feet, b, ds, taken, [tmp], h, nodes0)
    requires bnodes <= taken
    modifies nodes0`next_sibling, nodes0`first_child, nodes0`last_child
    ensures Copying(f, p, head, feet, b, ds, taken, ns, g, nodes) && |ns| == |Pre(b)|
    ensures ns[0] == tmp && fresh(nodes - nodes0)
  {
    var current, toit, done := from, tmp, false;
    ns, g, nodes := [tmp], h, nodes0;
    assert Pre(b)[0] == from;
    while !done
      invariant Source(b, ds, bnodes, from, last) && Copying(f, p, head, feet, b, ds, taken, ns, g, nodes)
      invariant fresh(nodes - nodes0) && ns[0] == tmp
      invariant Pre(b)[|ns| - 1] == current && ns[|ns| - 1] == toit && current in bnodes
      invariant done ==> |ns| == |Pre(b)|
      decreases !done, |Pre(b)| - |ns|
    {
      done, current, toit, ns, g, nodes :=
        CopyRound(from, last, current, toit, f, p, head, feet, b, ds, bnodes, taken, ns, g, nodes);
    }
  }

  // ----- replacing a node by a copy -----

  /** A branch may be read by the walk when its tree is linked up. */
  lemma SourceReady<T>(f: Forest<Node<T>>, nodes: set<Node<T>>, b: Forest<Node<T>>, ds: seq<T>, from: Node<T>)
    requires Distinct(f) && LinkedAs(f, nodes) && from in nodes && b == Branch(f, from)
    requires |ds| == |Pre(b)| && forall i | 0 <= i < |ds| :: Pre(b)[i] in nodes && Pre(b)[i].data == ds[i]
    ensures Items(b) <= nodes && Source(b, ds, Items(b), from, from.next_sibling)
  {
    KidsLinks(f, from);
    KidsBothEnds(f, from);
    Unchanged(f, from);
    PreItems(b);
    forall n | n in Items(b) && n != from ensures n.Linked() == Links(b, n) { assert n in Items(Kids(f, from)); }
  }

  /** A branch apart from the place of a replacement stays as it is. */
  lemma {:induction false} ReplaceElsewhere<T>(f: Forest<T>, p: T, g: Forest<T>, n: T)
    requires Distinct(f) && p in Items(f) && n in Items(f) && n !in Items(Branch(f, p)) && n !in Items(g)
    ensures n in Items(ReplaceTree(f, p, g)) && Kids(ReplaceTree(f, p, g), n) == ReplaceTree(Kids(f, n), p, g)
  {
    var Cons(m, k, r) := f;
    KidsItems(f, p);
    if m == p {
      AppendItems(g, r);
      KidsOfAppend(g, r, n);
      KidsItems(r, n);
      ReplaceAbsent(Kids(r, n), p, g);
    } else if p in Items(k) {
      KidsItems(k, p);
      ReplaceAbsent(r, p, g);
      ReplaceItems(k, p, g);
      if n in Items(k) {
        ReplaceElsewhere(k, p, g, n);
      } else if n in Items(r) {
        KidsItems(r, n);
        ReplaceAbsent(Kids(r, n), p, g);
      }
    } else {
      KidsItems(r, p);
      ReplaceAbsent(k, p, g);
      if n in Items(k) {
        KidsItems(k, n);
        ReplaceAbsent(Kids(k, n), p, g);
      } else if n in Items(r) {
        ReplaceElsewhere(r, p, g, n);
      } else {
        ReplaceAbsent(k, p, g);
      }
    }
  }

  lemma {:induction false} KidsOfAppend<T>(g: Forest<T>, r: Forest<T>, n: T)
    requires n !in Items(g) && n in Items(r)
    ensures n in Items(Append(g, r)) && Kids(Append(g, r), n) == Kids(r, n)
  {
    AppendItems(g, r);
    match g
    case Nil =>
    case Cons(_, _, rest) => KidsOfAppend(rest, r, n);
  }

  lemma FirstCopy<T>(b: Forest<T>, x: T)
    requires b.Cons? && b.rest.Nil?
    ensures Rebuild(b, [x]) == Cons(x, Nil, Nil) && |Pre(b)| >= 1 && Pre(b)[0] == b.item
  {
    assert [x] == [x] + [];
    CopyBelow<T, T>(b.item, b.kids, b.rest, x, []);
  }

  /** After the swap, in the tree itself or in another, the source may be read. */
  lemma BranchAfterSwap<T>(f: Forest<T>, p: T, x: T, g: Forest<T>, n: T)
    requires Distinct(f) && p in Items(f) && n in Items(f) && p !in Items(Branch(f, n)) && n !in Items(Branch(f, p))
    requires n != x
    requires g == ReplaceTree(f, p, Cons(x, Nil, Nil))
    ensures n in Items(g) && Branch(g, n) == Branch(f, n)
  {
    var single := Cons(x, Nil, Nil);
    SingleItems(x);
    ReplaceElsewhere(f, p, single, n);
    ReplaceAbsent(Kids(f, n), p, single);
  }

  lemma SourceAfterSwap<T>(f: Forest<Node<T>>, p: Node<T>, tmp: Node<T>, g: Forest<Node<T>>, nodes: set<Node<T>>,
                           b: Forest<Node<T>>, ds: seq<T>, from: Node<T>)
    requires Distinct(f) && p in Items(f) && from in Items(f) && b == Branch(f, from)
    requires p !in Items(b) && from !in Items(Branch(f, p)) && from != tmp
    requires g == ReplaceTree(f, p, Cons(tmp, Nil, Nil)) && Distinct(g) && LinkedAs(g, nodes)
    requires |ds| == |Pre(b)| && forall i | 0 <= i < |ds| :: Pre(b)[i].data == ds[i]
    ensures Items(b) <= nodes && Source(b, ds, Items(b), from, from.next_sibling)
  {
    BranchAfterSwap(f, p, tmp, g, from);
    BranchItems(g, from);
    SourceReady(g, nodes, b, ds, from);
  }

  /** The data of the nodes of a forest, in pre-order. */
  ghost function DataOf<T>(nodes: seq<Node<T>>): (ds: seq<T>)
    ensures |ds| == |nodes| && forall i | 0 <= i < |nodes| :: ds[i] == nodes[i].data
  {
    if nodes == [] then [] else [nodes[0].data] + DataOf(nodes[1..])
  }

  lemma SwapItems<T>(f: Forest<T>, p: T, x: T, g: Forest<T>)
    requires Distinct(f) && p in Items(f) && g == ReplaceTree(f, p, Cons(x, Nil, Nil))
    ensures x in Items(g) && Items(g) <= Items(f) + {x}
  {
    SingleItems(x);
    ReplaceItems(f, p, Cons(x, Nil, Nil));
  }

  /** Copy the tree of `from` below `tmp`, which has taken the place of `p` in `f`. */
  method CopyInto<T>(from: Node<T>, tmp: Node<T>, ghost f: Forest<Node<T>>, ghost p: Node<T>,
                     ghost head: Node<T>, ghost feet: Node<T>, ghost b: Forest<Node<T>>, ghost ds: seq<T>,
                     ghost bnodes: set<Node<T>>, ghost taken: set<Node<T>>, ghost g: Forest<Node<T>>,
                     ghost nodes: set<Node<T>>)
    returns (ghost ns: seq<Node<T>>, ghost h: Forest<Node<T>>)
    requires Source(b, ds, bnodes, from, from.next_sibling) && bnodes <= taken && Items(f) <= taken
    requires Distinct(f) && p in Items(f) && head in Items(f) && feet in Items(f) && tmp !in taken && ds[0] == tmp.data
    requires g == ReplaceTree(f, p, Cons(tmp, Nil, Nil)) && Shaped(g, head, feet) && LinkedAs(g, nodes)
    modifies nodes`next_sibling, nodes`first_child, nodes`last_child
    ensures |ns| == Size(b) && NoRepeat(ns) && ns[0] == tmp && forall n | n in ns && n != tmp :: fresh(n)
    ensures h == ReplaceTree(f, p, Rebuild(b, ns)) && Shaped(h, head, feet) && LinkedAs(h, Items(h))
    ensures DataOf(ns) == ds && forall n | n in ns :: n !in taken
  {
    FirstCopy(b, tmp);
    PreItems(b);
    SwapItems(f, p, tmp, g);
    assert forall n | n in nodes :: n == tmp || n in taken;
    ghost var nodes';
    ns, h, nodes' := CopyTree(from, from.next_sibling, tmp, f, p, head, feet, b, ds, bnodes, taken, g, nodes);
  }

  /** A tree from which nodes may be copied into `t`: `t` itself, or one that shares no node. */
  ghost predicate MayCopy<T>(t: Tree<T>, position: Node<T>, src: Tree<T>, from: Node<T>)
    reads t, src, t.members, src.members
  {
    && t.Valid() && src.Valid() && position in t.members && from in src.members
    && (src == t || src.members !! t.members)
    && (src == t ==> position !in Items(Branch(t.chain, from)) && from !in Items(Branch(t.chain, position)))
  }

  /** The nodes to be copied lie outside the tree of `position`. */
  lemma SourceApart<T>(t: Tree<T>, position: Node<T>, src: Tree<T>, from: Node<T>)
    requires MayCopy(t, position, src, from)
    ensures Items(Branch(src.chain, from)) <= src.members
    ensures forall n | n in Pre(Branch(src.chain, from)) :: n in src.members
    ensures |Pre(Branch(src.chain, from))| == Size(Branch(src.chain, from))
  {
    BranchItems(src.chain, from);
  }

  /** `position` has been swapped for `tmp`, and the tree of `from` may be read. */
  ghost predicate Swapping<T>(t: Tree<T>, position: Node<T>, from: Node<T>, tmp: Node<T>, b: Forest<Node<T>>,
                              ds: seq<T>,
                              bnodes: set<Node<T>>, taken: set<Node<T>>, g: Forest<Node<T>>, nodes: set<Node<T>>)
    reads t, bnodes, from, nodes
  {
    && Shaped(t.chain, t.head, t.feet) && t.members == Items(t.chain) && position in t.members
    && Source(b, ds, bnodes, from, from.next_sibling) && bnodes <= taken && t.members <= taken
    && tmp !in taken && |ds| > 0 && ds[0] == tmp.data && g == ReplaceTree(t.chain, position, Cons(tmp, Nil, Nil))
    && Shaped(g, t.head, t.feet) && LinkedAs(g, nodes)
  }

  /** Swap `position` for a new node; the tree of `from` may be read afterwards. */
  method SwapReady<T>(t: Tree<T>, position: Node<T>, from: Node<T>, ghost src: Tree<T>, ghost b: Forest<Node<T>>,
                      ghost ds: seq<T>)
    returns (tmp: Node<T>, ghost g: Forest<Node<T>>, ghost nodes: set<Node<T>>, ghost bnodes: set<Node<T>>,
             ghost taken: set<Node<T>>)
    requires MayCopy(t, position, src, from) && position != t.head && position != t.feet
    requires b == Branch(src.chain, from) && ds == DataOf(Pre(b))
    modifies t.members`prev_sibling, t.members`next_sibling
    modifies t.members`first_child, t.members`last_child, t.members`live
    ensures fresh(tmp) && nodes <= t.members + {tmp}
    ensures Swapping(t, position, from, tmp, b, ds, bnodes, taken, g, nodes)
  {
    SourceApart(t, position, src, from);
    FirstCopy(b, from);
    ghost var from_nodes := Pre(b);
    tmp, g := SwapIn(t.chain, t.members, t.head, t.feet, position, from.data);
    nodes := t.members - Items(Branch(t.chain, position)) + {tmp};
    bnodes, taken := Items(b), t.members + src.members;
    forall i | 0 <= i < |ds| ensures from_nodes[i].data == ds[i] { assert from_nodes[i] in src.members; }
    if src == t {
      SourceAfterSwap(t.chain, position, tmp, g, nodes, b, ds, from);
    } else {
      SourceReady(src.chain, src.members, b, ds, from);
    }
  }

  /** Copy into a tree whose `position` has been swapped for `tmp`. */
  method FinishCopy<T>(t: Tree<T>, ghost position: Node<T>, from: Node<T>, tmp: Node<T>, ghost b: Forest<Node<T>>,
                       ghost ds: seq<T>, ghost bnodes: set<Node<T>>, ghost taken: set<Node<T>>,
                       ghost g: Forest<Node<T>>, ghost nodes: set<Node<T>>) returns (ghost ns: seq<Node<T>>)
    requires Swapping(t, position, from, tmp, b, ds, bnodes, taken, g, nodes)
    modifies t`chain, t`members, nodes`next_sibling, nodes`first_child, nodes`last_child
    ensures t.Valid() && t.chain == ReplaceTree(old(t.chain), position, Rebuild(b, ns))
    ensures |ns| == Size(b) && NoRepeat(ns) && ns[0] == tmp && forall n | n in ns && n != tmp :: fresh(n)
    ensures DataOf(ns) == ds && forall n | n in ns :: n !in taken
    ensures forall n | n in t.members :: n in old(t.members) || n in ns
  {
    FeetIsItem(t.chain.rest, t.feet);
    ghost var h;
    ns, h := CopyInto(from, tmp, t.chain, position, t.head, t.feet, b, ds, bnodes, taken, g, nodes);
    CopiedItems(t.chain, position, b, ns, h);
    t.chain := h;
    t.members := Items(h);
  }

  lemma CopiedItems<T>(f: Forest<T>, p: T, b: Forest<T>, ns: seq<T>, h: Forest<T>)
    requires Distinct(f) && p in Items(f) && |ns| == Size(b) && NoRepeat(ns) && h == ReplaceTree(f, p, Rebuild(b, ns))
    ensures forall n | n in Items(h) :: n in Items(f) || n in ns
  {
    RebuildItems(b, ns);
    ReplaceItems(f, p, Rebuild(b, ns));
  }

  /** Put a copy of `b`, the tree of `from` in `src`, in the place of the tree of
      `position`. The nodes of the copy are `ns`, in pre-order, and hold the data `ds` of
      the original's. */
  method Replace<T>(t: Tree<T>, position: Node<T>, from: Node<T>, ghost src: Tree<T>, ghost b: Forest<Node<T>>,
                    ghost ds: seq<T>) returns (tmp: Node<T>, ghost ns: seq<Node<T>>)
    requires MayCopy(t, position, src, from) && position != t.head && position != t.feet
    requires b == Branch(src.chain, from) && ds == DataOf(Pre(b))
    modifies t`chain, t`members, t.members`prev_sibling, t.members`next_sibling
    modifies t.members`first_child, t.members`last_child, t.members`live
    ensures t.Valid()
    ensures |ns| == Size(b) && NoRepeat(ns) && ns[0] == tmp && DataOf(ns) == ds && forall n | n in ns :: fresh(n)
    ensures t.chain == ReplaceTree(old(t.chain), position, Rebuild(b, ns))
    ensures forall n | n in t.members :: n in old(t.members) || n in ns
  {
    ghost var g, nodes, bnodes, taken;
    tmp, g, nodes, bnodes, taken := SwapReady(t, position, from, src, b, ds);
    ns := FinishCopy(t, position, from, tmp, b, ds, bnodes, taken, g, nodes);
  }
}
