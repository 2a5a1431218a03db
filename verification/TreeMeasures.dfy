/** Sizes and depths of the tree container, computed by walking it. */
module TreeMeasures {
  import opened Forests
  import opened Ancestry
  import opened Scans
  import opened LinkAlgebra
  import opened TreeShapes
  import opened TreeNodes
  import opened TreeOrders
  import opened LinkedTree
  import opened TreeIterators

  /** The sentinels are the first and the last row. */
  lemma SentinelRows<T>(f: Forest<T>, rows: seq<Row<T>>, head: T, feet: T)
    requires Shaped(f, head, feet) && rows == Table(f, 0)
    ensures |rows| == Size(f) >= 2 && rows[0].item == head && rows[|rows| - 1].item == feet
    ensures NextPre(f, head) == Some(rows[1].item)
  {
    TableRows(f, 0);
    LastPreIs(f);
    LastIsFeet(f.rest, feet);
    PreSucc(f, rows, 0);
  }

  lemma {:induction false} LastIsFeet<T>(f: Forest<T>, feet: T)
    requires EndsWith(f, feet)
    ensures LastPre(f) == feet
  {
    if f.rest.Cons? { LastIsFeet(f.rest, feet); }
  }

  /** The node of row `j`, or nothing after the last row. */
  ghost function RowNode<T>(rows: seq<Row<T>>, j: nat): Option<T>
  {
    if j < |rows| then Some(rows[j].item) else None
  }

  lemma RowNodesDiffer<T>(f: Forest<T>, rows: seq<Row<T>>, i: nat, j: nat)
    requires Distinct(f) && rows == Table(f, 0) && i <= j <= |rows|
    ensures RowNode(rows, i) == RowNode(rows, j) <==> i == j
  {
    TableRows(f, 0);
    if j < |rows| { RowsDiffer(f, i, j); }
  }

  /** Count the pre-order steps from the node of row `a` to that of row `b`. */
  method CountSteps<T>(t: Tree<T>, it: PreOrderIterator<T>, eit: Node?<T>, ghost rows: seq<Row<Node<T>>>,
                       ghost a: nat, ghost b: nat) returns (i: nat)
    requires t.Valid() && rows == Table(t.chain, 0) && a <= b <= |rows| && !it.skipCurrentChildren
    requires ToNode(it.node) == RowNode(rows, a) && ToNode(eit) == RowNode(rows, b)
    modifies it
    ensures i == b - a
  {
    i := 0;
    RowNodesDiffer(t.chain, rows, a, b);
    while it.node != eit
      invariant t.Valid() && a + i <= b && !it.skipCurrentChildren
      invariant ToNode(it.node) == RowNode(rows, a + i)
      invariant it.node == eit <==> a + i == b
      decreases b - a - i
    {
      PreSucc(t.chain, rows, a + i);
      it.Increment(t);
      i := i + 1;
      RowNodesDiffer(t.chain, rows, a + i, b);
    }
  }

  /** The number of nodes: the sentinels are not counted. */
  method TreeSize<T>(t: Tree<T>) returns (i: nat)
    requires t.Valid()
    ensures i == Size(t.chain) - 2
  {
    ghost var rows := Table(t.chain, 0);
    SentinelRows(t.chain, rows, t.head, t.feet);
    HeadHasNext(t.chain, t.head, t.feet);
    ClimbStep(t.chain, None, None, None, t.head);
    var it := new PreOrderIterator(t.head.next_sibling);
    i := CountSteps(t, it, t.feet, rows, 1, |rows| - 1);
  }

  lemma HeadHasNext<T>(f: Forest<T>, head: T, feet: T)
    requires Shaped(f, head, feet)
    ensures Kids(f, head).Nil? && Links(f, head).next.Some?
  {
  }

  /** The number of nodes in the branch of `top`. */
  method BranchSize<T>(t: Tree<T>, top: Node<T>) returns (i: nat)
    requires t.Valid() && top in t.members
    ensures i == Size(Branch(t.chain, top))
  {
    ghost var rows, start := Table(t.chain, 0), |Before(t.chain, top, 0)|;
    RowAt(t.chain, top);
    PreSucc(t.chain, rows, start);
    var it := new PreOrderIterator(top);
    var eit := new PreOrderIterator(top);
    eit.SkipChildren();
    eit.Increment(t);
    i := CountSteps(t, it, eit.node, rows, start, start + 1 + Size(Kids(t.chain, top)));
  }

  /** The number of steps from a node up to its root. */
  method NodeDepth<T>(t: Tree<T>, it: Node<T>) returns (ret: nat)
    requires t.Valid() && it in t.members
    ensures ret == DepthOf(t.chain, it, 0)
  {
    var pos := it;
    ret := 0;
    UpStep(t.chain, pos);
    while pos.parent != null
      invariant pos in t.members && ret + DepthOf(t.chain, pos, 0) == DepthOf(t.chain, it, 0)
      decreases DepthOf(t.chain, pos, 0)
    {
      UpStep(t.chain, pos);
      pos := pos.parent;
      ret := ret + 1;
    }
    UpStep(t.chain, pos);
  }

  // ----- the greatest depth -----

  /** Siblings lie at the same depth. */
  lemma {:induction false} SiblingDepth<T>(f: Forest<T>, up: Option<T>, prev: Option<T>, n: T, d: nat)
    requires Distinct(f) && n in Items(f)
    ensures var l := LinkAt(f, up, prev, None, n);
            l.next.Some? ==> l.next.value in Items(f) && DepthOf(f, l.next.value, d) == DepthOf(f, n, d)
  {
    var Cons(m, k, r) := f;
    if m == n {
    } else if n in Items(k) {
      SiblingDepth(k, Some(m), None, n, d + 1);
    } else {
      SiblingDepth(r, up, Some(m), n, d);
    }
  }

  /** Below its root a branch has the links of the whole tree. */
  lemma BranchLinks<T>(f: Forest<T>, p: T, n: T)
    requires Distinct(f) && p in Items(f) && n in Items(Branch(f, p))
    ensures Distinct(Branch(f, p)) && n in Items(f) && Kids(Branch(f, p), n) == Kids(f, n)
    ensures n != p ==> Links(Branch(f, p), n) == Links(f, n)
    ensures NextAfter(Branch(f, p), p, None) == None
  {
    KidsLinks(f, p);
    if n != p { KidsOfKid(f, p, n); }
  }

  /** Climb from a node without a next sibling to the first ancestor that has one, and
      count the steps off `depth0`. */
  method ClimbInBranch<T>(t: Tree<T>, pos: Node<T>, n: Node<T>, depth0: int, ghost b: Forest<Node<T>>)
    returns (tmp: Node<T>, curdepth: int)
    requires t.Valid() && pos in t.members && pos.next_sibling != null && b == Branch(t.chain, pos)
    requires n in Items(b) && n != pos && n.next_sibling == null && Distinct(b) && depth0 == DepthOf(b, n, 0)
    ensures tmp in Items(b) && tmp in t.members && tmp.next_sibling != null && curdepth == DepthOf(b, tmp, 0) <= depth0
    ensures NextAfter(b, n, None) == if tmp == pos then None else ToNode(tmp.next_sibling)
  {
    tmp, curdepth := n, depth0;
    BranchLinks(t.chain, pos, tmp);
    while tmp.next_sibling == null
      invariant tmp in Items(b) && tmp in t.members && curdepth == DepthOf(b, tmp, 0) <= depth0
      invariant NextAfter(b, n, None) == NextAfter(b, tmp, None)
      decreases DepthOf(b, tmp, 0)
    {
      BranchLinks(t.chain, pos, tmp);
      ClimbStep(b, None, None, None, tmp);
      UpStep(b, tmp);
      RootOfBranch(b, pos, tmp);
      tmp := tmp.parent;
      curdepth := curdepth - 1;
      BranchLinks(t.chain, pos, tmp);
    }
    BranchLinks(t.chain, pos, tmp);
    ClimbStep(b, None, None, None, tmp);
  }

  lemma RootOfBranch<T>(b: Forest<T>, p: T, n: T)
    requires b.Cons? && b.item == p && b.rest.Nil? && Distinct(b) && n in Items(b)
    ensures Links(b, n).parent.None? <==> n == p
  {
    LinkUp(b, None, None, None, n);
  }

  /** The greatest depth among the first `n` rows. */
  ghost function Deepest<T>(rows: seq<Row<T>>, n: nat): int
    requires n <= |rows|
  {
    if n == 0 then -1
    else
      var before := Deepest(rows, n - 1);
      if rows[n - 1].depth > before then rows[n - 1].depth else before
  }

  lemma {:induction false} DeepestBound<T>(rows: seq<Row<T>>, n: nat, m: int)
    requires n <= |rows| && -1 <= m && forall j | 0 <= j < n :: rows[j].depth <= m
    ensures Deepest(rows, n) <= m && forall j | 0 <= j < n :: rows[j].depth <= Deepest(rows, n)
  {
    if n > 0 { DeepestBound(rows, n - 1, m); }
  }

  lemma DeepestAll<T>(b: Forest<T>, rows: seq<Row<T>>)
    requires rows == Table(b, 0)
    ensures Deepest(rows, |rows|) == MaxDepth(b, 0)
  {
    MaxDepthRows(b, 0);
    DeepestBound(rows, |rows|, MaxDepth(b, 0));
    if b.Cons? {
      var j :| 0 <= j < |rows| && rows[j].depth == MaxDepth(b, 0);
    } else {
      assert rows == [];
    }
  }

  /** The walk over a branch stands at row `i`. */
  ghost predicate Standing<T>(b: Forest<T>, rows: seq<Row<T>>, i: nat, tmp: T, curdepth: int, maxdepth: int)
  {
    && i < |rows| && rows[i].item == tmp && rows[i].depth == curdepth
    && maxdepth == Deepest(rows, i + 1)
  }

  /** Going on to a first child. */
  lemma StandDown<T>(b: Forest<T>, rows: seq<Row<T>>, i: nat, tmp: T, curdepth: int, maxdepth: int)
    requires Distinct(b) && rows == Table(b, 0) && Standing(b, rows, i, tmp, curdepth, maxdepth)
    requires tmp in Items(b) && Kids(b, tmp).Cons?
    ensures Standing(b, rows, i + 1, Kids(b, tmp).item, curdepth + 1,
                     if curdepth + 1 > maxdepth then curdepth + 1 else maxdepth)
  {
    var c := Kids(b, tmp).item;
    PreSucc(b, rows, i);
    RowFacts(b, rows, i);
    RowFacts(b, rows, i + 1);
    KidsItems(b, tmp);
    KidDepth(b, tmp, c);
  }

  lemma KidDepth<T>(b: Forest<T>, p: T, c: T)
    requires Distinct(b) && p in Items(b) && Kids(b, p).Cons? && c == Kids(b, p).item && c in Items(b)
    ensures DepthOf(b, c, 0) == DepthOf(b, p, 0) + 1
  {
    KidsLinks(b, p);
    UpStep(b, c);
  }

  /** Going on to the node after a leaf, which lies no deeper. */
  lemma StandOn<T>(b: Forest<T>, rows: seq<Row<T>>, i: nat, tmp: T, curdepth: int, maxdepth: int, x: T, d: int)
    requires Distinct(b) && rows == Table(b, 0) && Standing(b, rows, i, tmp, curdepth, maxdepth)
    requires tmp in Items(b) && Kids(b, tmp).Nil? && NextAfter(b, tmp, None) == Some(x)
    requires x in Items(b) && DepthOf(b, x, 0) == d <= curdepth
    ensures Standing(b, rows, i + 1, x, d, maxdepth)
  {
    PreSucc(b, rows, i);
    RowFacts(b, rows, i + 1);
    MaxDepthRows(b, 0);
    DeepestBound(rows, i + 1, MaxDepth(b, 0));
  }

  /** A leaf with nothing after it ends the walk. */
  lemma StandLast<T>(b: Forest<T>, rows: seq<Row<T>>, i: nat, tmp: T, curdepth: int, maxdepth: int)
    requires Distinct(b) && rows == Table(b, 0) && Standing(b, rows, i, tmp, curdepth, maxdepth)
    requires tmp in Items(b) && Kids(b, tmp).Nil? && NextAfter(b, tmp, None) == None
    ensures maxdepth == MaxDepth(b, 0)
  {
    PreSucc(b, rows, i);
    DeepestAll(b, rows);
  }

  lemma StandFirst<T>(b: Forest<T>, rows: seq<Row<T>>)
    requires rows == Table(b, 0) && b.Cons?
    ensures Standing(b, rows, 0, b.item, 0, 0)
  {
    assert Deepest(rows, 0) == -1;
  }

  /** From a leaf below `pos`, go on to the next node of the branch, if there is one. */
  method NextInBranch<T>(t: Tree<T>, pos: Node<T>, n: Node<T>, depth0: int, ghost b: Forest<Node<T>>)
    returns (done: bool, tmp: Node<T>, curdepth: int)
    requires t.Valid() && pos in t.members && pos.next_sibling != null && b == Branch(t.chain, pos)
    requires n in Items(b) && n in t.members && n != pos && Distinct(b) && depth0 == DepthOf(b, n, 0)
    ensures done ==> NextAfter(b, n, None) == None
    ensures !done ==> NextAfter(b, n, None) == Some(tmp) && tmp in Items(b) && tmp in t.members && tmp != pos
                      && curdepth == DepthOf(b, tmp, 0) <= depth0
  {
    tmp, curdepth := n, depth0;
    BranchLinks(t.chain, pos, n);
    if tmp.next_sibling == null {
      tmp, curdepth := ClimbInBranch(t, pos, tmp, curdepth, b);
    } else {
      ClimbStep(b, None, None, None, tmp);
    }
    done := tmp == pos;
    if !done {
      BranchLinks(t.chain, pos, tmp);
      SiblingDepth(b, None, None, tmp, 0);
      tmp := tmp.next_sibling;
      BranchLinks(t.chain, pos, tmp);
      NextAfterRange(b, n, None);
    }
  }

  /** The greatest depth below a root, counted from it. */
  method RootDepth<T>(t: Tree<T>, pos: Node<T>) returns (maxdepth: int)
    requires t.Valid() && pos in t.members && pos.parent == null && pos != t.head && pos != t.feet
    ensures maxdepth == MaxDepth(Branch(t.chain, pos), 0)
  {
    var tmp, curdepth := pos, 0;
    maxdepth := 0;
    ghost var b, i := Branch(t.chain, pos), 0;
    ghost var rows := Table(b, 0);
    NotEdge(t.chain, pos, t.head, t.feet);
    BranchLinks(t.chain, pos, pos);
    StandFirst(b, rows);
    while true
      invariant tmp in Items(b) && tmp in t.members && Standing(b, rows, i, tmp, curdepth, maxdepth)
      decreases |rows| - i
    {
      BranchLinks(t.chain, pos, tmp);
      KidsBothEnds(t.chain, tmp);
      if tmp.first_child == null {
        if tmp == pos {
          StandLast(b, rows, i, tmp, curdepth, maxdepth);
          return;
        }
        RowFacts(b, rows, i);
        var done, next, depth := NextInBranch(t, pos, tmp, curdepth, b);
        if done {
          StandLast(b, rows, i, tmp, curdepth, maxdepth);
          return;
        }
        StandOn(b, rows, i, tmp, curdepth, maxdepth, next, depth);
        tmp, curdepth := next, depth;
      } else {
        StandDown(b, rows, i, tmp, curdepth, maxdepth);
        KidsItems(b, tmp);
        tmp := tmp.first_child;
        curdepth := curdepth + 1;
        maxdepth := if curdepth > maxdepth then curdepth else maxdepth;
        BranchLinks(t.chain, pos, tmp);
      }
      i := i + 1;
    }
  }

  function Max(a: int, b: int): int
  {
    if a > b then a else b
  }

  lemma DepthOfFirst<T>(left: Forest<T>, feet: T)
    requires EndsWith(left, feet) && left.item != feet
    ensures EndsWith(left.rest, feet)
    ensures MaxDepth(ButLast(left), 0)
         == Max(MaxDepth(Cons(left.item, left.kids, Nil), 0), MaxDepth(ButLast(left.rest), 0))
  {
  }

  /** Take one more root into account. */
  method NextRootDepth<T>(t: Tree<T>, it: Node<T>, maxd0: int, ghost left: Forest<Node<T>>)
    returns (next: Node?<T>, maxd: int)
    requires t.Valid() && TailOf(t.chain, left) && EndsWith(left, t.feet) && it == left.item
    requires it != t.feet && it != t.head
    ensures ToNode(next) == FirstOr(left.rest, None)
    ensures maxd == Max(maxd0, MaxDepth(Cons(left.item, left.kids, Nil), 0))
  {
    TailFacts(t.chain, left, None);
    var depth := RootDepth(t, it);
    maxd := Max(maxd0, depth);
    next := it.next_sibling;
  }

  /** The greatest depth over all nodes, and -1 for an empty tree. */
  method TreeDepth<T>(t: Tree<T>) returns (maxd: int)
    requires t.Valid()
    ensures maxd == MaxDepth(ButLast(t.chain.rest), 0)
  {
    maxd := -1;
    ghost var left := t.chain.rest;
    var it := t.head.next_sibling;
    TailFacts(t.chain, t.chain, None);
    while it != t.feet
      invariant TailOf(t.chain, left) && EndsWith(left, t.feet) && ToNode(it) == Some(left.item)
      invariant t.head !in Items(left) && maxd >= -1
      invariant MaxDepth(ButLast(t.chain.rest), 0) == Max(maxd, MaxDepth(ButLast(left), 0))
      decreases left
    {
      TailFacts(t.chain, left, None);
      DepthOfFirst(left, t.feet);
      it, maxd := NextRootDepth(t, it, maxd, left);
      left := left.rest;
    }
    TailFacts(t.chain, left, None);
    OnlyFeet(left, t.feet);
  }

  lemma OnlyFeet<T>(left: Forest<T>, feet: T)
    requires EndsWith(left, feet) && left.item == feet && Distinct(left)
    ensures ButLast(left) == Nil
  {
    if left.rest.Cons? { FeetIsItem(left.rest, feet); }
  }
}
