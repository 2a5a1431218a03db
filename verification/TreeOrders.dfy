/** The orders in which the tree container is walked without a stack, seen from the links. */
module TreeOrders {
  import opened Forests
  import opened Ancestry
  import opened LinkAlgebra
  import opened Scans

  // ----- pre-order -----

  /** The node that follows the whole branch of `n` in pre-order, or `end` after the last. */
  ghost function NextAfter<T>(f: Forest<T>, n: T, end: Option<T>): Option<T>
    requires n in Items(f)
  {
    var Cons(m, k, r) := f;
    if m == n then FirstOr(r, end)
    else if n in Items(k) then NextAfter(k, n, FirstOr(r, end))
    else NextAfter(r, n, end)
  }

  /** The node that follows `n` in pre-order. */
  ghost function NextPre<T>(f: Forest<T>, n: T): Option<T>
    requires n in Items(f)
  {
    if Kids(f, n).Cons? then Some(Kids(f, n).item) else NextAfter(f, n, None)
  }

  /** What follows a branch is the next sibling, or what follows the parent's branch. */
  lemma {:induction false} ClimbStep<T>(f: Forest<T>, up: Option<T>, prev: Option<T>, end: Option<T>, n: T)
    requires Distinct(f) && n in Items(f) && Outside(f, up)
    ensures var l := LinkAt(f, up, prev, None, n);
            && (l.next.Some? ==> NextAfter(f, n, end) == l.next)
            && (l.next.None? && l.parent == up ==> NextAfter(f, n, end) == end)
            && (l.next.None? && l.parent != up ==>
                  l.parent.Some? && l.parent.value in Items(f)
                  && NextAfter(f, n, end) == NextAfter(f, l.parent.value, end))
  {
    var Cons(m, k, r) := f;
    if m == n {
    } else if n in Items(k) {
      LinkRange(k, Some(m), None, None, n);
      ClimbStep(k, Some(m), None, FirstOr(r, end), n);
    } else {
      LinkRange(r, up, Some(m), None, n);
      ClimbStep(r, up, Some(m), end, n);
    }
  }

  lemma FirstOfTable<T>(f: Forest<T>, d: nat)
    ensures if f.Cons? then Table(f, d) != [] && Table(f, d)[0].item == f.item else Table(f, d) == []
  {
  }

  lemma {:induction false} AfterNext<T>(f: Forest<T>, p: T, d: nat, end: Option<T>)
    requires p in Items(f)
    ensures NextAfter(f, p, end) == if After(f, p, d) == [] then end else Some(After(f, p, d)[0].item)
  {
    var Cons(m, k, r) := f;
    FirstOfTable(r, d);
    if m == p {
    } else if p in Items(k) {
      AfterNext(k, p, d + 1, FirstOr(r, end));
    } else {
      AfterNext(r, p, d, end);
    }
  }

  /** The successor of a node, and of its branch, by position in pre-order. */
  lemma PreSucc<T>(f: Forest<T>, rows: seq<Row<T>>, i: nat)
    requires Distinct(f) && rows == Table(f, 0) && i < |rows|
    ensures var n := rows[i].item;
            && n in Items(f) && i + 1 + Size(Kids(f, n)) <= |rows|
            && (var j := i + 1 + Size(Kids(f, n));
                NextAfter(f, n, None) == if j < |rows| then Some(rows[j].item) else None)
            && NextPre(f, n) == if i + 1 < |rows| then Some(rows[i + 1].item) else None
  {
    assert rows[i].item in Items(f) && |rows| == Size(f) by { TableRows(f, 0); }
    var n := rows[i].item;
    var q, w := |Before(f, n, 0)|, 1 + Size(Kids(f, n));
    BranchRows(f, n);
    RunMembers(f, n, q, w, i);
    SuccInRun(f, n, rows, i, w);
  }

  lemma SuccInRun<T>(f: Forest<T>, n: T, rows: seq<Row<T>>, i: nat, w: nat)
    requires Distinct(f) && n in Items(f) && RunOf(f, n, i, w) && rows == Table(f, 0)
    ensures NextAfter(f, n, None) == if i + w < |rows| then Some(rows[i + w].item) else None
    ensures NextPre(f, n) == if i + 1 < |rows| then Some(rows[i + 1].item) else None
  {
    var k := Kids(f, n);
    AfterNext(f, n, 0, None);
    if i + w < |rows| { assert rows[i + w..][0] == rows[i + w]; }
    FirstOfTable(k, DepthOf(f, n, 0) + 1);
    if k.Cons? {
      assert rows[i + 1..i + w] == Table(k, DepthOf(f, n, 0) + 1);
      assert rows[i + 1] == rows[i + 1..i + w][0];
    }
  }

  /** The parent link leads to the parent. */
  lemma {:induction false} ParentLink<T>(f: Forest<T>, up: Option<T>, prev: Option<T>, end: Option<T>, n: T)
    requires Distinct(f) && n in Items(f)
    ensures LinkAt(f, up, prev, end, n).parent == ParentOf(f, n, up)
  {
    var Cons(m, k, r) := f;
    if m == n {
    } else if n in Items(k) {
      ParentLink(k, Some(m), None, None, n);
    } else {
      ParentLink(r, up, Some(m), end, n);
    }
  }

  /** One step up. */
  lemma UpStep<T>(f: Forest<T>, n: T)
    requires Distinct(f) && n in Items(f)
    ensures var p := Links(f, n).parent;
            && p == ParentOf(f, n, None) && (p.None? <==> DepthOf(f, n, 0) == 0)
            && (p.Some? ==> p.value in Items(f) && DepthOf(f, p.value, 0) == DepthOf(f, n, 0) - 1)
  {
    ParentLink(f, None, None, None, n);
    ParentDepth(f, n, None, 0);
  }

  // ----- the last node of a branch -----

  /** The last node of a chain in pre-order. */
  ghost function LastPre<T>(f: Forest<T>): T
    requires f.Cons?
  {
    if f.rest.Cons? then LastPre(f.rest) else if f.kids.Cons? then LastPre(f.kids) else f.item
  }

  /** The node that precedes `n` in pre-order. */
  ghost function PrevPre<T>(f: Forest<T>, n: T): Option<T>
    requires Distinct(f) && n in Items(f)
  {
    LinksMembers(f, n);
    var l := Links(f, n);
    if l.prev.Some? then Some(LastPre(Branch(f, l.prev.value))) else l.parent
  }

  lemma {:induction false} LastPreIs<T>(f: Forest<T>)
    requires f.Cons?
    ensures Pre(f) != [] && Pre(f)[|Pre(f)| - 1] == LastPre(f) && LastPre(f) in Items(f)
  {
    if f.rest.Cons? { LastPreIs(f.rest); } else if f.kids.Cons? { LastPreIs(f.kids); }
  }

  /** The last node of a chain lies in its last tree. */
  lemma {:induction false} LastTree<T>(f: Forest<T>, last: T)
    requires Distinct(f) && LastOr(f, None) == Some(last)
    ensures last in Items(f) && LastPre(f) == LastPre(Branch(f, last))
  {
    var Cons(m, k, r) := f;
    LastDefault(r, Some(m));
    if r.Cons? { LastTree(r, last); }
  }

  /** One step down towards the last node of a branch. */
  lemma LastStep<T>(f: Forest<T>, n: T)
    requires Distinct(f) && n in Items(f)
    ensures Links(f, n).last.None? ==> LastPre(Branch(f, n)) == n
    ensures Links(f, n).last.Some? ==>
              var c := Links(f, n).last.value;
              c in Items(f) && Size(Branch(f, c)) < Size(Branch(f, n)) && LastPre(Branch(f, n)) == LastPre(Branch(f, c))
  {
    KidsBothEnds(f, n);
    if Kids(f, n).Cons? {
      var c := Links(f, n).last.value;
      KidsItems(f, n);
      LastTree(Kids(f, n), c);
      KidsOfKid(f, n, c);
      SmallerBranch(Kids(f, n), c);
    }
  }

  lemma {:induction false} KidsOfKid<T>(f: Forest<T>, n: T, c: T)
    requires Distinct(f) && n in Items(f) && c in Items(Kids(f, n))
    ensures c in Items(f) && Kids(f, c) == Kids(Kids(f, n), c)
  {
    var Cons(m, k, r) := f;
    KidsItems(f, n);
    if m == n {
    } else if n in Items(k) {
      KidsItems(k, n);
      KidsOfKid(k, n, c);
    } else {
      KidsItems(r, n);
      KidsOfKid(r, n, c);
    }
  }

  lemma {:induction false} SmallerBranch<T>(f: Forest<T>, c: T)
    requires c in Items(f)
    ensures Size(Branch(f, c)) <= Size(f)
  {
    var Cons(m, k, r) := f;
    if m == c {
    } else if c in Items(k) {
      SmallerBranch(k, c);
    } else {
      SmallerBranch(r, c);
    }
  }

  lemma {:induction false} NextAfterRange<T>(f: Forest<T>, n: T, end: Option<T>)
    requires n in Items(f)
    ensures NextAfter(f, n, end) == end || (NextAfter(f, n, end).Some? && NextAfter(f, n, end).value in Items(f))
    ensures Distinct(f) ==> NextAfter(f, n, end) == end || NextAfter(f, n, end) != Some(f.item)
  {
    var Cons(m, k, r) := f;
    if m == n {
    } else if n in Items(k) {
      NextAfterRange(k, n, FirstOr(r, end));
    } else {
      NextAfterRange(r, n, end);
    }
  }

  /** A leaf with nothing after it is the last node. */
  lemma {:induction false} EndIsLast<T>(f: Forest<T>, n: T, end: Option<T>)
    requires Distinct(f) && n in Items(f) && Kids(f, n).Nil? && NextAfter(f, n, end) == end && Outside(f, end)
    ensures LastPre(f) == n
  {
    var Cons(m, k, r) := f;
    if m == n {
    } else if n in Items(k) {
      NextAfterRange(k, n, FirstOr(r, end));
      EndIsLast(k, n, FirstOr(r, end));
    } else {
      EndIsLast(r, n, end);
    }
  }

  /** The node `m` that follows `n` in a chain: its links lead back to `n`. */
  lemma {:induction false} LeadsBack<T>(f: Forest<T>, up: Option<T>, prev: Option<T>, end: Option<T>, n: T, m: T)
    requires Distinct(f) && n in Items(f) && m in Items(f) && Outside(f, end) && Outside(f, prev)
    requires (if Kids(f, n).Cons? then Some(Kids(f, n).item) else NextAfter(f, n, end)) == Some(m)
    ensures m != f.item
    ensures var l := LinkAt(f, up, prev, None, m);
            if l.prev.Some? then l.prev.value in Items(f) && LastPre(Branch(f, l.prev.value)) == n
            else l.parent == Some(n)
    decreases f
  {
    var Cons(a, k, r) := f;
    KidsItems(f, n);
    if n == a {
    } else if n in Items(k) {
      KidsItems(k, n);
      NextAfterRange(k, n, FirstOr(r, end));
      if m in Items(k) {
        LeadsBack(k, Some(a), None, FirstOr(r, end), n, m);
      } else {
        EndIsLast(k, n, FirstOr(r, end));
        assert r.Cons? && m == r.item;
      }
    } else {
      KidsItems(r, n);
      NextAfterRange(r, n, end);
      LeadsBack(r, up, Some(a), end, n, m);
      var l := LinkAt(r, up, Some(a), None, m);
    }
  }

  /** Stepping back undoes stepping on: if `m` follows `n`, then `n` precedes `m`. */
  lemma BackAndForth<T>(f: Forest<T>, n: T, m: T)
    requires Distinct(f) && n in Items(f) && NextPre(f, n) == Some(m)
    ensures m in Items(f) && PrevPre(f, m) == Some(n)
  {
    KidsItems(f, n);
    NextAfterRange(f, n, None);
    LeadsBack(f, None, None, None, n, m);
  }

  // ----- post-order -----

  /** The nodes with children before their parents. */
  ghost function Post<T>(f: Forest<T>): seq<T>
  {
    match f
    case Nil => []
    case Cons(m, k, r) => Post(k) + [m] + Post(r)
  }

  /** The leaf reached by following first children down. */
  ghost function FirstPost<T>(f: Forest<T>): T
    requires f.Cons?
  {
    if f.kids.Cons? then FirstPost(f.kids) else f.item
  }

  /** The node that follows `n` in post-order; `up` follows the whole chain. */
  ghost function NextPost<T>(f: Forest<T>, n: T, up: Option<T>): Option<T>
    requires n in Items(f)
  {
    var Cons(m, k, r) := f;
    if m == n then (if r.Cons? then Some(FirstPost(r)) else up)
    else if n in Items(k) then NextPost(k, n, Some(m))
    else NextPost(r, n, up)
  }

  lemma {:induction false} FirstOfPost<T>(f: Forest<T>)
    requires f.Cons?
    ensures Post(f) != [] && Post(f)[0] == FirstPost(f) && FirstPost(f) in Items(f)
  {
    if f.kids.Cons? { FirstOfPost(f.kids); }
  }

  lemma {:induction false} PostItems<T>(f: Forest<T>)
    ensures |Post(f)| == Size(f) && forall x :: x in Post(f) <==> x in Items(f)
  {
    match f
    case Nil =>
    case Cons(_, k, r) => PostItems(k); PostItems(r);
  }

  /** The successor by position in post-order. */
  lemma {:induction false} PostSucc<T>(f: Forest<T>, i: nat, up: Option<T>)
    requires Distinct(f) && i < |Post(f)|
    ensures Post(f)[i] in Items(f)
    ensures NextPost(f, Post(f)[i], up) == if i + 1 < |Post(f)| then Some(Post(f)[i + 1]) else up
  {
    var Cons(m, k, r) := f;
    var a, b := Post(k), Post(r);
    PostItems(f);
    PostItems(k);
    PostItems(r);
    if r.Cons? { FirstOfPost(r); }
    if i < |a| {
      PostSucc(k, i, Some(m));
    } else if i > |a| {
      PostSucc(r, i - 1 - |a|, up);
    }
  }

  /** Post-order by links: the first leaf of the next sibling, or the parent. */
  lemma {:induction false} PostStep<T>(f: Forest<T>, up: Option<T>, prev: Option<T>, n: T)
    requires Distinct(f) && n in Items(f)
    ensures var l := LinkAt(f, up, prev, None, n);
            && (l.next.Some? ==> l.next.value in Items(f))
            && (l.next.Some? ==> NextPost(f, n, up) == Some(FirstPost(Branch(f, l.next.value))))
            && (l.next.None? ==> NextPost(f, n, up) == l.parent)
  {
    var Cons(m, k, r) := f;
    if m == n {
      if r.Cons? { assert Kids(f, r.item) == r.kids; }
    } else if n in Items(k) {
      PostStep(k, Some(m), None, n);
    } else {
      PostStep(r, up, Some(m), n);
    }
  }

  /** One step down towards the first leaf of a branch. */
  lemma FirstStep<T>(f: Forest<T>, n: T)
    requires Distinct(f) && n in Items(f)
    ensures Links(f, n).first.None? ==> FirstPost(Branch(f, n)) == n
    ensures Links(f, n).first.Some? ==>
              var c := Links(f, n).first.value;
              && c in Items(f) && Size(Branch(f, c)) < Size(Branch(f, n))
              && FirstPost(Branch(f, n)) == FirstPost(Branch(f, c))
  {
    KidsBothEnds(f, n);
    if Kids(f, n).Cons? {
      var c := Kids(f, n).item;
      KidsItems(f, n);
      KidsOfKid(f, n, c);
      SmallerBranch(Kids(f, n), c);
    }
  }

  // ----- leaves -----

  /** The leaves in pre-order. */
  ghost function Leaves<T>(f: Forest<T>): seq<T>
  {
    match f
    case Nil => []
    case Cons(m, k, r) => (if k.Nil? then [m] else Leaves(k)) + Leaves(r)
  }

  /** The first leaf after the branch of `n`, or `end` after the last. */
  ghost function LeafAfter<T>(f: Forest<T>, n: T, end: Option<T>): Option<T>
    requires n in Items(f)
  {
    var Cons(m, k, r) := f;
    var later := if r.Cons? then Some(FirstPost(r)) else end;
    if m == n then later else if n in Items(k) then LeafAfter(k, n, later) else LeafAfter(r, n, end)
  }

  lemma {:induction false} FirstLeaf<T>(f: Forest<T>)
    requires f.Cons?
    ensures Leaves(f) != [] && Leaves(f)[0] == FirstPost(f)
  {
    if f.kids.Cons? { FirstLeaf(f.kids); }
  }

  /** The leaves are the nodes without children. */
  lemma {:induction false} LeafMember<T>(f: Forest<T>, x: T)
    requires Distinct(f)
    ensures x in Leaves(f) <==> x in Items(f) && Kids(f, x).Nil?
  {
    match f
    case Nil =>
    case Cons(m, k, r) =>
      LeafMember(k, x);
      LeafMember(r, x);
  }

  /** No leaf is listed twice. */
  lemma {:induction false} LeavesOnce<T>(f: Forest<T>)
    requires Distinct(f)
    ensures NoRepeat(Leaves(f))
  {
    match f
    case Nil =>
    case Cons(m, k, r) =>
      LeavesOnce(k);
      LeavesOnce(r);
      forall x | x in (if k.Nil? then [m] else Leaves(k)) ensures x !in Leaves(r) {
        LeafMember(k, x);
        LeafMember(r, x);
      }
      NoRepeatConcat(if k.Nil? then [m] else Leaves(k), Leaves(r));
  }

  /** The successor by position among the leaves. */
  lemma {:induction false} LeafSucc<T>(f: Forest<T>, i: nat, end: Option<T>)
    requires Distinct(f) && i < |Leaves(f)|
    ensures Leaves(f)[i] in Items(f) && Kids(f, Leaves(f)[i]).Nil?
    ensures LeafAfter(f, Leaves(f)[i], end) == if i + 1 < |Leaves(f)| then Some(Leaves(f)[i + 1]) else end
  {
    var Cons(m, k, r) := f;
    var a, b := (if k.Nil? then [m] else Leaves(k)), Leaves(r);
    if r.Cons? { FirstLeaf(r); }
    if i >= |a| {
      LeafSucc(r, i - |a|, end);
      assert Leaves(f)[i] == b[i - |a|];
    } else if k.Cons? {
      LeafSucc(k, i, if r.Cons? then Some(FirstPost(r)) else end);
      assert Leaves(f)[i] == a[i];
    }
  }

  /** The next leaf by links: the first leaf of the next sibling, or what follows the
      parent's branch. */
  lemma {:induction false} LeafStep<T>(f: Forest<T>, up: Option<T>, prev: Option<T>, end: Option<T>, n: T)
    requires Distinct(f) && n in Items(f) && Outside(f, up)
    ensures var l := LinkAt(f, up, prev, None, n);
            && (l.next.Some? ==> l.next.value in Items(f))
            && (l.next.Some? ==> LeafAfter(f, n, end) == Some(FirstPost(Branch(f, l.next.value))))
            && (l.next.None? && l.parent == up ==> LeafAfter(f, n, end) == end)
            && (l.next.None? && l.parent != up ==>
                  l.parent.Some? && l.parent.value in Items(f)
                  && LeafAfter(f, n, end) == LeafAfter(f, l.parent.value, end))
  {
    var Cons(m, k, r) := f;
    if m == n {
      if r.Cons? { assert Kids(f, r.item) == r.kids; }
    } else if n in Items(k) {
      LinkRange(k, Some(m), None, None, n);
      LeafStep(k, Some(m), None, if r.Cons? then Some(FirstPost(r)) else end, n);
    } else {
      LinkRange(r, up, Some(m), None, n);
      LeafStep(r, up, Some(m), end, n);
    }
  }
}
