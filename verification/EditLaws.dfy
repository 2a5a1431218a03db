/** What each edit of a tree is, seen from outside: which nodes its outline lists, in which
    order and how deep. An outline tells the tree, so it tells the edit. */
module EditLaws {
  import opened Forests
  import opened LinkAlgebra
  import opened TreeShapes
  import opened CopyShapes
  import opened CacheRuns
  import opened ForestCopies

  /** The nodes in pre-order, each with its depth. */
  ghost function Outline<T>(f: Forest<T>, d: nat): seq<(T, nat)>
  {
    match f
    case Nil => []
    case Cons(m, k, r) => [(m, d)] + Outline(k, d + 1) + Outline(r, d)
  }

  /** The outline before the branch of `p`. */
  ghost function Ahead<T>(f: Forest<T>, p: T, d: nat): seq<(T, nat)>
    requires p in Items(f)
  {
    var Cons(m, k, r) := f;
    if m == p then [] else if p in Items(k) then [(m, d)] + Ahead(k, p, d + 1)
    else [(m, d)] + Outline(k, d + 1) + Ahead(r, p, d)
  }

  /** The outline after the branch of `p`. */
  ghost function Behind<T>(f: Forest<T>, p: T, d: nat): seq<(T, nat)>
    requires p in Items(f)
  {
    var Cons(m, k, r) := f;
    if m == p then Outline(r, d) else if p in Items(k) then Behind(k, p, d + 1) + Outline(r, d) else Behind(r, p, d)
  }

  lemma {:induction false} OutlineAppend<T>(f: Forest<T>, g: Forest<T>, d: nat)
    ensures Outline(Append(f, g), d) == Outline(f, d) + Outline(g, d)
  {
    match f
    case Nil => assert Outline(f, d) + Outline(g, d) == Outline(g, d);
    case Cons(m, k, r) =>
      OutlineAppend(r, g, d);
      ConcatAssociates([(m, d)] + Outline(k, d + 1), Outline(r, d), Outline(g, d));
  }

  /** In the place of a branch stands what replaces it, and nothing else changes. */
  lemma {:induction false} ReplacedOutline<T>(f: Forest<T>, p: T, g: Forest<T>, d: nat)
    requires Distinct(f) && p in Items(f)
    ensures Outline(ReplaceTree(f, p, g), d) == Ahead(f, p, d) + Outline(g, DepthOf(f, p, d)) + Behind(f, p, d)
  {
    var Cons(m, k, r) := f;
    if m == p {
      OutlineAppend(g, r, d);
    } else if p in Items(k) {
      ReplaceAbsent(r, p, g);
      ReplacedOutline(k, p, g, d + 1);
      Regroup([(m, d)], Ahead(k, p, d + 1), Outline(g, DepthOf(k, p, d + 1)), Behind(k, p, d + 1), Outline(r, d));
    } else {
      ReplaceAbsent(k, p, g);
      ReplacedOutline(r, p, g, d);
      var head := [(m, d)] + Outline(k, d + 1);
      Regroup(head, Ahead(r, p, d), Outline(g, DepthOf(r, p, d)), Behind(r, p, d), []);
    }
  }

  // ----- an outline tells the tree -----

  lemma {:induction false} OutlineDepths<T>(f: Forest<T>, d: nat)
    ensures forall i | 0 <= i < |Outline(f, d)| :: Outline(f, d)[i].1 >= d
    ensures Outline(f, d) != [] ==> Outline(f, d)[0].1 == d
    ensures Outline(f, d) == [] <==> f == Nil
  {
    match f
    case Nil =>
    case Cons(m, k, r) =>
      OutlineDepths(k, d + 1);
      OutlineDepths(r, d);
  }

  /** Where the first tree ends can be seen from the depths. */
  lemma Deeper<T>(a: seq<(T, nat)>, b: seq<(T, nat)>, x: seq<(T, nat)>, y: seq<(T, nat)>, d: nat)
    requires a + b == x + y && |a| < |x| && forall i | 0 <= i < |x| :: x[i].1 > d
    ensures b != [] && b[0].1 > d
  {
    assert |a + b| == |x + y|;
    assert b[0] == (a + b)[|a|] == (x + y)[|a|] == x[|a|];
  }

  lemma SameParts<T>(h: seq<T>, a: seq<T>, b: seq<T>, i: seq<T>, x: seq<T>, y: seq<T>)
    requires |h| == |i| && h + a + b == i + x + y
    ensures h == i && a + b == x + y && (|a| == |x| ==> a == x && b == y)
  {
    assert h + a + b == h + (a + b) && i + x + y == i + (x + y);
    assert h == (h + (a + b))[..|h|] && i == (i + (x + y))[..|i|];
    assert a + b == (h + (a + b))[|h|..] && x + y == (i + (x + y))[|i|..];
    if |a| == |x| {
      assert a == (a + b)[..|a|] && b == (a + b)[|a|..];
      assert x == (x + y)[..|x|] && y == (x + y)[|x|..];
    }
  }

  lemma {:induction false} OutlineTells<T>(f: Forest<T>, g: Forest<T>, d: nat)
    requires Outline(f, d) == Outline(g, d)
    ensures f == g
  {
    OutlineDepths(f, d);
    OutlineDepths(g, d);
    match f
    case Nil =>
    case Cons(m, k, r) =>
      var Cons(n, l, t) := g;
      var a, b, x, y := Outline(k, d + 1), Outline(r, d), Outline(l, d + 1), Outline(t, d);
      OutlineDepths(k, d + 1);
      OutlineDepths(r, d);
      OutlineDepths(l, d + 1);
      OutlineDepths(t, d);
      SameParts([(m, d)], a, b, [(n, d)], x, y);
      assert [(m, d)][0] == [(n, d)][0];
      if |a| < |x| {
        Deeper(a, b, x, y, d);
        assert false;
      }
      if |x| < |a| {
        Deeper(x, y, a, b, d);
        assert false;
      }
      OutlineTells(k, l, d + 1);
      OutlineTells(r, t, d);
  }

  // ----- every edit at a node replaces its branch -----

  lemma AppendOne<T>(y: T, g: Forest<T>, r: Forest<T>)
    ensures Append(Cons(y, g, Nil), r) == Cons(y, g, r)
  {
    assert Append(Nil, r) == r;
  }

  lemma {:induction false} RemoveReplaces<T>(f: Forest<T>, p: T)
    requires Distinct(f) && p in Items(f)
    ensures Remove(f, p) == ReplaceTree(f, p, Nil)
  {
    var Cons(m, k, r) := f;
    if m == p {
    } else if p in Items(k) {
      RemoveAbsent(r, p);
      ReplaceAbsent(r, p, Nil);
      RemoveReplaces(k, p);
    } else {
      RemoveAbsent(k, p);
      ReplaceAbsent(k, p, Nil);
      RemoveReplaces(r, p);
    }
  }

  lemma {:induction false} AppendKidsReplaces<T>(f: Forest<T>, p: T, g: Forest<T>)
    requires Distinct(f) && p in Items(f)
    ensures AppendKids(f, p, g) == ReplaceTree(f, p, Cons(p, Append(Kids(f, p), g), Nil))
  {
    var Cons(m, k, r) := f;
    if m == p {
      AppendOne(p, Append(k, g), r);
    } else if p in Items(k) {
      AppendKidsAbsent(r, p, g);
      ReplaceAbsent(r, p, Cons(p, Append(Kids(f, p), g), Nil));
      AppendKidsReplaces(k, p, g);
    } else {
      AppendKidsAbsent(k, p, g);
      ReplaceAbsent(k, p, Cons(p, Append(Kids(f, p), g), Nil));
      AppendKidsReplaces(r, p, g);
    }
  }

  lemma {:induction false} PrependKidsReplaces<T>(f: Forest<T>, p: T, g: Forest<T>)
    requires Distinct(f) && p in Items(f)
    ensures PrependKids(f, p, g) == ReplaceTree(f, p, Cons(p, Append(g, Kids(f, p)), Nil))
  {
    var Cons(m, k, r) := f;
    if m == p {
      AppendOne(p, Append(g, k), r);
    } else if p in Items(k) {
      PrependKidsAbsent(r, p, g);
      ReplaceAbsent(r, p, Cons(p, Append(g, Kids(f, p)), Nil));
      PrependKidsReplaces(k, p, g);
    } else {
      PrependKidsAbsent(k, p, g);
      ReplaceAbsent(k, p, Cons(p, Append(g, Kids(f, p)), Nil));
      PrependKidsReplaces(r, p, g);
    }
  }

  lemma {:induction false} SetKidsReplaces<T>(f: Forest<T>, p: T, g: Forest<T>)
    requires Distinct(f) && p in Items(f)
    ensures SetKids(f, p, g) == ReplaceTree(f, p, Cons(p, g, Nil))
  {
    var Cons(m, k, r) := f;
    if m == p {
      AppendOne(p, g, r);
    } else if p in Items(k) {
      SetKidsAbsent(r, p, g);
      ReplaceAbsent(r, p, Cons(p, g, Nil));
      SetKidsReplaces(k, p, g);
    } else {
      SetKidsAbsent(k, p, g);
      ReplaceAbsent(k, p, Cons(p, g, Nil));
      SetKidsReplaces(r, p, g);
    }
  }

  lemma {:induction false} InsertAfterReplaces<T>(f: Forest<T>, p: T, g: Forest<T>)
    requires Distinct(f) && p in Items(f)
    ensures InsertAfter(f, p, g) == ReplaceTree(f, p, Cons(p, Kids(f, p), g))
  {
    var Cons(m, k, r) := f;
    if m == p {
    } else if p in Items(k) {
      InsertAfterAbsent(r, p, g);
      ReplaceAbsent(r, p, Cons(p, Kids(f, p), g));
      InsertAfterReplaces(k, p, g);
    } else {
      InsertAfterAbsent(k, p, g);
      ReplaceAbsent(k, p, Cons(p, Kids(f, p), g));
      InsertAfterReplaces(r, p, g);
    }
  }

  lemma {:induction false} InsertBeforeReplaces<T>(f: Forest<T>, p: T, g: Forest<T>)
    requires Distinct(f) && p in Items(f)
    ensures InsertBefore(f, p, g) == ReplaceTree(f, p, Append(g, Branch(f, p)))
  {
    var Cons(m, k, r) := f;
    if m == p {
      AppendAppend(g, Branch(f, p), r);
    } else if p in Items(k) {
      InsertBeforeAbsent(r, p, g);
      ReplaceAbsent(r, p, Append(g, Branch(f, p)));
      InsertBeforeReplaces(k, p, g);
    } else {
      InsertBeforeAbsent(k, p, g);
      ReplaceAbsent(k, p, Append(g, Branch(f, p)));
      InsertBeforeReplaces(r, p, g);
    }
  }

  lemma {:induction false} FlattenReplaces<T>(f: Forest<T>, p: T)
    requires Distinct(f) && p in Items(f)
    ensures Flatten(f, p) == ReplaceTree(f, p, Cons(p, Nil, Kids(f, p)))
  {
    var Cons(m, k, r) := f;
    if m == p {
    } else if p in Items(k) {
      FlattenAbsent(r, p);
      ReplaceAbsent(r, p, Cons(p, Nil, Kids(f, p)));
      FlattenReplaces(k, p);
    } else {
      FlattenAbsent(k, p);
      ReplaceAbsent(k, p, Cons(p, Nil, Kids(f, p)));
      FlattenReplaces(r, p);
    }
  }

  lemma {:induction false} WrappedReplaces<T>(f: Forest<T>, p: T, x: T)
    requires Distinct(f) && p in Items(f)
    ensures Wrapped(f, p, x) == ReplaceTree(f, p, Cons(x, Branch(f, p), Nil))
  {
    var Cons(m, k, r) := f;
    if m == p {
      AppendOne(x, Branch(f, p), r);
    } else if p in Items(k) {
      WrappedAbsent(r, p, x);
      ReplaceAbsent(r, p, Cons(x, Branch(f, p), Nil));
      WrappedReplaces(k, p, x);
    } else {
      WrappedAbsent(k, p, x);
      ReplaceAbsent(k, p, Cons(x, Branch(f, p), Nil));
      WrappedReplaces(r, p, x);
    }
  }

  lemma {:induction false} BranchReplaces<T>(f: Forest<T>, p: T)
    requires Distinct(f) && p in Items(f)
    ensures f == ReplaceTree(f, p, Branch(f, p))
  {
    var Cons(m, k, r) := f;
    if m == p {
      AppendOne(p, k, r);
    } else if p in Items(k) {
      ReplaceAbsent(r, p, Branch(f, p));
      BranchReplaces(k, p);
    } else {
      ReplaceAbsent(k, p, Branch(f, p));
      BranchReplaces(r, p);
    }
  }

  /** The outlines of all edits at a node `p`: `a` is what is listed before its branch and `b`
      what is listed after it. */
  lemma EditOutlines<T>(f: Forest<T>, p: T, g: Forest<T>, x: T, d: nat)
    requires Distinct(f) && p in Items(f)
    ensures var a, b, e, kids := Ahead(f, p, d), Behind(f, p, d), DepthOf(f, p, d), Kids(f, p);
            && Outline(f, d) == a + ([(p, e)] + Outline(kids, e + 1)) + b
            && Outline(Remove(f, p), d) == a + [] + b
            && Outline(SetKids(f, p, g), d) == a + ([(p, e)] + Outline(g, e + 1)) + b
            && Outline(AppendKids(f, p, g), d) == a + ([(p, e)] + (Outline(kids, e + 1) + Outline(g, e + 1))) + b
            && Outline(PrependKids(f, p, g), d) == a + ([(p, e)] + (Outline(g, e + 1) + Outline(kids, e + 1))) + b
            && Outline(InsertAfter(f, p, g), d) == a + ([(p, e)] + Outline(kids, e + 1) + Outline(g, e)) + b
            && Outline(InsertBefore(f, p, g), d) == a + (Outline(g, e) + ([(p, e)] + Outline(kids, e + 1))) + b
            && Outline(Flatten(f, p), d) == a + ([(p, e)] + Outline(kids, e)) + b
            && Outline(Wrapped(f, p, x), d) == a + ([(x, e)] + ([(p, e + 1)] + Outline(kids, e + 2))) + b
            && Outline(ReplaceTree(f, p, g), d) == a + Outline(g, e) + b
  {
    hide Ahead, Append, Behind, DepthOf, Kids, Outline, ReplaceTree;
    var e, kids := DepthOf(f, p, d), Kids(f, p);
    RemoveReplaces(f, p);
    SetKidsReplaces(f, p, g);
    AppendKidsReplaces(f, p, g);
    PrependKidsReplaces(f, p, g);
    InsertAfterReplaces(f, p, g);
    InsertBeforeReplaces(f, p, g);
    FlattenReplaces(f, p);
    WrappedReplaces(f, p, x);
    BranchReplaces(f, p);
    OutlineAppend(kids, g, e + 1);
    OutlineAppend(g, kids, e + 1);
    OutlineAppend(g, Branch(f, p), e);
    RootOutline(p, kids, Nil, e);
    RootOutline(p, g, Nil, e);
    RootOutline(p, Append(kids, g), Nil, e);
    RootOutline(p, Append(g, kids), Nil, e);
    RootOutline(p, kids, g, e);
    RootOutline(p, Nil, kids, e);
    RootOutline(x, Branch(f, p), Nil, e);
    RootOutline(p, kids, Nil, e + 1);
    ReplacedOutline(f, p, Branch(f, p), d);
    ReplacedOutline(f, p, Nil, d);
    ReplacedOutline(f, p, g, d);
    ReplacedOutline(f, p, Cons(p, g, Nil), d);
    ReplacedOutline(f, p, Cons(p, Append(kids, g), Nil), d);
    ReplacedOutline(f, p, Cons(p, Append(g, kids), Nil), d);
    ReplacedOutline(f, p, Cons(p, kids, g), d);
    ReplacedOutline(f, p, Append(g, Branch(f, p)), d);
    ReplacedOutline(f, p, Cons(p, Nil, kids), d);
    ReplacedOutline(f, p, Cons(x, Branch(f, p), Nil), d);
  }

  lemma RootOutline<T>(p: T, k: Forest<T>, r: Forest<T>, e: nat)
    ensures Outline(Cons(p, k, r), e) == [(p, e)] + Outline(k, e + 1) + Outline(r, e)
    ensures r == Nil ==> Outline(Cons(p, k, r), e) == [(p, e)] + Outline(k, e + 1)
  {
  }

  // ----- a stretch of siblings, base branches and moves -----

  /** The outline after the siblings of `p` that follow it. */
  ghost function Beyond<T>(f: Forest<T>, p: T, d: nat): seq<(T, nat)>
    requires p in Items(f)
  {
    var Cons(m, k, r) := f;
    if m == p then [] else if p in Items(k) then Beyond(k, p, d + 1) + Outline(r, d) else Beyond(r, p, d)
  }

  lemma {:induction false} ChangedOutline<T>(f: Forest<T>, p: T, g: Forest<T>, d: nat)
    requires Distinct(f) && p in Items(f)
    ensures Outline(Change(f, p, g), d) == Ahead(f, p, d) + Outline(g, DepthOf(f, p, d)) + Beyond(f, p, d)
  {
    var Cons(m, k, r) := f;
    if m == p {
    } else if p in Items(k) {
      ChangeAbsent(r, p, g);
      ChangedOutline(k, p, g, d + 1);
      Regroup([(m, d)], Ahead(k, p, d + 1), Outline(g, DepthOf(k, p, d + 1)), Beyond(k, p, d + 1), Outline(r, d));
    } else {
      ChangeAbsent(k, p, g);
      ChangedOutline(r, p, g, d);
      var head := [(m, d)] + Outline(k, d + 1);
      Regroup(head, Ahead(r, p, d), Outline(g, DepthOf(r, p, d)), Beyond(r, p, d), []);
    }
  }

  /** Taking a stretch of siblings out takes its outline out. */
  lemma CutOutline<T>(f: Forest<T>, seg: Forest<T>, rest: Forest<T>, d: nat)
    requires Distinct(f) && seg.Cons? && seg.item in Items(f) && Suffix(f, seg.item) == Append(seg, rest)
    ensures var a, e, c := Ahead(f, seg.item, d), DepthOf(f, seg.item, d), Beyond(f, seg.item, d);
            && Outline(f, d) == a + (Outline(seg, e) + Outline(rest, e)) + c
            && Outline(CutOut(f, seg, rest), d) == a + Outline(rest, e) + c
  {
    ChangeSame(f, seg.item);
    ChangedOutline(f, seg.item, Append(seg, rest), d);
    ChangedOutline(f, seg.item, rest, d);
    OutlineAppend(seg, rest, DepthOf(f, seg.item, d));
  }

  /** A base branch stands after the first one, or alone. */
  lemma AddBaseOutline<T>(f: Forest<T>, g: Forest<T>)
    ensures f == Nil ==> Outline(AddBase(f, g), 0) == Outline(g, 0)
    ensures f.Cons? ==>
              Outline(AddBase(f, g), 0) == [(f.item, 0)] + Outline(f.kids, 1) + Outline(g, 0) + Outline(f.rest, 0)
  {
    if f.Cons? {
      OutlineAppend(g, f.rest, 0);
      ConcatAssociates([(f.item, 0)] + Outline(f.kids, 1), Outline(g, 0), Outline(f.rest, 0));
    }
  }

  /** A moved branch is gone from its place, and stands last below its new parent. */
  lemma MovedOutline<T>(f: Forest<T>, x: T, p: T)
    requires Distinct(f) && x in Items(f) && p in Items(f) && p !in Items(Branch(f, x))
    ensures var h := Remove(f, x);
            && p in Items(h) && Outline(h, 0) == Ahead(f, x, 0) + Behind(f, x, 0)
            && Outline(Moved(f, x, Some(p)), 0)
               == Ahead(h, p, 0) + ([(p, DepthOf(h, p, 0))] + (Outline(Kids(h, p), DepthOf(h, p, 0) + 1)
                  + Outline(Branch(f, x), DepthOf(h, p, 0) + 1))) + Behind(h, p, 0)
  {
    hide Ahead, Behind, Outline;
    var h := Remove(f, x);
    RemoveItems(f, x);
    EditOutlines(f, x, Nil, x, 0);
    EditOutlines(h, p, Branch(f, x), p, 0);
  }

  /** A branch moved to the base stands after the first base branch, which itself stays. */
  lemma MovedToBaseOutline<T>(f: Forest<T>, x: T)
    requires Distinct(f) && x in Items(f)
    ensures f.item == x ==> Moved(f, x, None) == f
    ensures f.item != x ==>
              var h := Remove(f, x);
              && h.Cons? && h.item == f.item
              && Outline(Moved(f, x, None), 0)
                 == [(h.item, 0)] + Outline(h.kids, 1) + Outline(Branch(f, x), 0) + Outline(h.rest, 0)
  {
    if f.item != x { AddBaseOutline(Remove(f, x), Branch(f, x)); }
  }
}
