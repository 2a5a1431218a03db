/** Forests between two sentinels, and what each edit of the tree container does to the
    links of their nodes. */
module TreeShapes {
  import opened Forests
  import opened LinkAlgebra

  /** The last root is `feet`, which has no children. */
  ghost predicate EndsWith<T>(f: Forest<T>, feet: T)
  {
    f.Cons? && if f.rest.Nil? then f.item == feet && f.kids.Nil? else EndsWith(f.rest, feet)
  }

  lemma {:induction false} InsertEndsWith<T>(f: Forest<T>, p: T, g: Forest<T>, feet: T)
    requires EndsWith(f, feet)
    ensures EndsWith(InsertBefore(f, p, g), feet)
  {
    if f.item == p {
      AppendEndsWith(g, f, feet);
    } else if f.rest.Cons? {
      InsertEndsWith(f.rest, p, g, feet);
    }
  }

  lemma {:induction false} AppendEndsWith<T>(f: Forest<T>, g: Forest<T>, feet: T)
    requires EndsWith(g, feet)
    ensures EndsWith(Append(f, g), feet)
  {
    match f
    case Nil =>
    case Cons(_, _, r) => AppendEndsWith(r, g, feet);
  }

  /** A forest between two sentinels that have no children. */
  ghost predicate Shaped<T>(f: Forest<T>, head: T, feet: T)
  {
    Distinct(f) && f.Cons? && f.item == head && f.kids.Nil? && EndsWith(f.rest, feet)
  }

  lemma EmptyTree<T>(h: T, f: T)
    requires h != f
    ensures var c := Cons(h, Nil, Cons(f, Nil, Nil));
            && Shaped(c, h, f) && Items(c) == {h, f}
            && Links(c, h) == Link(None, None, None, None, Some(f))
            && Links(c, f) == Link(None, None, None, Some(h), None)
  {
    assert LinkAt(Cons(f, Nil, Nil), None, Some(h), None, f) == Link(None, None, None, Some(h), None);
  }

  lemma {:induction false} AfterEndsWith<T>(f: Forest<T>, p: T, g: Forest<T>, feet: T)
    requires EndsWith(f, feet) && p != feet
    ensures EndsWith(InsertAfter(f, p, g), feet)
  {
    if f.rest.Cons? {
      if f.item == p { AppendEndsWith(g, f.rest, feet); } else { AfterEndsWith(f.rest, p, g, feet); }
    }
  }

  lemma {:induction false} KidsEndsWith<T>(f: Forest<T>, p: T, g: Forest<T>, feet: T)
    requires EndsWith(f, feet) && p != feet
    ensures EndsWith(AppendKids(f, p, g), feet)
  {
    if f.rest.Cons? { KidsEndsWith(f.rest, p, g, feet); }
  }

  /** The shape after a node was inserted before `p`. */
  lemma InsertShape<T>(f: Forest<T>, p: T, x: T, g: Forest<T>, head: T, feet: T)
    requires Shaped(f, head, feet) && p in Items(f) && p != head && x !in Items(f)
    requires g == InsertBefore(f, p, Cons(x, Nil, Nil))
    ensures Shaped(g, head, feet) && Items(g) == Items(f) + {x}
    ensures Links(g, x) == Link(Links(f, p).parent, None, None, Links(f, p).prev, Some(p))
    ensures forall n | n in Items(f) :: Links(g, n) == WithBefore(n, Links(f, n), p, Links(f, p), x)
  {
    InsertLinks(f, p, x);
    InsertEndsWith(f.rest, p, Cons(x, Nil, Nil), feet);
  }

  lemma SingleChain<T>(x: T, up: Option<T>, prev: Option<T>, end: Option<T>)
    ensures Distinct(Cons(x, Nil, Nil)) && Items(Cons(x, Nil, Nil)) == {x}
    ensures LastOr(Cons(x, Nil, Nil), None) == Some(x)
    ensures LinkAt(Cons(x, Nil, Nil), up, prev, end, x) == Link(up, None, None, prev, end)
  {
    SingleItems(x);
  }

  /** The shape after a node was inserted after `p`. */
  lemma AfterShape<T>(f: Forest<T>, p: T, x: T, g: Forest<T>, head: T, feet: T)
    requires Shaped(f, head, feet) && p in Items(f) && p != feet && x !in Items(f)
    requires g == InsertAfter(f, p, Cons(x, Nil, Nil))
    ensures Shaped(g, head, feet) && Items(g) == Items(f) + {x}
    ensures Links(g, x) == Link(Links(f, p).parent, None, None, Some(p), Links(f, p).next)
    ensures forall n | n in Items(f) :: Links(g, n) == WithNext(n, Links(f, n), p, Links(f, p), x, x)
  {
    SingleChain(x, Links(f, p).parent, Some(p), Links(f, p).next);
    AttachAfterLinks(f, p, Cons(x, Nil, Nil), x);
    AfterEndsWith(f, p, Cons(x, Nil, Nil), feet);
  }

  /** The shape after a node was hung behind the children of `p`. */
  lemma KidShape<T>(f: Forest<T>, p: T, x: T, g: Forest<T>, head: T, feet: T)
    requires Shaped(f, head, feet) && p in Items(f) && p != head && p != feet && x !in Items(f)
    requires g == AppendKids(f, p, Cons(x, Nil, Nil))
    ensures Shaped(g, head, feet) && Items(g) == Items(f) + {x}
    ensures Links(g, x) == Link(Some(p), None, None, Links(f, p).last, None)
    ensures forall n | n in Items(f) :: Links(g, n) == WithKids(n, Links(f, n), p, Links(f, p), x, x)
  {
    SingleChain(x, Some(p), Links(f, p).last, None);
    AttachKidsLinks(f, p, Cons(x, Nil, Nil), x);
    KidsEndsWith(f, p, Cons(x, Nil, Nil), feet);
  }

  /** The shape after a node was hung before the children of `p`. */
  lemma PrependShape<T>(f: Forest<T>, p: T, x: T, g: Forest<T>, head: T, feet: T)
    requires Shaped(f, head, feet) && p in Items(f) && p != head && p != feet && x !in Items(f)
    requires g == PrependKids(f, p, Cons(x, Nil, Nil))
    ensures Shaped(g, head, feet) && Items(g) == Items(f) + {x}
    ensures Links(g, x) == Link(Some(p), None, None, None, Links(f, p).first)
    ensures forall n | n in Items(f) :: Links(g, n) == WithFirst(n, Links(f, n), p, Links(f, p), x)
  {
    PrependLinks(f, p, x);
    PrependEndsWith(f.rest, p, Cons(x, Nil, Nil), feet);
  }

  lemma {:induction false} PrependEndsWith<T>(f: Forest<T>, p: T, g: Forest<T>, feet: T)
    requires EndsWith(f, feet) && p != feet
    ensures EndsWith(PrependKids(f, p, g), feet)
  {
    if f.rest.Cons? { PrependEndsWith(f.rest, p, g, feet); }
  }

  /** The shape after `p` lost its children. */
  lemma ChildlessShape<T>(f: Forest<T>, p: T, g: Forest<T>, head: T, feet: T)
    requires Shaped(f, head, feet) && p in Items(f) && g == SetKids(f, p, Nil)
    ensures Shaped(g, head, feet) && Items(g) == Items(f) - Items(Kids(f, p))
    ensures forall n | n in Items(g) ::
              n in Items(f) && Links(g, n) == if n == p then Links(f, p).(first := None, last := None) else Links(f, n)
  {
    ChildlessItems(f, p);
    ChildlessEndsWith(f.rest, p, feet);
    forall n | n in Items(g)
      ensures n in Items(f) && Links(g, n) == if n == p then Links(f, p).(first := None, last := None) else Links(f, n)
    {
      ChildlessAt(f, p, n);
    }
  }

  lemma {:induction false} ChildlessEndsWith<T>(f: Forest<T>, p: T, feet: T)
    requires EndsWith(f, feet)
    ensures EndsWith(SetKids(f, p, Nil), feet)
  {
    if f.rest.Cons? { ChildlessEndsWith(f.rest, p, feet); }
  }

  /** Between the sentinels every node without a neighbour has a parent. */
  lemma NotEdge<T>(f: Forest<T>, p: T, head: T, feet: T)
    requires Shaped(f, head, feet) && p in Items(f)
    ensures p != head && Links(f, p).prev.None? ==> Links(f, p).parent.Some?
    ensures p != feet && Links(f, p).next.None? ==> Links(f, p).parent.Some?
  {
    LinkUp(f, None, None, None, p);
    if IsRoot(f, p) {
      RootPrev(f, p, None, None, None);
      RootNext(f, p, None, feet);
    }
  }

  lemma {:induction false} RootNext<T>(f: Forest<T>, p: T, prev: Option<T>, feet: T)
    requires Distinct(f) && p in Items(f) && IsRoot(f, p) && (EndsWith(f, feet) || EndsWith(f.rest, feet))
    ensures LinkAt(f, None, prev, None, p).next.None? ==> p == feet
  {
    if f.item != p {
      RootsAreItems(f.rest);
      RootNext(f.rest, p, Some(f.item), feet);
    }
  }

  /** The shape after a stretch was taken out. */
  lemma CutShape<T>(f: Forest<T>, seg: Forest<T>, rest: Forest<T>, last: T, g: Forest<T>, head: T, feet: T)
    requires Shaped(f, head, feet) && Stretch(f, seg, rest) && LastOr(seg, None) == Some(last)
    requires head !in Items(seg) && feet !in Items(seg) && g == CutOut(f, seg, rest)
    ensures Shaped(g, head, feet) && Items(g) == Items(f) - Items(seg) && last in Items(f)
    ensures forall n | n in Items(g) ::
              n in Items(f) && Links(g, n) == Without(n, Links(f, n), Links(f, seg.item), Links(f, last))
  {
    StretchLinks(f, seg, rest, last);
    CutLinks(f, seg, rest, last);
    HeadSkipped(f, seg.item, rest, head);
    CutEndsWith(f.rest, seg, rest, feet);
  }

  lemma HeadSkipped<T>(f: Forest<T>, p: T, g: Forest<T>, head: T)
    requires f.Cons? && f.item == head && f.kids.Nil? && p in Items(f) && p != head
    ensures p in Items(f.rest) && Suffix(f, p) == Suffix(f.rest, p)
    ensures Change(f, p, g) == Cons(head, Nil, Change(f.rest, p, g))
  {
  }

  lemma {:induction false} CutEndsWith<T>(f: Forest<T>, seg: Forest<T>, rest: Forest<T>, feet: T)
    requires EndsWith(f, feet) && Distinct(f) && seg.Cons? && feet !in Items(seg)
    requires seg.item in Items(f) && Suffix(f, seg.item) == Append(seg, rest)
    ensures EndsWith(Change(f, seg.item, rest), feet)
  {
    if f.item == seg.item {
      AppendEndsInv(seg, rest, feet);
    } else if seg.item in Items(f.kids) {
      ChangeAbsent(f.rest, seg.item, rest);
    } else {
      CutEndsWith(f.rest, seg, rest, feet);
    }
  }

  lemma {:induction false} AppendEndsInv<T>(seg: Forest<T>, rest: Forest<T>, feet: T)
    requires EndsWith(Append(seg, rest), feet) && feet !in Items(seg)
    ensures EndsWith(rest, feet)
  {
    match seg
    case Nil =>
    case Cons(_, _, r) =>
      if Append(r, rest).Cons? { AppendEndsInv(r, rest, feet); }
  }

  /** The shape after the children of `p` were lifted. */
  lemma FlattenShape<T>(f: Forest<T>, p: T, g: Forest<T>, head: T, feet: T)
    requires Shaped(f, head, feet) && p in Items(f) && Kids(f, p).Cons? && g == Flatten(f, p)
    ensures Shaped(g, head, feet) && Items(g) == Items(f)
    ensures forall n | n in Items(f) :: Links(g, n) == Lifted(n, Links(f, n), p, Links(f, p))
  {
    FlattenPre(f, p);
    DistinctPre(f);
    DistinctPre(g);
    PreSet(f);
    PreSet(g);
    FlattenEndsWith(f.rest, p, feet);
    forall n | n in Items(f) ensures Links(g, n) == Lifted(n, Links(f, n), p, Links(f, p)) { FlattenLinksAt(f, p, n); }
  }

  lemma {:induction false} FlattenEndsWith<T>(f: Forest<T>, p: T, feet: T)
    requires EndsWith(f, feet)
    ensures EndsWith(Flatten(f, p), feet)
  {
    if f.rest.Cons? {
      if f.item == p { AppendEndsWith(f.kids, f.rest, feet); } else { FlattenEndsWith(f.rest, p, feet); }
    }
  }

  lemma {:induction false} FeetChildless<T>(f: Forest<T>, feet: T)
    requires EndsWith(f, feet) && Distinct(f)
    ensures feet in Items(f) && Kids(f, feet).Nil?
  {
    if f.rest.Cons? { FeetChildless(f.rest, feet); }
  }

  /** A node's children, neighbours and parent are all different. */
  lemma Around<T>(f: Forest<T>, p: T, head: T, feet: T)
    requires Shaped(f, head, feet) && p in Items(f) && Kids(f, p).Cons?
    ensures var at := Links(f, p);
            && at.first.Some? && at.last.Some?
            && at.first.value in Items(Kids(f, p)) && at.last.value in Items(Kids(f, p))
            && Outside(Kids(f, p), at.next) && Outside(Kids(f, p), at.parent) && p !in Items(Kids(f, p))
            && at.next != Some(p) && at.parent != Some(p) && (at.next.None? ==> at.parent.Some?)
  {
    Unchanged(f, p);
    KidsItems(f, p);
    KidsBothEnds(f, p);
    EndsAreItems(Kids(f, p), None);
    FeetChildless(f.rest, feet);
    NotEdge(f, p, head, feet);
  }

  lemma ParentIsRoot<T>(f: Forest<T>, p: T, n: T)
    requires Distinct(f) && p in Items(f) && n in Items(f)
    ensures Links(f, n).parent == Some(p) <==> n in Roots(Kids(f, p))
  {
    RootsListed(Kids(f, p));
    assert n in Roots(Kids(f, p)) <==> IsRoot(Kids(f, p), n);
    Unchanged(f, p);
    KidsItems(f, p);
    RootsAreItems(Kids(f, p));
    if n in Items(Kids(f, p)) {
      KidsLinks(f, p);
      LinkUp(Kids(f, p), Some(p), None, None, n);
    } else if Links(f, n).parent == Some(p) {
      ChildInSuffix(f, p, None, None, None, n);
      var s := Suffix(f, p);
      if n != p { LinkRange(s.rest, Links(f, p).parent, Some(p), None, n); }
    }
  }

  /** The children of `p` as a list. */
  lemma ChildList<T>(f: Forest<T>, p: T, k: Forest<T>, roots: seq<T>)
    requires Distinct(f) && p in Items(f) && k == Kids(f, p) && roots == Roots(k)
    ensures NoRepeat(roots) && forall n | n in roots :: n in Items(f)
    ensures Links(f, p).first == if roots == [] then None else Some(roots[0])
    ensures Links(f, p).last == if roots == [] then None else Some(roots[|roots| - 1])
    ensures forall i | 0 <= i < |roots| ::
              roots[i] in Items(f) && Links(f, roots[i]).next == if i + 1 < |roots| then Some(roots[i + 1]) else None
    ensures roots != [] ==> Links(f, roots[|roots| - 1]).next == None
    ensures forall n | n in Items(f) :: Links(f, n).parent == Some(p) <==> n in roots
  {
    RootsListed(k);
    KidsLinks(f, p);
    KidsBothEnds(f, p);
    if roots != [] { RootsLinked(k, Some(p), None, None, |roots| - 1); }
    forall i | 0 <= i < |roots|
      ensures roots[i] in Items(f) && Links(f, roots[i]).next == if i + 1 < |roots| then Some(roots[i + 1]) else None
    {
      RootsLinked(k, Some(p), None, None, i);
    }
    forall n | n in Items(f) ensures Links(f, n).parent == Some(p) <==> n in roots {
      ParentIsRoot(f, p, n);
    }
  }

  lemma {:induction false} NothingToLift<T>(f: Forest<T>, p: T)
    requires Distinct(f) && p in Items(f) && Kids(f, p).Nil?
    ensures Flatten(f, p) == f
  {
    var Cons(m, k, r) := f;
    if m == p {
    } else if p in Items(k) {
      NothingToLift(k, p);
      FlattenAbsent(r, p);
    } else {
      NothingToLift(r, p);
      FlattenAbsent(k, p);
    }
  }

  lemma LiftedTwice<T>(n: T, was: Link<T>, p: T, at: Link<T>, roots: seq<T>, raised: Link<T>, now: Link<T>)
    requires was.parent == Some(p) <==> n in roots
    requires raised == WithParent(n, was, roots, at.parent) && now == Lifted(n, raised, p, at).(parent := raised.parent)
    ensures now == Lifted(n, was, p, at)
  {
  }

  // ----- moving a stretch -----

  /** The links `was` of a node of a stretch whose roots are `roots`, once it hangs
      elsewhere. */
  ghost function Rehung<T>(n: T, was: Link<T>, roots: seq<T>, up: Option<T>, prev: Option<T>, end: Option<T>): Link<T>
    requires roots != []
  {
    Link(if n in roots then up else was.parent,
         was.first,
         was.last,
         if n == roots[0] then prev else was.prev,
         if n == roots[|roots| - 1] then end else was.next)
  }

  lemma RehungIs<T>(seg: Forest<T>, roots: seq<T>, up: Option<T>, prev: Option<T>, end: Option<T>,
                    up': Option<T>, prev': Option<T>, end': Option<T>, n: T)
    requires Distinct(seg) && seg.Cons? && roots == Roots(seg) && n in Items(seg)
    ensures roots != []
    ensures LinkAt(seg, up', prev', end', n) == Rehung(n, LinkAt(seg, up, prev, end, n), roots, up', prev', end')
  {
    RootsListed(seg);
    assert n in roots <==> IsRoot(seg, n);
    HangElsewhere(seg, up, prev, end, up', prev', end', n);
  }

  /** What the links of a stretch are before it is moved. */
  lemma StretchList<T>(f: Forest<T>, seg: Forest<T>, rest: Forest<T>, roots: seq<T>, head: T, feet: T)
    requires Shaped(f, head, feet) && Stretch(f, seg, rest) && roots == Roots(seg)
    requires head !in Items(seg) && feet !in Items(seg)
    ensures roots != [] && roots[0] == seg.item && NoRepeat(roots) && LastOr(seg, None) == Some(roots[|roots| - 1])
    ensures forall n | n in roots :: n in Items(seg) && n in Items(f)
    ensures FirstOr(rest, None).Some? ==> FirstOr(rest, None).value !in roots
    ensures forall i | 0 <= i < |roots| ::
              roots[i] in Items(f)
              && Links(f, roots[i]).next == if i + 1 < |roots| then Some(roots[i + 1]) else FirstOr(rest, None)
    ensures var af, al := Links(f, roots[0]), Links(f, roots[|roots| - 1]);
            && al.next == FirstOr(rest, None) && al.parent == af.parent
            && (af.prev.None? ==> af.parent.Some?) && (al.next.None? ==> al.parent.Some?)
            && Outside(seg, af.prev) && Outside(seg, af.parent) && Outside(seg, al.next)
  {
    RootsListed(seg);
    var last := roots[|roots| - 1];
    StretchLinks(f, seg, rest, last);
    NotEdge(f, roots[0], head, feet);
    NotEdge(f, last, head, feet);
    var af := Links(f, roots[0]);
    forall i | 0 <= i < |roots|
      ensures roots[i] in Items(f)
      ensures Links(f, roots[i]).next == if i + 1 < |roots| then Some(roots[i + 1]) else FirstOr(rest, None)
    {
      RootsLinked(seg, af.parent, af.prev, FirstOr(rest, None), i);
    }
  }

  /** One tree is a stretch. */
  lemma OneTree<T>(f: Forest<T>, p: T)
    requires Distinct(f) && p in Items(f)
    ensures Suffix(f, p).Cons? && Stretch(f, Branch(f, p), Suffix(f, p).rest)
    ensures CutOut(f, Branch(f, p), Suffix(f, p).rest) == Remove(f, p)
    ensures Roots(Branch(f, p)) == [p]
  {
    SuffixItems(f, p);
    RemoveIs(f, p);
    var b, r := Branch(f, p), Suffix(f, p).rest;
    assert Append(b, r) == Cons(p, Kids(f, p), r);
    assert Roots(b.rest) == [];
  }

  /** All children of a node are a stretch. */
  lemma AllChildren<T>(f: Forest<T>, p: T)
    requires Distinct(f) && p in Items(f) && Kids(f, p).Cons?
    ensures Stretch(f, Kids(f, p), Nil)
  {
    KidsItems(f, p);
    AppendNil(Kids(f, p));
    ChildSuffix(f, p);
  }

  lemma {:induction false} ChildSuffix<T>(f: Forest<T>, p: T)
    requires Distinct(f) && p in Items(f) && Kids(f, p).Cons?
    ensures Kids(f, p).item in Items(f) && Suffix(f, Kids(f, p).item) == Kids(f, p)
  {
    var Cons(m, k, r) := f;
    KidsItems(f, p);
    if m == p {
    } else if p in Items(k) {
      KidsItems(k, p);
      ChildSuffix(k, p);
    } else {
      KidsItems(r, p);
      ChildSuffix(r, p);
    }
  }

  /** The shape once a stretch hangs behind the children of `p`. */
  lemma HungShape<T>(f: Forest<T>, seg: Forest<T>, roots: seq<T>, p: T, g: Forest<T>, head: T, feet: T)
    requires Shaped(f, head, feet) && p in Items(f) && p != head && p != feet
    requires Distinct(seg) && seg.Cons? && Items(seg) !! Items(f) && roots == Roots(seg) && g == AppendKids(f, p, seg)
    ensures Shaped(g, head, feet) && Items(g) == Items(f) + Items(seg) && roots != []
    ensures forall n | n in Items(f) ::
              Links(g, n) == WithKids(n, Links(f, n), p, Links(f, p), roots[0], roots[|roots| - 1])
    ensures forall n | n in Items(seg) :: Links(g, n) == LinkAt(seg, Some(p), Links(f, p).last, None, n)
  {
    RootsListed(seg);
    AttachKidsLinks(f, p, seg, roots[|roots| - 1]);
    KidsEndsWith(f.rest, p, seg, feet);
  }

  /** The shape once a tree stands after `p`. */
  lemma FollowShape<T>(f: Forest<T>, src: T, kids: Forest<T>, p: T, g: Forest<T>, head: T, feet: T)
    requires Shaped(f, head, feet) && p in Items(f) && p != feet
    requires Distinct(Cons(src, kids, Nil)) && Items(Cons(src, kids, Nil)) !! Items(f)
    requires g == InsertAfter(f, p, Cons(src, kids, Nil))
    ensures Shaped(g, head, feet) && Items(g) == Items(f) + Items(Cons(src, kids, Nil))
    ensures forall n | n in Items(f) :: Links(g, n) == WithNext(n, Links(f, n), p, Links(f, p), src, src)
    ensures forall n | n in Items(Cons(src, kids, Nil)) ::
              Links(g, n) == LinkAt(Cons(src, kids, Nil), Links(f, p).parent, Some(p), Links(f, p).next, n)
  {
    var b := Cons(src, kids, Nil);
    assert LastOr(b, None) == Some(src);
    AttachAfterLinks(f, p, b, src);
    AfterEndsWith(f.rest, p, b, feet);
    AppendEndsWith(b, f.rest, feet);
  }

  lemma {:induction false} RemoveChildless<T>(f: Forest<T>, p: T)
    requires Distinct(f) && p in Items(f)
    ensures p in Items(SetKids(f, p, Nil)) && Kids(SetKids(f, p, Nil), p).Nil?
    ensures Remove(SetKids(f, p, Nil), p) == Remove(f, p)
  {
    var Cons(m, k, r) := f;
    if m == p {
    } else if p in Items(k) {
      RemoveChildless(k, p);
      SetKidsAbsent(r, p, Nil);
    } else {
      RemoveChildless(r, p);
      SetKidsAbsent(k, p, Nil);
    }
  }

  /** Moving a node to where it already stands changes nothing. */
  lemma {:induction false} AlreadyAfter<T>(f: Forest<T>, dst: T, src: T, up: Option<T>, prev: Option<T>)
    requires Distinct(f) && dst in Items(f) && src in Items(f) && dst != src
    requires LinkAt(f, up, prev, None, dst).next == Some(src)
    ensures InsertAfter(Remove(f, src), dst, Branch(f, src)) == f
  {
    var Cons(m, k, r) := f;
    LinksStay(f, up, prev, None, dst);
    if m == dst {
      assert src in Items(r) && src !in Items(k);
      RemoveAbsent(k, src);
      assert r.item == src && Kids(r, src) == r.kids;
      assert Branch(f, src) == Cons(src, r.kids, Nil);
      assert Append(Cons(src, r.kids, Nil), r.rest) == r;
    } else if dst in Items(k) {
      LinksStay(k, Some(m), None, None, dst);
      AlreadyAfter(k, dst, src, Some(m), None);
      RemoveAbsent(r, src);
      InsertAfterAbsent(r, dst, Branch(f, src));
    } else {
      LinksStay(r, up, Some(m), None, dst);
      AlreadyAfter(r, dst, src, up, Some(m));
      RemoveAbsent(k, src);
      InsertAfterAbsent(k, dst, Branch(f, src));
    }
  }

  /** `p` wrapped in a new parent `x`. */
  function Wrapped<T(==)>(f: Forest<T>, p: T, x: T): Forest<T>
  {
    match f
    case Nil => Nil
    case Cons(m, k, r) =>
      if m == p then Cons(x, Cons(p, k, Nil), r) else Cons(m, Wrapped(k, p, x), Wrapped(r, p, x))
  }

  lemma {:induction false} WrappedAbsent<T>(f: Forest<T>, p: T, x: T)
    requires p !in Items(f)
    ensures Wrapped(f, p, x) == f
  {
    match f
    case Nil =>
    case Cons(_, k, r) => WrappedAbsent(k, p, x); WrappedAbsent(r, p, x);
  }

  /** Inserting `x` before `p` and then hanging `p` below it wraps `p`. */
  lemma {:induction false} WrapSteps<T>(f: Forest<T>, p: T, x: T)
    requires Distinct(f) && p in Items(f) && x !in Items(f)
    ensures var g := InsertBefore(f, p, Cons(x, Nil, Nil));
            p in Items(g) && Branch(g, p) == Branch(f, p)
            && AppendKids(Remove(g, p), x, Branch(f, p)) == Wrapped(f, p, x)
  {
    var Cons(m, k, r) := f;
    var b, single := Branch(f, p), Cons(x, Nil, Nil);
    InsertBeforeItems(f, p, single);
    if m == p {
      assert Append(single, f) == Cons(x, Nil, f);
      AppendKidsAbsent(r, x, b);
    } else if p in Items(k) {
      InsertBeforeItems(k, p, single);
      WrapSteps(k, p, x);
      InsertBeforeAbsent(r, p, single);
      RemoveAbsent(r, p);
      AppendKidsAbsent(r, x, b);
      WrappedAbsent(r, p, x);
    } else {
      InsertBeforeItems(r, p, single);
      WrapSteps(r, p, x);
      InsertBeforeAbsent(k, p, single);
      RemoveAbsent(k, p);
      AppendKidsAbsent(k, x, b);
      WrappedAbsent(k, p, x);
    }
  }

  /** How a freshly wrapped node is taken from its new brother. */
  lemma WrapReady<T>(f: Forest<T>, p: T, x: T, g: Forest<T>, head: T, feet: T)
    requires Shaped(f, head, feet) && p in Items(f) && p != head && p != feet && x !in Items(f)
    requires g == InsertBefore(f, p, Cons(x, Nil, Nil)) && Shaped(g, head, feet)
    ensures p in Items(g) && Suffix(g, p).Cons? && Stretch(g, Branch(g, p), Suffix(g, p).rest)
    ensures Links(f, p).next == FirstOr(Suffix(g, p).rest, None) && Branch(g, p) == Branch(f, p)
    ensures x !in Items(Branch(g, p)) && x in Items(g)
    ensures AppendKids(CutOut(g, Branch(g, p), Suffix(g, p).rest), x, Branch(g, p)) == Wrapped(f, p, x)
  {
    InsertLinks(f, p, x);
    LinkRange(f, None, None, None, p);
    WrapSteps(f, p, x);
    OneTree(g, p);
    KidsItems(f, p);
    StretchLinks(g, Branch(g, p), Suffix(g, p).rest, p);
  }

  /** The sentinels lie in no other node's tree. */
  lemma SentinelsApart<T>(f: Forest<T>, p: T, head: T, feet: T)
    requires Shaped(f, head, feet) && p in Items(f) && p != head && p != feet
    ensures head !in Items(Branch(f, p)) && feet !in Items(Branch(f, p))
  {
    KidsItems(f, p);
    KidsItems(f.rest, p);
    FeetApart(f.rest, p, feet);
  }

  lemma {:induction false} FeetApart<T>(f: Forest<T>, p: T, feet: T)
    requires EndsWith(f, feet) && Distinct(f) && p in Items(f)
    ensures feet !in Items(Kids(f, p))
  {
    KidsItems(f, p);
    FeetIsItem(f, feet);
    if f.item == p {
      if f.rest.Cons? { FeetIsItem(f.rest, feet); }
    } else if p in Items(f.kids) {
      KidsItems(f.kids, p);
      if f.rest.Cons? { FeetIsItem(f.rest, feet); }
    } else {
      FeetApart(f.rest, p, feet);
    }
  }

  lemma {:induction false} FeetIsItem<T>(f: Forest<T>, feet: T)
    requires EndsWith(f, feet)
    ensures feet in Items(f)
  {
    if f.rest.Cons? { FeetIsItem(f.rest, feet); }
  }

  /** A chain without its last tree. */
  ghost function ButLast<T>(f: Forest<T>): Forest<T>
  {
    if f.Nil? || f.rest.Nil? then Nil else Cons(f.item, f.kids, ButLast(f.rest))
  }

  /** `left` is what remains of the chain `f` after some of its first trees. */
  ghost predicate TailOf<T>(f: Forest<T>, left: Forest<T>)
  {
    f == left || (f.Cons? && TailOf(f.rest, left))
  }

  lemma {:induction false} TailFacts<T>(f: Forest<T>, left: Forest<T>, prev: Option<T>)
    requires Distinct(f) && TailOf(f, left) && left.Cons?
    ensures left.item in Items(f) && Branch(f, left.item) == Cons(left.item, left.kids, Nil) && TailOf(f, left.rest)
    ensures var l := LinkAt(f, None, prev, None, left.item); l.parent == None && l.next == FirstOr(left.rest, None)
    ensures Items(left) <= Items(f) && Distinct(left)
  {
    if f != left {
      TailFacts(f.rest, left, Some(f.item));
    } else {
      assert TailOf(f.rest, f.rest);
    }
  }
}
