/** What loading a document means: the forest that its filter elements and children elements
    describe, and what becomes of a document that was saved. */
module XmlMeaning {
  import opened Forests
  import opened LinkAlgebra
  import opened TreeXml
  import opened ForestCopies

  // ----- the right-hand edge of a tree -----

  /** How far the path of last children goes down from the last root. */
  function RightDepth<T>(f: Forest<T>): nat
  {
    match f
    case Nil => 0
    case Cons(_, k, r) => if r.Cons? then RightDepth(r) else if k.Cons? then 1 + RightDepth(k) else 0
  }

  /** The node at depth `d` on that path. */
  function RightAt<T>(f: Forest<T>, d: nat): T
    requires f.Cons? && d <= RightDepth(f)
  {
    if f.rest.Cons? then RightAt(f.rest, d) else if d == 0 then f.item else RightAt(f.kids, d - 1)
  }

  /** The trees of `g` become the last children of that node. */
  function AddAt<T>(f: Forest<T>, d: nat, g: Forest<T>): Forest<T>
  {
    match f
    case Nil => Nil
    case Cons(m, k, r) =>
      if r.Cons? then Cons(m, k, AddAt(r, d, g))
      else if d == 0 then Cons(m, Append(k, g), Nil)
      else Cons(m, AddAt(k, d - 1, g), Nil)
  }

  lemma {:induction false} AddAtNil<T>(f: Forest<T>, d: nat)
    ensures AddAt(f, d, Nil) == f
  {
    match f
    case Nil =>
    case Cons(_, k, r) =>
      AppendNil(k);
      if r.Cons? { AddAtNil(r, d); } else if d > 0 { AddAtNil(k, d - 1); }
  }

  /** Adding a tree leads one level further down. */
  lemma {:induction false} AddAtDepth<T>(f: Forest<T>, d: nat, x: T)
    requires f.Cons? && d <= RightDepth(f)
    ensures var h := AddAt(f, d, Cons(x, Nil, Nil)); h.Cons? && RightDepth(h) == d + 1 && RightAt(h, d + 1) == x
  {
    if f.rest.Cons? {
      AddAtDepth(f.rest, d, x);
    } else if d == 0 {
      LastOfAppend(f.kids, x);
    } else {
      AddAtDepth(f.kids, d - 1, x);
    }
  }

  lemma {:induction false} LastOfAppend<T>(k: Forest<T>, x: T)
    ensures var h := Append(k, Cons(x, Nil, Nil)); h.Cons? && RightDepth(h) == 0 && RightAt(h, 0) == x
  {
    if k.Cons? { LastOfAppend(k.rest, x); }
  }

  lemma {:induction false} AddAtKeeps<T>(f: Forest<T>, d: nat, g: Forest<T>, e: nat)
    requires f.Cons? && e <= d <= RightDepth(f)
    ensures var h := AddAt(f, d, g); h.Cons? && (f.rest.Nil? ==> h.rest.Nil?)
                                     && e <= RightDepth(h) && RightAt(h, e) == RightAt(f, e)
  {
    if f.rest.Cons? {
      AddAtKeeps(f.rest, d, g, e);
    } else if d > 0 && e > 0 {
      AddAtKeeps(f.kids, d - 1, g, e - 1);
    }
  }

  /** Adding a node and then its children is adding the whole tree. */
  lemma {:induction false} AddNested<T>(f: Forest<T>, d: nat, x: T, k: Forest<T>)
    requires f.Cons? && d <= RightDepth(f)
    ensures AddAt(AddAt(f, d, Cons(x, Nil, Nil)), d + 1, k) == AddAt(f, d, Cons(x, k, Nil))
  {
    if f.rest.Cons? {
      AddNested(f.rest, d, x, k);
      AddAtKeeps(f.rest, d, Cons(x, Nil, Nil), 0);
    } else if d == 0 {
      AddToLast(f.kids, x, k);
    } else {
      AddNested(f.kids, d - 1, x, k);
    }
  }

  lemma {:induction false} AddToLast<T>(f: Forest<T>, x: T, k: Forest<T>)
    ensures AddAt(Append(f, Cons(x, Nil, Nil)), 0, k) == Append(f, Cons(x, k, Nil))
  {
    if f.Cons? { AddToLast(f.rest, x, k); }
  }

  lemma {:induction false} AddTwice<T>(f: Forest<T>, d: nat, g: Forest<T>, h: Forest<T>)
    requires f.Cons? && d <= RightDepth(f)
    ensures AddAt(AddAt(f, d, g), d, h) == AddAt(f, d, Append(g, h))
  {
    if f.rest.Cons? {
      AddTwice(f.rest, d, g, h);
      AddAtKeeps(f.rest, d, g, 0);
    } else if d == 0 {
      AppendAppend(f.kids, g, h);
    } else {
      AddTwice(f.kids, d - 1, g, h);
    }
  }

  // ----- the meaning of a document -----

  /** Read the nodes of a children element below the node at depth `e`; the filter read last
      lies at depth `d`. Further children elements belong to that filter. */
  ghost function Below<T>(cur: Forest<T>, e: nat, d: nat, nodes: seq<XmlNode<T>>): Option<Forest<T>>
    decreases nodes
  {
    if nodes == [] then Some(cur)
    else
      match nodes[0]
      case FilterElement(x, readable) =>
        if !readable then None else Below(AddAt(cur, e, Cons(x, Nil, Nil)), e, e + 1, nodes[1..])
      case ChildrenElement(c) =>
        if c == [] then None
        else (match Below(cur, d, d, c[1..])
              case None => None
              case Some(cur') => Below(cur', e, d, nodes[1..]))
      case _ => Below(cur, e, d, nodes[1..])
  }

  /** The trees read so far: the one read last, and those before and after it. */
  datatype Roots<T> = Roots(before: Forest<T>, cur: Forest<T>, after: Forest<T>)
  {
    function All(): Forest<T> { Append(before, Append(cur, after)) }

    /** The first root comes first; every later one before the one added last. */
    function Add(x: T): Roots<T>
    {
      if cur.Nil? then Roots(Nil, Cons(x, Nil, Nil), Nil)
      else if before.Nil? then Roots(cur, Cons(x, Nil, Nil), Nil)
      else Roots(before, Cons(x, Nil, Nil), Append(cur, after))
    }
  }

  ghost function AtTop<T>(top: Roots<T>, nodes: seq<XmlNode<T>>): Option<Forest<T>>
    decreases nodes
  {
    if nodes == [] then Some(top.All())
    else
      match nodes[0]
      case FilterElement(x, readable) => if !readable then None else AtTop(top.Add(x), nodes[1..])
      case ChildrenElement(c) =>
        if top.cur.Nil? || c == [] then None
        else (match Below(top.cur, 0, 0, c[1..])
              case None => None
              case Some(cur) => AtTop(top.(cur := cur), nodes[1..]))
      case _ => AtTop(top, nodes[1..])
  }

  /** The first node of each level is passed over. */
  ghost function Meaning<T>(doc: seq<XmlNode<T>>): Option<Forest<T>>
    requires doc != []
  {
    AtTop(Roots(Nil, Nil, Nil), doc[1..])
  }

  // ----- which documents load, and what they load -----

  /** Every filter element can be read, and no children element is empty, at any level. */
  ghost predicate Readable<T>(nodes: seq<XmlNode<T>>)
    decreases nodes
  {
    nodes != [] ==>
      && (match nodes[0]
          case FilterElement(_, readable) => readable
          case ChildrenElement(c) => c != [] && Readable(c[1..])
          case _ => true)
      && Readable(nodes[1..])
  }

  /** No children element stands before the first filter element. */
  ghost predicate ParentFirst<T>(nodes: seq<XmlNode<T>>)
  {
    nodes != [] && !nodes[0].FilterElement? ==> !nodes[0].ChildrenElement? && ParentFirst(nodes[1..])
  }

  /** The filters of a document, in its order. */
  ghost function FiltersOf<T>(nodes: seq<XmlNode<T>>): seq<T>
    decreases nodes
  {
    if nodes == [] then []
    else
      (match nodes[0]
       case FilterElement(x, _) => [x]
       case ChildrenElement(c) => if c == [] then [] else FiltersOf(c[1..])
       case _ => [])
      + FiltersOf(nodes[1..])
  }

  /** What is added on the right-hand edge comes last in pre-order. */
  lemma {:induction false} AddAtPre<T>(f: Forest<T>, d: nat, g: Forest<T>)
    requires f.Cons? && d <= RightDepth(f)
    ensures Pre(AddAt(f, d, g)) == Pre(f) + Pre(g)
  {
    var Cons(m, k, r) := f;
    if r.Cons? {
      AddAtPre(r, d, g);
      ConcatAssociates([m] + Pre(k), Pre(r), Pre(g));
    } else if d == 0 {
      AppendPre(k, g);
      assert [m] + (Pre(k) + Pre(g)) + [] == [m] + Pre(k) + [] + Pre(g);
    } else {
      AddAtPre(k, d - 1, g);
      assert [m] + (Pre(k) + Pre(g)) + [] == [m] + Pre(k) + [] + Pre(g);
    }
  }

  /** Below a filter the document order is the pre-order: its filters come after those read
      before, and none is lost. */
  lemma {:induction false} BelowPre<T>(cur: Forest<T>, e: nat, d: nat, nodes: seq<XmlNode<T>>)
    requires cur.Cons? && e <= d <= RightDepth(cur)
    ensures Below(cur, e, d, nodes).Some? <==> Readable(nodes)
    ensures Below(cur, e, d, nodes).Some? ==>
              var h := Below(cur, e, d, nodes).value;
              h.Cons? && e <= RightDepth(h) && Pre(h) == Pre(cur) + FiltersOf(nodes)
    decreases nodes
  {
    if nodes == [] {
      assert Pre(cur) + FiltersOf(nodes) == Pre(cur);
    } else {
      match nodes[0]
      case FilterElement(x, readable) =>
        var single := Cons(x, Nil, Nil);
        AddAtDepth(cur, e, x);
        AddAtPre(cur, e, single);
        assert Pre(single) == [x];
        BelowPre(AddAt(cur, e, single), e, e + 1, nodes[1..]);
        ConcatAssociates(Pre(cur), [x], FiltersOf(nodes[1..]));
      case ChildrenElement(c) =>
        if c != [] {
          BelowPre(cur, d, d, c[1..]);
          if Below(cur, d, d, c[1..]).Some? {
            BelowPre(Below(cur, d, d, c[1..]).value, e, d, nodes[1..]);
            ConcatAssociates(Pre(cur), FiltersOf(c[1..]), FiltersOf(nodes[1..]));
          }
        }
      case _ =>
        BelowPre(cur, e, d, nodes[1..]);
        assert [] + FiltersOf(nodes[1..]) == FiltersOf(nodes[1..]);
    }
  }

  /** Trees stand before or after the one read last only if there is one. */
  ghost predicate InOrder<T>(top: Roots<T>)
  {
    (top.cur.Nil? ==> top.before.Nil?) && (top.before.Nil? ==> top.after.Nil?)
  }

  lemma {:induction false} TopPre<T>(top: Roots<T>, nodes: seq<XmlNode<T>>)
    requires InOrder(top)
    ensures AtTop(top, nodes).Some? <==> Readable(nodes) && (top.cur.Cons? || ParentFirst(nodes))
    ensures AtTop(top, nodes).Some? ==>
              multiset(Pre(AtTop(top, nodes).value)) == multiset(Pre(top.All())) + multiset(FiltersOf(nodes))
    decreases nodes
  {
    hide Pre, Append, Below;
    if nodes != [] {
      match nodes[0]
      case FilterElement(x, readable) =>
        AddPre(top, x);
        TopPre(top.Add(x), nodes[1..]);
      case ChildrenElement(c) =>
        if top.cur.Cons? && c != [] {
          BelowPre(top.cur, 0, 0, c[1..]);
          if Below(top.cur, 0, 0, c[1..]).Some? {
            var cur := Below(top.cur, 0, 0, c[1..]).value;
            TopPre(top.(cur := cur), nodes[1..]);
            GrownPre(top, cur, FiltersOf(c[1..]));
          }
        }
      case _ =>
        TopPre(top, nodes[1..]);
    }
  }

  lemma AllPre<T>(top: Roots<T>)
    ensures Pre(top.All()) == Pre(top.before) + (Pre(top.cur) + Pre(top.after))
  {
    AppendPre(top.before, Append(top.cur, top.after));
    AppendPre(top.cur, top.after);
  }

  lemma AddPre<T>(top: Roots<T>, x: T)
    requires InOrder(top)
    ensures top.Add(x).cur.Cons? && InOrder(top.Add(x))
    ensures multiset(Pre(top.Add(x).All())) == multiset(Pre(top.All())) + multiset{x}
  {
    hide Pre, Append;
    AllPre(top);
    AllPre(top.Add(x));
    AppendPre(top.cur, top.after);
    PreOne(x);
    var a, c, d := Pre(top.before), Pre(top.cur), Pre(top.after);
    CountMoved(a, c, d, x);
    if top.cur.Nil? {
      assert Pre(top.Add(x).All()) == [] + ([x] + []) && Pre(top.All()) == [] + ([] + []);
    } else if top.before.Nil? {
      assert Pre(top.Add(x).All()) == c + ([x] + []) && Pre(top.All()) == [] + (c + []) == c;
    } else {
      assert Pre(top.Add(x).All()) == a + ([x] + (c + d)) && Pre(top.All()) == a + (c + d);
    }
  }

  lemma PreOne<T>(x: T)
    ensures Pre(Cons(x, Nil, Nil)) == [x] && Pre<T>(Nil) == []
  {
  }

  lemma GrownPre<T>(top: Roots<T>, cur: Forest<T>, added: seq<T>)
    requires Pre(cur) == Pre(top.cur) + added
    ensures multiset(Pre(top.(cur := cur).All())) == multiset(Pre(top.All())) + multiset(added)
  {
    AllPre(top);
    AllPre(top.(cur := cur));
  }

  lemma CountMoved<T>(a: seq<T>, c: seq<T>, d: seq<T>, x: T)
    ensures multiset(a + ([x] + (c + d))) == multiset(a + (c + d)) + multiset{x}
    ensures multiset(c + ([x] + [])) == multiset(c) + multiset{x} && c + ([x] + []) == c + [x]
  {
  }

  /** A document loads if and only if all of it can be read and no children element comes
      before its filter; and then it loads every filter of the document, and no other. */
  lemma {:induction false} MeaningHolds<T>(doc: seq<XmlNode<T>>)
    requires doc != []
    ensures Meaning(doc).Some? <==> Readable(doc[1..]) && ParentFirst(doc[1..])
    ensures Meaning(doc).Some? ==> multiset(Pre(Meaning(doc).value)) == multiset(FiltersOf(doc[1..]))
  {
    var top: Roots<T> := Roots(Nil, Nil, Nil);
    TopPre(top, doc[1..]);
    AllPre(top);
  }

  // ----- a saved document -----

  lemma BelowText<T>(cur: Forest<T>, e: nat, d: nat, nodes: seq<XmlNode<T>>)
    requires nodes != [] && nodes[0] == Text
    ensures Below(cur, e, d, nodes) == Below(cur, e, d, nodes[1..])
  {
  }

  lemma BelowFilter<T>(cur: Forest<T>, e: nat, d: nat, x: T, next: seq<XmlNode<T>>)
    ensures Below(cur, e, d, [Text, FilterElement(x, true)] + next)
         == Below(AddAt(cur, e, Cons(x, Nil, Nil)), e, e + 1, next)
  {
    var nodes := [Text, FilterElement(x, true)] + next;
    assert nodes[1..][0] == FilterElement(x, true) && nodes[1..][1..] == next;
    BelowText(cur, e, d, nodes);
  }

  lemma BelowChildren<T>(cur: Forest<T>, e: nat, d: nat, c: seq<XmlNode<T>>, next: seq<XmlNode<T>>)
    requires c != [] && Below(cur, d, d, c[1..]).Some?
    ensures Below(cur, e, d, [Text, ChildrenElement(c)] + next) == Below(Below(cur, d, d, c[1..]).value, e, d, next)
  {
    var nodes := [Text, ChildrenElement(c)] + next;
    assert nodes[1..][0] == ChildrenElement(c) && nodes[1..][1..] == next;
    BelowText(cur, e, d, nodes);
  }

  /** The document of a forest adds that forest. */
  lemma {:induction false} BelowShown<T>(cur: Forest<T>, e: nat, d: nat, f: Forest<T>)
    requires cur.Cons? && e <= RightDepth(cur)
    ensures Below(cur, e, d, Shown(f)[1..]) == Below(cur, e, d, Shown(f)) == Some(AddAt(cur, e, f))
    decreases f, 0
  {
    BelowText(cur, e, d, Shown(f));
    match f
    case Nil =>
      AddAtNil(cur, e);
      assert Shown(f)[1..] == [];
    case Cons(x, k, r) =>
      var cur1 := AddAt(cur, e, Cons(x, Nil, Nil));
      var cur2 := AddAt(cur, e, Cons(x, k, Nil));
      BelowFilter(cur, e, d, x, ShownBelow(k) + Shown(r));
      ConcatAssociates([Text, FilterElement(x, true)], ShownBelow(k), Shown(r));
      BelowShownKids(cur, e, x, k, Shown(r));
      AddAtKeeps(cur, e, Cons(x, k, Nil), e);
      BelowShown(cur2, e, e + 1, r);
      AddTwice(cur, e, Cons(x, k, Nil), r);
      assert Append(Cons(x, k, Nil), r) == f;
  }

  lemma {:induction false} BelowShownKids<T>(cur: Forest<T>, e: nat, x: T, k: Forest<T>, next: seq<XmlNode<T>>)
    requires cur.Cons? && e <= RightDepth(cur)
    ensures Below(AddAt(cur, e, Cons(x, Nil, Nil)), e, e + 1, ShownBelow(k) + next)
         == Below(AddAt(cur, e, Cons(x, k, Nil)), e, e + 1, next)
    decreases k, 1
  {
    var cur1 := AddAt(cur, e, Cons(x, Nil, Nil));
    if k.Nil? {
      assert ShownBelow(k) + next == next;
    } else {
      AddAtDepth(cur, e, x);
      BelowShown(cur1, e + 1, e + 1, k);
      BelowChildren(cur1, e, e + 1, Shown(k), next);
      AddNested(cur, e, x, k);
    }
  }

  /** The trees of `f` in reverse order, followed by `g`. */
  function Reversed<T>(f: Forest<T>, g: Forest<T>): Forest<T>
  {
    match f
    case Nil => g
    case Cons(x, k, r) => Reversed(r, Cons(x, k, g))
  }

  lemma TopTree<T>(top: Roots<T>, x: T, k: Forest<T>, next: seq<XmlNode<T>>)
    ensures AtTop(top, [Text, FilterElement(x, true)] + ShownBelow(k) + next)
         == AtTop(top.Add(x).(cur := Cons(x, k, Nil)), next)
  {
    var nodes := [Text, FilterElement(x, true)] + ShownBelow(k) + next;
    var top1 := top.Add(x);
    assert nodes[1..][0] == FilterElement(x, true) && nodes[1..][1..] == ShownBelow(k) + next;
    assert AtTop(top, nodes) == AtTop(top, nodes[1..]) == AtTop(top1, ShownBelow(k) + next);
    if k.Nil? {
      assert ShownBelow(k) + next == next;
    } else {
      var rest := ShownBelow(k) + next;
      assert rest[0] == Text && rest[1..][0] == ChildrenElement(Shown(k)) && rest[1..][1..] == next;
      BelowShown(top1.cur, 0, 0, k);
      assert AtTop(top1, rest) == AtTop(top1, rest[1..]);
    }
  }

  lemma {:induction false} TopShown<T>(top: Roots<T>, f: Forest<T>)
    requires top.before.Cons? && top.cur.Cons? && top.cur.rest.Nil?
    ensures AtTop(top, Shown(f)) == Some(Append(top.before, Reversed(f, Append(top.cur, top.after))))
    decreases f
  {
    match f
    case Nil =>
      assert Shown(f)[1..] == [];
    case Cons(x, k, r) =>
      TopTree(top, x, k, Shown(r));
      TopShown(top.Add(x).(cur := Cons(x, k, Nil)), r);
      assert Append(Cons(x, k, Nil), Append(top.cur, top.after)) == Cons(x, k, Append(top.cur, top.after));
  }

  /** A saved document loads as the tree it was saved from, but for the order of the roots:
      from the second on they come back in reverse. */
  lemma {:induction false} ShownMeans<T>(f: Forest<T>)
    ensures Meaning(Shown(f)) == Some(if f.Nil? then Nil else Cons(f.item, f.kids, Reversed(f.rest, Nil)))
  {
    var top: Roots<T> := Roots(Nil, Nil, Nil);
    assert Meaning(Shown(f)) == AtTop(top, Shown(f));
    if f.Nil? {
      assert Shown(f)[1..] == [];
    } else {
      var top1 := Roots(Nil, Cons(f.item, f.kids, Nil), Nil);
      TopTree(top, f.item, f.kids, Shown(f.rest));
      if f.rest.Nil? {
        assert Append(top1.cur, Nil) == top1.cur && top1.All() == Append(top1.cur, Nil);
        assert Shown(f.rest)[1..] == [];
        assert AtTop(top1, Shown(f.rest)) == AtTop(top1, Shown(f.rest)[1..]);
      } else {
        var g := f.rest;
        TopTree(top1, g.item, g.kids, Shown(g.rest));
        TopShown(Roots(top1.cur, Cons(g.item, g.kids, Nil), Nil), g.rest);
      }
    }
  }

  // ----- when nothing changes -----

  lemma {:induction false} ReversedLast<T>(f: Forest<T>, g: Forest<T>)
    requires f.Cons? && g.Cons?
    ensures Reversed(f, g).Cons? && Reversed(f, g).item in Items(f)
    ensures Trees(Reversed(f, g)) == Trees(f) + Trees(g)
  {
    if f.rest.Cons? { ReversedLast(f.rest, Cons(f.item, f.kids, g)); }
  }

  /** Saving and loading gives back a tree of distinct filters exactly when it has at most
      two roots. */
  lemma {:induction false} RoundTrip<T>(f: Forest<T>)
    requires Distinct(f)
    ensures ReadAll(TagsOf(f)).Some? && ReadAll(TagsOf(f)).value != []
    ensures Meaning(ReadAll(TagsOf(f)).value) == Some(f) <==> Trees(f) <= 2
  {
    TagsRead(f);
    ShownMeans(f);
    if f.Cons? && f.rest.Cons? {
      var Cons(x, k, r) := f.rest;
      if r.Cons? {
        ReversedLast(r, Cons(x, k, Nil));
        assert Reversed(f.rest, Nil) == Reversed(r, Cons(x, k, Nil)) && Trees(r) > 0;
      } else {
        assert Reversed(f.rest, Nil) == f.rest;
      }
    }
  }

  /** Three roots come back in another order. */
  lemma ThreeRootsTurn()
    ensures var f := Cons(1, Nil, Cons(2, Nil, Cons(3, Nil, Nil)));
            && Distinct(f) && ReadAll(TagsOf(f)).Some? && ReadAll(TagsOf(f)).value != []
            && Meaning(ReadAll(TagsOf(f)).value) == Some(Cons(1, Nil, Cons(3, Nil, Cons(2, Nil, Nil))))
  {
    var three := Cons(3, Nil, Nil);
    var rest := Cons(2, Nil, three);
    var f := Cons(1, Nil, rest);
    assert Items(three) == {3} && Items(rest) == {2, 3};
    assert Distinct(three) && Distinct(rest) && Distinct(f);
    TagsRead(f);
    ShownMeans(f);
    assert Reversed(rest, Nil) == Reversed(three, Cons(2, Nil, Nil)) == Cons(3, Nil, Cons(2, Nil, Nil));
  }
}
