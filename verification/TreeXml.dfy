/** The nesting of a saved tree: the tags that the writer emits from changes of depth, and
    the document they stand for. */
module TreeXml {
  import opened Forests
  import opened LinkAlgebra
  import opened TreeShapes
  import opened TreeNodes
  import opened TreeOrders
  import opened LinkedTree
  import opened TreeIterators
  import opened Scans
  import opened TreeMeasures

  /** What is written: the children tags, and the element of one filter. */
  datatype Tag<T> = Open | Close | Written(data: T)

  /** A parsed document. `Text` is any node that is not an element. A filter's element
      holds its state, which may fail to be read. */
  datatype XmlNode<T> =
    | Text
    | FilterElement(data: T, readable: bool)
    | UnknownElement
    | ChildrenElement(nodes: seq<XmlNode<T>>)

  // ----- the tags of a tree -----

  /** Each tree: its root, then its children, if any, between tags. */
  ghost function TagsOf<T>(f: Forest<T>): seq<Tag<T>>
    decreases f, 0
  {
    match f
    case Nil => []
    case Cons(x, k, r) => [Written(x)] + Enclosed(k) + TagsOf(r)
  }

  ghost function Enclosed<T>(k: Forest<T>): seq<Tag<T>>
    decreases k, 1
  {
    if k.Nil? then [] else [Open] + TagsOf(k) + [Close]
  }

  /** Read nested tags up to the end or to a closing tag that was not opened here. Every tag
      stands on a line of its own, so each level is text, tag, text, .., tag, text. */
  ghost function ReadLevel<T>(tags: seq<Tag<T>>): (r: Option<(seq<XmlNode<T>>, seq<Tag<T>>)>)
    ensures r.Some? ==> |r.value.1| <= |tags|
    decreases |tags|
  {
    if tags == [] || tags[0].Close? then Some(([Text], tags))
    else if tags[0].Written? then
      match ReadLevel(tags[1..])
      case None => None
      case Some((nodes, left)) => Some(([Text, FilterElement(tags[0].data, true)] + nodes, left))
    else
      match ReadLevel(tags[1..])
      case None => None
      case Some((kids, left)) =>
        if left == [] then None
        else
          match ReadLevel(left[1..])
          case None => None
          case Some((nodes, left')) => Some(([Text, ChildrenElement(kids)] + nodes, left'))
  }

  /** The whole text: tags that do not nest properly are no document. */
  ghost function ReadAll<T>(tags: seq<Tag<T>>): Option<seq<XmlNode<T>>>
  {
    match ReadLevel(tags)
    case None => None
    case Some((nodes, left)) => if left == [] then Some(nodes) else None
  }

  /** The document of a tree. */
  ghost function Shown<T>(f: Forest<T>): (nodes: seq<XmlNode<T>>)
    ensures |nodes| > 0 && nodes[0] == Text
    decreases f, 0
  {
    match f
    case Nil => [Text]
    case Cons(x, k, r) => [Text, FilterElement(x, true)] + ShownBelow(k) + Shown(r)
  }

  ghost function ShownBelow<T>(k: Forest<T>): seq<XmlNode<T>>
    decreases k, 1
  {
    if k.Nil? then [] else [Text, ChildrenElement(Shown(k))]
  }

  lemma ReadWritten<T>(x: T, next: seq<Tag<T>>, nodes: seq<XmlNode<T>>, left: seq<Tag<T>>)
    requires ReadLevel(next) == Some((nodes, left))
    ensures ReadLevel([Written(x)] + next) == Some(([Text, FilterElement(x, true)] + nodes, left))
  {
    assert ([Written(x)] + next)[1..] == next;
  }

  lemma ReadOpen<T>(inner: seq<Tag<T>>, kids: seq<XmlNode<T>>, next: seq<Tag<T>>, nodes: seq<XmlNode<T>>,
                    left: seq<Tag<T>>)
    requires ReadLevel(inner) == Some((kids, [Close] + next)) && ReadLevel(next) == Some((nodes, left))
    ensures ReadLevel([Open] + inner) == Some(([Text, ChildrenElement(kids)] + nodes, left))
  {
    assert ([Open] + inner)[1..] == inner && ([Close] + next)[1..] == next;
  }

  lemma Nested<X>(w: seq<X>, o: seq<X>, a: seq<X>, c: seq<X>, b: seq<X>, tail: seq<X>)
    ensures w + (o + a + c) + b + tail == w + (o + (a + (c + (b + tail))))
  {
  }

  /** The tags of a forest are read as its document. */
  lemma {:induction false} ReadTags<T>(f: Forest<T>, tail: seq<Tag<T>>)
    requires tail == [] || tail[0].Close?
    ensures ReadLevel(TagsOf(f) + tail) == Some((Shown(f), tail))
  {
    match f
    case Nil =>
      assert TagsOf(f) + tail == tail;
    case Cons(x, k, r) =>
      var next := TagsOf(r) + tail;
      ReadTags(r, tail);
      if k.Nil? {
        ReadWritten(x, next, Shown(r), tail);
        assert TagsOf(f) + tail == [Written(x)] + next;
        assert Shown(f) == [Text, FilterElement(x, true)] + Shown(r);
      } else {
        ReadTags(k, [Close] + next);
        var inner := TagsOf(k) + ([Close] + next);
        ReadOpen(inner, Shown(k), next, Shown(r), tail);
        ReadWritten(x, [Open] + inner, [Text, ChildrenElement(Shown(k))] + Shown(r), tail);
        Nested([Written(x)], [Open], TagsOf(k), [Close], TagsOf(r), tail);
        ConcatAssociates([Text, FilterElement(x, true)], [Text, ChildrenElement(Shown(k))], Shown(r));
      }
  }

  /** The tags of a tree are balanced, and stand for its document. */
  lemma TagsRead<T>(f: Forest<T>)
    ensures ReadAll(TagsOf(f)) == Some(Shown(f))
  {
    ReadTags(f, []);
    assert TagsOf(f) + [] == TagsOf(f);
  }

  // ----- writing -----

  ghost function Repeat<T>(tag: Tag<T>, n: int): (s: seq<Tag<T>>)
    ensures |s| == (if n < 0 then 0 else n) && forall i | 0 <= i < |s| :: s[i] == tag
    decreases if n < 0 then 0 else n
  {
    if n <= 0 then [] else [tag] + Repeat(tag, n - 1)
  }

  /** The tags that lead from depth `e` to depth `d`. */
  ghost function Shift<T>(e: nat, d: nat): seq<Tag<T>>
  {
    Repeat(Open, d - e) + Repeat(Close, e - d)
  }

  /** What remains to be written when the last node lay at depth `e`. */
  ghost function Emit<T>(rows: seq<Row<Node<T>>>, e: nat): seq<Tag<T>>
    decreases |rows|
  {
    if rows == [] then Repeat(Close, e)
    else Shift(e, rows[0].depth) + [Written(rows[0].item.data)] + Emit(rows[1..], rows[0].depth)
  }

  /** The data of a forest of nodes. */
  ghost function Values<T>(f: Forest<Node<T>>): Forest<T>
  {
    match f
    case Nil => Nil
    case Cons(n, k, r) => Cons(n.data, Values(k), Values(r))
  }

  lemma {:induction false} ValuesAppend<T>(a: Forest<Node<T>>, b: Forest<Node<T>>)
    ensures Values(Append(a, b)) == Append(Values(a), Values(b))
  {
    if a.Cons? { ValuesAppend(a.rest, b); }
  }

  /** Rows that end at depth `d`, or earlier. */
  ghost predicate Shallow<T>(rows: seq<Row<T>>, d: nat)
  {
    rows == [] || rows[0].depth <= d
  }

  lemma EmitCloses<T>(rows: seq<Row<Node<T>>>, e: nat, d: nat)
    requires d <= e && Shallow(rows, d)
    ensures Emit(rows, e) == Repeat(Close, e - d) + Emit(rows, d)
  {
    RepeatSum<T>(e, d, if rows == [] then 0 else rows[0].depth);
    if rows != [] {
      ShiftThen(Repeat(Close, e - d), Shift(e, rows[0].depth), Shift(d, rows[0].depth),
                [Written(rows[0].item.data)], Emit(rows[1..], rows[0].depth));
    }
  }

  lemma ShiftThen<X>(a: seq<X>, b: seq<X>, c: seq<X>, x: seq<X>, y: seq<X>)
    requires b == a + c
    ensures b + x + y == a + (c + x + y)
  {
  }

  lemma RepeatSum<T>(e: nat, d: nat, x: nat)
    requires x <= d <= e
    ensures Repeat<T>(Close, e - x) == Repeat(Close, e - d) + Repeat(Close, d - x)
    ensures Shift<T>(e, x) == Repeat(Close, e - x) && Shift<T>(d, x) == Repeat(Close, d - x)
  {
  }

  /** The rows of a forest are written as its tags. */
  lemma {:induction false} EmitForest<T>(f: Forest<Node<T>>, d: nat, e: nat, tail: seq<Row<Node<T>>>)
    requires f.Cons? && e <= d && Shallow(tail, d)
    ensures Emit(Table(f, d) + tail, e) == Repeat(Open, d - e) + TagsOf(Values(f)) + Emit(tail, d)
  {
    var Cons(x, k, r) := f;
    var after := Table(r, d) + tail;
    var below := Table(k, d + 1) + after;
    assert Table(f, d) + tail == [Row(x, d, k.Nil?)] + below;
    assert Shift<T>(e, d) == Repeat(Open, d - e);
    assert Emit(Table(f, d) + tail, e) == Repeat(Open, d - e) + [Written(x.data)] + Emit(below, d);
    RowsShallow(r, d, tail);
    EmitBelow(k, d, after);
    if r.Cons? {
      EmitForest(r, d, d, tail);
    } else {
      assert after == tail;
    }
    assert Emit(after, d) == TagsOf(Values(r)) + Emit(tail, d);
    Parts(Repeat(Open, d - e), [Written(x.data)], Enclosed(Values(k)), TagsOf(Values(r)), Emit(tail, d));
  }

  lemma Parts<X>(a: seq<X>, b: seq<X>, c: seq<X>, d: seq<X>, e: seq<X>)
    ensures a + b + (c + (d + e)) == a + (b + c + d) + e
  {
  }

  lemma RowsShallow<T>(r: Forest<T>, d: nat, tail: seq<Row<T>>)
    requires Shallow(tail, d)
    ensures Shallow(Table(r, d) + tail, d)
  {
    if r.Nil? { assert Table(r, d) + tail == tail; }
  }

  /** The children of a node at depth `d`. */
  lemma {:induction false} EmitBelow<T>(k: Forest<Node<T>>, d: nat, after: seq<Row<Node<T>>>)
    requires Shallow(after, d)
    ensures Emit(Table(k, d + 1) + after, d) == Enclosed(Values(k)) + Emit(after, d)
    decreases k
  {
    if k.Nil? {
      assert Table(k, d + 1) + after == after;
    } else {
      EmitForest(k, d + 1, d, after);
      EmitCloses(after, d + 1, d);
      assert Repeat<T>(Open, 1) == [Open] && Repeat<T>(Close, 1) == [Close];
    }
  }

  /** The tree without the sentinels. */
  ghost function Inner<T>(t: Tree<T>): Forest<Node<T>>
    reads t
    requires t.chain.Cons?
  {
    ButLast(t.chain.rest)
  }

  lemma {:induction false} InnerRows<T>(f: Forest<T>, feet: T)
    requires EndsWith(f, feet)
    ensures f == Append(ButLast(f), Cons(feet, Nil, Nil))
    ensures Table(f, 0) == Table(ButLast(f), 0) + [Row(feet, 0, true)]
  {
    if f.rest.Cons? {
      InnerRows(f.rest, feet);
    }
  }

  lemma InnerTable<T>(f: Forest<T>, rows: seq<Row<T>>, head: T, feet: T)
    requires Shaped(f, head, feet) && rows == Table(ButLast(f.rest), 0)
    ensures Table(f, 0) == [Row(head, 0, true)] + rows + [Row(feet, 0, true)] && |rows| + 2 == Size(f)
  {
    InnerRows(f.rest, feet);
    assert Table(f.kids, 1) == [];
    TableRows(f, 0);
  }

  /** Row `i` of the inner tree, as the iterator meets it. */
  lemma WriteStep<T>(f: Forest<T>, rows: seq<Row<T>>, head: T, feet: T, i: nat)
    requires Shaped(f, head, feet) && rows == Table(ButLast(f.rest), 0) && i <= |rows|
    ensures var x := if i < |rows| then rows[i].item else feet;
            && x in Items(f) && (x == feet <==> i == |rows|)
            && (i < |rows| ==> DepthOf(f, x, 0) == rows[i].depth)
            && (i < |rows| ==> NextPre(f, x) == Some(if i + 1 < |rows| then rows[i + 1].item else feet))
  {
    var all := Table(f, 0);
    InnerTable(f, rows, head, feet);
    RowsDiffer(f, i + 1, |rows| + 1);
    RowFacts(f, all, i + 1);
    PreSucc(f, all, i + 1);
  }

  lemma WriteStart<T>(f: Forest<T>, rows: seq<Row<T>>, head: T, feet: T)
    requires Shaped(f, head, feet) && rows == Table(ButLast(f.rest), 0)
    ensures head in Items(f) && Links(f, head).next == Some(if 0 < |rows| then rows[0].item else feet)
  {
    InnerTable(f, rows, head, feet);
    PreSucc(f, Table(f, 0), 0);
    HeadHasNext(f, head, feet);
    ClimbStep(f, None, None, None, head);
  }

  /** Write the tags that lead from the depth of the last node to that of the next. */
  method WriteShift<T>(out0: seq<Tag<T>>, depthLast0: nat, depth: nat, child0: nat)
    returns (out: seq<Tag<T>>, child: nat)
    requires child0 == depthLast0
    ensures out == out0 + Shift(depthLast0, depth) && child == depth
  {
    var depthLast := depthLast0;
    out, child := out0, child0;
    if depth > depthLast {
      while depthLast < depth
        invariant depthLast0 <= depthLast <= depth && child == depthLast
        invariant out == out0 + Repeat(Open, depthLast - depthLast0)
      {
        depthLast := depthLast + 1;
        RepeatMore<T>(Open, depthLast - 1 - depthLast0);
        out := out + [Open];
        child := child + 1;
      }
    } else if depth < depthLast {
      while depthLast > depth
        invariant depth <= depthLast <= depthLast0 && child == depthLast
        invariant out == out0 + Repeat(Close, depthLast0 - depthLast)
      {
        depthLast := depthLast - 1;
        RepeatMore<T>(Close, depthLast0 - depthLast - 1);
        out := out + [Close];
        child := child - 1;
      }
    }
  }

  lemma RepeatMore<T>(tag: Tag<T>, n: nat)
    ensures Repeat(tag, n + 1) == Repeat(tag, n) + [tag]
  {
  }

  /** Close what is still open. */
  method CloseAll<T>(out0: seq<Tag<T>>, child0: nat) returns (out: seq<Tag<T>>)
    ensures out == out0 + Repeat(Close, child0)
  {
    var child := child0;
    out := out0;
    while child > 0
      invariant out + Repeat(Close, child) == out0 + Repeat(Close, child0)
    {
      child := child - 1;
      assert Repeat<T>(Close, child + 1) == [Close] + Repeat(Close, child);
      out := out + [Close];
    }
    assert Repeat<T>(Close, 0) == [];
  }

  /** Write the node at row `i`. */
  method WriteNode<T>(t: Tree<T>, it: PreOrderIterator<T>, out0: seq<Tag<T>>, depthLast: nat, child0: nat,
                      ghost rows: seq<Row<Node<T>>>, ghost i: nat)
    returns (out: seq<Tag<T>>, child: nat, depth: nat)
    requires t.Valid() && rows == Table(Inner(t), 0) && i < |rows| && it.node == rows[i].item && child0 == depthLast
    ensures child == depth && it.node in t.members
    ensures out + Emit(rows[i + 1..], depth) == out0 + Emit(rows[i..], depthLast)
    ensures NextPre(t.chain, it.node) == Some(if i + 1 < |rows| then rows[i + 1].item else t.feet)
  {
    WriteStep(t.chain, rows, t.head, t.feet, i);
    depth := NodeDepth(t, it.node);
    out, child := WriteShift(out0, depthLast, depth, child0);
    out := out + [Written(it.node.data)];
    assert rows[i..][1..] == rows[i + 1..];
    WrittenOne(out0, Shift(depthLast, depth), Written(it.node.data), Emit(rows[i + 1..], depth));
  }

  lemma WrittenOne<X>(a: seq<X>, b: seq<X>, x: X, c: seq<X>)
    ensures (a + b + [x]) + c == a + (b + [x] + c)
  {
  }

  /** Write a tree: the tags nest as the tree does. */
  method WriteTree<T>(t: Tree<T>) returns (out: seq<Tag<T>>)
    requires t.Valid()
    ensures out == TagsOf(Values(Inner(t)))
  {
    ghost var rows := Table(Inner(t), 0);
    ghost var i := 0;
    WriteStart(t.chain, rows, t.head, t.feet);
    WriteStep(t.chain, rows, t.head, t.feet, 0);
    var it := new PreOrderIterator(t.head.next_sibling);
    var depthLast, child := 0, 0;
    out := [];
    while it.node != t.feet
      invariant i <= |rows| && !it.skipCurrentChildren && child == depthLast
      invariant it.node == if i < |rows| then rows[i].item else t.feet
      invariant out + Emit(rows[i..], depthLast) == Emit(rows, 0)
      decreases |rows| - i
    {
      var depth;
      out, child, depth := WriteNode(t, it, out, depthLast, child, rows, i);
      depthLast := depth;
      it.Increment(t);
      i := i + 1;
      WriteStep(t.chain, rows, t.head, t.feet, i);
    }
    WriteStep(t.chain, rows, t.head, t.feet, i);
    assert rows[i..] == [];
    out := CloseAll(out, child);
    EmitBelow0(Inner(t));
  }

  lemma EmitBelow0<T>(f: Forest<Node<T>>)
    ensures Emit(Table(f, 0), 0) == TagsOf(Values(f))
  {
    if f.Cons? {
      EmitForest(f, 0, 0, []);
      assert Table(f, 0) + [] == Table(f, 0);
    }
  }
}
