/** Loading a saved tree: one loop with a stack of document positions and a stack of tree
    positions. */
module XmlLoading {
  import opened Forests
  import opened CopyShapes
  import opened LinkAlgebra
  import opened TreeShapes
  import opened TreeNodes
  import opened LinkedTree
  import opened TreeMeasures
  import opened TreeXml
  import opened ForestCopies
  import opened XmlMeaning

  // ----- what the loop computes -----

  /** The result of going on from a position: `left` is still to be read here, `stack` holds
      what is to be read after leaving each level, and `ds` the depth of each level's filter. */
  ghost function Outcome<T>(top: Roots<T>, d: nat, left: seq<XmlNode<T>>, ds: seq<nat>,
                            stack: seq<seq<XmlNode<T>>>): Option<Forest<T>>
    requires |stack| == |ds| + 1
    decreases |ds|
  {
    if ds == [] then AtTop(top, left)
    else
      var e := ds[|ds| - 1];
      match Below(top.cur, e, d, left)
      case None => None
      case Some(cur) => Outcome(top.(cur := cur), e, stack[|ds|], ds[..|ds| - 1], stack[..|ds|])
  }

  /** Leaving a level. */
  lemma OutcomePop<T>(top: Roots<T>, d: nat, ds: seq<nat>, stack: seq<seq<XmlNode<T>>>)
    requires |stack| == |ds| + 1 && ds != []
    ensures Outcome(top, d, [], ds, stack) == Outcome(top, ds[|ds| - 1], stack[|ds|], ds[..|ds| - 1], stack[..|ds|])
  {
    assert top.(cur := top.cur) == top;
  }

  lemma OutcomeSkip<T>(top: Roots<T>, d: nat, left: seq<XmlNode<T>>, ds: seq<nat>, stack: seq<seq<XmlNode<T>>>)
    requires |stack| == |ds| + 1 && left != [] && (left[0].Text? || left[0].UnknownElement?)
    ensures Outcome(top, d, left, ds, stack) == Outcome(top, d, left[1..], ds, stack)
  {
  }

  /** Entering a children element. */
  lemma OutcomePush<T>(top: Roots<T>, d: nat, left: seq<XmlNode<T>>, ds: seq<nat>, stack: seq<seq<XmlNode<T>>>)
    requires |stack| == |ds| + 1 && left != [] && left[0].ChildrenElement? && (ds == [] ==> d == 0)
    ensures top.cur.Nil? && ds == [] ==> Outcome(top, d, left, ds, stack) == None
    ensures left[0].nodes == [] ==> Outcome(top, d, left, ds, stack) == None
    ensures top.cur.Cons? && left[0].nodes != [] ==>
              Outcome(top, d, left, ds, stack) == Outcome(top, d, left[0].nodes[1..], ds + [d], stack + [left[1..]])
  {
    if left[0].nodes != [] {
      assert (ds + [d])[..|ds|] == ds && (stack + [left[1..]])[..|stack|] == stack;
    }
  }

  /** Reading a filter: the trees read so far. */
  ghost function RootsAfter<T>(top: Roots<T>, ds: seq<nat>, x: T): Roots<T>
  {
    if ds == [] then top.Add(x) else top.(cur := AddAt(top.cur, ds[|ds| - 1], Cons(x, Nil, Nil)))
  }

  /** .. and how deep it lies. */
  ghost function DepthAfter(ds: seq<nat>): nat
  {
    if ds == [] then 0 else ds[|ds| - 1] + 1
  }

  lemma OutcomeFilter<T>(top: Roots<T>, d: nat, left: seq<XmlNode<T>>, ds: seq<nat>, stack: seq<seq<XmlNode<T>>>)
    requires |stack| == |ds| + 1 && left != [] && left[0].FilterElement?
    ensures !left[0].readable ==> Outcome(top, d, left, ds, stack) == None
    ensures left[0].readable ==>
              Outcome(top, d, left, ds, stack)
              == Outcome(RootsAfter(top, ds, left[0].data), DepthAfter(ds), left[1..], ds, stack)
  {
  }

  // ----- termination -----

  ghost function Weight<T>(nodes: seq<XmlNode<T>>): nat
  {
    if nodes == [] then 0
    else (match nodes[0] case ChildrenElement(c) => 2 + Weight(c) case _ => 1) + Weight(nodes[1..])
  }

  /** What is left to do: the nodes still to be read, and the levels still to be left. */
  ghost function Work<T>(left: seq<XmlNode<T>>, stack: seq<seq<XmlNode<T>>>): nat
    decreases |stack|
  {
    Weight(left) + if |stack| <= 1 then 0 else 1 + Work(stack[|stack| - 1], stack[..|stack| - 1])
  }

  lemma WorkPush<T>(left: seq<XmlNode<T>>, stack: seq<seq<XmlNode<T>>>)
    requires left != [] && left[0].ChildrenElement? && left[0].nodes != [] && stack != []
    ensures Work(left[0].nodes[1..], stack + [left[1..]]) < Work(left, stack)
  {
    assert (stack + [left[1..]])[..|stack|] == stack;
    var c := left[0].nodes;
    assert Weight(c[1..]) < Weight(c) && Weight(left) == 2 + Weight(c) + Weight(left[1..]);
    assert Work(left, stack) == Work(left[1..], stack) - Weight(left[1..]) + Weight(left);
  }

  // ----- the tree that is being read -----

  lemma {:induction false} RightItem<T>(f: Forest<T>, d: nat)
    requires f.Cons? && d <= RightDepth(f)
    ensures RightAt(f, d) in Items(f)
  {
    if f.rest.Cons? { RightItem(f.rest, d); } else if d > 0 { RightItem(f.kids, d - 1); }
  }

  lemma {:induction false} AddAtIs<T>(f: Forest<T>, d: nat, g: Forest<T>)
    requires Distinct(f) && f.Cons? && d <= RightDepth(f)
    ensures AppendKids(f, RightAt(f, d), g) == AddAt(f, d, g)
  {
    RightItem(f, d);
    if f.rest.Cons? {
      RightItem(f.rest, d);
      AddAtIs(f.rest, d, g);
      AppendKidsAbsent(f.kids, RightAt(f, d), g);
    } else if d > 0 {
      RightItem(f.kids, d - 1);
      AddAtIs(f.kids, d - 1, g);
    }
  }

  lemma {:induction false} AppendKidsBehind<T>(a: Forest<T>, b: Forest<T>, p: T, g: Forest<T>)
    requires p !in Items(a)
    ensures AppendKids(Append(a, b), p, g) == Append(a, AppendKids(b, p, g))
  {
    match a
    case Nil =>
    case Cons(_, k, r) =>
      AppendKidsBehind(r, b, p, g);
      AppendKidsAbsent(k, p, g);
  }

  lemma {:induction false} InsertInChain<T>(a: Forest<T>, b: Forest<T>, g: Forest<T>)
    requires Distinct(Append(a, b)) && b.Cons?
    ensures InsertBefore(Append(a, b), b.item, g) == Append(a, Append(g, b))
  {
    AppendDistinct(a, b);
    match a
    case Nil =>
    case Cons(_, k, r) =>
      InsertInChain(r, b, g);
      InsertBeforeAbsent(k, b.item, g);
  }

  /** The chain of a tree that is being read. */
  ghost function Chain<T>(head: T, top: Roots<T>, feet: T): Forest<T>
  {
    Framed(head, top.All(), feet)
  }

  lemma ChainParts<T>(head: T, top: Roots<T>, feet: T)
    ensures Chain(head, top, feet) ==
              Append(Cons(head, Nil, top.before), Append(top.cur, Append(top.after, Cons(feet, Nil, Nil))))
  {
    AppendAppend(top.before, Append(top.cur, top.after), Cons(feet, Nil, Nil));
    AppendAppend(top.cur, top.after, Cons(feet, Nil, Nil));
  }

  /** Which roots there may be: the current one is a single tree, and there is none
      before or after it unless there is a current one, or one before. */
  ghost predicate Proper<T>(top: Roots<T>)
  {
    && (top.cur.Cons? ==> top.cur.rest.Nil?)
    && (top.cur.Nil? ==> top.before.Nil?) && (top.before.Nil? ==> top.after.Nil?)
  }

  /** The node that the next root is inserted before. */
  ghost function LastTop<T>(top: Roots<T>, feet: T): T
  {
    if top.cur.Nil? || top.before.Nil? then feet else top.cur.item
  }

  /** Inserting a root. */
  lemma RootAdded<T>(head: T, top: Roots<T>, feet: T, x: T)
    requires Proper(top) && Shaped(Chain(head, top, feet), head, feet)
    ensures LastTop(top, feet) in Items(Chain(head, top, feet)) && LastTop(top, feet) != head
    ensures InsertBefore(Chain(head, top, feet), LastTop(top, feet), Cons(x, Nil, Nil)) == Chain(head, top.Add(x), feet)
    ensures Proper(top.Add(x)) && LastTop(top.Add(x), feet) == if top.cur.Nil? then feet else x
  {
    var end, g := Cons(feet, Nil, Nil), Cons(x, Nil, Nil);
    var c := Chain(head, top, feet);
    if top.cur.Nil? || top.before.Nil? {
      AppendNil(top.cur);
      assert c == Append(Cons(head, Nil, top.cur), end);
      InsertInChain(Cons(head, Nil, top.cur), end, g);
      AppendDistinct(Cons(head, Nil, top.cur), end);
      AppendAppend(top.cur, g, end);
    } else {
      var y := Append(top.cur, Append(top.after, end));
      ChainParts(head, top, feet);
      InsertInChain(Cons(head, Nil, top.before), y, g);
      AppendDistinct(Cons(head, Nil, top.before), y);
      ChainParts(head, top.Add(x), feet);
      AppendAppend(top.cur, top.after, end);
    }
  }

  /** Hanging a filter behind the children of a filter of the current root. */
  lemma ChildAdded<T>(head: T, top: Roots<T>, feet: T, e: nat, g: Forest<T>)
    requires Shaped(Chain(head, top, feet), head, feet) && top.cur.Cons? && e <= RightDepth(top.cur)
    ensures var p, c := RightAt(top.cur, e), Chain(head, top, feet);
            p in Items(c) && p != head && p != feet
            && AppendKids(c, p, g) == Chain(head, top.(cur := AddAt(top.cur, e, g)), feet)
  {
    var end := Append(top.after, Cons(feet, Nil, Nil));
    var p, a := RightAt(top.cur, e), Cons(head, Nil, top.before);
    ChainParts(head, top, feet);
    ChainParts(head, top.(cur := AddAt(top.cur, e, g)), feet);
    RightItem(top.cur, e);
    AppendDistinct(a, Append(top.cur, end));
    AppendDistinct(top.cur, end);
    AppendDistinct(top.after, Cons(feet, Nil, Nil));
    SingleItems(feet);
    AppendKidsBehind(a, Append(top.cur, end), p, g);
    AppendKidsAppend(top.cur, end, p, g);
    AddAtIs(top.cur, e, g);
  }

  // ----- data -----

  ghost function RootValues<T>(top: Roots<Node<T>>): Roots<T>
  {
    Roots(Values(top.before), Values(top.cur), Values(top.after))
  }

  lemma {:induction false} ValuesAdd<T>(f: Forest<Node<T>>, d: nat, g: Forest<Node<T>>)
    ensures Values(AddAt(f, d, g)) == AddAt(Values(f), d, Values(g))
  {
    match f
    case Nil =>
    case Cons(_, k, r) =>
      if r.Cons? { ValuesAdd(r, d, g); } else if d == 0 { ValuesAppend(k, g); } else { ValuesAdd(k, d - 1, g); }
  }

  lemma ValuesGrown<T>(top: Roots<Node<T>>, ds: seq<nat>, n: Node<T>)
    ensures RootValues(RootsAfter(top, ds, n)) == RootsAfter(RootValues(top), ds, n.data)
  {
    assert Values(Cons(n, Nil, Nil)) == Cons(n.data, Nil, Nil);
    if ds == [] {
      ValuesAppend(top.cur, top.after);
    } else {
      ValuesAdd(top.cur, ds[|ds| - 1], Cons(n, Nil, Nil));
    }
  }

  lemma {:induction false} ButLastAppend<T>(f: Forest<T>, feet: T)
    ensures ButLast(Append(f, Cons(feet, Nil, Nil))) == f
  {
    if f.Cons? { ButLastAppend(f.rest, feet); }
  }

  // ----- the stacks -----

  /** The filters of the levels that have been entered lie on the right-hand edge. */
  ghost predicate OnEdge<T>(cur: Forest<T>, ds: seq<nat>, filts: seq<T>)
  {
    && |ds| == |filts| && (ds != [] ==> cur.Cons? && ds[0] == 0)
    && (forall i | 0 <= i < |ds| :: ds[i] <= RightDepth(cur) && filts[i] == RightAt(cur, ds[i]))
    && forall i, j | 0 <= i <= j < |ds| :: ds[i] <= ds[j]
  }

  /** Where a further filter goes keeps the levels above. */
  lemma EdgeGrows<T>(top: Roots<T>, ds: seq<nat>, filts: seq<T>, x: T)
    requires OnEdge(top.cur, ds, filts)
    ensures OnEdge(RootsAfter(top, ds, x).cur, ds + [DepthAfter(ds)], filts + [x])
  {
    if ds != [] {
      var e, g := ds[|ds| - 1], Cons(x, Nil, Nil);
      AddAtDepth(top.cur, e, x);
      forall i | 0 <= i < |ds|
        ensures ds[i] <= RightDepth(AddAt(top.cur, e, g)) && filts[i] == RightAt(AddAt(top.cur, e, g), ds[i])
      {
        AddAtKeeps(top.cur, e, g, ds[i]);
      }
    }
  }

  /** The state of the loop: the tree read so far, the filter read last and the root added
      last, and the filters of the levels that have been entered. */
  ghost predicate Loading<T>(t: Tree<T>, top: Roots<Node<T>>, d: nat, ds: seq<nat>, filts: seq<Node<T>>,
                             lastFilt: Node<T>, lastTop: Node<T>)
    reads t, t.members
  {
    && t.Valid() && t.chain == Chain(t.head, top, t.feet) && Proper(top) && lastTop == LastTop(top, t.feet)
    && if top.cur.Nil? then d == 0 && ds == [] && filts == [] else OnEdge(top.cur, ds + [d], filts + [lastFilt])
  }

  lemma EdgePrefix<T>(cur: Forest<T>, ds: seq<nat>, filts: seq<T>, d: nat, n: T)
    requires OnEdge(cur, ds + [d], filts + [n]) && |ds| == |filts|
    ensures OnEdge(cur, ds, filts) && (ds == [] ==> d == 0)
  {
    var ds', filts' := ds + [d], filts + [n];
    assert forall i | 0 <= i < |ds| :: ds[i] == ds'[i] && filts[i] == filts'[i];
    assert ds == [] ==> ds'[0] == d;
  }

  /** Without a current root there is none. */
  lemma NoFilters<T>(head: T, top: Roots<T>, feet: T)
    requires Proper(top) && Shaped(Chain(head, top, feet), head, feet)
    ensures var c := Chain(head, top, feet); c.rest.item == feet <==> top.cur.Nil?
    ensures Size(Chain(head, top, feet)) == 2 <==> top.cur.Nil?
  {
    var f, end := top.All(), Cons(feet, Nil, Nil);
    AppendDistinct(Cons(head, Nil, f), end);
    SizeAppend(f, end);
    SizeAppend(top.before, Append(top.cur, top.after));
    SizeAppend(top.cur, top.after);
  }

  /** Go to the next element at this level. */
  method NextElement<T>(left0: seq<XmlNode<T>>) returns (left: seq<XmlNode<T>>)
    ensures left != [] ==> !left[0].Text?
    ensures Weight(left) <= Weight(left0)
    ensures forall top: Roots<T>, d: nat, ds, stack | |stack| == |ds| + 1 ::
              Outcome(top, d, left0, ds, stack) == Outcome(top, d, left, ds, stack)
  {
    left := left0;
    while left != [] && left[0].Text?
      invariant Weight(left) <= Weight(left0)
      invariant forall top: Roots<T>, d: nat, ds, stack | |stack| == |ds| + 1 ::
                  Outcome(top, d, left0, ds, stack) == Outcome(top, d, left, ds, stack)
      decreases |left|
    {
      forall top: Roots<T>, d: nat, ds, stack | |stack| == |ds| + 1
        ensures Outcome(top, d, left, ds, stack) == Outcome(top, d, left[1..], ds, stack)
      {
        OutcomeSkip(top, d, left, ds, stack);
      }
      left := left[1..];
    }
  }

  /** Add a root. */
  method AddRoot<T>(t: Tree<T>, lastTop: Node<T>, x: T, ghost top: Roots<Node<T>>) returns (n: Node<T>)
    requires t.Valid() && t.chain == Chain(t.head, top, t.feet) && Proper(top) && lastTop == LastTop(top, t.feet)
    modifies t`chain, t`members, t.members`prev_sibling, t.members`next_sibling, t.members`first_child
    ensures t.Valid() && t.chain == Chain(t.head, top.Add(n), t.feet) && Proper(top.Add(n))
    ensures fresh(n) && n.data == x && t.members == old(t.members) + {n}
    ensures LastTop(top.Add(n), t.feet) == if top.cur.Nil? then t.feet else n
  {
    RootAdded(t.head, top, t.feet, lastTop);
    n := t.Insert(lastTop, x);
    RootAdded(t.head, top, t.feet, n);
  }

  /** Add a filter below the filter of the current level. */
  method AddBelow<T>(t: Tree<T>, under: Node<T>, x: T, ghost top: Roots<Node<T>>, ghost e: nat) returns (n: Node<T>)
    requires t.Valid() && t.chain == Chain(t.head, top, t.feet) && Proper(top)
    requires top.cur.Cons? && e <= RightDepth(top.cur) && under == RightAt(top.cur, e)
    modifies t`chain, t`members, t.members`next_sibling, t.members`first_child, t.members`last_child
    ensures t.Valid() && fresh(n) && n.data == x && t.members == old(t.members) + {n}
    ensures t.chain == Chain(t.head, top.(cur := AddAt(top.cur, e, Cons(n, Nil, Nil))), t.feet)
  {
    ChildAdded(t.head, top, t.feet, e, Nil);
    n := t.AppendChild(under, x);
    ChildAdded(t.head, top, t.feet, e, Cons(n, Nil, Nil));
  }

  /** Add a filter: as the first root, below the filter of the current level, or as a root
      before the one added last. */
  method AddFilter<T>(t: Tree<T>, lastTop0: Node<T>, filts: seq<Node<T>>, ghost lastFilt0: Node<T>, x: T,
                      ghost top: Roots<Node<T>>, ghost d: nat, ghost ds: seq<nat>)
    returns (lastFilt: Node<T>, lastTop: Node<T>)
    requires Loading(t, top, d, ds, filts, lastFilt0, lastTop0) && |ds| == |filts|
    modifies t`chain, t`members, t.members`prev_sibling, t.members`next_sibling
    modifies t.members`first_child, t.members`last_child
    ensures Loading(t, RootsAfter(top, ds, lastFilt), DepthAfter(ds), ds, filts, lastFilt, lastTop)
    ensures lastFilt.data == x && fresh(lastFilt) && t.members == old(t.members) + {lastFilt}
  {
    NoFilters(t.head, top, t.feet);
    FirstRoot(t.chain, t.head, t.feet);
    lastTop := lastTop0;
    if top.cur.Cons? { EdgePrefix(top.cur, ds, filts, d, lastFilt0); }
    if t.head.next_sibling == t.feet {
      lastFilt := AddRoot(t, t.feet, x, top);
    } else if filts != [] {
      lastFilt := AddBelow(t, filts[|filts| - 1], x, top, ds[|ds| - 1]);
      AddAtKeeps(top.cur, ds[|ds| - 1], Cons(lastFilt, Nil, Nil), 0);
    } else {
      lastTop := AddRoot(t, lastTop, x, top);
      lastFilt := lastTop;
    }
    EdgeGrows(top, ds, filts, lastFilt);
  }

  /** The loop's position in the document, and what the rest of the document will give. */
  ghost predicate Reading<T>(t: Tree<T>, top: Roots<Node<T>>, d: nat, ds: seq<nat>, filts: seq<Node<T>>,
                             lastFilt: Node<T>, lastTop: Node<T>, left: seq<XmlNode<T>>, stack: seq<seq<XmlNode<T>>>,
                             goal: Option<Forest<T>>)
    reads t, t.members
  {
    && Loading(t, top, d, ds, filts, lastFilt, lastTop) && |ds| == |filts| && |stack| == |ds| + 1
    && Outcome(RootValues(top), d, left, ds, stack) == goal
  }

  /** The end of a level that was entered: go back to its filter. */
  lemma LevelEnds<T>(t: Tree<T>, top: Roots<Node<T>>, d: nat, ds: seq<nat>, filts: seq<Node<T>>,
                     lastFilt: Node<T>, lastTop: Node<T>, stack: seq<seq<XmlNode<T>>>, goal: Option<Forest<T>>)
    requires Reading(t, top, d, ds, filts, lastFilt, lastTop, [], stack, goal) && filts != []
    ensures Reading(t, top, ds[|ds| - 1], ds[..|ds| - 1], filts[..|ds| - 1], filts[|ds| - 1], lastTop,
                    stack[|ds|], stack[..|ds|], goal)
    ensures Work(stack[|ds|], stack[..|ds|]) < Work([], stack)
  {
    OutcomePop(RootValues(top), d, ds, stack);
    EdgePrefix(top.cur, ds, filts, d, lastFilt);
    assert ds[..|ds| - 1] + [ds[|ds| - 1]] == ds && filts[..|ds| - 1] + [filts[|ds| - 1]] == filts;
  }

  /** The end of the document. */
  lemma DocumentEnds<T>(t: Tree<T>, top: Roots<Node<T>>, d: nat, ds: seq<nat>, filts: seq<Node<T>>,
                        lastFilt: Node<T>, lastTop: Node<T>, stack: seq<seq<XmlNode<T>>>, goal: Option<Forest<T>>)
    requires Reading(t, top, d, ds, filts, lastFilt, lastTop, [], stack, goal) && filts == []
    ensures Some(Values(Inner(t))) == goal
  {
    ButLastAppend(top.All(), t.feet);
    ValuesAppend(top.cur, top.after);
    ValuesAppend(top.before, Append(top.cur, top.after));
  }

  /** Entering a children element, if it has nodes and follows a filter. */
  lemma LevelBegins<T>(t: Tree<T>, top: Roots<Node<T>>, d: nat, ds: seq<nat>, filts: seq<Node<T>>, lastFilt: Node<T>,
                       lastTop: Node<T>, left: seq<XmlNode<T>>, stack: seq<seq<XmlNode<T>>>, goal: Option<Forest<T>>)
    requires Reading(t, top, d, ds, filts, lastFilt, lastTop, left, stack, goal) && left != []
    requires left[0].ChildrenElement?
    ensures Size(t.chain) == 2 <==> top.cur.Nil?
    ensures top.cur.Nil? || left[0].nodes == [] ==> goal == None
    ensures top.cur.Cons? && left[0].nodes != [] ==>
              && Reading(t, top, d, ds + [d], filts + [lastFilt], lastFilt, lastTop, left[0].nodes[1..],
                         stack + [left[1..]], goal)
              && Work(left[0].nodes[1..], stack + [left[1..]]) < Work(left, stack)
  {
    NoFilters(t.head, top, t.feet);
    if top.cur.Cons? {
      EdgePrefix(top.cur, ds, filts, d, lastFilt);
      EdgeTwice(top.cur, ds, filts, d, lastFilt);
    }
    OutcomePush(RootValues(top), d, left, ds, stack);
    if left[0].nodes != [] { WorkPush(left, stack); }
  }

  lemma EdgeTwice<T>(cur: Forest<T>, ds: seq<nat>, filts: seq<T>, d: nat, n: T)
    requires OnEdge(cur, ds + [d], filts + [n]) && |ds| == |filts|
    ensures OnEdge(cur, ds + [d] + [d], filts + [n] + [n])
  {
    var a, b := ds + [d], filts + [n];
    var a', b' := a + [d], b + [n];
    assert a[|ds|] == d && b[|ds|] == n;
    forall i, j | 0 <= i <= j < |a'| ensures a'[i] <= a'[j] {
      assert i < |a| ==> a[i] <= a[|ds|];
    }
  }

  /** Reading a filter element. */
  method ReadFilter<T>(t: Tree<T>, lastTop0: Node<T>, filts: seq<Node<T>>, left: seq<XmlNode<T>>,
                       ghost lastFilt0: Node<T>,
                       ghost top: Roots<Node<T>>, ghost d: nat, ghost ds: seq<nat>,
                       ghost stack: seq<seq<XmlNode<T>>>, ghost goal: Option<Forest<T>>)
    returns (lastFilt: Node<T>, lastTop: Node<T>)
    requires Reading(t, top, d, ds, filts, lastFilt0, lastTop0, left, stack, goal)
    requires left != [] && left[0].FilterElement? && left[0].readable
    modifies t`chain, t`members, t.members`prev_sibling, t.members`next_sibling
    modifies t.members`first_child, t.members`last_child
    ensures Reading(t, RootsAfter(top, ds, lastFilt), DepthAfter(ds), ds, filts, lastFilt, lastTop, left[1..], stack,
                    goal)
    ensures fresh(lastFilt) && t.members == old(t.members) + {lastFilt}
  {
    OutcomeFilter(RootValues(top), d, left, ds, stack);
    lastFilt, lastTop := AddFilter(t, lastTop0, filts, lastFilt0, left[0].data, top, d, ds);
    ValuesGrown(top, ds, lastFilt);
  }

  lemma WorkSkip<T>(left: seq<XmlNode<T>>, left': seq<XmlNode<T>>, stack: seq<seq<XmlNode<T>>>)
    requires Weight(left') <= Weight(left)
    ensures Work(left', stack) <= Work(left, stack)
    ensures left' != [] ==> Work(left'[1..], stack) < Work(left, stack)
  {
  }

  method BeginLoad<T>(t: Tree<T>)
    requires t.Valid()
    modifies t`chain, t`members, t.members`prev_sibling, t.members`next_sibling
    modifies t.members`first_child, t.members`last_child, t.members`live
    ensures t.Valid() && t.members <= old(t.members) && t.chain == Framed(t.head, Nil, t.feet)
    ensures Loading(t, Roots(Nil, Nil, Nil), 0, [], [], t.feet, t.feet)
  {
    Clear(t);
  }

  /** Load a document into the tree. It takes on the meaning of the document, or is left
      empty when the document has none. */
  method LoadXml<T>(t: Tree<T>, doc: seq<XmlNode<T>>) returns (ok: bool)
    requires t.Valid() && doc != []
    modifies t`chain, t`members, t.members`prev_sibling, t.members`next_sibling
    modifies t.members`first_child, t.members`last_child, t.members`live
    ensures t.Valid() && (ok <==> Meaning(doc).Some?)
    ensures ok ==> Values(Inner(t)) == Meaning(doc).value
    ensures !ok ==> t.chain == Framed(t.head, Nil, t.feet)
  {
    ghost var goal := Meaning(doc);
    BeginLoad(t);
    var lastFilt, lastTop := t.feet, t.feet;
    var treeNodeStack: seq<Node<T>> := [];
    var nodeStack := [doc];
    var nodePtr := doc[1..];
    var inTree, needCleanup := true, false;
    ghost var top: Roots<Node<T>>, d: nat, ds: seq<nat> := Roots(Nil, Nil, Nil), 0, [];
    while inTree
      invariant t.Valid() && forall n | n in t.members :: n in old(t.members) || fresh(n)
      invariant inTree ==> Reading(t, top, d, ds, treeNodeStack, lastFilt, lastTop, nodePtr, nodeStack, goal)
      invariant !inTree ==> Some(Values(Inner(t))) == goal
      decreases inTree, Work(nodePtr, nodeStack)
    {
      ghost var before := nodePtr;
      nodePtr := NextElement(nodePtr);
      WorkSkip(before, nodePtr, nodeStack);
      if nodePtr == [] {
        if treeNodeStack != [] {
          LevelEnds(t, top, d, ds, treeNodeStack, lastFilt, lastTop, nodeStack, goal);
          nodePtr, nodeStack := nodeStack[|nodeStack| - 1], nodeStack[..|nodeStack| - 1];
          lastFilt, treeNodeStack := treeNodeStack[|treeNodeStack| - 1], treeNodeStack[..|treeNodeStack| - 1];
          d, ds := ds[|ds| - 1], ds[..|ds| - 1];
        } else {
          DocumentEnds(t, top, d, ds, treeNodeStack, lastFilt, lastTop, nodeStack, goal);
          inTree := false;
        }
      } else if nodePtr[0].ChildrenElement? {
        LevelBegins(t, top, d, ds, treeNodeStack, lastFilt, lastTop, nodePtr, nodeStack, goal);
        var size := TreeSize(t);
        if size == 0 || nodePtr[0].nodes == [] {
          needCleanup := true;
          break;
        }
        nodeStack, treeNodeStack := nodeStack + [nodePtr[1..]], treeNodeStack + [lastFilt];
        nodePtr := nodePtr[0].nodes[1..];
        ds := ds + [d];
      } else if nodePtr[0].FilterElement? {
        if !nodePtr[0].readable {
          OutcomeFilter(RootValues(top), d, nodePtr, ds, nodeStack);
          needCleanup := true;
          break;
        }
        lastFilt, lastTop := ReadFilter(t, lastTop, treeNodeStack, nodePtr, lastFilt, top, d, ds, nodeStack, goal);
        top, d, nodePtr := RootsAfter(top, ds, lastFilt), DepthAfter(ds), nodePtr[1..];
      } else {
        OutcomeSkip(RootValues(top), d, nodePtr, ds, nodeStack);
        nodePtr := nodePtr[1..];
      }
    }
    if needCleanup { Clear(t); }
    ok := !needCleanup;
  }
}
