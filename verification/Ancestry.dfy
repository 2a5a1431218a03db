/** Parents and depths in a forest, and the climb that decides whether one node lies
    below another. */
module Ancestry {
  import opened Forests

  /** The parent of `x`; the roots have parent `up`. */
  function ParentOf<T(==)>(f: Forest<T>, x: T, up: Option<T>): Option<T>
    requires x in Items(f)
  {
    var Cons(m, k, r) := f;
    if m == x then up else if Has(k, x) then ParentOf(k, x, Some(m)) else ParentOf(r, x, up)
  }

  /** Roots are the nodes at the first depth; any other node has a parent one level up. */
  lemma {:induction false} ParentDepth<T>(f: Forest<T>, x: T, up: Option<T>, d: nat)
    requires Distinct(f) && x in Items(f)
    ensures DepthOf(f, x, d) >= d
    ensures DepthOf(f, x, d) == d ==> ParentOf(f, x, up) == up
    ensures DepthOf(f, x, d) > d ==>
              var p := ParentOf(f, x, up);
              p.Some? && p.value in Items(f) && DepthOf(f, p.value, d) == DepthOf(f, x, d) - 1
  {
    var Cons(m, k, r) := f;
    if m == x {
    } else if x in Items(k) {
      ParentDepth(k, x, Some(m), d + 1);
    } else {
      ParentDepth(r, x, up, d);
    }
  }

  /** A node lies below `q` exactly when its parent is `q` or lies below `q`. */
  lemma {:induction false} BelowParent<T>(f: Forest<T>, x: T, q: T, up: Option<T>, d: nat)
    requires Distinct(f) && x in Items(f) && q in Items(f)
    ensures DepthOf(f, x, d) == d ==> x !in Items(Kids(f, q))
    ensures DepthOf(f, x, d) > d ==>
              var p := ParentOf(f, x, up);
              p.Some? && (x in Items(Kids(f, q)) <==> p.value == q || p.value in Items(Kids(f, q)))
  {
    var Cons(m, k, r) := f;
    KidsItems(f, q);
    ParentDepth(f, x, up, d);
    if q in Items(k) { KidsItems(k, q); }
    if q in Items(r) { KidsItems(r, q); }
    if m == x {
    } else if x in Items(k) {
      ParentDepth(k, x, Some(m), d + 1);
      if q in Items(k) { BelowParent(k, x, q, Some(m), d + 1); }
    } else {
      ParentDepth(r, x, up, d);
      if q in Items(r) { BelowParent(r, x, q, up, d); }
    }
  }

  /** Climb from `testChild` to its root and look for `testParent` on the way. */
  method IsChild<T(==)>(f: Forest<T>, testParent: T, testChild: T) returns (yes: bool)
    requires Distinct(f) && testParent in Items(f) && testChild in Items(f)
    ensures yes <==> testChild in Items(Kids(f, testParent))
  {
    var cur := testChild;
    while DepthOf(f, cur, 0) != 0
      invariant cur in Items(f)
      invariant testChild in Items(Kids(f, testParent)) <==> cur in Items(Kids(f, testParent))
      decreases DepthOf(f, cur, 0)
    {
      ParentDepth(f, cur, None, 0);
      BelowParent(f, cur, testParent, None, 0);
      cur := ParentOf(f, cur, None).value;
      if cur == testParent { return true; }
    }
    BelowParent(f, cur, testParent, None, 0);
    return false;
  }

  /** The greatest depth of a forest whose roots lie at depth `d`; one less than `d` when
      there are no nodes. */
  function MaxDepth<T>(f: Forest<T>, d: nat): (n: int)
    ensures n >= d - 1
  {
    match f
    case Nil => d - 1
    case Cons(_, k, r) =>
      var below, beside := MaxDepth(k, d + 1), MaxDepth(r, d);
      if below > beside then below else beside
  }

  /** No row lies deeper, and some row lies that deep. */
  lemma {:induction false} MaxDepthRows<T>(f: Forest<T>, d: nat)
    ensures forall j | 0 <= j < |Table(f, d)| :: Table(f, d)[j].depth <= MaxDepth(f, d)
    ensures f.Cons? ==> exists j :: 0 <= j < |Table(f, d)| && Table(f, d)[j].depth == MaxDepth(f, d)
  {
    match f
    case Nil =>
    case Cons(m, k, r) =>
      MaxDepthRows(k, d + 1);
      MaxDepthRows(r, d);
      var head, a, b := [Row(m, d, k.Nil?)], Table(k, d + 1), Table(r, d);
      var rows := head + a + b;
      assert Table(f, d) == rows && Table(f, d)[0].depth == d;
      if MaxDepth(k, d + 1) > MaxDepth(r, d) {
        if k.Cons? {
          var j :| 0 <= j < |a| && a[j].depth == MaxDepth(k, d + 1);
          assert rows[j + 1] == a[j];
        }
      } else if r.Cons? {
        var j :| 0 <= j < |b| && b[j].depth == MaxDepth(r, d);
        assert rows[j + 1 + |a|] == b[j];
      }
  }
}
