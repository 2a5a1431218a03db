/** The orders of the iterators, against each other: post-order and the order of the leaves
    follow the pre-order, except that post-order puts a node after what is below it. */
module OrderLaws {
  import opened Forests
  import opened TreeOrders
  import opened TreeTours

  /** `x` comes before `y`. */
  ghost predicate Earlier<T>(s: seq<T>, x: T, y: T)
  {
    exists i, j :: 0 <= i < j < |s| && s[i] == x && s[j] == y
  }

  lemma EarlierAcross<T>(s: seq<T>, t: seq<T>, x: T, y: T)
    requires x in s && y in t
    ensures Earlier(s + t, x, y)
  {
    var i :| 0 <= i < |s| && s[i] == x;
    var j :| 0 <= j < |t| && t[j] == y;
    assert (s + t)[i] == x && (s + t)[|s| + j] == y;
  }

  lemma EarlierWithin<T>(a: seq<T>, s: seq<T>, b: seq<T>, x: T, y: T)
    requires Earlier(s, x, y)
    ensures Earlier(a + s + b, x, y)
  {
    var i, j :| 0 <= i < j < |s| && s[i] == x && s[j] == y;
    assert (a + s + b)[|a| + i] == x && (a + s + b)[|a| + j] == y;
  }

  lemma EarlierInRest<T>(m: T, k: Forest<T>, r: Forest<T>, x: T, y: T)
    requires Earlier(Pre(r), x, y)
    ensures Earlier(Pre(Cons(m, k, r)), x, y)
  {
    EarlierWithin([m] + Pre(k), Pre(r), [], x, y);
    assert [m] + Pre(k) + Pre(r) + [] == Pre(Cons(m, k, r));
  }

  lemma RootEarlier<T>(m: T, k: Forest<T>, r: Forest<T>, x: T)
    requires x in Items(k)
    ensures Earlier(Pre(Cons(m, k, r)), m, x)
  {
    InPre(k, x);
    EarlierAcross([m], Pre(k), m, x);
    EarlierWithin([], [m] + Pre(k), Pre(r), m, x);
    assert [] + ([m] + Pre(k)) + Pre(r) == Pre(Cons(m, k, r));
  }

  /** No node comes before one that it lies below. */
  lemma {:induction false} PreAboveFirst<T>(f: Forest<T>, x: T, y: T)
    requires Distinct(f) && y in Items(f) && x in Items(Kids(f, y))
    ensures Earlier(Pre(f), y, x)
  {
    hide Earlier;
    var Cons(m, k, r) := f;
    if m == y {
      RootEarlier(m, k, r, x);
    } else if y in Items(k) {
      PreAboveFirst(k, x, y);
      EarlierWithin([m], Pre(k), Pre(r), y, x);
    } else {
      PreAboveFirst(r, x, y);
      EarlierInRest(m, k, r, y, x);
    }
  }

  /** In post-order a node comes after those below it, and else as in pre-order. */
  ghost predicate PostOf<T>(f: Forest<T>, x: T, y: T)
    requires x in Items(f) && y in Items(f)
  {
    y !in Items(Kids(f, x)) && (x in Items(Kids(f, y)) || Earlier(Pre(f), x, y))
  }

  lemma {:induction false} PostAgainstPre<T>(f: Forest<T>, x: T, y: T)
    requires Distinct(f) && Earlier(Post(f), x, y)
    ensures x in Items(f) && y in Items(f) && PostOf(f, x, y)
  {
    var i, j :| 0 <= i < j < |Post(f)| && Post(f)[i] == x && Post(f)[j] == y;
    var Cons(m, k, r) := f;
    var n := |Post(k)|;
    assert Post(f) == Post(k) + [m] + Post(r);
    if j < n {
      assert Post(k)[i] == x && Post(k)[j] == y;
      PostAgainstPre(k, x, y);
      PostInKids(m, k, r, x, y);
    } else if i > n {
      assert Post(r)[i - n - 1] == x && Post(r)[j - n - 1] == y;
      PostAgainstPre(r, x, y);
      PostInRest(m, k, r, x, y);
    } else if j == n {
      assert Post(k)[i] == x && y == m;
      InPost(k, x);
      KidsItems(k, x);
    } else {
      assert (if i == n then x == m else Post(k)[i] == x) && Post(r)[j - n - 1] == y;
      InPost(k, x);
      InPost(r, y);
      PostAcross(m, k, r, x, y);
    }
  }

  lemma PostInKids<T>(m: T, k: Forest<T>, r: Forest<T>, x: T, y: T)
    requires Distinct(Cons(m, k, r)) && x in Items(k) && y in Items(k) && PostOf(k, x, y)
    ensures PostOf(Cons(m, k, r), x, y)
  {
    if Earlier(Pre(k), x, y) { EarlierWithin([m], Pre(k), Pre(r), x, y); }
  }

  lemma PostInRest<T>(m: T, k: Forest<T>, r: Forest<T>, x: T, y: T)
    requires Distinct(Cons(m, k, r)) && x in Items(r) && y in Items(r) && PostOf(r, x, y)
    ensures PostOf(Cons(m, k, r), x, y)
  {
    if Earlier(Pre(r), x, y) { EarlierInRest(m, k, r, x, y); }
  }

  lemma PostAcross<T>(m: T, k: Forest<T>, r: Forest<T>, x: T, y: T)
    requires Distinct(Cons(m, k, r)) && (x == m || x in Items(k)) && y in Items(r)
    ensures PostOf(Cons(m, k, r), x, y)
  {
    InPre(k, x);
    InPre(r, y);
    assert x in [m] + Pre(k);
    EarlierAcross([m] + Pre(k), Pre(r), x, y);
    if x in Items(k) { KidsItems(k, x); }
  }

  /** The leaves come in pre-order. */
  lemma {:induction false} LeavesAsPre<T>(f: Forest<T>, x: T, y: T)
    requires Earlier(Leaves(f), x, y)
    ensures Earlier(Pre(f), x, y)
  {
    var i, j :| 0 <= i < j < |Leaves(f)| && Leaves(f)[i] == x && Leaves(f)[j] == y;
    var Cons(m, k, r) := f;
    var here := if k.Nil? then [m] else Leaves(k);
    var n := |here|;
    assert Leaves(f) == here + Leaves(r);
    if i >= n {
      assert Leaves(r)[i - n] == x && Leaves(r)[j - n] == y;
      LeavesAsPre(r, x, y);
      EarlierInRest(m, k, r, x, y);
    } else if j < n {
      assert Leaves(k)[i] == x && Leaves(k)[j] == y;
      LeavesAsPre(k, x, y);
      EarlierWithin([m], Pre(k), Pre(r), x, y);
    } else {
      assert here[i] == x && Leaves(r)[j - n] == y;
      LeavesArePre(r, y);
      if k.Cons? { LeavesArePre(k, x); }
      EarlierAcross([m] + Pre(k), Pre(r), x, y);
    }
  }

  lemma {:induction false} LeavesArePre<T>(f: Forest<T>, x: T)
    requires x in Leaves(f)
    ensures x in Pre(f)
  {
    var Cons(m, k, r) := f;
    if x in Leaves(r) {
      LeavesArePre(r, x);
    } else if k.Cons? {
      LeavesArePre(k, x);
    }
  }
}
