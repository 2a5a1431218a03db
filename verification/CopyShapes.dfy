/** Copying a tree node by node in pre-order: how a partial copy grows. */
module CopyShapes {
  import opened Forests
  import opened Ancestry
  import opened LinkAlgebra

  lemma {:induction false} RootParent<T>(f: Forest<T>, n: T, up: Option<T>)
    requires Distinct(f) && IsRoot(f, n)
    ensures n in Items(f) && ParentOf(f, n, up) == up
  {
    RootsAreItems(f);
    if f.item != n {
      RootsAreItems(f.rest);
      RootParent(f.rest, n, up);
    }
  }

  /** A copy of fewer nodes than the first tree below `m` holds. */
  lemma CopyBelow<T, U>(m: T, k: Forest<T>, r: Forest<T>, a: U, t: seq<U>)
    requires |t| <= Size(k)
    ensures Rebuild(Cons(m, k, r), [a] + t) == Cons(a, Rebuild(k, t), Nil)
  {
    var ns := [a] + t;
    assert ns[1..] == t && Take(t, Size(k)) == t && Drop(t, Size(k)) == [];
  }

  lemma CopyBeside<T, U>(m: T, k: Forest<T>, r: Forest<T>, a: U, t: seq<U>, u: seq<U>)
    requires |t| == Size(k)
    ensures Rebuild(Cons(m, k, r), [a] + t + u) == Cons(a, Rebuild(k, t), Rebuild(r, u))
  {
    var ns := [a] + t + u;
    assert ns[1..] == t + u && Take(t + u, Size(k)) == t && Drop(t + u, Size(k)) == u;
  }

  /** The copy of the first nodes of `f` grows by `x`, the copy of node `y`: it becomes the
      last root, or the last child of the copy `ns[q]` of the parent of `y`. */
  ghost predicate Grown<T, U>(f: Forest<T>, ns: seq<U>, x: U, y: T, up: Option<T>, q: nat)
    requires y in Items(f)
  {
    if IsRoot(f, y) then Rebuild(f, ns + [x]) == Append(Rebuild(f, ns), Cons(x, Nil, Nil))
    else q < |ns| && q < |Pre(f)| && ParentOf(f, y, up) == Some(Pre(f)[q])
         && Rebuild(f, ns + [x]) == AppendKids(Rebuild(f, ns), ns[q], Cons(x, Nil, Nil))
  }

  lemma {:induction false} RebuildGrows<T, U>(f: Forest<T>, ns: seq<U>, x: U, up: Option<T>) returns (q: nat)
    requires Distinct(f) && |ns| < |Pre(f)| && NoRepeat(ns)
    ensures Pre(f)[|ns|] in Items(f) && Grown(f, ns, x, Pre(f)[|ns|], up, q)
    decreases f, 1
  {
    if ns == [] {
      q := GrowsFirst<T, U>(f, x, up);
    } else if |ns| <= Size(f.kids) {
      assert ns == [ns[0]] + ns[1..];
      q := GrowsBelow(f, ns[0], ns[1..], x, up);
    } else {
      var c := 1 + Size(f.kids);
      assert ns == [ns[0]] + ns[1..c] + ns[c..];
      RestSize(f);
      q := GrowsBeside(f, ns, ns[0], ns[1..c], ns[c..], x, up);
    }
  }

  lemma RestSize<T>(f: Forest<T>)
    requires f.Cons?
    ensures |Pre(f)| == 1 + Size(f.kids) + Size(f.rest)
  {
    PreItems(f);
  }

  lemma GrowsFirst<T, U>(f: Forest<T>, x: U, up: Option<T>) returns (q: nat)
    requires f.Cons?
    ensures |Pre(f)| > 0 && Pre(f)[0] in Items(f) && Grown<T, U>(f, [], x, Pre(f)[0], up, q)
  {
    q := 0;
    var none: seq<U> := [];
    assert none + [x] == [x] + [];
    CopyBelow<T, U>(f.item, f.kids, f.rest, x, []);
  }

  lemma {:induction false} GrowsBelow<T, U>(f: Forest<T>, a: U, t: seq<U>, x: U, up: Option<T>) returns (q: nat)
    requires Distinct(f) && f.Cons? && |t| < Size(f.kids) && NoRepeat([a] + t)
    ensures 1 + |t| < |Pre(f)| && Pre(f)[1 + |t|] in Items(f) && Grown(f, [a] + t, x, Pre(f)[1 + |t|], up, q)
    decreases f, 0
  {
    var Cons(m, k, r) := f;
    PreItems(k);
    NoRepeatSplit([a], t);
    var y := Pre(k)[|t|];
    assert Pre(f)[1 + |t|] == y;
    var q' := RebuildGrows(k, t, x, Some(m));
    CopyBelow(m, k, r, a, t);
    CopyBelow(m, k, r, a, t + [x]);
    assert [a] + t + [x] == [a] + (t + [x]);
    RootsAreItems(r);
    q := 0;
    if IsRoot(k, y) {
      RootParent(k, y, Some(m));
      assert ParentOf(f, y, up) == Some(Pre(f)[0]);
    } else {
      q := q' + 1;
      assert ([a] + t)[q] == t[q'] && t[q'] in t;
      assert Pre(f)[q] == Pre(k)[q'];
      AppendKidsNil<U>(t[q'], Cons(x, Nil, Nil));
    }
  }

  lemma AppendKidsNil<U>(p: U, g: Forest<U>)
    ensures AppendKids(Nil, p, g) == Nil
  {
  }

  lemma {:induction false} GrowsBeside<T, U>(f: Forest<T>, ns: seq<U>, a: U, t: seq<U>, u: seq<U>, x: U, up: Option<T>)
    returns (q: nat)
    requires Distinct(f) && f.Cons? && |t| == Size(f.kids) && |u| < Size(f.rest)
    requires ns == [a] + t + u && NoRepeat(ns)
    ensures |ns| < |Pre(f)| && Pre(f)[|ns|] in Items(f) && Grown(f, ns, x, Pre(f)[|ns|], up, q)
    decreases f, 0
  {
    var Cons(m, k, r) := f;
    PreItems(k);
    PreItems(r);
    NoRepeatSplit([a] + t, u);
    var y := Pre(r)[|u|];
    assert Pre(f)[|ns|] == y;
    var q' := RebuildGrows(r, u, x, up);
    CopiesBeside(m, k, r, ns, a, t, u, x);
    q := 0;
    if !IsRoot(r, y) {
      q := 1 + |t| + q';
      assert ns[q] == u[q'] && Pre(f)[q] == Pre(r)[q'];
      BesideApart(k, a, t, u, q');
      AppendKidsBeside(a, Rebuild(k, t), Rebuild(r, u), u[q'], Cons(x, Nil, Nil));
    }
  }

  lemma AppendKidsBeside<U>(a: U, k: Forest<U>, r: Forest<U>, p: U, g: Forest<U>)
    requires p != a && p !in Items(k)
    ensures AppendKids(Cons(a, k, r), p, g) == Cons(a, k, AppendKids(r, p, g))
  {
    AppendKidsAbsent(k, p, g);
  }

  lemma CopiesBeside<T, U>(m: T, k: Forest<T>, r: Forest<T>, ns: seq<U>, a: U, t: seq<U>, u: seq<U>, x: U)
    requires |t| == Size(k) && ns == [a] + t + u
    ensures Rebuild(Cons(m, k, r), ns) == Cons(a, Rebuild(k, t), Rebuild(r, u))
    ensures Rebuild(Cons(m, k, r), ns + [x]) == Cons(a, Rebuild(k, t), Rebuild(r, u + [x]))
  {
    CopyBeside(m, k, r, a, t, u);
    CopyBeside(m, k, r, a, t, u + [x]);
    assert ns + [x] == [a] + t + (u + [x]);
  }

  lemma BesideApart<T, U>(k: Forest<T>, a: U, t: seq<U>, u: seq<U>, q: nat)
    requires |t| == Size(k) && NoRepeat([a] + t + u) && q < |u|
    ensures u[q] != a && u[q] !in Items(Rebuild(k, t))
  {
    NoRepeatSplit([a] + t, u);
    NoRepeatSplit([a], t);
    RebuildItems(k, t);
    assert u[q] in u && u[q] !in [a] + t;
  }

  /** The copy `ns[c]` hangs below the copy of the parent of what it copies. */
  ghost predicate Mirrored<T, U>(f: Forest<T>, ns: seq<U>, c: nat, up: Option<T>, up': Option<U>, q: nat)
    requires Distinct(f) && c < |ns| && c < |Pre(f)|
  {
    var y, g := Pre(f)[c], Rebuild(f, ns);
    && y in Items(f) && ns[c] in Items(g)
    && if IsRoot(f, y) then ParentOf(f, y, up) == up && ParentOf(g, ns[c], up') == up'
       else q < c && ParentOf(f, y, up) == Some(Pre(f)[q]) && ParentOf(g, ns[c], up') == Some(ns[q])
  }

  lemma {:induction false} ImageParent<T, U>(f: Forest<T>, ns: seq<U>, c: nat, up: Option<T>, up': Option<U>)
    returns (q: nat)
    requires Distinct(f) && NoRepeat(ns) && c < |ns| <= |Pre(f)|
    ensures Mirrored(f, ns, c, up, up', q)
    decreases f, 1
  {
    RestSize(f);
    if c == 0 {
      q := 0;
    } else if |ns| <= 1 + Size(f.kids) {
      assert ns == [ns[0]] + ns[1..];
      q := ParentBelow(f, ns, ns[0], ns[1..], [], c, up, up');
    } else {
      var e := 1 + Size(f.kids);
      assert ns == [ns[0]] + ns[1..e] + ns[e..];
      if c < e {
        q := ParentBelow(f, ns, ns[0], ns[1..e], ns[e..], c, up, up');
      } else {
        q := ParentBeside(f, ns, ns[0], ns[1..e], ns[e..], c, up, up');
      }
    }
  }

  lemma {:induction false} ParentBelow<T, U>(f: Forest<T>, ns: seq<U>, a: U, t: seq<U>, u: seq<U>, c: nat,
                                             up: Option<T>, up': Option<U>) returns (q: nat)
    requires Distinct(f) && f.Cons? && |t| <= Size(f.kids) && (u == [] || |t| == Size(f.kids)) && |u| <= Size(f.rest)
    requires ns == [a] + t + u && NoRepeat(ns) && 1 <= c <= |t|
    ensures |ns| <= |Pre(f)| && Mirrored(f, ns, c, up, up', q)
    decreases f, 0
  {
    var Cons(m, k, r) := f;
    RestSize(f);
    PreItems(k);
    NoRepeatSplit([a] + t, u);
    NoRepeatSplit([a], t);
    var y := Pre(k)[c - 1];
    assert Pre(f)[c] == y && ns[c] == t[c - 1] && t[c - 1] in t;
    var q' := ImageParent(k, t, c - 1, Some(m), Some(a));
    if u == [] {
      assert ns == [a] + t;
      CopyBelow(m, k, r, a, t);
    } else {
      CopyBeside(m, k, r, a, t, u);
    }
    RootsAreItems(r);
    q := 0;
    if !IsRoot(k, y) {
      q := q' + 1;
      assert Pre(f)[q] == Pre(k)[q'] && ns[q] == t[q'];
    } else {
      assert Pre(f)[0] == m && ns[0] == a;
    }
  }

  lemma {:induction false} ParentBeside<T, U>(f: Forest<T>, ns: seq<U>, a: U, t: seq<U>, u: seq<U>, c: nat,
                                              up: Option<T>, up': Option<U>) returns (q: nat)
    requires Distinct(f) && f.Cons? && |t| == Size(f.kids) && |u| <= Size(f.rest)
    requires ns == [a] + t + u && NoRepeat(ns) && 1 + |t| <= c < |ns|
    ensures |ns| <= |Pre(f)| && Mirrored(f, ns, c, up, up', q)
    decreases f, 0
  {
    var Cons(m, k, r) := f;
    RestSize(f);
    PreItems(k);
    PreItems(r);
    NoRepeatSplit([a] + t, u);
    var i := c - 1 - |t|;
    var y := Pre(r)[i];
    assert Pre(f)[c] == y && ns[c] == u[i];
    var q' := ImageParent(r, u, i, up, up');
    CopyBeside(m, k, r, a, t, u);
    BesideApart(k, a, t, u, i);
    q := 0;
    if !IsRoot(r, y) {
      q := 1 + |t| + q';
      assert Pre(f)[q] == Pre(r)[q'] && ns[q] == u[q'];
    }
  }

  // ----- a tree put in the place of another -----

  /** The tree of `p` is replaced by the trees of `g`. */
  ghost function ReplaceTree<T>(f: Forest<T>, p: T, g: Forest<T>): Forest<T>
  {
    match f
    case Nil => Nil
    case Cons(m, k, r) => if m == p then Append(g, r) else Cons(m, ReplaceTree(k, p, g), ReplaceTree(r, p, g))
  }

  lemma {:induction false} ReplaceAbsent<T>(f: Forest<T>, p: T, g: Forest<T>)
    requires p !in Items(f)
    ensures ReplaceTree(f, p, g) == f
  {
    match f
    case Nil =>
    case Cons(_, k, r) => ReplaceAbsent(k, p, g); ReplaceAbsent(r, p, g);
  }

  lemma {:induction false} ReplaceIs<T>(f: Forest<T>, p: T, g: Forest<T>)
    requires Distinct(f) && p in Items(f)
    ensures Suffix(f, p).Cons? && ReplaceTree(f, p, g) == Change(f, p, Append(g, Suffix(f, p).rest))
  {
    var Cons(m, k, r) := f;
    SuffixItems(f, p);
    var c := Append(g, Suffix(f, p).rest);
    if m == p {
    } else if p in Items(k) {
      SuffixItems(k, p);
      ReplaceIs(k, p, g);
      ReplaceAbsent(r, p, g);
      ChangeAbsent(r, p, c);
    } else {
      SuffixItems(r, p);
      ReplaceIs(r, p, g);
      ReplaceAbsent(k, p, g);
      ChangeAbsent(k, p, c);
    }
  }

  /** What `p` had below it does not matter. */
  lemma {:induction false} ReplaceChildless<T>(f: Forest<T>, p: T, g: Forest<T>)
    requires Distinct(f) && p in Items(f)
    ensures ReplaceTree(SetKids(f, p, Nil), p, g) == ReplaceTree(f, p, g)
  {
    var Cons(m, k, r) := f;
    if m == p {
    } else if p in Items(k) {
      ReplaceChildless(k, p, g);
      SetKidsAbsent(r, p, Nil);
    } else {
      ReplaceChildless(r, p, g);
      SetKidsAbsent(k, p, Nil);
    }
  }

  /** Nodes hung inside the new tree. */
  lemma {:induction false} ReplaceGrows<T>(f: Forest<T>, p: T, g: Forest<T>, q: T, h: Forest<T>)
    requires Distinct(f) && p in Items(f) && q !in Items(f)
    ensures AppendKids(ReplaceTree(f, p, g), q, h) == ReplaceTree(f, p, AppendKids(g, q, h))
  {
    var Cons(m, k, r) := f;
    if m == p {
      AppendKidsAppend(g, r, q, h);
    } else if p in Items(k) {
      ReplaceGrows(k, p, g, q, h);
      ReplaceAbsent(r, p, g);
      ReplaceAbsent(r, p, AppendKids(g, q, h));
      AppendKidsAbsent(r, q, h);
    } else {
      ReplaceGrows(r, p, g, q, h);
      ReplaceAbsent(k, p, g);
      ReplaceAbsent(k, p, AppendKids(g, q, h));
      AppendKidsAbsent(k, q, h);
    }
  }

  lemma {:induction false} AppendKidsAppend<T>(g: Forest<T>, r: Forest<T>, q: T, h: Forest<T>)
    requires q !in Items(r)
    ensures AppendKids(Append(g, r), q, h) == Append(AppendKids(g, q, h), r)
  {
    match g
    case Nil => AppendKidsAbsent(r, q, h);
    case Cons(_, _, rest) => AppendKidsAppend(rest, r, q, h);
  }

  /** The links `was` of a node once `x` stands where `p`, whose links are `at`, stood. */
  ghost function Swapped<T>(n: T, was: Link<T>, at: Link<T>, x: T): Link<T>
  {
    Link(was.parent,
         if at.prev.None? && at.parent == Some(n) then Some(x) else was.first,
         if at.next.None? && at.parent == Some(n) then Some(x) else was.last,
         if at.next == Some(n) then Some(x) else was.prev,
         if at.prev == Some(n) then Some(x) else was.next)
  }

  lemma SeenSwap<T>(n: T, was: Link<T>, at: Link<T>, p: T, r: Forest<T>, x: T)
    requires was == Seen(n, was, at, Cons(p, Nil, r), None) && at.next == FirstOr(r, None) && at.next != Some(n)
    ensures Seen(n, was, at, Cons(x, Nil, r), None) == Swapped(n, was, at, x)
  {
    LastDefault(r, Some(p));
    LastDefault(r, Some(x));
  }

  lemma SwapRest<T>(p: T, x: T, r: Forest<T>, up: Option<T>, prev: Option<T>, n: T)
    requires Distinct(Cons(p, Nil, r)) && x !in Items(Cons(p, Nil, r)) && n in Items(r)
    requires Outside(Cons(p, Nil, r), up) && Outside(Cons(p, Nil, r), prev)
    ensures n in Items(Cons(x, Nil, r))
    ensures var was, at := LinkAt(Cons(p, Nil, r), up, prev, None, n), LinkAt(Cons(p, Nil, r), up, prev, None, p);
            LinkAt(Cons(x, Nil, r), up, prev, None, n) == Swapped(n, was, at, x)
  {
    RestLinks(r, up, Some(p), Some(x), n);
  }

  /** A childless node swapped for another. */
  lemma SwapLinksAt<T>(f: Forest<T>, p: T, x: T, n: T)
    requires Distinct(f) && p in Items(f) && Kids(f, p).Nil? && x !in Items(f) && n in Items(f) && n != p
    ensures n in Items(ReplaceTree(f, p, Cons(x, Nil, Nil)))
    ensures Links(ReplaceTree(f, p, Cons(x, Nil, Nil)), n) == Swapped(n, Links(f, n), Links(f, p), x)
  {
    var s, at := Suffix(f, p), Links(f, p);
    Unchanged(f, p);
    ReplaceIs(f, p, Cons(x, Nil, Nil));
    var c := Append(Cons(x, Nil, Nil), s.rest);
    assert c == Cons(x, Nil, s.rest);
    ChangeSame(f, p);
    ChangeInside(f, p, s, None, None, None, p);
    if n in Items(s) {
      ChangeInside(f, p, c, None, None, None, n);
      SwapRest(p, x, s.rest, at.parent, at.prev, n);
    } else {
      ChangeOutside(f, p, c, None, None, None, n);
      SeenSwap(n, Links(f, n), at, p, s.rest, x);
    }
  }

  lemma {:induction false} ReplacedItems<T>(f: Forest<T>, p: T, g: Forest<T>)
    requires Distinct(f) && p in Items(f)
    ensures Items(ReplaceTree(f, p, g)) == (Items(f) - Items(Branch(f, p))) + Items(g)
  {
    var Cons(m, k, r) := f;
    if m == p {
      AppendItems(g, r);
    } else if p in Items(k) {
      KidsItems(k, p);
      ReplacedItems(k, p, g);
      ReplaceAbsent(r, p, g);
    } else {
      KidsItems(r, p);
      ReplacedItems(r, p, g);
      ReplaceAbsent(k, p, g);
    }
  }

  lemma {:induction false} ReplaceItems<T>(f: Forest<T>, p: T, g: Forest<T>)
    requires Distinct(f) && p in Items(f)
    ensures Items(ReplaceTree(f, p, g)) == (Items(f) - Items(Branch(f, p))) + Items(g)
    ensures Distinct(g) && Items(g) !! Items(f) ==> Distinct(ReplaceTree(f, p, g))
  {
    ReplacedItems(f, p, g);
    var Cons(m, k, r) := f;
    if m == p {
      AppendItems(g, r);
    } else if p in Items(k) {
      ReplaceItems(k, p, g);
      ReplaceAbsent(r, p, g);
    } else {
      ReplaceItems(r, p, g);
      ReplaceAbsent(k, p, g);
    }
  }

  /** The links inside a tree that stands where `p` stood. */
  lemma ReplacedLinks<T>(f: Forest<T>, p: T, g: Forest<T>, n: T)
    requires Distinct(f) && p in Items(f) && Distinct(g) && Items(g) !! Items(f) && n in Items(g)
    ensures n in Items(ReplaceTree(f, p, g))
    ensures var at := Links(f, p); Links(ReplaceTree(f, p, g), n) == LinkAt(g, at.parent, at.prev, at.next, n)
  {
    var s, at := Suffix(f, p), Links(f, p);
    Unchanged(f, p);
    ReplaceIs(f, p, g);
    AppendItems(g, s.rest);
    ChangeInside(f, p, Append(g, s.rest), None, None, None, n);
    AppendLinks(g, s.rest, at.parent, at.prev, None, n);
  }
}
