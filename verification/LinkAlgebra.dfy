/** The five links of every node of a forest, and how a change to one chain of siblings
    changes them. */
module LinkAlgebra {
  import opened Forests

  datatype Link<+T> = Link(parent: Option<T>, first: Option<T>, last: Option<T>, prev: Option<T>, next: Option<T>)

  /** The first root, or `end` when there is none. */
  function FirstOr<T>(f: Forest<T>, end: Option<T>): Option<T>
  {
    if f.Nil? then end else Some(f.item)
  }

  /** The last root, or `start` when there is none. */
  function LastOr<T>(f: Forest<T>, start: Option<T>): Option<T>
  {
    if f.Nil? then start else LastOr(f.rest, Some(f.item))
  }

  /** The links of `n` in a chain of siblings that has parent `up`, comes after `prev`
      and before `end`. */
  ghost function LinkAt<T>(f: Forest<T>, up: Option<T>, prev: Option<T>, end: Option<T>, n: T): Link<T>
    requires n in Items(f)
  {
    var Cons(m, k, r) := f;
    if m == n then Link(up, FirstOr(k, None), LastOr(k, None), prev, FirstOr(r, end))
    else if n in Items(k) then LinkAt(k, Some(m), None, None, n)
    else LinkAt(r, up, Some(m), end, n)
  }

  ghost predicate IsRoot<T>(f: Forest<T>, n: T)
  {
    f.Cons? && (f.item == n || IsRoot(f.rest, n))
  }

  /** The chain of siblings from `p` on. */
  ghost function Suffix<T>(f: Forest<T>, p: T): Forest<T>
    requires p in Items(f)
  {
    var Cons(m, k, r) := f;
    if m == p then f else if p in Items(k) then Suffix(k, p) else Suffix(r, p)
  }

  /** The chain of siblings from `p` on, replaced by `g`. */
  ghost function Change<T>(f: Forest<T>, p: T, g: Forest<T>): Forest<T>
  {
    match f
    case Nil => Nil
    case Cons(m, k, r) => if m == p then g else Cons(m, Change(k, p, g), Change(r, p, g))
  }

  lemma {:induction false} ChangeAbsent<T>(f: Forest<T>, p: T, g: Forest<T>)
    requires p !in Items(f)
    ensures Change(f, p, g) == f
  {
    match f
    case Nil =>
    case Cons(_, k, r) => ChangeAbsent(k, p, g); ChangeAbsent(r, p, g);
  }

  lemma {:induction false} SuffixItems<T>(f: Forest<T>, p: T)
    requires Distinct(f) && p in Items(f)
    ensures Suffix(f, p).Cons? && Suffix(f, p).item == p && Suffix(f, p).kids == Kids(f, p)
    ensures Items(Suffix(f, p)) <= Items(f) && Distinct(Suffix(f, p))
  {
    var Cons(m, k, r) := f;
    if m == p {
    } else if p in Items(k) {
      SuffixItems(k, p);
    } else {
      SuffixItems(r, p);
    }
  }

  lemma {:induction false} ChangeItems<T>(f: Forest<T>, p: T, g: Forest<T>)
    requires Distinct(f) && p in Items(f)
    ensures Items(Change(f, p, g)) == (Items(f) - Items(Suffix(f, p))) + Items(g)
    ensures Distinct(g) && Items(g) !! Items(f) - Items(Suffix(f, p)) ==> Distinct(Change(f, p, g))
  {
    var Cons(m, k, r) := f;
    SuffixItems(f, p);
    if m == p {
    } else if p in Items(k) {
      SuffixItems(k, p);
      ChangeItems(k, p, g);
      ChangeAbsent(r, p, g);
    } else {
      SuffixItems(r, p);
      ChangeItems(r, p, g);
      ChangeAbsent(k, p, g);
    }
  }

  /** The links of a node outside the changed chain, given those of the node where the
      change begins: its neighbour and its parent see the new chain. */
  ghost function Seen<T>(n: T, was: Link<T>, at: Link<T>, g: Forest<T>, end: Option<T>): Link<T>
  {
    Link(was.parent,
         if at.parent == Some(n) && at.prev.None? then FirstOr(g, None) else was.first,
         if at.parent == Some(n) then LastOr(g, at.prev) else was.last,
         was.prev,
         if at.prev == Some(n) then FirstOr(g, end) else was.next)
  }

  /** Where links may lead from outside: not into the chain. */
  ghost predicate Outside<T>(f: Forest<T>, x: Option<T>)
  {
    x.Some? ==> x.value !in Items(f)
  }

  /** A node's parent is a node of the forest exactly when it is not a root. */
  lemma {:induction false} LinkUp<T>(f: Forest<T>, up: Option<T>, prev: Option<T>, end: Option<T>, n: T)
    requires Distinct(f) && n in Items(f) && Outside(f, up)
    ensures LinkAt(f, up, prev, end, n).parent == up <==> IsRoot(f, n)
    ensures !IsRoot(f, n) ==>
              LinkAt(f, up, prev, end, n).parent.Some? && LinkAt(f, up, prev, end, n).parent.value in Items(f)
  {
    var Cons(m, k, r) := f;
    RootsAreItems(f);
    if m == n {
    } else if n in Items(k) {
      RootsAreItems(r);
      LinkUp(k, Some(m), None, None, n);
    } else {
      LinkUp(r, up, Some(m), end, n);
    }
  }

  lemma {:induction false} RootsAreItems<T>(f: Forest<T>)
    ensures forall n | IsRoot(f, n) :: n in Items(f)
  {
    match f
    case Nil =>
    case Cons(_, _, r) => RootsAreItems(r);
  }

  lemma {:induction false} LinkRange<T>(f: Forest<T>, up: Option<T>, prev: Option<T>, end: Option<T>, n: T)
    requires Distinct(f) && n in Items(f)
    ensures var at := LinkAt(f, up, prev, end, n);
            && (at.parent.Some? && at.parent != up ==> at.parent.value in Items(f))
            && (at.prev.Some? && at.prev != prev ==> at.prev.value in Items(f) && at.prev.value != n)
            && (at.parent == Some(n) ==> up == Some(n))
    ensures prev.Some? && IsRoot(f, n) ==> LinkAt(f, up, prev, end, n).prev.Some?
  {
    var Cons(m, k, r) := f;
    if m == n {
    } else if n in Items(k) {
      RootsAreItems(r);
      LinkRange(k, Some(m), None, None, n);
    } else {
      LinkRange(r, up, Some(m), end, n);
    }
  }

  /** The ends of a chain after a change. */
  lemma {:induction false} ChangeEnds<T>(f: Forest<T>, p: T, g: Forest<T>, up: Option<T>, prev: Option<T>,
                                         end: Option<T>)
    requires Distinct(f) && p in Items(f)
    ensures FirstOr(Change(f, p, g), end) == if f.item == p then FirstOr(g, end) else FirstOr(f, end)
    ensures LastOr(Change(f, p, g), prev)
         == if IsRoot(f, p) then LastOr(g, LinkAt(f, up, prev, end, p).prev) else LastOr(f, prev)
  {
    var Cons(m, k, r) := f;
    RootsAreItems(r);
    if m == p {
    } else if p in Items(k) {
      ChangeAbsent(r, p, g);
    } else {
      ChangeEnds(r, p, g, up, Some(m), end);
    }
  }

  /** A root has no previous sibling of its own exactly when it comes first. */
  lemma RootPrev<T>(f: Forest<T>, p: T, up: Option<T>, prev: Option<T>, end: Option<T>)
    requires Distinct(f) && p in Items(f) && IsRoot(f, p) && Outside(f, prev)
    ensures LinkAt(f, up, prev, end, p).prev == prev <==> f.item == p
  {
    if f.item != p {
      RootsAreItems(f.rest);
      LinkRange(f.rest, up, Some(f.item), end, p);
    }
  }

  /** A chain among the children of `m` changes: what `m` sees. */
  lemma ParentSees<T>(m: T, k: Forest<T>, p: T, g: Forest<T>)
    requires Distinct(k) && m !in Items(k) && p in Items(k)
    ensures var at := LinkAt(k, Some(m), None, None, p);
            && at.prev != Some(m)
            && FirstOr(Change(k, p, g), None)
               == (if at.parent == Some(m) && at.prev.None? then FirstOr(g, None) else FirstOr(k, None))
            && LastOr(Change(k, p, g), None) == if at.parent == Some(m) then LastOr(g, at.prev) else LastOr(k, None)
  {
    ChangeEnds(k, p, g, Some(m), None, None);
    LinkUp(k, Some(m), None, None, p);
    LinkRange(k, Some(m), None, None, p);
    if IsRoot(k, p) { RootPrev(k, p, Some(m), None, None); }
  }

  /** A later part of a chain changes: what its member `m` before that part sees. */
  lemma BrotherSees<T>(m: T, r: Forest<T>, p: T, g: Forest<T>, up: Option<T>, end: Option<T>)
    requires Distinct(r) && m !in Items(r) && p in Items(r) && up != Some(m) && Outside(r, up)
    ensures var at := LinkAt(r, up, Some(m), end, p);
            && at.parent != Some(m)
            && FirstOr(Change(r, p, g), end)
            == if at.prev == Some(m) then FirstOr(g, if IsRoot(r, p) then end else None) else FirstOr(r, end)
  {
    ChangeEnds(r, p, g, up, Some(m), end);
    LinkRange(r, up, Some(m), end, p);
    RootsAreItems(r);
    if IsRoot(r, p) { RootPrev(r, p, up, Some(m), end); } else { NotRootPrev(r, p, up, Some(m), end); }
  }

  lemma {:induction false} NotRootPrev<T>(f: Forest<T>, p: T, up: Option<T>, prev: Option<T>, end: Option<T>)
    requires Distinct(f) && p in Items(f) && !IsRoot(f, p) && Outside(f, prev) && prev.Some?
    ensures LinkAt(f, up, prev, end, p).prev != prev
  {
    var Cons(m, k, r) := f;
    if p in Items(k) {
      LinkRange(k, Some(m), None, None, p);
    } else {
      NotRootPrev(r, p, up, Some(m), end);
      LinkRange(r, up, Some(m), end, p);
    }
  }

  /** After a change every other node keeps its links, but for the neighbours of the
      changed chain. */
  lemma {:induction false} ChangeOutside<T>(f: Forest<T>, p: T, g: Forest<T>, up: Option<T>, prev: Option<T>,
                                            end: Option<T>, n: T)
    requires Distinct(f) && p in Items(f) && n in Items(f) && n !in Items(Suffix(f, p))
    requires Items(g) !! Items(f) - Items(Suffix(f, p)) && Outside(f, up) && Outside(f, prev)
    ensures n in Items(Change(f, p, g))
    ensures LinkAt(Change(f, p, g), up, prev, end, n)
         == Seen(n, LinkAt(f, up, prev, end, n), LinkAt(f, up, prev, end, p), g, if IsRoot(f, p) then end else None)
    decreases f, 1
  {
    var Cons(m, k, r) := f;
    if p in Items(k) {
      OutsideInner(f, p, g, up, prev, end, n);
    } else {
      OutsideLater(f, p, g, up, prev, end, n);
    }
  }

  lemma {:induction false} OutsideInner<T>(f: Forest<T>, p: T, g: Forest<T>, up: Option<T>, prev: Option<T>,
                                           end: Option<T>, n: T)
    requires Distinct(f) && n in Items(f) && f.Cons? && p in Items(f.kids) && n !in Items(Suffix(f, p))
    requires Items(g) !! Items(f) - Items(Suffix(f, p)) && Outside(f, up) && Outside(f, prev)
    ensures n in Items(Change(f, p, g))
    ensures LinkAt(Change(f, p, g), up, prev, end, n)
         == Seen(n, LinkAt(f, up, prev, end, n), LinkAt(f, up, prev, end, p), g, None) && !IsRoot(f, p)
    decreases f, 0
  {
    var Cons(m, k, r) := f;
    RootsAreItems(r);
    SuffixItems(k, p);
    ChangeItems(k, p, g);
    ChangeAbsent(r, p, g);
    LinkRange(k, Some(m), None, None, p);
    if n == m {
      ParentSees(m, k, p, g);
    } else if n in Items(k) {
      ChangeOutside(k, p, g, Some(m), None, None, n);
    }
  }

  lemma {:induction false} OutsideLater<T>(f: Forest<T>, p: T, g: Forest<T>, up: Option<T>, prev: Option<T>,
                                           end: Option<T>, n: T)
    requires Distinct(f) && p in Items(f) && n in Items(f) && p !in Items(f.kids) && n !in Items(Suffix(f, p))
    requires Items(g) !! Items(f) - Items(Suffix(f, p)) && Outside(f, up) && Outside(f, prev)
    ensures n in Items(Change(f, p, g))
    ensures LinkAt(Change(f, p, g), up, prev, end, n)
         == Seen(n, LinkAt(f, up, prev, end, n), LinkAt(f, up, prev, end, p), g, if IsRoot(f, p) then end else None)
    decreases f, 0
  {
    var Cons(m, k, r) := f;
    SuffixItems(r, p);
    ChangeItems(r, p, g);
    ChangeAbsent(k, p, g);
    LinkRange(r, up, Some(m), end, p);
    if n == m {
      BrotherSees(m, r, p, g, up, end);
    } else if n in Items(r) {
      ChangeOutside(r, p, g, up, Some(m), end, n);
    }
  }

  /** Inside the new chain links are those of the chain, at the old place. */
  lemma {:induction false} ChangeInside<T>(f: Forest<T>, p: T, g: Forest<T>, up: Option<T>, prev: Option<T>,
                                           end: Option<T>, n: T)
    requires Distinct(f) && p in Items(f) && n in Items(g)
    requires Items(g) !! Items(f) - Items(Suffix(f, p))
    ensures n in Items(Change(f, p, g))
    ensures LinkAt(Change(f, p, g), up, prev, end, n)
         == LinkAt(g, LinkAt(f, up, prev, end, p).parent, LinkAt(f, up, prev, end, p).prev,
                   if IsRoot(f, p) then end else None, n)
  {
    var Cons(m, k, r) := f;
    ChangeItems(f, p, g);
    RootsAreItems(r);
    if m == p {
    } else if p in Items(k) {
      SuffixItems(k, p);
      ChangeItems(k, p, g);
      ChangeAbsent(r, p, g);
      ChangeInside(k, p, g, Some(m), None, None, n);
    } else {
      SuffixItems(r, p);
      ChangeItems(r, p, g);
      ChangeAbsent(k, p, g);
      ChangeInside(r, p, g, up, Some(m), end, n);
    }
  }

  lemma {:induction false} ChangeSame<T>(f: Forest<T>, p: T)
    requires Distinct(f) && p in Items(f)
    ensures Change(f, p, Suffix(f, p)) == f
  {
    var Cons(m, k, r) := f;
    if m == p {
    } else if p in Items(k) {
      ChangeSame(k, p);
      ChangeAbsent(r, p, Suffix(f, p));
    } else {
      ChangeSame(r, p);
      ChangeAbsent(k, p, Suffix(f, p));
    }
  }

  /** A chain does not hold its own parent or the node before it. */
  lemma {:induction false} SuffixPlace<T>(f: Forest<T>, p: T, up: Option<T>, prev: Option<T>, end: Option<T>)
    requires Distinct(f) && p in Items(f) && Outside(f, up) && Outside(f, prev)
    ensures Outside(Suffix(f, p), LinkAt(f, up, prev, end, p).parent)
    ensures Outside(Suffix(f, p), LinkAt(f, up, prev, end, p).prev)
  {
    var Cons(m, k, r) := f;
    if m == p {
    } else if p in Items(k) {
      SuffixPlace(k, p, Some(m), None, None);
    } else {
      SuffixPlace(r, p, up, Some(m), end);
    }
  }

  lemma SingleItems<T>(x: T)
    ensures Distinct(Cons(x, Nil, Nil)) && Items(Cons(x, Nil, Nil)) == {x}
  {
    var none: Forest<T> := Nil;
    assert Items(none) == {};
  }

  lemma OneMore<T>(a: set<T>, s: set<T>, x: T)
    requires x !in a
    ensures {x} + s !! a - s
  {
  }

  // ----- whole trees -----

  /** The links of `n` in a whole forest. */
  ghost function Links<T>(f: Forest<T>, n: T): Link<T>
    requires n in Items(f)
  {
    LinkAt(f, None, None, None, n)
  }

  /** The links of every node after the chain from `p` on is replaced by `g`. */
  lemma Changed<T>(f: Forest<T>, p: T, g: Forest<T>)
    requires Distinct(f) && p in Items(f) && Items(g) !! Items(f) - Items(Suffix(f, p))
    ensures Items(Change(f, p, g)) == (Items(f) - Items(Suffix(f, p))) + Items(g)
    ensures forall n | n in Items(f) && n !in Items(Suffix(f, p)) ::
              Links(Change(f, p, g), n) == Seen(n, Links(f, n), Links(f, p), g, None)
    ensures forall n | n in Items(g) ::
              Links(Change(f, p, g), n) == LinkAt(g, Links(f, p).parent, Links(f, p).prev, None, n)
    ensures Distinct(g) ==> Distinct(Change(f, p, g))
  {
    ChangeItems(f, p, g);
    forall n | n in Items(f) && n !in Items(Suffix(f, p))
      ensures Links(Change(f, p, g), n) == Seen(n, Links(f, n), Links(f, p), g, None)
    {
      ChangeOutside(f, p, g, None, None, None, n);
    }
    forall n | n in Items(g)
      ensures Links(Change(f, p, g), n) == LinkAt(g, Links(f, p).parent, Links(f, p).prev, None, n)
    {
      ChangeInside(f, p, g, None, None, None, n);
    }
  }

  /** The links as they are, seen from the chain that starts at `p`. */
  lemma Unchanged<T>(f: Forest<T>, p: T)
    requires Distinct(f) && p in Items(f)
    ensures Suffix(f, p).Cons? && Suffix(f, p).item == p && Suffix(f, p).kids == Kids(f, p)
    ensures Items(Suffix(f, p)) <= Items(f) && Distinct(Suffix(f, p))
    ensures Outside(Suffix(f, p), Links(f, p).parent) && Outside(Suffix(f, p), Links(f, p).prev)
    ensures forall n | n in Items(f) && n !in Items(Suffix(f, p)) ::
              Links(f, n) == Seen(n, Links(f, n), Links(f, p), Suffix(f, p), None)
    ensures forall n | n in Items(Suffix(f, p)) ::
              Links(f, n) == LinkAt(Suffix(f, p), Links(f, p).parent, Links(f, p).prev, None, n)
  {
    SuffixItems(f, p);
    SuffixPlace(f, p, None, None, None);
    ChangeSame(f, p);
    Changed(f, p, Suffix(f, p));
  }

  // ----- the edits -----

  /** The trees of `g` precede `p` among its siblings. */
  function InsertBefore<T(==)>(f: Forest<T>, p: T, g: Forest<T>): Forest<T>
  {
    match f
    case Nil => Nil
    case Cons(m, k, r) =>
      if m == p then Append(g, f) else Cons(m, InsertBefore(k, p, g), InsertBefore(r, p, g))
  }

  lemma {:induction false} InsertBeforeAbsent<T>(f: Forest<T>, p: T, g: Forest<T>)
    requires p !in Items(f)
    ensures InsertBefore(f, p, g) == f
  {
    match f
    case Nil =>
    case Cons(_, k, r) => InsertBeforeAbsent(k, p, g); InsertBeforeAbsent(r, p, g);
  }

  lemma {:induction false} InsertBeforeItems<T>(f: Forest<T>, p: T, g: Forest<T>)
    requires Distinct(f) && p in Items(f)
    ensures Items(InsertBefore(f, p, g)) == Items(f) + Items(g)
    ensures Distinct(g) && Items(f) !! Items(g) ==> Distinct(InsertBefore(f, p, g))
  {
    var Cons(m, k, r) := f;
    if m == p {
      AppendItems(g, f);
    } else if p in Items(k) {
      InsertBeforeItems(k, p, g);
      InsertBeforeAbsent(r, p, g);
    } else {
      InsertBeforeItems(r, p, g);
      InsertBeforeAbsent(k, p, g);
    }
  }

  lemma {:induction false} InsertBeforeIs<T>(f: Forest<T>, p: T, g: Forest<T>)
    requires Distinct(f) && p in Items(f)
    ensures InsertBefore(f, p, g) == Change(f, p, Append(g, Suffix(f, p)))
  {
    var Cons(m, k, r) := f;
    var h := Append(g, Suffix(f, p));
    if m == p {
    } else if p in Items(k) {
      InsertBeforeIs(k, p, g);
      ChangeAbsent(r, p, h);
      InsertBeforeAbsent(r, p, g);
    } else {
      InsertBeforeIs(r, p, g);
      ChangeAbsent(k, p, h);
      InsertBeforeAbsent(k, p, g);
    }
  }

  /** The first node of a chain gets a new neighbour before it. */
  lemma NewBrother<T>(s: Forest<T>, x: T, up: Option<T>, prev: Option<T>, n: T)
    requires s.Cons? && Distinct(s) && x !in Items(s) && n in Items(s)
    ensures LinkAt(Cons(x, Nil, s), up, prev, None, n)
         == if n == s.item then LinkAt(s, up, prev, None, n).(prev := Some(x)) else LinkAt(s, up, prev, None, n)
  {
  }

  /** The links `was` of a node `n` once `x` stands before `p`, whose links are `at`. */
  ghost function WithBefore<T>(n: T, was: Link<T>, p: T, at: Link<T>, x: T): Link<T>
  {
    Link(was.parent,
         if at.prev.None? && at.parent == Some(n) then Some(x) else was.first,
         was.last,
         if n == p then Some(x) else was.prev,
         if at.prev == Some(n) then Some(x) else was.next)
  }

  lemma SeenBefore<T>(n: T, was: Link<T>, at: Link<T>, s: Forest<T>, p: T, x: T)
    requires s.Cons? && s.item == p && n != p && was == Seen(n, was, at, s, None)
    ensures Seen(n, was, at, Cons(x, Nil, s), None) == WithBefore(n, was, p, at, x)
  {
    assert LastOr(s, at.prev) == LastOr(s, Some(x));
  }

  lemma InsertLinksAt<T>(f: Forest<T>, p: T, s: Forest<T>, c: Forest<T>, x: T, n: T)
    requires Distinct(f) && p in Items(f) && x !in Items(f) && n in Items(f)
    requires s == Suffix(f, p) && c == Cons(x, Nil, s) && s.Cons? && s.item == p && Items(c) !! Items(f) - Items(s)
    ensures n in Items(Change(f, p, c))
    ensures Links(Change(f, p, c), n) == WithBefore(n, Links(f, n), p, Links(f, p), x)
  {
    ChangeSame(f, p);
    SuffixItems(f, p);
    SuffixPlace(f, p, None, None, None);
    if n in Items(s) {
      ChangeInside(f, p, c, None, None, None, n);
      ChangeInside(f, p, s, None, None, None, n);
      NewBrother(s, x, Links(f, p).parent, Links(f, p).prev, n);
    } else {
      ChangeOutside(f, p, c, None, None, None, n);
      ChangeOutside(f, p, s, None, None, None, n);
      SeenBefore(n, Links(f, n), Links(f, p), s, p, x);
    }
  }

  /** Inserting a single node `x` before `p` changes the links of `p`, of the node before
      it and, when `p` came first, of its parent. */
  lemma InsertLinks<T>(f: Forest<T>, p: T, x: T)
    requires Distinct(f) && p in Items(f) && x !in Items(f)
    ensures Distinct(InsertBefore(f, p, Cons(x, Nil, Nil)))
    ensures Items(InsertBefore(f, p, Cons(x, Nil, Nil))) == Items(f) + {x}
    ensures Links(InsertBefore(f, p, Cons(x, Nil, Nil)), x)
         == Link(Links(f, p).parent, None, None, Links(f, p).prev, Some(p))
    ensures forall n | n in Items(f) ::
              Links(InsertBefore(f, p, Cons(x, Nil, Nil)), n) == WithBefore(n, Links(f, n), p, Links(f, p), x)
  {
    var s, single := Suffix(f, p), Cons(x, Nil, Nil);
    InsertBeforeIs(f, p, single);
    SingleItems(x);
    assert Items(f) !! Items(single);
    InsertBeforeItems(f, p, single);
    SuffixItems(f, p);
    var c := Append(single, s);
    assert c == Cons(x, Nil, s) && Items(c) == {x} + Items(s);
    OneMore(Items(f), Items(s), x);
    ChangeInside(f, p, c, None, None, None, x);
    forall n | n in Items(f)
      ensures Links(InsertBefore(f, p, single), n) == WithBefore(n, Links(f, n), p, Links(f, p), x)
    {
      InsertLinksAt(f, p, s, c, x, n);
    }
  }

  ghost predicate Member<T>(f: Forest<T>, x: Option<T>)
  {
    x.Some? ==> x.value in Items(f)
  }

  lemma {:induction false} EndsAreItems<T>(f: Forest<T>, start: Option<T>)
    ensures LastOr(f, start) == start || (LastOr(f, start).Some? && LastOr(f, start).value in Items(f))
  {
    match f
    case Nil =>
    case Cons(m, _, r) => EndsAreItems(r, Some(m));
  }

  /** Links lead to nodes of the forest, or out of it where the chain's own do. */
  lemma {:induction false} LinksStay<T>(f: Forest<T>, up: Option<T>, prev: Option<T>, end: Option<T>, n: T)
    requires n in Items(f)
    ensures var l := LinkAt(f, up, prev, end, n);
            && Member(f, l.first) && Member(f, l.last)
            && (l.parent == up || Member(f, l.parent)) && (l.prev == prev || Member(f, l.prev))
            && (l.next == end || Member(f, l.next))
  {
    var Cons(m, k, r) := f;
    EndsAreItems(k, None);
    if m == n {
    } else if n in Items(k) {
      LinksStay(k, Some(m), None, None, n);
    } else {
      LinksStay(r, up, Some(m), end, n);
    }
  }

  lemma LinksMembers<T>(f: Forest<T>, n: T)
    requires n in Items(f)
    ensures var l := Links(f, n);
            Member(f, l.first) && Member(f, l.last) && Member(f, l.parent) && Member(f, l.prev) && Member(f, l.next)
  {
    LinksStay(f, None, None, None, n);
  }

  // ----- chains put together -----

  /** The links inside two chains joined into one. */
  lemma {:induction false} AppendLinks<T>(a: Forest<T>, b: Forest<T>, up: Option<T>, prev: Option<T>, end: Option<T>,
                                          n: T)
    requires Distinct(a) && Distinct(b) && Items(a) !! Items(b)
    requires n in Items(a) || n in Items(b)
    ensures n in Items(Append(a, b))
    ensures LinkAt(Append(a, b), up, prev, end, n)
         == if n in Items(a) then LinkAt(a, up, prev, FirstOr(b, end), n) else LinkAt(b, up, LastOr(a, prev), end, n)
  {
    AppendItems(a, b);
    match a
    case Nil =>
    case Cons(m, k, r) =>
      AppendItems(r, b);
      if n !in Items(k) && n != m { AppendLinks(r, b, up, Some(m), end, n); }
  }

  /** The links `was` of a node of chain `a` once the chain hangs elsewhere. */
  ghost function Hung<T>(a: Forest<T>, n: T, was: Link<T>, up: Option<T>, prev: Option<T>, end: Option<T>): Link<T>
  {
    Link(if IsRoot(a, n) then up else was.parent,
         was.first,
         was.last,
         if FirstOr(a, None) == Some(n) then prev else was.prev,
         if LastOr(a, None) == Some(n) then end else was.next)
  }

  lemma {:induction false} HangElsewhere<T>(a: Forest<T>, up: Option<T>, prev: Option<T>, end: Option<T>,
                                            up': Option<T>, prev': Option<T>, end': Option<T>, n: T)
    requires Distinct(a) && n in Items(a)
    ensures LinkAt(a, up', prev', end', n) == Hung(a, n, LinkAt(a, up, prev, end, n), up', prev', end')
  {
    var Cons(m, k, r) := a;
    RootsAreItems(r);
    EndsAreItems(r, None);
    LastDefault(r, Some(m));
    if n in Items(r) {
      HangElsewhere(r, up, Some(m), end, up', Some(m), end', n);
      HungRest(m, k, r, n, LinkAt(r, up, Some(m), end, n), up', prev', end');
    }
  }

  lemma HungRest<T>(m: T, k: Forest<T>, r: Forest<T>, n: T, was: Link<T>, up: Option<T>, prev: Option<T>,
                    end: Option<T>)
    requires n != m && n in Items(r) && (FirstOr(r, None) == Some(n) ==> was.prev == Some(m))
    ensures Hung(r, n, was, up, Some(m), end) == Hung(Cons(m, k, r), n, was, up, prev, end)
  {
    LastDefault(r, Some(m));
  }

  lemma {:induction false} LastDefault<T>(f: Forest<T>, start: Option<T>)
    ensures LastOr(f, start) == if f.Nil? then start else LastOr(f, None)
  {
  }

  /** The links `was` of a node that stays, once the nodes from the one with links `af`
      to the one with links `al` are taken out of their chain. */
  ghost function Without<T>(n: T, was: Link<T>, af: Link<T>, al: Link<T>): Link<T>
  {
    Link(was.parent,
         if af.prev.None? && af.parent == Some(n) then al.next else was.first,
         if al.next.None? && al.parent == Some(n) then af.prev else was.last,
         if al.next == Some(n) then af.prev else was.prev,
         if af.prev == Some(n) then al.next else was.next)
  }

  /** `seg` is a stretch of siblings of `f`, with `rest` after it. */
  ghost predicate Stretch<T>(f: Forest<T>, seg: Forest<T>, rest: Forest<T>)
  {
    Distinct(f) && seg.Cons? && seg.item in Items(f) && Suffix(f, seg.item) == Append(seg, rest)
  }

  lemma {:induction false} AppendDistinct<T>(a: Forest<T>, b: Forest<T>)
    requires Distinct(Append(a, b))
    ensures Distinct(a) && Distinct(b) && Items(a) !! Items(b) && Items(Append(a, b)) == Items(a) + Items(b)
  {
    AppendItems(a, b);
    match a
    case Nil =>
    case Cons(_, _, r) =>
      AppendItems(r, b);
      AppendDistinct(r, b);
  }

  /** The nodes of a stretch and its neighbours. */
  lemma StretchLinks<T>(f: Forest<T>, seg: Forest<T>, rest: Forest<T>, last: T)
    requires Stretch(f, seg, rest) && LastOr(seg, None) == Some(last)
    ensures Distinct(seg) && Distinct(rest) && Items(seg) !! Items(rest) && Items(seg) + Items(rest) <= Items(f)
    ensures last in Items(seg) && last in Items(f)
    ensures var af, al := Links(f, seg.item), Links(f, last);
            && al.parent == af.parent && al.next == FirstOr(rest, None)
            && Outside(seg, af.parent) && Outside(seg, af.prev) && Outside(seg, al.next)
            && forall n | n in Items(seg) :: Links(f, n) == LinkAt(seg, af.parent, af.prev, al.next, n)
  {
    var s := Suffix(f, seg.item);
    Unchanged(f, seg.item);
    AppendDistinct(seg, rest);
    var af := Links(f, seg.item);
    EndsAreItems(seg, None);
    forall n | n in Items(seg)
      ensures Links(f, n) == LinkAt(seg, af.parent, af.prev, FirstOr(rest, None), n)
    {
      AppendLinks(seg, rest, af.parent, af.prev, None, n);
    }
    LastLinks(seg, af.parent, af.prev, FirstOr(rest, None), last);
  }

  /** The last root comes before the end and has the chain's parent. */
  lemma {:induction false} LastLinks<T>(f: Forest<T>, up: Option<T>, prev: Option<T>, end: Option<T>, last: T)
    requires Distinct(f) && LastOr(f, None) == Some(last)
    ensures last in Items(f) && LinkAt(f, up, prev, end, last).parent == up
    ensures LinkAt(f, up, prev, end, last).next == end
  {
    var Cons(m, k, r) := f;
    LastDefault(r, Some(m));
    if r.Cons? { LastLinks(r, up, Some(m), end, last); }
  }

  // ----- taking a stretch out -----

  /** The forest without a stretch. */
  ghost function CutOut<T>(f: Forest<T>, seg: Forest<T>, rest: Forest<T>): Forest<T>
    requires seg.Cons?
  {
    Change(f, seg.item, rest)
  }

  lemma SeenWithout<T>(n: T, was: Link<T>, af: Link<T>, al: Link<T>, seg: Forest<T>, rest: Forest<T>)
    requires seg.Cons? && was == Seen(n, was, af, Append(seg, rest), None)
    requires al.parent == af.parent && al.next == FirstOr(rest, None) && al.next != Some(n)
    ensures Seen(n, was, af, rest, None) == Without(n, was, af, al)
  {
    AppendLast(seg, rest, af.prev);
    LastDefault(rest, af.prev);
    LastDefault(rest, LastOr(seg, af.prev));
  }

  lemma {:induction false} AppendLast<T>(a: Forest<T>, b: Forest<T>, start: Option<T>)
    ensures LastOr(Append(a, b), start) == LastOr(b, LastOr(a, start))
  {
    match a
    case Nil =>
    case Cons(m, _, r) => AppendLast(r, b, Some(m));
  }

  lemma {:induction false} RestLinks<T>(rest: Forest<T>, up: Option<T>, p: Option<T>, q: Option<T>, n: T)
    requires Distinct(rest) && n in Items(rest)
    ensures LinkAt(rest, up, q, None, n)
         == if FirstOr(rest, None) == Some(n) then LinkAt(rest, up, p, None, n).(prev := q)
            else LinkAt(rest, up, p, None, n)
  {
  }

  lemma CutLinksAt<T>(f: Forest<T>, seg: Forest<T>, rest: Forest<T>, last: T, n: T)
    requires Stretch(f, seg, rest) && LastOr(seg, None) == Some(last) && last in Items(f)
    requires n in Items(f) && n !in Items(seg)
    ensures n in Items(CutOut(f, seg, rest))
    ensures Links(CutOut(f, seg, rest), n) == Without(n, Links(f, n), Links(f, seg.item), Links(f, last))
  {
    var p, s := seg.item, Suffix(f, seg.item);
    StretchLinks(f, seg, rest, last);
    SuffixPlace(f, p, None, None, None);
    AppendItems(seg, rest);
    ChangeSame(f, p);
    if n in Items(s) {
      ChangeInside(f, p, rest, None, None, None, n);
      ChangeInside(f, p, s, None, None, None, n);
      AppendLinks(seg, rest, Links(f, p).parent, Links(f, p).prev, None, n);
      RestLinks(rest, Links(f, p).parent, LastOr(seg, Links(f, p).prev), Links(f, p).prev, n);
    } else {
      ChangeOutside(f, p, rest, None, None, None, n);
      ChangeOutside(f, p, s, None, None, None, n);
      EndsAreItems(rest, None);
      SeenWithout(n, Links(f, n), Links(f, p), Links(f, last), seg, rest);
    }
  }

  lemma CutItems<T>(f: Forest<T>, seg: Forest<T>, rest: Forest<T>, last: T)
    requires Stretch(f, seg, rest) && LastOr(seg, None) == Some(last)
    ensures Distinct(CutOut(f, seg, rest)) && Items(CutOut(f, seg, rest)) == Items(f) - Items(seg)
  {
    StretchLinks(f, seg, rest, last);
    SuffixItems(f, seg.item);
    AppendItems(seg, rest);
    ChangeItems(f, seg.item, rest);
  }

  /** What taking a stretch out changes. */
  lemma CutLinks<T>(f: Forest<T>, seg: Forest<T>, rest: Forest<T>, last: T)
    requires Stretch(f, seg, rest) && LastOr(seg, None) == Some(last) && last in Items(f)
    ensures Distinct(CutOut(f, seg, rest)) && Items(CutOut(f, seg, rest)) == Items(f) - Items(seg)
    ensures forall n | n in Items(CutOut(f, seg, rest)) ::
              && n in Items(f)
              && Links(CutOut(f, seg, rest), n) == Without(n, Links(f, n), Links(f, seg.item), Links(f, last))
  {
    CutItems(f, seg, rest, last);
    forall n | n in Items(CutOut(f, seg, rest))
      ensures n in Items(f)
      ensures Links(CutOut(f, seg, rest), n) == Without(n, Links(f, n), Links(f, seg.item), Links(f, last))
    {
      CutLinksAt(f, seg, rest, last, n);
    }
  }

  /** Removing a tree takes out a stretch of one. */
  lemma {:induction false} RemoveIs<T>(f: Forest<T>, p: T)
    requires Distinct(f) && p in Items(f)
    ensures Suffix(f, p).Cons? && Remove(f, p) == Change(f, p, Suffix(f, p).rest)
  {
    var Cons(m, k, r) := f;
    SuffixItems(f, p);
    if m == p {
    } else if p in Items(k) {
      SuffixItems(k, p);
      RemoveIs(k, p);
      RemoveAbsent(r, p);
      ChangeAbsent(r, p, Suffix(f, p).rest);
    } else {
      SuffixItems(r, p);
      RemoveIs(r, p);
      RemoveAbsent(k, p);
      ChangeAbsent(k, p, Suffix(f, p).rest);
    }
  }

  // ----- hanging a chain below or after a node -----

  lemma {:induction false} AppendKidsIs<T>(f: Forest<T>, p: T, seg: Forest<T>)
    requires Distinct(f) && p in Items(f)
    ensures Suffix(f, p).Cons?
    ensures AppendKids(f, p, seg) == Change(f, p, Cons(p, Append(Kids(f, p), seg), Suffix(f, p).rest))
  {
    var Cons(m, k, r) := f;
    SuffixItems(f, p);
    var c := Cons(p, Append(Kids(f, p), seg), Suffix(f, p).rest);
    if m == p {
    } else if p in Items(k) {
      AppendKidsIs(k, p, seg);
      AppendKidsAbsent(r, p, seg);
      ChangeAbsent(r, p, c);
    } else {
      AppendKidsIs(r, p, seg);
      AppendKidsAbsent(k, p, seg);
      ChangeAbsent(k, p, c);
    }
  }

  /** The links `was` of a node once a chain from `first` to `last` hangs behind the
      children of `p`, whose links are `at`. */
  ghost function WithKids<T>(n: T, was: Link<T>, p: T, at: Link<T>, first: T, last: T): Link<T>
  {
    Link(was.parent,
         if n == p && at.first.None? then Some(first) else was.first,
         if n == p then Some(last) else was.last,
         was.prev,
         if at.last == Some(n) then Some(first) else was.next)
  }

  /** The links inside a branch whose children were extended. */
  lemma KidsGrow<T>(p: T, k: Forest<T>, r: Forest<T>, seg: Forest<T>, up: Option<T>, prev: Option<T>, last: T, n: T)
    requires Distinct(Cons(p, k, r)) && Distinct(seg) && Items(seg) !! Items(Cons(p, k, r))
    requires LastOr(seg, None) == Some(last) && seg.Cons? && n in Items(Cons(p, k, r))
    ensures n in Items(Cons(p, Append(k, seg), r))
    ensures LinkAt(Cons(p, Append(k, seg), r), up, prev, None, n)
         == WithKids(n, LinkAt(Cons(p, k, r), up, prev, None, n), p, LinkAt(Cons(p, k, r), up, prev, None, p),
                     seg.item, last)
  {
    AppendItems(k, seg);
    EndsAreItems(k, None);
    if n == p {
      AppendLast(k, seg, None);
      LastDefault(seg, LastOr(k, None));
    } else if n in Items(k) {
      AppendLinks(k, seg, Some(p), None, None, n);
      HangElsewhere(k, Some(p), None, None, Some(p), None, Some(seg.item), n);
      LinkRange(k, Some(p), None, None, n);
      RootsSame(k, Some(p), None, None, n);
    }
  }

  /** A root keeps the parent and, when first, the neighbour that the chain was given. */
  lemma {:induction false} RootsSame<T>(f: Forest<T>, up: Option<T>, prev: Option<T>, end: Option<T>, n: T)
    requires Distinct(f) && n in Items(f)
    ensures IsRoot(f, n) ==> LinkAt(f, up, prev, end, n).parent == up
    ensures FirstOr(f, None) == Some(n) ==> LinkAt(f, up, prev, end, n).prev == prev
    ensures LastOr(f, None) == Some(n) ==> LinkAt(f, up, prev, end, n).next == end
  {
    var Cons(m, k, r) := f;
    RootsAreItems(r);
    EndsAreItems(r, None);
    LastDefault(r, Some(m));
    if n == m {
    } else if n in Items(k) {
    } else {
      RootsSame(r, up, Some(m), end, n);
    }
  }

  lemma GrowItems<T>(f: Forest<T>, s: Forest<T>, p: T, k: Forest<T>, r: Forest<T>, seg: Forest<T>)
    requires s == Cons(p, k, r) && Items(s) <= Items(f) && Items(seg) !! Items(f)
    ensures Items(Cons(p, Append(k, seg), r)) == Items(s) + Items(seg)
    ensures Items(Cons(p, Append(k, seg), r)) !! Items(f) - Items(s)
  {
    AppendItems(k, seg);
  }

  lemma SeenKids<T>(n: T, was: Link<T>, at: Link<T>, p: T, k: Forest<T>, k': Forest<T>, r: Forest<T>)
    requires n != p && was == Seen(n, was, at, Cons(p, k, r), None)
    ensures Seen(n, was, at, Cons(p, k', r), None) == was
  {
  }

  lemma AttachKidsAt<T>(f: Forest<T>, p: T, seg: Forest<T>, last: T, n: T)
    requires Distinct(f) && p in Items(f) && Distinct(seg) && Items(seg) !! Items(f)
    requires seg.Cons? && LastOr(seg, None) == Some(last) && n in Items(f)
    ensures n in Items(AppendKids(f, p, seg))
    ensures Links(AppendKids(f, p, seg), n) == WithKids(n, Links(f, n), p, Links(f, p), seg.item, last)
  {
    var s, at := Suffix(f, p), Links(f, p);
    Unchanged(f, p);
    AppendKidsIs(f, p, seg);
    var k, r := s.kids, s.rest;
    var c := Cons(p, Append(k, seg), r);
    GrowItems(f, s, p, k, r, seg);
    ChangeSame(f, p);
    if n in Items(s) {
      ChangeInside(f, p, c, None, None, None, n);
      KidsGrow(p, k, r, seg, at.parent, at.prev, last, n);
      ChangeInside(f, p, s, None, None, None, p);
    } else {
      ChangeOutside(f, p, c, None, None, None, n);
      SeenKids(n, Links(f, n), at, p, k, Append(k, seg), r);
      LastOfKids(f, p, n);
    }
  }

  /** The last child of `p` lies in the chain from `p` on. */
  lemma LastOfKids<T>(f: Forest<T>, p: T, n: T)
    requires Distinct(f) && p in Items(f) && n in Items(f) && n !in Items(Suffix(f, p))
    ensures Links(f, p).last != Some(n)
  {
    Unchanged(f, p);
    EndsAreItems(Suffix(f, p).kids, None);
  }

  lemma AttachedAt<T>(f: Forest<T>, p: T, seg: Forest<T>, n: T)
    requires Distinct(f) && p in Items(f) && Distinct(seg) && Items(seg) !! Items(f) && n in Items(seg)
    ensures n in Items(AppendKids(f, p, seg))
    ensures Links(AppendKids(f, p, seg), n) == LinkAt(seg, Some(p), Links(f, p).last, None, n)
  {
    var s, at := Suffix(f, p), Links(f, p);
    Unchanged(f, p);
    AppendKidsIs(f, p, seg);
    var k, r := s.kids, s.rest;
    var c := Cons(p, Append(k, seg), r);
    GrowItems(f, s, p, k, r, seg);
    ChangeInside(f, p, c, None, None, None, n);
    AppendItems(k, seg);
    AppendLinks(k, seg, Some(p), None, None, n);
  }

  /** What hanging a chain behind the children of `p` changes. */
  lemma AttachKidsLinks<T>(f: Forest<T>, p: T, seg: Forest<T>, last: T)
    requires Distinct(f) && p in Items(f) && Distinct(seg) && Items(seg) !! Items(f)
    requires seg.Cons? && LastOr(seg, None) == Some(last)
    ensures Distinct(AppendKids(f, p, seg)) && Items(AppendKids(f, p, seg)) == Items(f) + Items(seg)
    ensures forall n | n in Items(f) ::
              Links(AppendKids(f, p, seg), n) == WithKids(n, Links(f, n), p, Links(f, p), seg.item, last)
    ensures forall n | n in Items(seg) ::
              Links(AppendKids(f, p, seg), n) == LinkAt(seg, Some(p), Links(f, p).last, None, n)
  {
    AppendKidsItems(f, p, seg);
    forall n | n in Items(f)
      ensures Links(AppendKids(f, p, seg), n) == WithKids(n, Links(f, n), p, Links(f, p), seg.item, last)
    {
      AttachKidsAt(f, p, seg, last, n);
    }
    forall n | n in Items(seg)
      ensures Links(AppendKids(f, p, seg), n) == LinkAt(seg, Some(p), Links(f, p).last, None, n)
    {
      AttachedAt(f, p, seg, n);
    }
  }

  lemma {:induction false} InsertAfterIs<T>(f: Forest<T>, p: T, seg: Forest<T>)
    requires Distinct(f) && p in Items(f)
    ensures Suffix(f, p).Cons?
    ensures InsertAfter(f, p, seg) == Change(f, p, Cons(p, Kids(f, p), Append(seg, Suffix(f, p).rest)))
  {
    var Cons(m, k, r) := f;
    SuffixItems(f, p);
    var c := Cons(p, Kids(f, p), Append(seg, Suffix(f, p).rest));
    if m == p {
    } else if p in Items(k) {
      InsertAfterIs(k, p, seg);
      InsertAfterAbsent(r, p, seg);
      ChangeAbsent(r, p, c);
    } else {
      InsertAfterIs(r, p, seg);
      InsertAfterAbsent(k, p, seg);
      ChangeAbsent(k, p, c);
    }
  }

  /** The links `was` of a node once a chain from `first` to `last` stands after `p`,
      whose links are `at`. */
  ghost function WithNext<T>(n: T, was: Link<T>, p: T, at: Link<T>, first: T, last: T): Link<T>
  {
    Link(was.parent,
         was.first,
         if at.next.None? && at.parent == Some(n) then Some(last) else was.last,
         if at.next == Some(n) then Some(last) else was.prev,
         if n == p then Some(first) else was.next)
  }

  lemma RestMoves<T>(p: T, k: Forest<T>, r: Forest<T>, seg: Forest<T>, up: Option<T>, prev: Option<T>, last: T, n: T)
    requires Distinct(Cons(p, k, r)) && Distinct(seg) && Items(seg) !! Items(Cons(p, k, r))
    requires LastOr(seg, None) == Some(last) && seg.Cons? && n in Items(Cons(p, k, r)) && Outside(Cons(p, k, r), up)
    ensures n in Items(Cons(p, k, Append(seg, r)))
    ensures LinkAt(Cons(p, k, Append(seg, r)), up, prev, None, n)
         == WithNext(n, LinkAt(Cons(p, k, r), up, prev, None, n), p, LinkAt(Cons(p, k, r), up, prev, None, p),
                     seg.item, last)
  {
    AppendItems(seg, r);
    if n in Items(r) {
      AppendLinks(seg, r, up, Some(p), None, n);
      LastDefault(seg, Some(p));
      RestLinks(r, up, Some(p), Some(last), n);
    }
  }

  lemma SeenNext<T>(n: T, was: Link<T>, at: Link<T>, p: T, k: Forest<T>, r: Forest<T>, seg: Forest<T>, last: T)
    requires n != p && was == Seen(n, was, at, Cons(p, k, r), None) && at.next == FirstOr(r, None) && at.next != Some(n)
    requires seg.Cons? && LastOr(seg, None) == Some(last)
    ensures Seen(n, was, at, Cons(p, k, Append(seg, r)), None) == WithNext(n, was, p, at, seg.item, last)
  {
    AppendLast(seg, r, Some(p));
    LastDefault(seg, Some(p));
    LastDefault(r, Some(p));
    LastDefault(r, Some(last));
  }

  lemma AttachAfterAt<T>(f: Forest<T>, p: T, seg: Forest<T>, last: T, n: T)
    requires Distinct(f) && p in Items(f) && Distinct(seg) && Items(seg) !! Items(f)
    requires seg.Cons? && LastOr(seg, None) == Some(last) && n in Items(f)
    ensures n in Items(InsertAfter(f, p, seg))
    ensures Links(InsertAfter(f, p, seg), n) == WithNext(n, Links(f, n), p, Links(f, p), seg.item, last)
  {
    var s, at := Suffix(f, p), Links(f, p);
    Unchanged(f, p);
    InsertAfterIs(f, p, seg);
    var k, r := s.kids, s.rest;
    var c := Cons(p, k, Append(seg, r));
    GrowRest(f, s, p, k, r, seg);
    ChangeSame(f, p);
    ChangeInside(f, p, s, None, None, None, p);
    if n in Items(s) {
      ChangeInside(f, p, c, None, None, None, n);
      RestMoves(p, k, r, seg, at.parent, at.prev, last, n);
    } else {
      ChangeOutside(f, p, c, None, None, None, n);
      SeenNext(n, Links(f, n), at, p, k, r, seg, last);
    }
  }

  lemma GrowRest<T>(f: Forest<T>, s: Forest<T>, p: T, k: Forest<T>, r: Forest<T>, seg: Forest<T>)
    requires s == Cons(p, k, r) && Items(s) <= Items(f) && Items(seg) !! Items(f)
    ensures Items(Cons(p, k, Append(seg, r))) == Items(s) + Items(seg)
    ensures Items(Cons(p, k, Append(seg, r))) !! Items(f) - Items(s)
  {
    AppendItems(seg, r);
  }

  lemma FollowsAt<T>(f: Forest<T>, p: T, seg: Forest<T>, n: T)
    requires Distinct(f) && p in Items(f) && Distinct(seg) && Items(seg) !! Items(f) && n in Items(seg)
    ensures n in Items(InsertAfter(f, p, seg))
    ensures Links(InsertAfter(f, p, seg), n) == LinkAt(seg, Links(f, p).parent, Some(p), Links(f, p).next, n)
  {
    var s, at := Suffix(f, p), Links(f, p);
    Unchanged(f, p);
    InsertAfterIs(f, p, seg);
    var k, r := s.kids, s.rest;
    var c := Cons(p, k, Append(seg, r));
    GrowRest(f, s, p, k, r, seg);
    ChangeSame(f, p);
    ChangeInside(f, p, s, None, None, None, p);
    ChangeInside(f, p, c, None, None, None, n);
    AppendItems(seg, r);
    AppendLinks(seg, r, at.parent, Some(p), None, n);
  }

  /** What hanging a chain after `p` changes. */
  lemma AttachAfterLinks<T>(f: Forest<T>, p: T, seg: Forest<T>, last: T)
    requires Distinct(f) && p in Items(f) && Distinct(seg) && Items(seg) !! Items(f)
    requires seg.Cons? && LastOr(seg, None) == Some(last)
    ensures Distinct(InsertAfter(f, p, seg)) && Items(InsertAfter(f, p, seg)) == Items(f) + Items(seg)
    ensures forall n | n in Items(f) ::
              Links(InsertAfter(f, p, seg), n) == WithNext(n, Links(f, n), p, Links(f, p), seg.item, last)
    ensures forall n | n in Items(seg) ::
              Links(InsertAfter(f, p, seg), n) == LinkAt(seg, Links(f, p).parent, Some(p), Links(f, p).next, n)
  {
    InsertAfterItems(f, p, seg);
    forall n | n in Items(f)
      ensures Links(InsertAfter(f, p, seg), n) == WithNext(n, Links(f, n), p, Links(f, p), seg.item, last)
    {
      AttachAfterAt(f, p, seg, last, n);
    }
    forall n | n in Items(seg)
      ensures Links(InsertAfter(f, p, seg), n) == LinkAt(seg, Links(f, p).parent, Some(p), Links(f, p).next, n)
    {
      FollowsAt(f, p, seg, n);
    }
  }

  // ----- lifting children up -----

  /** The children of `p` become its next siblings. */
  function Flatten<T(==)>(f: Forest<T>, p: T): Forest<T>
  {
    match f
    case Nil => Nil
    case Cons(m, k, r) =>
      if m == p then Cons(m, Nil, Append(k, r)) else Cons(m, Flatten(k, p), Flatten(r, p))
  }

  lemma {:induction false} FlattenAbsent<T>(f: Forest<T>, p: T)
    requires p !in Items(f)
    ensures Flatten(f, p) == f
  {
    match f
    case Nil =>
    case Cons(_, k, r) => FlattenAbsent(k, p); FlattenAbsent(r, p);
  }

  lemma {:induction false} AppendPre<T>(f: Forest<T>, g: Forest<T>)
    ensures Pre(Append(f, g)) == Pre(f) + Pre(g)
  {
    match f
    case Nil =>
    case Cons(m, k, r) =>
      AppendPre(r, g);
      ConcatAssociates([m] + Pre(k), Pre(r), Pre(g));
  }

  /** Lifting children up keeps the whole pre-order sequence. */
  lemma {:induction false} FlattenPre<T>(f: Forest<T>, p: T)
    ensures Pre(Flatten(f, p)) == Pre(f)
  {
    match f
    case Nil =>
    case Cons(m, k, r) =>
      if m == p {
        AppendPre(k, r);
        assert [m] + [] + (Pre(k) + Pre(r)) == [m] + Pre(k) + Pre(r);
      } else {
        FlattenPre(k, p);
        FlattenPre(r, p);
      }
  }

  lemma {:induction false} FlattenIs<T>(f: Forest<T>, p: T)
    requires Distinct(f) && p in Items(f)
    ensures Suffix(f, p).Cons?
    ensures Flatten(f, p) == Change(f, p, Cons(p, Nil, Append(Kids(f, p), Suffix(f, p).rest)))
  {
    var Cons(m, k, r) := f;
    SuffixItems(f, p);
    var c := Cons(p, Nil, Append(Kids(f, p), Suffix(f, p).rest));
    if m == p {
    } else if p in Items(k) {
      FlattenIs(k, p);
      FlattenAbsent(r, p);
      ChangeAbsent(r, p, c);
    } else {
      FlattenIs(r, p);
      FlattenAbsent(k, p);
      ChangeAbsent(k, p, c);
    }
  }

  /** The links `was` of a node once the children of `p`, whose links are `at`, follow it. */
  ghost function Lifted<T>(n: T, was: Link<T>, p: T, at: Link<T>): Link<T>
  {
    Link(if was.parent == Some(p) then at.parent else was.parent,
         if n == p then None else was.first,
         if n == p then None else if at.next.None? && at.parent == Some(n) then at.last else was.last,
         if at.first == Some(n) then Some(p) else if at.next == Some(n) then at.last else was.prev,
         if n == p then at.first else if at.last == Some(n) then at.next else was.next)
  }

  /** The links inside a branch whose children were lifted. */
  lemma KidsLift<T>(p: T, k: Forest<T>, r: Forest<T>, up: Option<T>, prev: Option<T>, n: T)
    requires Distinct(Cons(p, k, r)) && k.Cons? && n in Items(Cons(p, k, r)) && Outside(Cons(p, k, r), up)
    ensures n in Items(Cons(p, Nil, Append(k, r)))
    ensures LinkAt(Cons(p, Nil, Append(k, r)), up, prev, None, n)
         == Lifted(n, LinkAt(Cons(p, k, r), up, prev, None, n), p, LinkAt(Cons(p, k, r), up, prev, None, p))
  {
    AppendItems(k, r);
    EndsAreItems(k, None);
    if n in Items(k) {
      AppendLinks(k, r, up, Some(p), None, n);
      HangElsewhere(k, Some(p), None, None, up, Some(p), FirstOr(r, None), n);
      LinkUp(k, Some(p), None, None, n);
    } else if n in Items(r) {
      AppendLinks(k, r, up, Some(p), None, n);
      LastDefault(k, Some(p));
      RestLinks(r, up, Some(p), LastOr(k, None), n);
      LinkUp(r, up, Some(p), None, n);
    }
  }

  lemma SeenLift<T>(n: T, was: Link<T>, at: Link<T>, p: T, k: Forest<T>, r: Forest<T>)
    requires n != p && was == Seen(n, was, at, Cons(p, k, r), None) && k.Cons?
    requires at.next == FirstOr(r, None) && at.last == LastOr(k, None) && at.first == FirstOr(k, None)
    requires at.next != Some(n) && at.first != Some(n) && at.last != Some(n) && was.parent != Some(p)
    ensures Seen(n, was, at, Cons(p, Nil, Append(k, r)), None) == Lifted(n, was, p, at)
  {
    AppendLast(k, r, Some(p));
    LastDefault(k, Some(p));
    LastDefault(r, Some(p));
    LastDefault(r, LastOr(k, None));
  }

  /** A node whose parent is `p` lies in the chain from `p` on. */
  lemma {:induction false} ChildInSuffix<T>(f: Forest<T>, p: T, up: Option<T>, prev: Option<T>, end: Option<T>, n: T)
    requires Distinct(f) && p in Items(f) && n in Items(f) && up != Some(p)
    requires LinkAt(f, up, prev, end, n).parent == Some(p)
    ensures n in Items(Suffix(f, p))
  {
    var Cons(m, k, r) := f;
    SuffixItems(f, p);
    if m == n {
    } else if n in Items(k) {
      if m != p {
        LinkRange(k, Some(m), None, None, n);
        ChildInSuffix(k, p, Some(m), None, None, n);
      }
    } else {
      LinkRange(r, up, Some(m), end, n);
      ChildInSuffix(r, p, up, Some(m), end, n);
    }
  }

  /** What lifting the children of `p` changes. */
  lemma FlattenLinksAt<T>(f: Forest<T>, p: T, n: T)
    requires Distinct(f) && p in Items(f) && Kids(f, p).Cons? && n in Items(f)
    ensures n in Items(Flatten(f, p)) && Links(Flatten(f, p), n) == Lifted(n, Links(f, n), p, Links(f, p))
  {
    var s, at := Suffix(f, p), Links(f, p);
    Unchanged(f, p);
    FlattenIs(f, p);
    var k, r := s.kids, s.rest;
    var c := Cons(p, Nil, Append(k, r));
    AppendItems(k, r);
    assert Items(c) == Items(s);
    ChangeSame(f, p);
    ChangeInside(f, p, s, None, None, None, p);
    if n in Items(s) {
      ChangeInside(f, p, c, None, None, None, n);
      KidsLift(p, k, r, at.parent, at.prev, n);
    } else {
      ChangeOutside(f, p, c, None, None, None, n);
      EndsAreItems(k, None);
      if Links(f, n).parent == Some(p) { ChildInSuffix(f, p, None, None, None, n); }
      SeenLift(n, Links(f, n), at, p, k, r);
    }
  }

  // ----- ends of chains and children -----

  lemma {:induction false} LastIsSome<T>(f: Forest<T>)
    ensures LastOr(f, None).Some? <==> f.Cons?
  {
    if f.Cons? {
      LastDefault(f.rest, Some(f.item));
      LastIsSome(f.rest);
    }
  }

  /** A node has a first child exactly when it has a last one, and is neither itself. */
  lemma KidsBothEnds<T>(f: Forest<T>, n: T)
    requires Distinct(f) && n in Items(f)
    ensures Links(f, n).first == FirstOr(Kids(f, n), None) && Links(f, n).last == LastOr(Kids(f, n), None)
    ensures Links(f, n).first.None? <==> Links(f, n).last.None?
    ensures Links(f, n).first != Some(n) && Links(f, n).last != Some(n)
  {
    Unchanged(f, n);
    LastIsSome(Kids(f, n));
    KidsItems(f, n);
    EndsAreItems(Kids(f, n), None);
  }

  /** The trees of `g` become the first children of `p`. */
  function PrependKids<T(==)>(f: Forest<T>, p: T, g: Forest<T>): Forest<T>
  {
    match f
    case Nil => Nil
    case Cons(m, k, r) =>
      if m == p then Cons(m, Append(g, k), r) else Cons(m, PrependKids(k, p, g), PrependKids(r, p, g))
  }

  lemma {:induction false} PrependKidsAbsent<T>(f: Forest<T>, p: T, g: Forest<T>)
    requires p !in Items(f)
    ensures PrependKids(f, p, g) == f
  {
    match f
    case Nil =>
    case Cons(_, k, r) => PrependKidsAbsent(k, p, g); PrependKidsAbsent(r, p, g);
  }

  lemma {:induction false} AppendNil<T>(g: Forest<T>)
    ensures Append(g, Nil) == g
  {
    match g
    case Nil =>
    case Cons(_, _, r) => AppendNil(r);
  }

  /** A new first child is the only child, or stands before the old first child. */
  lemma {:induction false} PrependIs<T>(f: Forest<T>, p: T, g: Forest<T>)
    requires Distinct(f) && p in Items(f)
    ensures var k := Kids(f, p);
            PrependKids(f, p, g) == if k.Nil? then AppendKids(f, p, g) else InsertBefore(f, k.item, g)
  {
    var Cons(m, k, r) := f;
    KidsItems(f, p);
    if m == p {
      AppendNil(g);
      if k.Cons? { InsertBeforeAbsent(r, k.item, g); }
    } else if p in Items(k) {
      KidsItems(k, p);
      PrependIs(k, p, g);
      PrependKidsAbsent(r, p, g);
      AppendKidsAbsent(r, p, g);
      if Kids(k, p).Cons? { InsertBeforeAbsent(r, Kids(k, p).item, g); }
    } else {
      KidsItems(r, p);
      PrependIs(r, p, g);
      PrependKidsAbsent(k, p, g);
      AppendKidsAbsent(k, p, g);
      if Kids(r, p).Cons? { InsertBeforeAbsent(k, Kids(r, p).item, g); }
    }
  }

  /** The links `was` of a node once `x` is the first child of `p`, whose links are `at`. */
  ghost function WithFirst<T>(n: T, was: Link<T>, p: T, at: Link<T>, x: T): Link<T>
  {
    Link(was.parent,
         if n == p then Some(x) else was.first,
         if n == p && at.last.None? then Some(x) else was.last,
         if at.first == Some(n) then Some(x) else was.prev,
         was.next)
  }

  lemma FirstChildLinks<T>(f: Forest<T>, p: T)
    requires Distinct(f) && p in Items(f) && Kids(f, p).Cons?
    ensures var c := Kids(f, p).item;
            c in Items(f) && Links(f, c).parent == Some(p) && Links(f, c).prev == None && Links(f, p).first == Some(c)
  {
    KidsLinks(f, p);
    KidsBothEnds(f, p);
  }

  /** What a new first child of `p` changes. */
  lemma PrependLinks<T>(f: Forest<T>, p: T, x: T)
    requires Distinct(f) && p in Items(f) && x !in Items(f)
    ensures Distinct(PrependKids(f, p, Cons(x, Nil, Nil)))
    ensures Items(PrependKids(f, p, Cons(x, Nil, Nil))) == Items(f) + {x}
    ensures Links(PrependKids(f, p, Cons(x, Nil, Nil)), x) == Link(Some(p), None, None, None, Links(f, p).first)
    ensures forall n | n in Items(f) ::
              Links(PrependKids(f, p, Cons(x, Nil, Nil)), n) == WithFirst(n, Links(f, n), p, Links(f, p), x)
  {
    var single := Cons(x, Nil, Nil);
    SingleItems(x);
    PrependIs(f, p, single);
    KidsBothEnds(f, p);
    if Kids(f, p).Nil? {
      assert Items(f) !! Items(single);
      AttachKidsLinks(f, p, single, x);
    } else {
      FirstChildLinks(f, p);
      InsertLinks(f, Kids(f, p).item, x);
    }
  }

  // ----- children replaced -----

  /** `p` with children `g`. */
  ghost function SetKids<T>(f: Forest<T>, p: T, g: Forest<T>): Forest<T>
  {
    match f
    case Nil => Nil
    case Cons(m, k, r) => if m == p then Cons(m, g, r) else Cons(m, SetKids(k, p, g), SetKids(r, p, g))
  }

  lemma {:induction false} SetKidsAbsent<T>(f: Forest<T>, p: T, g: Forest<T>)
    requires p !in Items(f)
    ensures SetKids(f, p, g) == f
  {
    match f
    case Nil =>
    case Cons(_, k, r) => SetKidsAbsent(k, p, g); SetKidsAbsent(r, p, g);
  }

  lemma {:induction false} SetKidsIs<T>(f: Forest<T>, p: T, g: Forest<T>)
    requires Distinct(f) && p in Items(f)
    ensures Suffix(f, p).Cons? && SetKids(f, p, g) == Change(f, p, Cons(p, g, Suffix(f, p).rest))
  {
    var Cons(m, k, r) := f;
    SuffixItems(f, p);
    var c := Cons(p, g, Suffix(f, p).rest);
    if m == p {
    } else if p in Items(k) {
      SuffixItems(k, p);
      SetKidsIs(k, p, g);
      SetKidsAbsent(r, p, g);
      ChangeAbsent(r, p, c);
    } else {
      SuffixItems(r, p);
      SetKidsIs(r, p, g);
      SetKidsAbsent(k, p, g);
      ChangeAbsent(k, p, c);
    }
  }

  /** Losing its children changes only the links of `p`. */
  lemma ChildlessAt<T>(f: Forest<T>, p: T, n: T)
    requires Distinct(f) && p in Items(f) && n in Items(f) && n !in Items(Kids(f, p))
    ensures n in Items(SetKids(f, p, Nil))
    ensures Links(SetKids(f, p, Nil), n)
         == if n == p then Links(f, p).(first := None, last := None) else Links(f, n)
  {
    var s := Suffix(f, p);
    Unchanged(f, p);
    SetKidsIs(f, p, Nil);
    var c := Cons(p, Nil, s.rest);
    ChangeSame(f, p);
    if n in Items(s) {
      ChangeInside(f, p, c, None, None, None, n);
      ChangeInside(f, p, s, None, None, None, n);
    } else {
      ChangeOutside(f, p, c, None, None, None, n);
      SeenKids(n, Links(f, n), Links(f, p), p, s.kids, Nil, s.rest);
    }
  }

  lemma {:induction false} ChildlessItems<T>(f: Forest<T>, p: T)
    requires Distinct(f) && p in Items(f)
    ensures Distinct(SetKids(f, p, Nil)) && Items(SetKids(f, p, Nil)) == Items(f) - Items(Kids(f, p))
  {
    var Cons(m, k, r) := f;
    if m == p {
    } else if p in Items(k) {
      KidsItems(k, p);
      ChildlessItems(k, p);
      SetKidsAbsent(r, p, Nil);
    } else {
      KidsItems(r, p);
      ChildlessItems(r, p);
      SetKidsAbsent(k, p, Nil);
    }
  }

  /** The children and all below them hang below `p`. */
  lemma KidsLinks<T>(f: Forest<T>, p: T)
    requires Distinct(f) && p in Items(f)
    ensures Distinct(Kids(f, p)) && p !in Items(Kids(f, p)) && Items(Kids(f, p)) <= Items(f)
    ensures forall n | n in Items(Kids(f, p)) :: Links(f, n) == LinkAt(Kids(f, p), Some(p), None, None, n)
  {
    Unchanged(f, p);
    KidsItems(f, p);
  }

  // ----- the roots of a chain as a sequence -----

  ghost function Roots<T>(f: Forest<T>): seq<T>
  {
    if f.Nil? then [] else [f.item] + Roots(f.rest)
  }

  lemma {:induction false} RootsListed<T>(f: Forest<T>)
    ensures forall n :: n in Roots(f) <==> IsRoot(f, n)
    ensures |Roots(f)| == 0 <==> f.Nil?
    ensures LastOr(f, None) == if f.Nil? then None else Some(Roots(f)[|Roots(f)| - 1])
    ensures forall n | n in Roots(f) :: n in Items(f)
    ensures Distinct(f) ==> NoRepeat(Roots(f))
  {
    if f.Cons? {
      RootsListed(f.rest);
      LastDefault(f.rest, Some(f.item));
      if Distinct(f) { NoRepeatConcat([f.item], Roots(f.rest)); }
    }
  }

  /** Each root is followed by the next one. */
  lemma {:induction false} RootsLinked<T>(f: Forest<T>, up: Option<T>, prev: Option<T>, end: Option<T>, i: nat)
    requires Distinct(f) && i < |Roots(f)|
    ensures Roots(f)[i] in Items(f)
    ensures var l := LinkAt(f, up, prev, end, Roots(f)[i]);
            l.next == (if i + 1 < |Roots(f)| then Some(Roots(f)[i + 1]) else end) && l.parent == up
  {
    if i == 0 {
      RootsListed(f.rest);
    } else {
      RootsListed(f.rest);
      RootsLinked(f.rest, up, Some(f.item), end, i - 1);
    }
  }

  /** The links `was` of a node once the nodes in `roots` have parent `up`. */
  ghost function WithParent<T>(n: T, was: Link<T>, roots: seq<T>, up: Option<T>): Link<T>
  {
    Link(if n in roots then up else was.parent, was.first, was.last, was.prev, was.next)
  }
}
