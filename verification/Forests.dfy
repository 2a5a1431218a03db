/** Ordered forests in first-child / next-sibling form: the abstract value of
    the n-ary tree container, and the edits made to it. */
module Forests {

  datatype Option<+T> = None | Some(value: T)

  /** A chain of siblings: the first tree has root `item` and children `kids`;
      `rest` holds the siblings that follow. */
  datatype Forest<T> = Nil | Cons(item: T, kids: Forest<T>, rest: Forest<T>)

  /** The nodes in pre-order. */
  function Pre<T>(f: Forest<T>): seq<T>
  {
    match f
    case Nil => []
    case Cons(m, k, r) => [m] + Pre(k) + Pre(r)
  }

  ghost function Items<T>(f: Forest<T>): set<T>
  {
    match f
    case Nil => {}
    case Cons(m, k, r) => {m} + Items(k) + Items(r)
  }

  predicate Has<T(==)>(f: Forest<T>, x: T)
    ensures Has(f, x) <==> x in Items(f)
  {
    match f
    case Nil => false
    case Cons(m, k, r) => m == x || Has(k, x) || Has(r, x)
  }

  function Size<T>(f: Forest<T>): nat
  {
    match f
    case Nil => 0
    case Cons(_, k, r) => 1 + Size(k) + Size(r)
  }

  /** No item occurs twice. */
  ghost predicate Distinct<T>(f: Forest<T>)
  {
    match f
    case Nil => true
    case Cons(m, k, r) =>
      && m !in Items(k) && m !in Items(r) && Items(k) !! Items(r)
      && Distinct(k) && Distinct(r)
  }

  function Append<T>(f: Forest<T>, g: Forest<T>): Forest<T>
  {
    match f
    case Nil => g
    case Cons(m, k, r) => Cons(m, k, Append(r, g))
  }

  // ----- edits at a node -----

  /** The children of `p`. */
  function Kids<T(==)>(f: Forest<T>, p: T): Forest<T>
    requires p in Items(f)
  {
    var Cons(m, k, r) := f;
    if m == p then k else if Has(k, p) then Kids(k, p) else Kids(r, p)
  }

  /** The tree rooted at `p`. */
  function Branch<T(==)>(f: Forest<T>, p: T): Forest<T>
    requires p in Items(f)
  {
    Cons(p, Kids(f, p), Nil)
  }

  /** Everything but the tree rooted at `p`. */
  function Remove<T(==)>(f: Forest<T>, p: T): Forest<T>
  {
    match f
    case Nil => Nil
    case Cons(m, k, r) => if m == p then r else Cons(m, Remove(k, p), Remove(r, p))
  }

  /** The trees of `g` become the last children of `p`. */
  function AppendKids<T(==)>(f: Forest<T>, p: T, g: Forest<T>): Forest<T>
  {
    match f
    case Nil => Nil
    case Cons(m, k, r) =>
      if m == p then Cons(m, Append(k, g), r)
      else Cons(m, AppendKids(k, p, g), AppendKids(r, p, g))
  }

  /** The trees of `g` follow `p` among its siblings. */
  function InsertAfter<T(==)>(f: Forest<T>, p: T, g: Forest<T>): Forest<T>
  {
    match f
    case Nil => Nil
    case Cons(m, k, r) =>
      if m == p then Cons(m, k, Append(g, r))
      else Cons(m, InsertAfter(k, p, g), InsertAfter(r, p, g))
  }

  function Take<T>(s: seq<T>, n: nat): seq<T> { if n <= |s| then s[..n] else s }

  function Drop<T>(s: seq<T>, n: nat): seq<T> { if n <= |s| then s[n..] else [] }

  /** The first |ns| nodes of `f` in pre-order, renamed to `ns` and keeping their places. */
  function Rebuild<T, U>(f: Forest<T>, ns: seq<U>): Forest<U>
  {
    match f
    case Nil => Nil
    case Cons(_, k, r) =>
      if ns == [] then Nil
      else Cons(ns[0], Rebuild(k, Take(ns[1..], Size(k))), Rebuild(r, Drop(ns[1..], Size(k))))
  }

  // ----- pre-order with depths -----

  /** One step of a pre-order walk: the node, how deep it lies, and whether it is a leaf. */
  datatype Row<T> = Row(item: T, depth: nat, leaf: bool)

  function Table<T>(f: Forest<T>, d: nat): seq<Row<T>>
  {
    match f
    case Nil => []
    case Cons(m, k, r) => [Row(m, d, k.Nil?)] + Table(k, d + 1) + Table(r, d)
  }

  // ----- facts about items -----

  lemma {:induction false} AppendItems<T>(f: Forest<T>, g: Forest<T>)
    ensures Items(Append(f, g)) == Items(f) + Items(g)
    ensures Distinct(f) && Distinct(g) && Items(f) !! Items(g) ==> Distinct(Append(f, g))
  {
    match f
    case Nil =>
    case Cons(_, _, r) => AppendItems(r, g);
  }

  lemma {:induction false} KidsItems<T>(f: Forest<T>, p: T)
    requires p in Items(f)
    ensures Items(Kids(f, p)) <= Items(f)
    ensures Distinct(f) ==> p !in Items(Kids(f, p)) && Distinct(Kids(f, p))
  {
    var Cons(m, k, r) := f;
    if m == p {
    } else if p in Items(k) {
      KidsItems(k, p);
    } else {
      KidsItems(r, p);
    }
  }

  lemma {:induction false} RemoveAbsent<T>(f: Forest<T>, p: T)
    requires p !in Items(f)
    ensures Remove(f, p) == f
  {
    match f
    case Nil =>
    case Cons(_, k, r) => RemoveAbsent(k, p); RemoveAbsent(r, p);
  }

  /** Removal takes away exactly the branch. */
  lemma {:induction false} RemoveItems<T>(f: Forest<T>, p: T)
    requires Distinct(f) && p in Items(f)
    ensures Items(Remove(f, p)) == Items(f) - Items(Branch(f, p))
    ensures Distinct(Remove(f, p))
  {
    var Cons(m, k, r) := f;
    if m == p {
    } else if p in Items(k) {
      RemoveItems(k, p);
      RemoveAbsent(r, p);
      KidsItems(k, p);
    } else {
      RemoveItems(r, p);
      RemoveAbsent(k, p);
      KidsItems(r, p);
    }
  }

  lemma {:induction false} AppendKidsAbsent<T>(f: Forest<T>, p: T, g: Forest<T>)
    requires p !in Items(f)
    ensures AppendKids(f, p, g) == f
  {
    match f
    case Nil =>
    case Cons(_, k, r) => AppendKidsAbsent(k, p, g); AppendKidsAbsent(r, p, g);
  }

  lemma {:induction false} AppendKidsItems<T>(f: Forest<T>, p: T, g: Forest<T>)
    requires Distinct(f) && p in Items(f)
    ensures Items(AppendKids(f, p, g)) == Items(f) + Items(g)
    ensures Distinct(g) && Items(f) !! Items(g) ==> Distinct(AppendKids(f, p, g))
  {
    var Cons(m, k, r) := f;
    if m == p {
      AppendItems(k, g);
    } else if p in Items(k) {
      AppendKidsItems(k, p, g);
      AppendKidsAbsent(r, p, g);
    } else {
      AppendKidsItems(r, p, g);
      AppendKidsAbsent(k, p, g);
    }
  }

  lemma {:induction false} InsertAfterAbsent<T>(f: Forest<T>, p: T, g: Forest<T>)
    requires p !in Items(f)
    ensures InsertAfter(f, p, g) == f
  {
    match f
    case Nil =>
    case Cons(_, k, r) => InsertAfterAbsent(k, p, g); InsertAfterAbsent(r, p, g);
  }

  lemma {:induction false} InsertAfterItems<T>(f: Forest<T>, p: T, g: Forest<T>)
    requires Distinct(f) && p in Items(f)
    ensures Items(InsertAfter(f, p, g)) == Items(f) + Items(g)
    ensures Distinct(g) && Items(f) !! Items(g) ==> Distinct(InsertAfter(f, p, g))
  {
    var Cons(m, k, r) := f;
    if m == p {
      AppendItems(g, r);
    } else if p in Items(k) {
      InsertAfterItems(k, p, g);
      InsertAfterAbsent(r, p, g);
    } else {
      InsertAfterItems(r, p, g);
      InsertAfterAbsent(k, p, g);
    }
  }

  // ----- facts about pre-order -----

  lemma {:induction false} PreItems<T>(f: Forest<T>)
    ensures |Pre(f)| == Size(f)
    ensures forall x :: x in Pre(f) <==> x in Items(f)
  {
    match f
    case Nil =>
    case Cons(_, k, r) => PreItems(k); PreItems(r);
  }

  lemma InPre<T>(f: Forest<T>, x: T)
    ensures x in Pre(f) <==> x in Items(f)
  {
    PreItems(f);
  }

  /** Renamed to at most as many names as it has nodes, a forest lists them in that order. */
  lemma {:induction false} RebuildPre<T, U>(f: Forest<T>, ns: seq<U>)
    requires |ns| <= Size(f)
    ensures Pre(Rebuild(f, ns)) == ns
  {
    match f
    case Nil =>
    case Cons(_, k, r) =>
      if ns != [] {
        var t := ns[1..];
        RebuildPre(k, Take(t, Size(k)));
        RebuildPre(r, Drop(t, Size(k)));
        assert ns == [ns[0]] + Take(t, Size(k)) + Drop(t, Size(k));
      }
  }

  lemma BranchItems<T>(f: Forest<T>, x: T)
    requires x in Items(f)
    ensures Items(Branch(f, x)) <= Items(f)
    ensures |Pre(Branch(f, x))| == Size(Branch(f, x))
    ensures forall y | y in Pre(Branch(f, x)) :: y in Items(f)
  {
    KidsItems(f, x);
    var b := Branch(f, x);
    PreItems(b);
    forall y | y in Pre(b) ensures y in Items(f) { InPre(b, y); }
  }

  /** Branches of nodes that do not lie below each other have nothing in common. */
  lemma {:induction false} BranchesApart<T>(f: Forest<T>, x: T, y: T)
    requires Distinct(f) && x in Items(f) && y in Items(f) && x != y
    requires y !in Items(Kids(f, x)) && x !in Items(Kids(f, y))
    ensures Items(Branch(f, x)) !! Items(Branch(f, y))
  {
    var Cons(m, k, r) := f;
    KidsItems(f, x);
    KidsItems(f, y);
    if x == m || y == m {
      if x in Items(r) { KidsItems(r, x); }
      if y in Items(r) { KidsItems(r, y); }
    } else if x in Items(k) && y in Items(k) {
      BranchesApart(k, x, y);
    } else if x in Items(r) && y in Items(r) {
      BranchesApart(r, x, y);
    } else if x in Items(k) {
      KidsItems(k, x);
      KidsItems(r, y);
    } else {
      KidsItems(r, x);
      KidsItems(k, y);
    }
  }

  ghost predicate NoRepeat<T>(a: seq<T>)
  {
    forall i, j | 0 <= i < j < |a| :: a[i] != a[j]
  }

  ghost predicate Apart<T>(a: seq<T>, b: seq<T>)
  {
    forall x | x in a :: x !in b
  }

  lemma NoRepeatSplit<T>(a: seq<T>, b: seq<T>)
    requires NoRepeat(a + b)
    ensures NoRepeat(a) && NoRepeat(b) && Apart(a, b)
  {
    var c := a + b;
    assert forall i | 0 <= i < |a| :: c[i] == a[i];
    assert forall i | 0 <= i < |b| :: c[|a| + i] == b[i];
    forall i, j | 0 <= i < j < |b| ensures b[i] != b[j] {
      assert c[|a| + i] != c[|a| + j];
    }
    forall x | x in a ensures x !in b {
      var i :| 0 <= i < |a| && a[i] == x;
      forall j | 0 <= j < |b| ensures b[j] != x { assert c[i] != c[|a| + j]; }
    }
  }

  lemma NoRepeatConcat<T>(a: seq<T>, b: seq<T>)
    requires NoRepeat(a) && NoRepeat(b) && Apart(a, b)
    ensures NoRepeat(a + b)
  {
    var c := a + b;
    forall i, j | 0 <= i < j < |c| ensures c[i] != c[j] {
      if i < |a| <= j { assert a[i] in a && b[j - |a|] in b; }
    }
  }

  lemma ApartIff<T>(a: seq<T>, b: seq<T>, x: set<T>, y: set<T>)
    requires forall z :: z in a <==> z in x
    requires forall z :: z in b <==> z in y
    ensures Apart(a, b) <==> x !! y
  {
    if Apart(a, b) {
      forall z | z in x ensures z !in y { assert z in a; }
    }
  }

  /** A forest is distinct when its pre-order sequence has no repeats. */
  lemma {:induction false} DistinctPre<T>(f: Forest<T>)
    ensures Distinct(f) <==> NoRepeat(Pre(f))
  {
    match f
    case Nil =>
    case Cons(m, k, r) =>
      DistinctPre(k);
      DistinctPre(r);
      PreItems(k);
      PreItems(r);
      ApartIff([m], Pre(k), {m}, Items(k));
      ApartIff([m] + Pre(k), Pre(r), {m} + Items(k), Items(r));
      if Distinct(f) {
        NoRepeatConcat([m], Pre(k));
        NoRepeatConcat([m] + Pre(k), Pre(r));
      }
      if NoRepeat(Pre(f)) {
        NoRepeatSplit([m] + Pre(k), Pre(r));
        NoRepeatSplit([m], Pre(k));
      }
  }

  ghost function SetOf<T>(s: seq<T>): set<T> { set x | x in s }

  /** A forest renamed to distinct names holds exactly those names. */
  lemma RebuildItems<T, U>(f: Forest<T>, ns: seq<U>)
    requires |ns| <= Size(f) && NoRepeat(ns)
    ensures Distinct(Rebuild(f, ns))
    ensures Items(Rebuild(f, ns)) == SetOf(ns)
  {
    RebuildPre(f, ns);
    DistinctPre(Rebuild(f, ns));
    PreSet(Rebuild(f, ns));
  }

  lemma {:induction false} PreSet<T>(f: Forest<T>)
    ensures Items(f) == SetOf(Pre(f))
  {
    match f
    case Nil =>
    case Cons(_, k, r) => PreSet(k); PreSet(r);
  }

  // ----- where a branch lies in pre-order -----

  function DepthOf<T(==)>(f: Forest<T>, p: T, d: nat): nat
    requires p in Items(f)
  {
    var Cons(m, k, r) := f;
    if m == p then d else if Has(k, p) then DepthOf(k, p, d + 1) else DepthOf(r, p, d)
  }

  /** The rows that precede the branch of `p`. */
  ghost function Before<T>(f: Forest<T>, p: T, d: nat): seq<Row<T>>
    requires p in Items(f)
  {
    var Cons(m, k, r) := f;
    if m == p then []
    else if p in Items(k) then [Row(m, d, k.Nil?)] + Before(k, p, d + 1)
    else [Row(m, d, k.Nil?)] + Table(k, d + 1) + Before(r, p, d)
  }

  /** The rows that follow the branch of `p`. */
  ghost function After<T>(f: Forest<T>, p: T, d: nat): seq<Row<T>>
    requires p in Items(f)
  {
    var Cons(m, k, r) := f;
    if m == p then Table(r, d)
    else if p in Items(k) then After(k, p, d + 1) + Table(r, d)
    else After(r, p, d)
  }

  /** The table lists the nodes of the forest in pre-order, none above depth `d`. */
  lemma {:induction false} TableRows<T>(f: Forest<T>, d: nat)
    ensures |Table(f, d)| == Size(f) == |Pre(f)|
    ensures forall i | 0 <= i < Size(f) ::
              Table(f, d)[i].item == Pre(f)[i] && Table(f, d)[i].depth >= d && Table(f, d)[i].item in Items(f)
  {
    match f
    case Nil =>
    case Cons(_, k, r) => TableRows(k, d + 1); TableRows(r, d);
  }

  /** In pre-order a branch is a contiguous run of rows, ended by the first row that is
      no deeper than its root. */
  lemma {:induction false} BranchRun<T>(f: Forest<T>, p: T, d: nat)
    requires p in Items(f)
    ensures Table(f, d) == Before(f, p, d) + Table(Branch(f, p), DepthOf(f, p, d)) + After(f, p, d)
    ensures After(f, p, d) != [] ==> After(f, p, d)[0].depth <= DepthOf(f, p, d)
    ensures DepthOf(f, p, d) >= d
  {
    var Cons(m, k, r) := f;
    var head, a, b := [Row(m, d, k.Nil?)], Table(k, d + 1), Table(r, d);
    if m == p {
      assert Table(f, d) == [] + (head + a) + b;
    } else if p in Items(k) {
      BranchRun(k, p, d + 1);
      var x, y, z := Before(k, p, d + 1), Table(Branch(k, p), DepthOf(k, p, d + 1)), After(k, p, d + 1);
      Regroup(head, x, y, z, b);
    } else {
      BranchRun(r, p, d);
      var x, y, z := Before(r, p, d), Table(Branch(r, p), DepthOf(r, p, d)), After(r, p, d);
      Regroup(head + a, x, y, z, []);
    }
  }

  /** No row that follows a branch belongs to it. */
  lemma {:induction false} AfterOutside<T>(f: Forest<T>, x: T, d: nat)
    requires Distinct(f) && x in Items(f)
    ensures forall j | 0 <= j < |After(f, x, d)| :: After(f, x, d)[j].item !in Items(Branch(f, x))
  {
    var Cons(m, k, r) := f;
    TableRows(r, d);
    if m == x {
    } else if x in Items(k) {
      KidsItems(k, x);
      AfterOutside(k, x, d + 1);
    } else {
      AfterOutside(r, x, d);
    }
  }

  /** The nodes of rows that are not at depth `d`. */
  ghost function OffDepth<T>(rows: seq<Row<T>>, d: nat): set<T>
  {
    if rows == [] then {}
    else
      var last := rows[|rows| - 1];
      OffDepth(rows[..|rows| - 1], d) + if last.depth != d then {last.item} else {}
  }

  lemma {:induction false} OffDepthConcat<T>(a: seq<Row<T>>, b: seq<Row<T>>, d: nat)
    ensures OffDepth(a + b, d) == OffDepth(a, d) + OffDepth(b, d)
  {
    if b == [] {
      assert a + b == a;
    } else {
      assert (a + b)[..|a + b| - 1] == a + b[..|b| - 1];
      OffDepthConcat(a, b[..|b| - 1], d);
    }
  }

  lemma {:induction false} OffDepthDeeper<T>(f: Forest<T>, e: nat, d: nat)
    requires d < e
    ensures OffDepth(Table(f, e), d) == Items(f)
  {
    match f
    case Nil =>
    case Cons(m, k, r) =>
      var head := [Row(m, e, k.Nil?)];
      OffDepthDeeper(k, e + 1, d);
      OffDepthDeeper(r, e, d);
      OffDepthConcat(head, Table(k, e + 1), d);
      OffDepthConcat(head + Table(k, e + 1), Table(r, e), d);
      assert OffDepth(head, d) == {m};
  }

  lemma Regroup<T>(h: seq<T>, x: seq<T>, y: seq<T>, z: seq<T>, b: seq<T>)
    ensures h + (x + y + z) + b == (h + x) + y + (z + b)
    ensures b == [] ==> h + (x + y + z) == (h + x) + y + z
  {
  }

  lemma ConcatAssociates<T>(a: seq<T>, b: seq<T>, c: seq<T>)
    ensures a + b + c == a + (b + c)
  {
  }

  lemma TableBranch<T>(p: T, k: Forest<T>, d: nat)
    ensures Table(Cons(p, k, Nil), d) == [Row(p, d, k.Nil?)] + Table(k, d + 1)
  {
  }
}
