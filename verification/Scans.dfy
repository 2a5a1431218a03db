/** Pre-order scans: where the branch of a node lies among the rows of a forest, and what
    a scan visits that stops at the first row no deeper than where it began. */
module Scans {
  import opened Forests

  /** Row numbers `i..i+n` are those of the branch of `p`: the first row after it that
      is no deeper than `p` comes right at its end. */
  ghost predicate RunOf<K>(f: Forest<K>, p: K, i: nat, n: nat)
    requires p in Items(f)
  {
    var rows := Table(f, 0);
    && n == 1 + Size(Kids(f, p)) && i + n <= |rows|
    && rows[i] == Row(p, DepthOf(f, p, 0), Kids(f, p).Nil?)
    && rows[i + 1..i + n] == Table(Kids(f, p), DepthOf(f, p, 0) + 1)
    && rows[i + n..] == After(f, p, 0)
    && (i + n < |rows| ==> rows[i + n].depth <= rows[i].depth)
  }

  lemma BranchRows<K>(f: Forest<K>, p: K)
    requires p in Items(f)
    ensures RunOf(f, p, |Before(f, p, 0)|, 1 + Size(Kids(f, p)))
  {
    var d, k := DepthOf(f, p, 0), Kids(f, p);
    BranchRun(f, p, 0);
    TableBranch(p, k, d);
    TableRows(k, d + 1);
    Slices(Table(f, 0), Before(f, p, 0), Row(p, d, k.Nil?), Table(k, d + 1), After(f, p, 0));
  }

  lemma Slices<T>(rows: seq<T>, x: seq<T>, h: T, y: seq<T>, z: seq<T>)
    requires rows == x + ([h] + y) + z
    ensures rows[|x|] == h && rows[|x| + 1..|x| + 1 + |y|] == y && rows[|x| + 1 + |y|..] == z
  {
  }

  /** The rows strictly inside the run are the nodes below `p`. */
  lemma InsideRun<K>(f: Forest<K>, p: K, i: nat, n: nat, j: nat)
    requires p in Items(f) && RunOf(f, p, i, n) && i < j < i + n
    ensures Table(f, 0)[j].depth > Table(f, 0)[i].depth
    ensures Table(f, 0)[j].item in Items(Kids(f, p))
  {
    var rows, inside := Table(f, 0), Table(Kids(f, p), DepthOf(f, p, 0) + 1);
    TableRow(Kids(f, p), DepthOf(f, p, 0) + 1, j - i - 1);
    assert rows[i + 1..i + n] == inside;
    assert rows[j] == inside[j - i - 1];
  }

  lemma TableRow<K>(f: Forest<K>, d: nat, j: nat)
    requires j < Size(f)
    ensures |Table(f, d)| == Size(f) && Table(f, d)[j].depth >= d && Table(f, d)[j].item in Items(f)
  {
    TableRows(f, d);
  }

  /** Every node below `p` has a row inside the run. */
  lemma RowInside<K>(f: Forest<K>, p: K, i: nat, n: nat, x: K) returns (j: nat)
    requires p in Items(f) && RunOf(f, p, i, n) && x in Items(Kids(f, p))
    ensures i < j < i + n && Table(f, 0)[j].item == x
  {
    var q := RowFor(Kids(f, p), DepthOf(f, p, 0) + 1, x);
    j := i + 1 + q;
    assert Table(f, 0)[j] == Table(f, 0)[i + 1..i + n][q];
  }

  lemma RowFor<K>(f: Forest<K>, d: nat, x: K) returns (q: nat)
    requires x in Items(f)
    ensures q < Size(f) == |Table(f, d)| && Table(f, d)[q].item == x
  {
    TableRows(f, d);
    InPre(f, x);
    q :| 0 <= q < |Pre(f)| && Pre(f)[q] == x;
  }

  /** Rows hold different items. */
  lemma RowsDiffer<K>(f: Forest<K>, i: nat, j: nat)
    requires Distinct(f) && i < Size(f) && j < Size(f)
    ensures |Table(f, 0)| == Size(f)
    ensures Table(f, 0)[i].item == Table(f, 0)[j].item <==> i == j
  {
    TableRows(f, 0);
    DistinctPre(f);
    if i < j { assert Pre(f)[i] != Pre(f)[j]; }
    if j < i { assert Pre(f)[j] != Pre(f)[i]; }
  }

  /** A row lies in the run exactly when its node lies in the branch. */
  lemma RunMembers<K>(f: Forest<K>, p: K, i: nat, n: nat, j: nat)
    requires Distinct(f) && p in Items(f) && RunOf(f, p, i, n) && j < |Table(f, 0)|
    ensures Table(f, 0)[j].item in Items(Kids(f, p)) <==> i < j < i + n
    ensures Table(f, 0)[j].item == p <==> j == i
  {
    TableRows(f, 0);
    RowsDiffer(f, i, j);
    if i < j < i + n { InsideRun(f, p, i, n, j); }
    if Table(f, 0)[j].item in Items(Kids(f, p)) {
      var q := RowInside(f, p, i, n, Table(f, 0)[j].item);
      RowsDiffer(f, q, j);
    }
  }

  lemma RowAt<K>(f: Forest<K>, p: K)
    requires p in Items(f) && Distinct(f)
    ensures var i := |Before(f, p, 0)|; i < |Table(f, 0)| && Table(f, 0)[i].item == p
  {
    BranchRows(f, p);
  }

  /** The nodes of rows `i..it`, with or without row `i`. */
  ghost function Scanned<K>(rows: seq<Row<K>>, i: nat, it: nat, includeSelf: bool): set<K>
    requires i <= it <= |rows|
    decreases it
  {
    if it == i then {}
    else if includeSelf || it - 1 != i then Scanned(rows, i, it - 1, includeSelf) + {rows[it - 1].item}
    else Scanned(rows, i, it - 1, includeSelf)
  }

  lemma {:induction false} ScannedHas<K>(rows: seq<Row<K>>, i: nat, it: nat, includeSelf: bool, j: nat)
    requires i <= j < it <= |rows| && (includeSelf || j != i)
    decreases it
    ensures rows[j].item in Scanned(rows, i, it, includeSelf)
  {
    if j < it - 1 { ScannedHas(rows, i, it - 1, includeSelf, j); }
  }

  lemma {:induction false} ScannedFrom<K>(rows: seq<Row<K>>, i: nat, it: nat, includeSelf: bool, x: K) returns (j: nat)
    requires i <= it <= |rows| && x in Scanned(rows, i, it, includeSelf)
    decreases it
    ensures i <= j < it && (includeSelf || j != i) && rows[j].item == x
  {
    if x == rows[it - 1].item && (includeSelf || it - 1 != i) {
      j := it - 1;
    } else {
      j := ScannedFrom(rows, i, it - 1, includeSelf, x);
    }
  }

  /** A branch, with or without its root. */
  ghost function BranchSet<K>(f: Forest<K>, p: K, includeSelf: bool): set<K>
    requires p in Items(f)
  {
    if includeSelf then {p} + Items(Kids(f, p)) else Items(Kids(f, p))
  }

  /** Where a scan from row `i` stops: at the first later row that is no deeper. */
  ghost predicate ScanStops<K>(rows: seq<Row<K>>, i: nat, it: nat)
  {
    && i < it <= |rows|
    && (forall j | i < j < it :: rows[j].depth > rows[i].depth)
    && (it < |rows| ==> rows[it].depth <= rows[i].depth)
  }

  /** The scan visits exactly the branch. */
  lemma ScanVisitsBranch<K>(f: Forest<K>, p: K, i: nat, it: nat, includeSelf: bool)
    requires Distinct(f) && p in Items(f) && i == |Before(f, p, 0)| && ScanStops(Table(f, 0), i, it)
    ensures Scanned(Table(f, 0), i, it, includeSelf) == BranchSet(f, p, includeSelf)
    ensures it == i + 1 + Size(Kids(f, p))
  {
    var rows, n := Table(f, 0), 1 + Size(Kids(f, p));
    BranchRows(f, p);
    if it < i + n { InsideRun(f, p, i, n, it); }
    var scanned, branch := Scanned(rows, i, it, includeSelf), BranchSet(f, p, includeSelf);
    forall x | x in scanned ensures x in branch {
      var j := ScannedFrom(rows, i, it, includeSelf, x);
      if j > i { InsideRun(f, p, i, n, j); }
    }
    forall x | x in branch ensures x in scanned {
      var j := i;
      if x in Items(Kids(f, p)) { j := RowInside(f, p, i, n, x); }
      ScannedHas(rows, i, it, includeSelf, j);
    }
  }

  /** The rows from that of `p` on. */
  lemma RowsFrom<K>(f: Forest<K>, p: K)
    requires p in Items(f)
    ensures |Before(f, p, 0)| <= |Table(f, 0)|
    ensures Table(f, 0)[|Before(f, p, 0)|..] == Table(Branch(f, p), DepthOf(f, p, 0)) + After(f, p, 0)
  {
    BranchRun(f, p, 0);
    DropFirst(Before(f, p, 0), Table(Branch(f, p), DepthOf(f, p, 0)), After(f, p, 0));
  }

  lemma DropFirst<T>(a: seq<T>, b: seq<T>, c: seq<T>)
    ensures (a + b + c)[|a|..] == b + c
  {
  }

  /** A row tells the depth of its node and whether it is a leaf. */
  lemma RowFacts<K>(f: Forest<K>, rows: seq<Row<K>>, j: nat)
    requires Distinct(f) && rows == Table(f, 0) && j < |rows|
    ensures var Row(x, depth, leaf) := rows[j]; x in Items(f) && depth == DepthOf(f, x, 0) && leaf == Kids(f, x).Nil?
  {
    assert |rows| == Size(f) && rows[j].item in Items(f) by { TableRows(f, 0); }
    var x := rows[j].item;
    var i, n := |Before(f, x, 0)|, 1 + Size(Kids(f, x));
    BranchRows(f, x);
    SameRow(f, x, rows, i, n, j);
  }

  lemma SameRow<K>(f: Forest<K>, x: K, rows: seq<Row<K>>, i: nat, n: nat, j: nat)
    requires Distinct(f) && x in Items(f) && RunOf(f, x, i, n) && rows == Table(f, 0)
    requires j < |rows| && rows[j].item == x
    ensures rows[j] == Row(x, DepthOf(f, x, 0), Kids(f, x).Nil?)
  {
    RunMembers(f, x, i, n, j);
  }
}
