/** The mesh's own check, and what it leaves open: whether every vertex is a node. */
module MeshSanity {
  import opened Forests
  import opened MeshNodes

  // ----- what is checked -----

  /** No vertex exceeds the number of nodes, which is itself not the number of a node. */
  ghost predicate AtMost(p: seq<nat>, n: nat)
  {
    forall j | 0 <= j < |p| :: p[j] <= n
  }

  /** Elements of `width` different vertices, of which none exceeds the number of nodes. */
  ghost predicate Admits(cells: seq<Cell>, width: nat, n: nat)
  {
    forall i | 0 <= i < |cells| :: |cells[i].p| == width && NoRepeat(cells[i].p) && AtMost(cells[i].p, n)
  }

  /** An element is attached to a tetrahedron when it shares all its vertices. */
  ghost predicate Attached(p: seq<nat>, tet: seq<nat>)
  {
    forall j | 0 <= j < |p| :: p[j] in tet
  }

  /** How many elements are attached. */
  ghost function AttachedCount(cells: seq<Cell>, tet: seq<nat>): nat
  {
    if cells == [] then 0
    else AttachedCount(cells[..|cells| - 1], tet) + if Attached(cells[|cells| - 1].p, tet) then 1 else 0
  }

  ghost predicate NotCrowded(lines: seq<Cell>, triangles: seq<Cell>, tetrahedra: seq<Cell>)
  {
    forall i | 0 <= i < |tetrahedra| ::
      AttachedCount(triangles, tetrahedra[i].p) <= 4 && AttachedCount(lines, tetrahedra[i].p) <= 6
  }

  lemma {:induction false} AllAttached(c: Cell, k: nat, tet: seq<nat>)
    requires Attached(c.p, tet)
    ensures AttachedCount(seq(k, _ => c), tet) == k
  {
    if k > 0 {
      AllAttached(c, k - 1, tet);
      assert seq(k, _ => c)[..k - 1] == seq(k - 1, _ => c);
    }
  }

  /** Four triangles and six lines may be attached to a tetrahedron, and no more. */
  lemma CrowdLimit(line: Cell, triangle: Cell, tet: Cell, lines: nat, triangles: nat)
    requires Attached(line.p, tet.p) && Attached(triangle.p, tet.p)
    ensures NotCrowded(seq(lines, _ => line), seq(triangles, _ => triangle), [tet]) <==> lines <= 6 && triangles <= 4
  {
    AllAttached(line, lines, tet.p);
    AllAttached(triangle, triangles, tet.p);
    assert forall i | 0 <= i < |[tet]| :: [tet][i] == tet;
    assert [tet][0] == tet;
  }

  /** Elements of `width` vertices need that many nodes. */
  ghost predicate EnoughNodes(cells: seq<Cell>, width: nat, n: nat)
  {
    cells != [] ==> width <= n
  }

  /** The whole check, over `n` nodes. The elements that are single points are not looked at. */
  ghost predicate Sane(n: nat, lines: seq<Cell>, triangles: seq<Cell>, tetrahedra: seq<Cell>)
  {
    && Admits(tetrahedra, 4, n) && Admits(triangles, 3, n) && Admits(lines, 2, n)
    && EnoughNodes(tetrahedra, 4, n) && EnoughNodes(triangles, 3, n) && EnoughNodes(lines, 2, n)
    && NotCrowded(lines, triangles, tetrahedra)
  }

  ghost predicate MeshSane(m: Mesh)
    reads m
  {
    Sane(|m.nodes|, m.lines, m.triangles, m.tetrahedra)
  }

  ghost predicate Widths(cells: seq<Cell>, width: nat)
  {
    forall i | 0 <= i < |cells| :: |cells[i].p| == width
  }

  // ----- the loops -----

  /** Check one element. */
  method CheckCell(p: seq<nat>, n: nat) returns (sane: bool)
    ensures sane <==> NoRepeat(p) && AtMost(p, n)
  {
    for uj := 0 to |p|
      invariant forall i, j | 0 <= i < uj && 0 <= j < |p| && i != j :: p[i] != p[j]
      invariant forall j | 0 <= j < uj :: p[j] <= n
    {
      for uk := 0 to |p|
        invariant forall j | 0 <= j < uk && j != uj :: p[uj] != p[j]
      {
        if uk != uj && p[uj] == p[uk] { return false; }
      }
      if p[uj] > n { return false; }
    }
    return true;
  }

  method CheckCells(cells: seq<Cell>, width: nat, n: nat) returns (sane: bool)
    requires Widths(cells, width)
    ensures sane <==> Admits(cells, width, n)
  {
    for ui := 0 to |cells|
      invariant forall i | 0 <= i < ui :: NoRepeat(cells[i].p) && AtMost(cells[i].p, n)
    {
      var one := CheckCell(cells[ui].p, n);
      if !one { return false; }
    }
    return true;
  }

  /** Which of the vertices `p` occur in the tetrahedron, all of them or not. */
  method SharesAll(p: seq<nat>, tet: seq<nat>) returns (all: bool)
    ensures all <==> Attached(p, tet)
  {
    var mask: set<nat> := {};
    for uj := 0 to |tet|
      invariant forall j | 0 <= j < |p| :: j in mask <==> p[j] in tet[..uj]
      invariant forall j | j in mask :: j < |p|
    {
      for uk := 0 to |p|
        invariant forall j | 0 <= j < |p| :: j in mask <==> p[j] in tet[..uj] || (j < uk && p[j] == tet[uj])
        invariant forall j | j in mask :: j < |p|
      {
        if tet[uj] == p[uk] { mask := mask + {uk}; }
      }
      assert tet[..uj + 1] == tet[..uj] + [tet[uj]];
    }
    assert tet[..|tet|] == tet;
    all := forall j | 0 <= j < |p| :: j in mask;
  }

  /** The elements attached to one tetrahedron. */
  method GetAttached(cells: seq<Cell>, tet: seq<nat>) returns (found: seq<nat>)
    ensures |found| == AttachedCount(cells, tet)
  {
    found := [];
    for ui := 0 to |cells|
      invariant |found| == AttachedCount(cells[..ui], tet)
    {
      var all := SharesAll(cells[ui].p, tet);
      if all { found := found + [ui]; }
      assert cells[..ui + 1][..ui] == cells[..ui];
    }
    assert cells[..|cells|] == cells;
  }

  method CheckCrowding(lines: seq<Cell>, triangles: seq<Cell>, tetrahedra: seq<Cell>) returns (sane: bool)
    ensures sane <==> NotCrowded(lines, triangles, tetrahedra)
  {
    for ui := 0 to |tetrahedra|
      invariant forall i | 0 <= i < ui ::
                  AttachedCount(triangles, tetrahedra[i].p) <= 4 && AttachedCount(lines, tetrahedra[i].p) <= 6
    {
      var l := GetAttached(lines, tetrahedra[ui].p);
      var tris := GetAttached(triangles, tetrahedra[ui].p);
      if |tris| > 4 { return false; }
      if |l| > 6 { return false; }
    }
    return true;
  }

  /** The mesh's own check. */
  method IsSane(m: Mesh) returns (sane: bool)
    requires Widths(m.tetrahedra, 4) && Widths(m.triangles, 3) && Widths(m.lines, 2)
    ensures sane <==> MeshSane(m)
  {
    sane := CheckCells(m.tetrahedra, 4, |m.nodes|);
    if !sane { return; }
    sane := CheckCells(m.triangles, 3, |m.nodes|);
    if !sane { return; }
    sane := CheckCells(m.lines, 2, |m.nodes|);
    if !sane { return; }
    if |m.nodes| < 4 && |m.tetrahedra| > 0 { return false; }
    if |m.nodes| < 3 && |m.triangles| > 0 { return false; }
    if |m.nodes| < 2 && |m.lines| > 0 { return false; }
    sane := CheckCrowding(m.lines, m.triangles, m.tetrahedra);
  }

  // ----- what the check leaves open -----

  /** Vertices that pass are nodes exactly when none is the number of nodes. */
  lemma AdmittedInRange(cells: seq<Cell>, width: nat, n: nat)
    requires Admits(cells, width, n)
    ensures CellsInRange(cells, width, n) <==> !Uses(cells, n)
  {
    if Uses(cells, n) {
      var i :| 0 <= i < |cells| && n in cells[i].p;
      assert !InRange(cells[i].p, n);
    } else {
      forall i, j | 0 <= i < |cells| && 0 <= j < |cells[i].p| ensures cells[i].p[j] < n {
        assert cells[i].p[j] in cells[i].p && cells[i].p[j] <= n;
      }
    }
  }

  /** A mesh that passes has only nodes as vertices exactly when no line, triangle or
      tetrahedron uses the number of nodes as a vertex and all single points are nodes. */
  lemma SaneIsValid(m: Mesh)
    requires MeshSane(m)
    ensures m.Valid() <==>
            && !Uses(m.lines, |m.nodes|) && !Uses(m.triangles, |m.nodes|) && !Uses(m.tetrahedra, |m.nodes|)
            && InRange(m.points, |m.nodes|)
  {
    AdmittedInRange(m.lines, 2, |m.nodes|);
    AdmittedInRange(m.triangles, 3, |m.nodes|);
    AdmittedInRange(m.tetrahedra, 4, |m.nodes|);
  }

  /** A tetrahedron that reaches one past four nodes passes. */
  lemma OnePastPasses(m: Mesh)
    requires |m.nodes| == 4 && m.points == [] && m.lines == m.triangles == []
    requires m.tetrahedra == [Cell([1, 2, 3, 4], 0)]
    ensures MeshSane(m) && !m.Valid()
  {
    var p := [1, 2, 3, 4];
    assert m.tetrahedra[0].p == p;
    assert !InRange(p, 4) by { assert p[3] == 4; }
  }

  /** A point passes wherever it is, even without any nodes. */
  lemma PointPasses(m: Mesh)
    requires m.nodes == [] && m.points == [5] && m.lines == m.triangles == m.tetrahedra == []
    ensures MeshSane(m) && !m.Valid()
  {
    assert !InRange(m.points, 0) by { assert m.points[0] == 5; }
  }

  // ----- the check after orphans have been removed -----

  /** New numbers keep the order of nodes that are kept. */
  lemma {:induction false} NewNumbersOrdered(orphans: seq<nat>, a: nat, b: nat)
    requires Sorted(orphans) && a < b && b !in orphans
    ensures Rank(orphans, b) - Rank(orphans, a) < b - a
  {
    RankStep(orphans, b - 1);
    if a < b - 1 { RankGap(orphans, a, b - 1); }
  }

  lemma {:induction false} RankGap(orphans: seq<nat>, a: nat, b: nat)
    requires Sorted(orphans) && a <= b
    ensures Rank(orphans, b) - Rank(orphans, a) <= b - a
  {
    if a < b {
      RankGap(orphans, a, b - 1);
      RankStep(orphans, b - 1);
    }
  }

  /** Nodes that are kept are the same exactly when their new numbers are. */
  lemma NewNumbersDiffer(orphans: seq<nat>, a: nat, b: nat)
    requires Sorted(orphans) && a !in orphans && b !in orphans
    ensures a == b <==> a - Rank(orphans, a) == b - Rank(orphans, b)
  {
    if a < b { NewNumbersOrdered(orphans, a, b); } else if b < a { NewNumbersOrdered(orphans, b, a); }
  }

  lemma NewNumbersNoRepeat(p: seq<nat>, orphans: seq<nat>, p': seq<nat>)
    requires Sorted(orphans) && NoneOf(p, orphans) && Renumbered(p, orphans, p') && NoRepeat(p)
    ensures NoRepeat(p')
  {
    forall i, j | 0 <= i < j < |p'| ensures p'[i] != p'[j] { NewNumbersDiffer(orphans, p[i], p[j]); }
  }

  /** What is attached stays attached, and nothing else becomes so. */
  lemma StillAttached(p: seq<nat>, tet: seq<nat>, orphans: seq<nat>, p': seq<nat>, tet': seq<nat>)
    requires Sorted(orphans) && NoneOf(p, orphans) && NoneOf(tet, orphans)
    requires Renumbered(p, orphans, p') && Renumbered(tet, orphans, tet')
    ensures Attached(p, tet) <==> Attached(p', tet')
  {
    forall j | 0 <= j < |p| && p[j] in tet ensures p'[j] in tet' {
      var k :| 0 <= k < |tet| && tet[k] == p[j];
      assert tet'[k] == p'[j];
    }
    forall j | 0 <= j < |p| && p'[j] in tet' ensures p[j] in tet {
      var k :| 0 <= k < |tet'| && tet'[k] == p'[j];
      NewNumbersDiffer(orphans, tet[k], p[j]);
    }
  }

  ghost predicate CellsClear(cells: seq<Cell>, orphans: seq<nat>)
  {
    forall i | 0 <= i < |cells| :: NoneOf(cells[i].p, orphans)
  }

  lemma {:induction false} SameCount(cells: seq<Cell>, tet: seq<nat>, orphans: seq<nat>, cells': seq<Cell>,
                                     tet': seq<nat>)
    requires Sorted(orphans) && CellsClear(cells, orphans) && NoneOf(tet, orphans)
    requires CellsRenumbered(cells, orphans, cells') && Renumbered(tet, orphans, tet')
    ensures AttachedCount(cells', tet') == AttachedCount(cells, tet)
  {
    if cells != [] {
      var n := |cells| - 1;
      SameCount(cells[..n], tet, orphans, cells'[..n], tet');
      StillAttached(cells[n].p, tet, orphans, cells'[n].p, tet');
    }
  }

  /** Different numbers below `n` are at most `n` many. */
  lemma {:induction false} NotTooMany(p: seq<nat>, n: nat)
    requires NoRepeat(p) && InRange(p, n)
    ensures |p| <= n
  {
    if p != [] {
      if exists j :: 0 <= j < |p| && p[j] == n - 1 {
        var j :| 0 <= j < |p| && p[j] == n - 1;
        var q := p[..j] + p[j + 1..];
        forall a, b | 0 <= a < b < |q| ensures q[a] != q[b] {
          assert q[a] == p[if a < j then a else a + 1] && q[b] == p[if b < j then b else b + 1];
        }
        forall a | 0 <= a < |q| ensures q[a] < n - 1 { assert q[a] == p[if a < j then a else a + 1]; }
        NotTooMany(q, n - 1);
      } else {
        assert p[0] < n;
        NotTooMany(p, n - 1);
      }
    }
  }

  lemma CellsStaySane(cells: seq<Cell>, width: nat, n: nat, orphans: seq<nat>, cells': seq<Cell>, n': nat)
    requires Sorted(orphans) && CellsClear(cells, orphans) && Admits(cells, width, n)
    requires CellsRenumbered(cells, orphans, cells') && CellsInRange(cells', width, n')
    ensures Admits(cells', width, n') && EnoughNodes(cells', width, n')
  {
    forall i | 0 <= i < |cells'| ensures NoRepeat(cells'[i].p) {
      NewNumbersNoRepeat(cells[i].p, orphans, cells'[i].p);
    }
    if cells' != [] { NotTooMany(cells'[0].p, n'); }
  }

  lemma StaysSane(n: nat, lines: seq<Cell>, triangles: seq<Cell>, tetrahedra: seq<Cell>, orphans: seq<nat>,
                  n': nat, lines': seq<Cell>, triangles': seq<Cell>, tetrahedra': seq<Cell>)
    requires Sane(n, lines, triangles, tetrahedra) && Sorted(orphans)
    requires CellsClear(lines, orphans) && CellsClear(triangles, orphans) && CellsClear(tetrahedra, orphans)
    requires CellsRenumbered(lines, orphans, lines') && CellsRenumbered(triangles, orphans, triangles')
    requires CellsRenumbered(tetrahedra, orphans, tetrahedra') && CellsInRange(lines', 2, n')
    requires CellsInRange(triangles', 3, n') && CellsInRange(tetrahedra', 4, n')
    ensures Sane(n', lines', triangles', tetrahedra')
  {
    CellsStaySane(lines, 2, n, orphans, lines', n');
    CellsStaySane(triangles, 3, n, orphans, triangles', n');
    CellsStaySane(tetrahedra, 4, n, orphans, tetrahedra', n');
    forall i | 0 <= i < |tetrahedra'|
      ensures AttachedCount(triangles', tetrahedra'[i].p) <= 4 && AttachedCount(lines', tetrahedra'[i].p) <= 6
    {
      SameCount(triangles, tetrahedra[i].p, orphans, triangles', tetrahedra'[i].p);
      SameCount(lines, tetrahedra[i].p, orphans, lines', tetrahedra'[i].p);
    }
  }

  /** Removing all orphans with the check before and after: a mesh that passes, and whose
      vertices are nodes, passes again. */
  method KillOrphansChecked(m: Mesh) returns (orphans: seq<nat>)
    requires m.Valid() && MeshSane(m)
    modifies m
    ensures m.Valid() && MeshSane(m)
    ensures forall n | 0 <= n < |m.nodes| :: m.Referenced(n)
  {
    ghost var n, lines, triangles, tetrahedra := |m.nodes|, m.lines, m.triangles, m.tetrahedra;
    orphans := m.KillAllOrphans();
    StaysSane(n, lines, triangles, tetrahedra, orphans, |m.nodes|, m.lines, m.triangles, m.tetrahedra);
  }
}
