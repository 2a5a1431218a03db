/** Removing the nodes of a mesh that no element uses, and renumbering the elements. */
module MeshNodes {

  datatype Point = Point(x: real, y: real, z: real)

  /** A line, a triangle or a tetrahedron: its vertices, as numbers of nodes. */
  datatype Cell = Cell(p: seq<nat>, physGroup: nat)

  ghost predicate Sorted(s: seq<nat>)
  {
    forall i, j | 0 <= i < j < |s| :: s[i] < s[j]
  }

  // ----- ranks -----

  /** How many of the sorted numbers are at most `i`. */
  function Rank(orphans: seq<nat>, i: nat): (c: nat)
    ensures c <= |orphans|
  {
    if orphans == [] || orphans[0] > i then 0 else 1 + Rank(orphans[1..], i)
  }

  /** The rank is where the numbers begin to exceed `i`. */
  lemma {:induction false} RankIs(orphans: seq<nat>, i: nat, c: nat)
    requires c <= |orphans| && (forall j | 0 <= j < c :: orphans[j] <= i) && (c < |orphans| ==> orphans[c] > i)
    ensures Rank(orphans, i) == c
  {
    if c > 0 {
      assert orphans[0] <= i;
      RankIs(orphans[1..], i, c - 1);
    }
  }

  lemma {:induction false} RankSplits(orphans: seq<nat>, i: nat)
    requires Sorted(orphans)
    ensures forall j | 0 <= j < |orphans| :: orphans[j] <= i <==> j < Rank(orphans, i)
  {
    if orphans != [] && orphans[0] <= i {
      RankSplits(orphans[1..], i);
      forall j | 0 <= j < |orphans| ensures orphans[j] <= i <==> j < Rank(orphans, i) {
        if j > 0 { assert orphans[j] == orphans[1..][j - 1]; }
      }
    }
  }

  /** From one number to the next the rank grows by one, or not at all. */
  lemma RankStep(orphans: seq<nat>, i: nat)
    requires Sorted(orphans)
    ensures Rank(orphans, i + 1) == Rank(orphans, i) + if i + 1 in orphans then 1 else 0
  {
    RankSplits(orphans, i);
    var c := Rank(orphans, i);
    if i + 1 in orphans {
      var j :| 0 <= j < |orphans| && orphans[j] == i + 1;
      assert c <= j;
      assert j - 1 < c by { if j > 0 { assert orphans[j - 1] < orphans[j]; } }
      assert c + 1 < |orphans| ==> orphans[c] < orphans[c + 1];
      RankIs(orphans, i + 1, c + 1);
    } else {
      RankIs(orphans, i + 1, c);
    }
  }

  lemma RankZero(orphans: seq<nat>)
    requires Sorted(orphans)
    ensures Rank(orphans, 0) == if 0 in orphans then 1 else 0
  {
    if 0 in orphans {
      var j :| 0 <= j < |orphans| && orphans[j] == 0;
      assert j == 0;
      RankIs(orphans, 0, 1);
    } else {
      RankIs(orphans, 0, 0);
    }
  }

  /** The rank of a number that is not listed is at most the number. */
  lemma {:induction false} RankBelow(orphans: seq<nat>, i: nat)
    requires Sorted(orphans)
    ensures Rank(orphans, i) <= if i in orphans then i + 1 else i
  {
    if i == 0 {
      RankZero(orphans);
    } else {
      RankBelow(orphans, i - 1);
      RankStep(orphans, i - 1);
    }
  }

  // ----- the nodes kept -----

  /** The first `k` nodes without the orphans. */
  function Kept<P>(nodes: seq<P>, orphans: seq<nat>, k: nat): seq<P>
    requires k <= |nodes|
  {
    if k == 0 then []
    else Kept(nodes, orphans, k - 1) + if k - 1 in orphans then [] else [nodes[k - 1]]
  }

  lemma {:induction false} KeptLength<P>(nodes: seq<P>, orphans: seq<nat>, k: nat)
    requires Sorted(orphans) && k <= |nodes|
    ensures |Kept(nodes, orphans, k)| == k - if k == 0 then 0 else Rank(orphans, k - 1)
  {
    if k == 1 {
      RankZero(orphans);
    } else if k > 1 {
      KeptLength(nodes, orphans, k - 1);
      RankStep(orphans, k - 2);
    }
  }

  /** The new number of a node that is kept leads to that node. */
  lemma {:induction false} KeptAt<P>(nodes: seq<P>, orphans: seq<nat>, k: nat, i: nat)
    requires Sorted(orphans) && i < k <= |nodes| && i !in orphans
    ensures Rank(orphans, i) <= i && i - Rank(orphans, i) < |Kept(nodes, orphans, k)|
    ensures Kept(nodes, orphans, k)[i - Rank(orphans, i)] == nodes[i]
  {
    KeptLength(nodes, orphans, k - 1);
    if i < k - 1 {
      KeptAt(nodes, orphans, k - 1, i);
    } else if i == 0 {
      RankZero(orphans);
    } else {
      RankStep(orphans, i - 1);
    }
  }

  /** Every node kept has such a number. */
  lemma {:induction false} KeptFrom<P>(nodes: seq<P>, orphans: seq<nat>, k: nat, m: nat) returns (i: nat)
    requires Sorted(orphans) && k <= |nodes| && m < |Kept(nodes, orphans, k)|
    ensures i < k && i !in orphans && i - Rank(orphans, i) == m
  {
    KeptLength(nodes, orphans, k - 1);
    if m < |Kept(nodes, orphans, k - 1)| {
      i := KeptFrom(nodes, orphans, k - 1, m);
    } else {
      i := k - 1;
      if i == 0 { RankZero(orphans); } else { RankStep(orphans, i - 1); }
    }
  }

  // ----- elements -----

  ghost predicate InRange(p: seq<nat>, n: nat)
  {
    forall j | 0 <= j < |p| :: p[j] < n
  }

  ghost predicate CellsInRange(cells: seq<Cell>, width: nat, n: nat)
  {
    forall i | 0 <= i < |cells| :: |cells[i].p| == width && InRange(cells[i].p, n)
  }

  /** The vertices `p'` among the nodes `nodes'` are where `p` was among `nodes`. */
  ghost predicate SamePlaces<P>(p: seq<nat>, nodes: seq<P>, p': seq<nat>, nodes': seq<P>)
    requires InRange(p, |nodes|)
  {
    && |p'| == |p| && InRange(p', |nodes'|)
    && forall j | 0 <= j < |p| :: nodes'[p'[j]] == nodes[p[j]]
  }

  ghost predicate SameCells<P>(cells: seq<Cell>, nodes: seq<P>, cells': seq<Cell>, nodes': seq<P>, width: nat)
    requires CellsInRange(cells, width, |nodes|)
  {
    && |cells'| == |cells|
    && forall i | 0 <= i < |cells| ::
         SamePlaces(cells[i].p, nodes, cells'[i].p, nodes') && cells'[i].physGroup == cells[i].physGroup
  }

  ghost predicate Uses(cells: seq<Cell>, n: nat)
  {
    exists i :: 0 <= i < |cells| && n in cells[i].p
  }

  /** Vertices after renumbering. */
  ghost predicate Renumbered(p: seq<nat>, orphans: seq<nat>, p': seq<nat>)
  {
    |p'| == |p| && forall j | 0 <= j < |p| :: Rank(orphans, p[j]) <= p[j] && p'[j] == p[j] - Rank(orphans, p[j])
  }

  ghost predicate CellsRenumbered(cells: seq<Cell>, orphans: seq<nat>, cells': seq<Cell>)
  {
    && |cells'| == |cells|
    && forall i | 0 <= i < |cells| ::
         Renumbered(cells[i].p, orphans, cells'[i].p) && cells'[i].physGroup == cells[i].physGroup
  }

  ghost predicate NoneOf(p: seq<nat>, orphans: seq<nat>)
  {
    forall j | 0 <= j < |p| :: p[j] !in orphans
  }

  /** Renumbered vertices are where they were. */
  lemma RenumberedPlaces<P>(p: seq<nat>, nodes: seq<P>, orphans: seq<nat>, p': seq<nat>)
    requires Sorted(orphans) && InRange(p, |nodes|) && NoneOf(p, orphans) && Renumbered(p, orphans, p')
    ensures SamePlaces(p, nodes, p', Kept(nodes, orphans, |nodes|))
  {
    forall j | 0 <= j < |p|
      ensures p'[j] < |Kept(nodes, orphans, |nodes|)| && Kept(nodes, orphans, |nodes|)[p'[j]] == nodes[p[j]]
    {
      KeptAt(nodes, orphans, |nodes|, p[j]);
    }
  }

  lemma RenumberedCells<P>(cells: seq<Cell>, nodes: seq<P>, orphans: seq<nat>, cells': seq<Cell>, width: nat)
    requires Sorted(orphans) && CellsInRange(cells, width, |nodes|) && CellsRenumbered(cells, orphans, cells')
    requires forall i | 0 <= i < |cells| :: NoneOf(cells[i].p, orphans)
    ensures SameCells(cells, nodes, cells', Kept(nodes, orphans, |nodes|), width)
    ensures CellsInRange(cells', width, |Kept(nodes, orphans, |nodes|)|)
  {
    forall i | 0 <= i < |cells|
      ensures SamePlaces(cells[i].p, nodes, cells'[i].p, Kept(nodes, orphans, |nodes|))
    {
      RenumberedPlaces(cells[i].p, nodes, orphans, cells'[i].p);
    }
  }

  /** A node used before is used after, under its new number. */
  lemma StillUsed(cells: seq<Cell>, orphans: seq<nat>, cells': seq<Cell>, n: nat)
    requires CellsRenumbered(cells, orphans, cells') && Uses(cells, n)
    ensures Rank(orphans, n) <= n && Uses(cells', n - Rank(orphans, n))
  {
    var i :| 0 <= i < |cells| && n in cells[i].p;
    var j :| 0 <= j < |cells[i].p| && cells[i].p[j] == n;
    assert cells'[i].p[j] == n - Rank(orphans, n);
  }

  // ----- the loops -----

  /** The offset by which each node moves down. */
  method Offsets(n: nat, orphans: seq<nat>) returns (offsets: seq<nat>)
    requires Sorted(orphans)
    ensures |offsets| == n && forall i | 0 <= i < n :: offsets[i] == Rank(orphans, i)
  {
    offsets := [];
    var curOrphan := 0;
    for ui := 0 to n
      invariant |offsets| == ui && forall i | 0 <= i < ui :: offsets[i] == Rank(orphans, i)
      invariant curOrphan <= |orphans| && forall j | 0 <= j < curOrphan :: orphans[j] <= ui
    {
      while curOrphan < |orphans| && orphans[curOrphan] <= ui
        invariant curOrphan <= |orphans| && forall j | 0 <= j < curOrphan :: orphans[j] <= ui
      {
        curOrphan := curOrphan + 1;
      }
      RankIs(orphans, ui, curOrphan);
      offsets := offsets + [curOrphan];
    }
  }

  /** Subtract its offset from each number. */
  method RenumberOne(p: seq<nat>, offsets: seq<nat>, ghost orphans: seq<nat>) returns (p': seq<nat>)
    requires InRange(p, |offsets|) && forall i | 0 <= i < |offsets| :: offsets[i] == Rank(orphans, i)
    requires Sorted(orphans) && NoneOf(p, orphans)
    ensures Renumbered(p, orphans, p')
  {
    forall j | 0 <= j < |p| ensures Rank(orphans, p[j]) <= p[j] { RankBelow(orphans, p[j]); }
    p' := p;
    for uj := 0 to |p|
      invariant |p'| == |p| && p'[uj..] == p[uj..]
      invariant forall j | 0 <= j < uj :: p'[j] == p[j] - Rank(orphans, p[j])
    {
      assert p'[uj] == p'[uj..][0] == p[uj];
      p' := p'[uj := p'[uj] - offsets[p'[uj]]];
    }
  }

  method RenumberCells(cells: seq<Cell>, offsets: seq<nat>, ghost orphans: seq<nat>, ghost width: nat)
    returns (cells': seq<Cell>)
    requires CellsInRange(cells, width, |offsets|) && forall i | 0 <= i < |offsets| :: offsets[i] == Rank(orphans, i)
    requires Sorted(orphans) && forall i | 0 <= i < |cells| :: NoneOf(cells[i].p, orphans)
    ensures CellsRenumbered(cells, orphans, cells')
  {
    cells' := [];
    for ui := 0 to |cells|
      invariant CellsRenumbered(cells[..ui], orphans, cells')
    {
      var p := RenumberOne(cells[ui].p, offsets, orphans);
      cells' := cells' + [Cell(p, cells[ui].physGroup)];
      assert cells[..ui + 1] == cells[..ui] + [cells[ui]];
    }
    assert cells[..|cells|] == cells;
  }

  /** Mark the vertices of all cells. */
  method MarkCells(cells: seq<Cell>, referenced0: seq<bool>, ghost width: nat) returns (referenced: seq<bool>)
    requires CellsInRange(cells, width, |referenced0|)
    ensures |referenced| == |referenced0|
    ensures forall n | 0 <= n < |referenced| :: referenced[n] <==> referenced0[n] || Uses(cells, n)
  {
    referenced := referenced0;
    for ui := 0 to |cells|
      invariant |referenced| == |referenced0|
      invariant forall n | 0 <= n < |referenced| :: referenced[n] <==> referenced0[n] || Uses(cells[..ui], n)
    {
      ghost var before := referenced;
      referenced := Mark(cells[ui].p, referenced);
      forall n | 0 <= n < |referenced| ensures referenced[n] <==> referenced0[n] || Uses(cells[..ui + 1], n) {
        UsesOneMore(cells, ui, n);
      }
    }
    assert cells[..|cells|] == cells;
  }

  lemma UsesOneMore(cells: seq<Cell>, ui: nat, n: nat)
    requires ui < |cells|
    ensures Uses(cells[..ui + 1], n) <==> Uses(cells[..ui], n) || n in cells[ui].p
  {
    var a, b := cells[..ui], cells[..ui + 1];
    if n in cells[ui].p { assert n in b[ui].p; }
    if Uses(a, n) {
      var i :| 0 <= i < |a| && n in a[i].p;
      assert n in b[i].p;
    }
    if Uses(b, n) && n !in cells[ui].p {
      var i :| 0 <= i < |b| && n in b[i].p;
      assert n in a[i].p;
    }
  }

  method Mark(p: seq<nat>, referenced0: seq<bool>) returns (referenced: seq<bool>)
    requires InRange(p, |referenced0|)
    ensures |referenced| == |referenced0|
    ensures forall n | 0 <= n < |referenced| :: referenced[n] <==> referenced0[n] || n in p
  {
    referenced := referenced0;
    for uj := 0 to |p|
      invariant |referenced| == |referenced0|
      invariant forall n | 0 <= n < |referenced| :: referenced[n] <==> referenced0[n] || n in p[..uj]
    {
      referenced := referenced[p[uj] := true];
      assert p[..uj + 1] == p[..uj] + [p[uj]];
    }
    assert p[..|p|] == p;
  }

  class Mesh {
    var nodes: seq<Point>
    var points: seq<nat>
    var lines: seq<Cell>
    var triangles: seq<Cell>
    var tetrahedra: seq<Cell>

    /** Every vertex is the number of a node. */
    ghost predicate Valid()
      reads this
    {
      && InRange(points, |nodes|) && CellsInRange(lines, 2, |nodes|)
      && CellsInRange(triangles, 3, |nodes|) && CellsInRange(tetrahedra, 4, |nodes|)
    }

    /** Some element has the node as a vertex. */
    ghost predicate Referenced(n: nat)
      reads this
    {
      n in points || Uses(lines, n) || Uses(triangles, n) || Uses(tetrahedra, n)
    }

    /** No element uses one of the nodes `orphans`. */
    ghost predicate Unused(orphans: seq<nat>)
      reads this
    {
      && NoneOf(points, orphans) && (forall i | 0 <= i < |lines| :: NoneOf(lines[i].p, orphans))
      && (forall i | 0 <= i < |triangles| :: NoneOf(triangles[i].p, orphans))
      && forall i | 0 <= i < |tetrahedra| :: NoneOf(tetrahedra[i].p, orphans)
    }

    /** Remove the nodes `orphans`, which no element uses. Every element stays where it was. */
    method KillOrphans(orphans: seq<nat>)
      requires Valid() && Sorted(orphans) && Unused(orphans)
      modifies this
      ensures Valid() && nodes == Kept(old(nodes), orphans, |old(nodes)|)
      ensures SamePlaces(old(points), old(nodes), points, nodes)
      ensures SameCells(old(lines), old(nodes), lines, nodes, 2)
      ensures SameCells(old(triangles), old(nodes), triangles, nodes, 3)
      ensures SameCells(old(tetrahedra), old(nodes), tetrahedra, nodes, 4)
      ensures Renumbered(old(points), orphans, points) && CellsRenumbered(old(lines), orphans, lines)
      ensures CellsRenumbered(old(triangles), orphans, triangles)
      ensures CellsRenumbered(old(tetrahedra), orphans, tetrahedra)
    {
      var offsets := Offsets(|nodes|, orphans);
      points := RenumberOne(points, offsets, orphans);
      lines := RenumberCells(lines, offsets, orphans, 2);
      triangles := RenumberCells(triangles, offsets, orphans, 3);
      tetrahedra := RenumberCells(tetrahedra, offsets, orphans, 4);
      RenumberedPlaces(old(points), nodes, orphans, points);
      RenumberedCells(old(lines), nodes, orphans, lines, 2);
      RenumberedCells(old(triangles), nodes, orphans, triangles, 3);
      RenumberedCells(old(tetrahedra), nodes, orphans, tetrahedra, 4);
      nodes := KeepNodes(nodes, orphans);
    }

    /** Mark the vertices of all elements. */
    method MarkAll() returns (referenced: seq<bool>)
      requires Valid()
      ensures |referenced| == |nodes| && forall n | 0 <= n < |nodes| :: referenced[n] <==> Referenced(n)
    {
      referenced := seq(|nodes|, _ => false);
      referenced := Mark(points, referenced);
      referenced := MarkCells(lines, referenced, 2);
      referenced := MarkCells(triangles, referenced, 3);
      referenced := MarkCells(tetrahedra, referenced, 4);
    }

    /** Remove all nodes that no element uses: those that remain are used, and every element
        stays where it was. */
    method KillAllOrphans() returns (orphans: seq<nat>)
      requires Valid()
      modifies this
      ensures Sorted(orphans) && nodes == Kept(old(nodes), orphans, |old(nodes)|)
      ensures forall n: nat :: n in orphans <==> n < |old(nodes)| && !old(Referenced(n))
      ensures Valid() && forall n | 0 <= n < |nodes| :: Referenced(n)
      ensures SamePlaces(old(points), old(nodes), points, nodes)
      ensures SameCells(old(lines), old(nodes), lines, nodes, 2)
      ensures SameCells(old(triangles), old(nodes), triangles, nodes, 3)
      ensures SameCells(old(tetrahedra), old(nodes), tetrahedra, nodes, 4)
      ensures old(Unused(orphans)) && Renumbered(old(points), orphans, points)
      ensures CellsRenumbered(old(lines), orphans, lines) && CellsRenumbered(old(triangles), orphans, triangles)
      ensures CellsRenumbered(old(tetrahedra), orphans, tetrahedra)
    {
      var referenced := MarkAll();
      orphans := Unmarked(referenced);
      UnusedIs(orphans);
      if |orphans| > 0 {
        ghost var old_nodes, old_points, old_lines := nodes, points, lines;
        ghost var old_triangles, old_tetrahedra := triangles, tetrahedra;
        ghost var was := set n: nat | n < |nodes| && Referenced(n);
        KillOrphans(orphans);
        forall m | 0 <= m < |nodes| ensures Referenced(m) {
          var n := KeptFrom(old_nodes, orphans, |old_nodes|, m);
          assert n in was;
          StillReferenced(orphans, n, old_points, old_lines, old_triangles, old_tetrahedra);
        }
      } else {
        KeepAll(nodes, |nodes|);
        SameMesh(nodes, points, lines, triangles, tetrahedra);
        forall n | 0 <= n < |nodes| ensures Referenced(n) { assert n !in orphans; }
      }
    }

    lemma UnusedIs(orphans: seq<nat>)
      requires forall n | n in orphans :: !Referenced(n)
      ensures Unused(orphans)
    {
      forall i | 0 <= i < |lines| ensures NoneOf(lines[i].p, orphans) {}
      forall i | 0 <= i < |triangles| ensures NoneOf(triangles[i].p, orphans) {}
      forall i | 0 <= i < |tetrahedra| ensures NoneOf(tetrahedra[i].p, orphans) {}
    }

    lemma StillReferenced(orphans: seq<nat>, n: nat, oldPoints: seq<nat>, oldLines: seq<Cell>,
                          oldTriangles: seq<Cell>, oldTetrahedra: seq<Cell>)
      requires n in oldPoints || Uses(oldLines, n) || Uses(oldTriangles, n) || Uses(oldTetrahedra, n)
      requires Renumbered(oldPoints, orphans, points) && CellsRenumbered(oldLines, orphans, lines)
      requires CellsRenumbered(oldTriangles, orphans, triangles) && CellsRenumbered(oldTetrahedra, orphans, tetrahedra)
      ensures Rank(orphans, n) <= n && Referenced(n - Rank(orphans, n))
    {
      if n in oldPoints {
        var j :| 0 <= j < |oldPoints| && oldPoints[j] == n;
        assert points[j] == n - Rank(orphans, n);
      } else if Uses(oldLines, n) {
        StillUsed(oldLines, orphans, lines, n);
      } else if Uses(oldTriangles, n) {
        StillUsed(oldTriangles, orphans, triangles, n);
      } else {
        StillUsed(oldTetrahedra, orphans, tetrahedra, n);
      }
    }
  }

  /** Keep the nodes that are not listed. */
  method KeepNodes<P>(nodes: seq<P>, orphans: seq<nat>) returns (newNodes: seq<P>)
    ensures newNodes == Kept(nodes, orphans, |nodes|)
  {
    newNodes := [];
    for ui := 0 to |nodes|
      invariant newNodes == Kept(nodes, orphans, ui)
    {
      if ui !in orphans {
        newNodes := newNodes + [nodes[ui]];
      }
    }
  }

  /** List what is not marked. */
  method Unmarked(referenced: seq<bool>) returns (orphans: seq<nat>)
    ensures Sorted(orphans) && forall n: nat :: n in orphans <==> n < |referenced| && !referenced[n]
  {
    orphans := [];
    for ui := 0 to |referenced|
      invariant Sorted(orphans) && forall n: nat :: n in orphans <==> n < ui && !referenced[n]
    {
      if !referenced[ui] {
        forall i | 0 <= i < |orphans| ensures orphans[i] < ui { assert orphans[i] in orphans; }
        orphans := orphans + [ui];
      }
    }
  }

  lemma {:induction false} KeepAll<P>(nodes: seq<P>, k: nat)
    requires k <= |nodes|
    ensures Kept(nodes, [], k) == nodes[..k]
  {
    if k > 0 { KeepAll(nodes, k - 1); }
  }

  lemma SameMesh(nodes: seq<Point>, points: seq<nat>, lines: seq<Cell>, triangles: seq<Cell>, tetrahedra: seq<Cell>)
    requires InRange(points, |nodes|) && CellsInRange(lines, 2, |nodes|)
    requires CellsInRange(triangles, 3, |nodes|) && CellsInRange(tetrahedra, 4, |nodes|)
    ensures SamePlaces(points, nodes, points, nodes) && SameCells(lines, nodes, lines, nodes, 2)
    ensures SameCells(triangles, nodes, triangles, nodes, 3) && SameCells(tetrahedra, nodes, tetrahedra, nodes, 4)
  {
  }
}
