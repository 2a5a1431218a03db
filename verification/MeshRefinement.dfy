/** Splitting chosen tetrahedra of a mesh in four, at their centres. */
module MeshRefinement {
  import opened Forests
  import opened MeshNodes
  import opened Determinants

  // ----- totals -----

  function Total<X>(s: seq<X>, w: X -> real): real
  {
    if s == [] then 0.0 else Total(s[..|s| - 1], w) + w(s[|s| - 1])
  }

  lemma {:induction false} TotalConcat<X>(a: seq<X>, b: seq<X>, w: X -> real)
    ensures Total(a + b, w) == Total(a, w) + Total(b, w)
  {
    if b == [] {
      assert a + b == a;
    } else {
      assert (a + b)[..|a + b| - 1] == a + b[..|b| - 1];
      TotalConcat(a, b[..|b| - 1], w);
    }
  }

  lemma {:induction false} TotalSame<X>(s: seq<X>, v: X -> real, w: X -> real)
    requires forall x | x in s :: v(x) == w(x)
    ensures Total(s, v) == Total(s, w)
  {
    if s != [] { TotalSame(s[..|s| - 1], v, w); }
  }

  lemma OneLess<X>(u: seq<X>, v: seq<X>, w: seq<X>, x: X)
    requires multiset(u + [x]) == multiset(v + [x] + w)
    ensures multiset(u) == multiset(v + w)
  {
    assert multiset(u) == multiset(u + [x]) - multiset{x};
    assert multiset(v + w) == multiset(v + [x] + w) - multiset{x};
  }

  lemma FindInBag<X>(s: seq<X>, r: seq<X>, x: X) returns (j: nat)
    requires multiset(s) == multiset(r) && x in s
    ensures j < |r| && r[j] == x
  {
    assert x in multiset(s);
    j :| 0 <= j < |r| && r[j] == x;
  }

  /** The order does not matter. */
  lemma {:induction false} TotalOfBag<X>(a: seq<X>, b: seq<X>, w: X -> real)
    requires multiset(a) == multiset(b)
    ensures Total(a, w) == Total(b, w)
    decreases |a|
  {
    if a == [] {
      assert |multiset(b)| == |b|;
    } else {
      var u, x := a[..|a| - 1], a[|a| - 1];
      var j := FindInBag(a, b, x);
      var c := b[..j] + b[j + 1..];
      assert multiset(u) == multiset(c) by {
        assert a == u + [x] && b == b[..j] + [x] + b[j + 1..];
        OneLess(u, b[..j], b[j + 1..], x);
      }
      TotalOfBag(u, c, w);
      TotalWithout(b, j, w);
    }
  }

  lemma TotalWithout<X>(b: seq<X>, j: nat, w: X -> real)
    requires j < |b|
    ensures Total(b, w) == Total(b[..j] + b[j + 1..], w) + w(b[j])
  {
    assert b == b[..j] + [b[j]] + b[j + 1..];
    assert (b[..j] + [b[j]])[..j] == b[..j];
    TotalConcat(b[..j], b[j + 1..], w);
    TotalConcat(b[..j] + [b[j]], b[j + 1..], w);
  }

  lemma TotalOfFour<X>(s: seq<X>, w: X -> real)
    requires |s| == 4
    ensures Total(s, w) == w(s[0]) + w(s[1]) + w(s[2]) + w(s[3])
  {
    assert s[..3][..2] == s[..2] && s[..2][..1] == s[..1] && s[..1][..0] == [];
    assert Total(s, w) == Total(s[..3], w) + w(s[3]);
    assert Total(s[..3], w) == Total(s[..2], w) + w(s[2]);
    assert Total(s[..2], w) == Total(s[..1], w) + w(s[1]);
  }

  // ----- one tetrahedron -----

  /** The mean of four points. */
  function Centre(a: Point, b: Point, c: Point, d: Point): Point
  {
    Point(0.25 * (a.x + b.x + c.x + d.x), 0.25 * (a.y + b.y + c.y + d.y), 0.25 * (a.z + b.z + c.z + d.z))
  }

  lemma TripleTurns(a: Point, b: Point, c: Point)
    ensures Triple(a, b, c) == Triple(b, c, a) == -Triple(b, a, c) == -Triple(a, c, b)
  {
  }

  /** Any point splits a tetrahedron into four of the same total signed volume. */
  lemma SplitVolume(a: Point, b: Point, c: Point, d: Point, m: Point)
    ensures Volume6(a, b, m, d) + Volume6(a, m, c, d) + Volume6(m, b, c, d) + Volume6(a, b, c, m) == Volume6(a, b, c, d)
  {
    TripleTurns(b, m, d);
    TripleTurns(a, m, c);
    TripleTurns(b, c, m);
  }

  /** The four pieces of a tetrahedron, where `c` is the number of its centre. */
  function Pieces(t: Cell, c: nat, group: nat): seq<Cell>
    requires |t.p| == 4
  {
    [Cell([t.p[0], t.p[1], c, t.p[3]], group), Cell([t.p[0], c, t.p[2], t.p[3]], group),
     Cell([c, t.p[1], t.p[2], t.p[3]], group), Cell([t.p[0], t.p[1], t.p[2], c], group)]
  }

  function CellCentre(t: Cell, nodes: seq<Point>): Point
    requires |t.p| == 4 && InRange(t.p, |nodes|)
  {
    Centre(nodes[t.p[0]], nodes[t.p[1]], nodes[t.p[2]], nodes[t.p[3]])
  }

  // The centre in the place of each corner in turn.

  lemma QuarterThird(a: Point, b: Point, c: Point, d: Point)
    ensures 4.0 * Volume6(a, b, Centre(a, b, c, d), d) == Volume6(a, b, c, d)
  {
  }

  lemma QuarterSecond(a: Point, b: Point, c: Point, d: Point)
    ensures 4.0 * Volume6(a, Centre(a, b, c, d), c, d) == Volume6(a, b, c, d)
  {
  }

  lemma QuarterFirst(a: Point, b: Point, c: Point, d: Point)
    ensures 4.0 * Volume6(Centre(a, b, c, d), b, c, d) == Volume6(a, b, c, d)
  {
  }

  lemma QuarterFourth(a: Point, b: Point, c: Point, d: Point)
    ensures 4.0 * Volume6(a, b, c, Centre(a, b, c, d)) == Volume6(a, b, c, d)
  {
  }

  /** Each piece has a quarter of the volume, with the same sign. */
  lemma QuarterVolume(a: Point, b: Point, c: Point, d: Point)
    ensures var m := Centre(a, b, c, d);
            && 4.0 * Volume6(a, b, m, d) == Volume6(a, b, c, d) && 4.0 * Volume6(a, m, c, d) == Volume6(a, b, c, d)
            && 4.0 * Volume6(m, b, c, d) == Volume6(a, b, c, d) && 4.0 * Volume6(a, b, c, m) == Volume6(a, b, c, d)
  {
    QuarterThird(a, b, c, d);
    QuarterSecond(a, b, c, d);
    QuarterFirst(a, b, c, d);
    QuarterFourth(a, b, c, d);
  }

  /** A measure of the tetrahedron with the given corners. */
  type Measure = (Point, Point, Point, Point) -> real

  /** What the four pieces measure together. */
  ghost function SplitSum(v: Measure, a: Point, b: Point, c: Point, d: Point, m: Point): real
  {
    v(a, b, m, d) + v(a, m, c, d) + v(m, b, c, d) + v(a, b, c, m)
  }

  /** A measure that any inner point splits without loss. */
  ghost predicate Splits(v: Measure)
  {
    forall a, b, c, d, m :: SplitSum(v, a, b, c, d, m) == v(a, b, c, d)
  }

  /** The signed volume is such a measure. */
  lemma VolumeSplits()
    ensures Splits(Volume6)
  {
    forall a, b, c, d, m ensures SplitSum(Volume6, a, b, c, d, m) == Volume6(a, b, c, d) {
      SplitVolume(a, b, c, d, m);
    }
  }

  /** The measure of a cell of the mesh. */
  function MeasureIn(v: Measure, nodes: seq<Point>): Cell -> real
  {
    (t: Cell) => if |t.p| == 4 && (forall j | 0 <= j < 4 :: t.p[j] < |nodes|)
                 then v(nodes[t.p[0]], nodes[t.p[1]], nodes[t.p[2]], nodes[t.p[3]]) else 0.0
  }

  /** Each of the four pieces at the centre has a quarter of the volume, with the same sign. */
  lemma PiecesQuarter(t: Cell, nodes: seq<Point>, c: nat, group: nat, k: nat)
    requires |t.p| == 4 && InRange(t.p, |nodes|) && c < |nodes| && nodes[c] == CellCentre(t, nodes) && k < 4
    ensures 4.0 * MeasureIn(Volume6, nodes)(Pieces(t, c, group)[k]) == MeasureIn(Volume6, nodes)(t)
  {
    QuarterVolume(nodes[t.p[0]], nodes[t.p[1]], nodes[t.p[2]], nodes[t.p[3]]);
  }

  lemma PiecesVolume(v: Measure, t: Cell, nodes: seq<Point>, c: nat, group: nat)
    requires |t.p| == 4 && InRange(t.p, |nodes|) && c < |nodes| && Splits(v)
    ensures CellsInRange(Pieces(t, c, group), 4, |nodes|)
    ensures Total(Pieces(t, c, group), MeasureIn(v, nodes)) == MeasureIn(v, nodes)(t)
  {
    TotalOfFour(Pieces(t, c, group), MeasureIn(v, nodes));
    var a, b, e, f := nodes[t.p[0]], nodes[t.p[1]], nodes[t.p[2]], nodes[t.p[3]];
    assert SplitSum(v, a, b, e, f, nodes[c]) == v(a, b, e, f);
  }

  // ----- all chosen tetrahedra -----

  ghost predicate Choice(tets: seq<Cell>, rs: seq<nat>, n: nat)
  {
    CellsInRange(tets, 4, n) && InRange(rs, |tets|)
  }

  function Chosen(tets: seq<Cell>, rs: seq<nat>): seq<Cell>
    requires InRange(rs, |tets|)
  {
    if rs == [] then [] else Chosen(tets, rs[..|rs| - 1]) + [tets[rs[|rs| - 1]]]
  }

  /** The pieces of the chosen tetrahedra; their centres are numbered from `n`. */
  function AllPieces(tets: seq<Cell>, rs: seq<nat>, n: nat, groups: seq<nat>): seq<Cell>
    requires Choice(tets, rs, n) && |groups| == |rs|
  {
    if rs == [] then []
    else
      var k := |rs| - 1;
      AllPieces(tets, rs[..k], n, groups[..k]) + Pieces(tets[rs[k]], n + k, groups[k])
  }

  function Centres(tets: seq<Cell>, rs: seq<nat>, nodes: seq<Point>): (c: seq<Point>)
    requires Choice(tets, rs, |nodes|)
    ensures |c| == |rs|
  {
    if rs == [] then []
    else
      var k := |rs| - 1;
      Centres(tets, rs[..k], nodes) + [CellCentre(tets[rs[k]], nodes)]
  }

  /** Further nodes do not change volumes. */
  lemma VolumeGrows(v: Measure, cells: seq<Cell>, nodes: seq<Point>, more: seq<Point>)
    requires CellsInRange(cells, 4, |nodes|)
    ensures CellsInRange(cells, 4, |nodes + more|)
    ensures Total(cells, MeasureIn(v, nodes + more)) == Total(cells, MeasureIn(v, nodes))
  {
    forall t | t in cells ensures MeasureIn(v, nodes + more)(t) == MeasureIn(v, nodes)(t) {
      var i :| 0 <= i < |cells| && cells[i] == t;
      assert forall j | 0 <= j < 4 :: (nodes + more)[t.p[j]] == nodes[t.p[j]];
    }
    TotalSame(cells, MeasureIn(v, nodes + more), MeasureIn(v, nodes));
  }

  lemma RangeConcat(a: seq<Cell>, b: seq<Cell>, n: nat)
    requires CellsInRange(a, 4, n) && CellsInRange(b, 4, n)
    ensures CellsInRange(a + b, 4, n)
  {
  }

  /** The pieces have the volume of the chosen tetrahedra. */
  lemma {:induction false} AllPiecesVolume(v: Measure, tets: seq<Cell>, rs: seq<nat>, nodes: seq<Point>,
                                           groups: seq<nat>,
                                           pieces: seq<Cell>, all: seq<Point>, chosen: seq<Cell>)
    requires Choice(tets, rs, |nodes|) && |groups| == |rs| && pieces == AllPieces(tets, rs, |nodes|, groups)
    requires all == nodes + Centres(tets, rs, nodes) && chosen == Chosen(tets, rs) && Splits(v)
    ensures CellsInRange(pieces, 4, |nodes| + |rs|)
    ensures Total(pieces, MeasureIn(v, all)) == Total(chosen, MeasureIn(v, nodes))
    decreases |rs|
  {
    if rs != [] {
      var k := |rs| - 1;
      var rs0, groups0, t := rs[..k], groups[..k], tets[rs[k]];
      var pieces0, centres0 := AllPieces(tets, rs0, |nodes|, groups0), Centres(tets, rs0, nodes);
      var chosen0 := Chosen(tets, rs0);
      AllPiecesVolume(v, tets, rs0, nodes, groups0, pieces0, nodes + centres0, chosen0);
      OneMoreTetrahedron(v, pieces0, t, nodes, centres0, CellCentre(t, nodes), groups[k], chosen0);
      assert nodes + centres0 + [CellCentre(t, nodes)] == all;
      assert pieces == pieces0 + Pieces(t, |nodes| + |centres0|, groups[k]) && chosen == chosen0 + [t];
    } else {
      assert pieces == [] && chosen == [];
    }
  }

  lemma OneMoreTetrahedron(v: Measure, pieces: seq<Cell>, t: Cell, nodes: seq<Point>, centres: seq<Point>, c: Point,
                           group: nat,
                           chosen: seq<Cell>)
    requires CellsInRange(pieces, 4, |nodes + centres|) && |t.p| == 4 && InRange(t.p, |nodes|) && Splits(v)
    requires Total(pieces, MeasureIn(v, nodes + centres)) == Total(chosen, MeasureIn(v, nodes))
    ensures var pieces' := pieces + Pieces(t, |nodes| + |centres|, group);
            && CellsInRange(pieces', 4, |nodes| + |centres| + 1)
            && Total(pieces', MeasureIn(v, nodes + centres + [c])) == Total(chosen + [t], MeasureIn(v, nodes))
  {
    var all := nodes + centres + [c];
    var four := Pieces(t, |nodes| + |centres|, group);
    VolumeGrows(v, pieces, nodes + centres, [c]);
    PiecesVolume(v, t, all, |nodes| + |centres|, group);
    RangeConcat(pieces, four, |all|);
    assert nodes + (centres + [c]) == all;
    VolumeGrows(v, [t], nodes, centres + [c]);
    TotalsGrow(pieces, four, chosen, t, MeasureIn(v, nodes), MeasureIn(v, nodes + centres), MeasureIn(v, all));
  }

  /** Adding up, whatever the weights are. */
  lemma TotalsGrow<X>(pieces: seq<X>, four: seq<X>, chosen: seq<X>, t: X, u: X -> real, v: X -> real, w: X -> real)
    requires Total(pieces, v) == Total(chosen, u) && Total(pieces, w) == Total(pieces, v)
    requires Total(four, w) == w(t) && Total([t], w) == Total([t], u)
    ensures Total(pieces + four, w) == Total(chosen + [t], u)
  {
    TotalConcat(pieces, four, w);
    TotalConcat(chosen, [t], u);
    OneTotal(t, u);
    OneTotal(t, w);
  }

  lemma OneTotal<X>(x: X, w: X -> real)
    ensures Total([x], w) == w(x)
  {
  }

  /** Append the pieces of tetrahedron `r` and its centre. */
  method SplitOne(m: Mesh, r: nat, ghost tets: seq<Cell>, ghost nodes: seq<Point>) returns (group: nat)
    requires CellsInRange(tets, 4, |nodes|) && r < |tets| && tets <= m.tetrahedra && nodes <= m.nodes
    modifies m`nodes, m`tetrahedra
    ensures m.tetrahedra == old(m.tetrahedra) + Pieces(tets[r], |old(m.nodes)|, group)
    ensures m.nodes == old(m.nodes) + [CellCentre(tets[r], nodes)]
  {
    var p := m.tetrahedra[r].p;
    assert m.tetrahedra[r] == tets[r];
    var accum := Point(0.0, 0.0, 0.0);
    for uk := 0 to 4
      invariant uk >= 1 ==> nodes[p[0]] == m.nodes[p[0]]
      invariant accum == SumOf(p, nodes, uk)
    {
      var n := m.nodes[p[uk]];
      assert n == nodes[p[uk]];
      accum := Point(accum.x + n.x, accum.y + n.y, accum.z + n.z);
    }
    accum := Point(accum.x * 0.25, accum.y * 0.25, accum.z * 0.25);
    group := *;
    var c := |m.nodes|;
    m.tetrahedra := m.tetrahedra + [Cell([p[0], p[1], c, p[3]], group)];
    m.tetrahedra := m.tetrahedra + [Cell([p[0], c, p[2], p[3]], group)];
    m.tetrahedra := m.tetrahedra + [Cell([c, p[1], p[2], p[3]], group)];
    m.tetrahedra := m.tetrahedra + [Cell([p[0], p[1], p[2], c], group)];
    m.nodes := m.nodes + [accum];
    SumIsCentre(p, nodes);
  }

  /** The sum of the first `k` corners. */
  ghost function SumOf(p: seq<nat>, nodes: seq<Point>, k: nat): Point
    requires InRange(p, |nodes|) && k <= |p|
  {
    if k == 0 then Point(0.0, 0.0, 0.0)
    else
      var s, n := SumOf(p, nodes, k - 1), nodes[p[k - 1]];
      Point(s.x + n.x, s.y + n.y, s.z + n.z)
  }

  lemma SumIsCentre(p: seq<nat>, nodes: seq<Point>)
    requires |p| == 4 && InRange(p, |nodes|)
    ensures var s, c := SumOf(p, nodes, 4), Centre(nodes[p[0]], nodes[p[1]], nodes[p[2]], nodes[p[3]]);
            s.x * 0.25 == c.x && s.y * 0.25 == c.y && s.z * 0.25 == c.z
  {
    var a, b := SumOf(p, nodes, 1), SumOf(p, nodes, 2);
    assert SumOf(p, nodes, 0) == Point(0.0, 0.0, 0.0);
    assert a.x == nodes[p[0]].x && b.x == a.x + nodes[p[1]].x && SumOf(p, nodes, 3).x == b.x + nodes[p[2]].x;
    assert a.y == nodes[p[0]].y && b.y == a.y + nodes[p[1]].y && SumOf(p, nodes, 3).y == b.y + nodes[p[2]].y;
    assert a.z == nodes[p[0]].z && b.z == a.z + nodes[p[1]].z && SumOf(p, nodes, 3).z == b.z + nodes[p[2]].z;
  }

  /** Append the pieces of all chosen tetrahedra. */
  method SplitAll(m: Mesh, rs: seq<nat>) returns (ghost groups: seq<nat>)
    requires Choice(m.tetrahedra, rs, |m.nodes|)
    modifies m`nodes, m`tetrahedra
    ensures |groups| == |rs|
    ensures m.tetrahedra == old(m.tetrahedra) + AllPieces(old(m.tetrahedra), rs, |old(m.nodes)|, groups)
    ensures m.nodes == old(m.nodes) + Centres(old(m.tetrahedra), rs, old(m.nodes))
  {
    ghost var tets, nodes := m.tetrahedra, m.nodes;
    groups := [];
    for ui := 0 to |rs|
      invariant |groups| == ui
      invariant m.tetrahedra == tets + AllPieces(tets, rs[..ui], |nodes|, groups)
      invariant m.nodes == nodes + Centres(tets, rs[..ui], nodes)
    {
      var group := SplitOne(m, rs[ui], tets, nodes);
      assert rs[..ui + 1][..ui] == rs[..ui] && (groups + [group])[..ui] == groups;
      groups := groups + [group];
    }
    assert rs[..|rs|] == rs;
  }

  // ----- deleting the tetrahedra that were split -----

  /** Insert a number into a sorted sequence. */
  method InsertSorted(s: seq<nat>, x: nat) returns (r: seq<nat>)
    requires Ascending(s)
    ensures Ascending(r) && multiset(r) == multiset(s + [x])
  {
    var i := 0;
    while i < |s| && s[i] <= x
      invariant i <= |s| && forall j | 0 <= j < i :: s[j] <= x
    {
      i := i + 1;
    }
    r := s[..i] + [x] + s[i..];
    InsertedBag(s, x, i);
  }

  lemma InsertedBag<X>(s: seq<X>, x: X, i: nat)
    requires i <= |s|
    ensures multiset(s[..i] + [x] + s[i..]) == multiset(s + [x])
  {
    assert s == s[..i] + s[i..];
    assert multiset(s + [x]) == multiset(s) + multiset{x};
    assert multiset(s[..i] + [x] + s[i..]) == multiset(s[..i]) + multiset{x} + multiset(s[i..]);
  }

  ghost predicate Ascending(s: seq<nat>)
  {
    forall i, j | 0 <= i < j < |s| :: s[i] <= s[j]
  }

  method Sort(s: seq<nat>) returns (r: seq<nat>)
    ensures Ascending(r) && multiset(r) == multiset(s)
  {
    r := [];
    for k := 0 to |s|
      invariant Ascending(r) && multiset(r) == multiset(s[..k])
    {
      r := InsertSorted(r, s[k]);
      assert s[..k + 1] == s[..k] + [s[k]];
    }
    assert s[..|s|] == s;
  }

  lemma {:induction false} UnrepeatedBag(s: seq<nat>)
    ensures NoRepeat(s) <==> forall x | x in s :: multiset(s)[x] == 1
  {
    if s != [] {
      var k := |s| - 1;
      var u, y := s[..k], s[k];
      assert s == u + [y];
      UnrepeatedBag(u);
      if NoRepeat(s) {
        assert y !in u;
        forall x | x in s ensures multiset(s)[x] == 1 { assert x != y ==> x in u; }
      }
      if forall x | x in s :: multiset(s)[x] == 1 {
        assert multiset(s)[y] == multiset(u)[y] + 1;
        assert y !in u;
        forall x | x in u ensures multiset(u)[x] == 1 { assert x in s; }
      }
    }
  }

  lemma SortedChoice(s: seq<nat>, r: seq<nat>, n: nat)
    requires multiset(s) == multiset(r) && NoRepeat(s) && InRange(s, n)
    ensures NoRepeat(r) && |r| == |s| && InRange(r, n)
    ensures forall x :: x in s <==> x in r
  {
    UnrepeatedBag(s);
    UnrepeatedBag(r);
    assert |multiset(s)| == |s| && |multiset(r)| == |r|;
    assert forall x :: x in s <==> x in multiset(s);
    assert forall x :: x in r <==> x in multiset(r);
    forall i | 0 <= i < |r| ensures r[i] < n { assert r[i] in r && r[i] in s; }
  }

  lemma RangeOfBoth(a: seq<nat>, b: seq<nat>, n: nat)
    ensures InRange(a + b, n) <==> InRange(a, n) && InRange(b, n)
  {
    if InRange(a + b, n) {
      forall i | 0 <= i < |a| ensures a[i] < n { assert (a + b)[i] < n; }
      forall i | 0 <= i < |b| ensures b[i] < n { assert (a + b)[|a| + i] < n; }
    }
  }

  lemma {:induction false} ChosenConcat(tets: seq<Cell>, a: seq<nat>, b: seq<nat>)
    requires InRange(a, |tets|) && InRange(b, |tets|) && InRange(a + b, |tets|)
    ensures Chosen(tets, a + b) == Chosen(tets, a) + Chosen(tets, b)
    decreases |b|
  {
    if b == [] {
      assert a + b == a;
    } else {
      var b0 := b[..|b| - 1];
      assert (a + b)[..|a + b| - 1] == a + b0;
      ChosenConcat(tets, a, b0);
    }
  }

  /** The chosen ones, in another order. */
  lemma ChosenBag(tets: seq<Cell>, a: seq<nat>, x: nat, b: seq<nat>)
    requires InRange(a, |tets|) && InRange(b, |tets|) && x < |tets|
    ensures InRange(a + [x] + b, |tets|) && InRange(a + b, |tets|)
    ensures multiset(Chosen(tets, a + [x] + b)) == multiset(Chosen(tets, a + b)) + multiset{tets[x]}
  {
    RangeOfBoth(a, b, |tets|);
    RangeOfBoth(a, [x], |tets|);
    RangeOfBoth(a + [x], b, |tets|);
    ChosenConcat(tets, a, b);
    ChosenConcat(tets, a, [x]);
    ChosenConcat(tets, a + [x], b);
    assert ([x])[..0] == [];
    assert Chosen(tets, [x]) == [tets[x]];
  }

  lemma {:induction false} ChosenSame(tets: seq<Cell>, s: seq<nat>, r: seq<nat>)
    requires multiset(s) == multiset(r) && InRange(s, |tets|) && InRange(r, |tets|)
    ensures multiset(Chosen(tets, s)) == multiset(Chosen(tets, r))
    decreases |s|
  {
    if s == [] {
      assert |multiset(r)| == |r|;
    } else {
      var k := |s| - 1;
      var x := s[k];
      var j := FindInBag(s, r, x);
      var s0, a, b := s[..k], r[..j], r[j + 1..];
      assert s == s0 + [x] && r == a + [x] + b;
      OneLess(s0, a, b, x);
      ChosenBag(tets, a, x, b);
      ChosenSame(tets, s0, a + b);
      assert Chosen(tets, s) == Chosen(tets, s0) + [tets[x]];
    }
  }

  /** Swap with the last one and drop that. */
  function SwapPop<X>(s: seq<X>, i: nat): seq<X>
    requires i < |s|
  {
    s[i := s[|s| - 1]][..|s| - 1]
  }

  lemma SwapPopBag<X>(s: seq<X>, i: nat)
    requires i + 1 < |s|
    ensures multiset(SwapPop(s, i)) + multiset{s[i]} == multiset(s)
  {
    var k := |s| - 1;
    var u := s[..k];
    assert s == u + [s[k]];
    assert SwapPop(s, i) == u[i := s[k]];
    assert multiset(u[i := s[k]]) == multiset(u) - multiset{u[i]} + multiset{s[k]};
  }

  /** The tetrahedra after the first of `rs` have been deleted from `all`. */
  ghost predicate Deleted(all: seq<Cell>, rs: seq<nat>, n: nat, s: seq<Cell>)
    requires InRange(rs, |all|)
  {
    && |s| == |all| - |rs| && n <= |s| && (forall i | 0 <= i < n && i !in rs :: s[i] == all[i])
    && multiset(s) + multiset(Chosen(all, rs)) == multiset(all)
  }

  lemma DeleteOne(all: seq<Cell>, rs: seq<nat>, r: nat, n: nat, s: seq<Cell>)
    requires r < n <= |all| && r !in rs && n < |s| && InRange(rs, |all|)
    requires Deleted(all, rs, n, s)
    ensures Deleted(all, rs + [r], n, SwapPop(s, r))
  {
    SwapPopBag(s, r);
    assert (rs + [r])[..|rs|] == rs;
    assert Chosen(all, rs + [r]) == Chosen(all, rs) + [all[r]];
  }

  /** Delete the tetrahedra at the given places, of which there are more than enough behind
      the first `n` to fill the gaps. */
  method DeleteSplit(m: Mesh, rs: seq<nat>, ghost n: nat)
    requires NoRepeat(rs) && InRange(rs, n) && n + |rs| <= |m.tetrahedra|
    modifies m`tetrahedra
    ensures Deleted(old(m.tetrahedra), rs, n, m.tetrahedra)
  {
    ghost var all := m.tetrahedra;
    for ui := 0 to |rs|
      invariant Deleted(all, rs[..ui], n, m.tetrahedra)
    {
      ghost var done := rs[..ui];
      assert rs[..ui + 1] == done + [rs[ui]] && rs[ui] !in done;
      DeleteOne(all, done, rs[ui], n, m.tetrahedra);
      m.tetrahedra := SwapBack(m.tetrahedra, rs[ui]);
    }
    assert rs[..|rs|] == rs;
  }

  /** Swap with the last one, and drop that. */
  method SwapBack(s: seq<Cell>, r: nat) returns (s': seq<Cell>)
    requires r < |s|
    ensures s' == SwapPop(s, r)
  {
    var last := |s| - 1;
    s' := s[r := s[last]][last := s[r]];
    s' := s'[..last];
  }

  /** The tetrahedra `tets'` are those of `tets`, but for the chosen ones: these are replaced
      by their pieces, every other one keeps its place, and the total signed volume stays
      the same. */
  ghost predicate Refinement(tets: seq<Cell>, nodes: seq<Point>, rs: seq<nat>, groups: seq<nat>,
                             tets': seq<Cell>, nodes': seq<Point>)
    requires Choice(tets, rs, |nodes|)
  {
    && |groups| == |rs| && nodes' == nodes + Centres(tets, rs, nodes)
    && |tets'| == |tets| + 3 * |rs| && (forall i | 0 <= i < |tets| && i !in rs :: tets'[i] == tets[i])
    && multiset(tets') + multiset(Chosen(tets, rs)) == multiset(tets) + multiset(AllPieces(tets, rs, |nodes|, groups))
    && Total(tets', MeasureIn(Volume6, nodes')) == Total(tets, MeasureIn(Volume6, nodes))
  }

  /** Refine the chosen tetrahedra. */
  method RefineTetrahedra(m: Mesh, refineTets: seq<nat>) returns (ghost groups: seq<nat>)
    requires m.Valid() && NoRepeat(refineTets) && InRange(refineTets, |m.tetrahedra|)
    modifies m`nodes, m`tetrahedra
    ensures m.Valid()
    ensures Refinement(old(m.tetrahedra), old(m.nodes), refineTets, groups, m.tetrahedra, m.nodes)
  {
    groups := ReplaceTetrahedra(m, refineTets, m.tetrahedra, m.nodes);
  }

  method ReplaceTetrahedra(m: Mesh, refineTets: seq<nat>, ghost tets: seq<Cell>, ghost nodes: seq<Point>)
    returns (ghost groups: seq<nat>)
    requires m.tetrahedra == tets && m.nodes == nodes && CellsInRange(tets, 4, |nodes|)
    requires NoRepeat(refineTets) && InRange(refineTets, |tets|)
    modifies m`nodes, m`tetrahedra
    ensures |nodes| <= |m.nodes| && CellsInRange(m.tetrahedra, 4, |m.nodes|)
    ensures Refinement(tets, nodes, refineTets, groups, m.tetrahedra, m.nodes)
  {
    groups := SplitAll(m, refineTets);
    DropSplit(m, refineTets, tets, nodes, groups, AllPieces(tets, refineTets, |nodes|, groups));
  }

  /** Delete the tetrahedra that have been split. */
  method DropSplit(m: Mesh, refineTets: seq<nat>, ghost tets: seq<Cell>, ghost nodes: seq<Point>,
                   ghost groups: seq<nat>,
                   ghost pieces: seq<Cell>)
    requires Choice(tets, refineTets, |nodes|) && NoRepeat(refineTets) && |groups| == |refineTets|
    requires pieces == AllPieces(tets, refineTets, |nodes|, groups) && m.tetrahedra == tets + pieces
    requires m.nodes == nodes + Centres(tets, refineTets, nodes)
    modifies m`tetrahedra
    ensures CellsInRange(m.tetrahedra, 4, |m.nodes|)
    ensures Refinement(tets, nodes, refineTets, groups, m.tetrahedra, m.nodes)
  {
    PiecesCount(tets, refineTets, |nodes|, groups);
    var sorted := Sort(refineTets);
    SortedChoice(refineTets, sorted, |tets|);
    DeleteSplit(m, sorted, |tets|);
    VolumeSplits();
    Refined(Volume6, tets, refineTets, sorted, nodes, groups, pieces, m.tetrahedra, m.nodes);
  }

  lemma {:induction false} PiecesCount(tets: seq<Cell>, rs: seq<nat>, n: nat, groups: seq<nat>)
    requires Choice(tets, rs, n) && |groups| == |rs|
    ensures |AllPieces(tets, rs, n, groups)| == 4 * |rs|
    decreases |rs|
  {
    if rs != [] { PiecesCount(tets, rs[..|rs| - 1], n, groups[..|rs| - 1]); }
  }

  lemma {:induction false} ChosenOfLonger(tets: seq<Cell>, more: seq<Cell>, rs: seq<nat>)
    requires InRange(rs, |tets|)
    ensures Chosen(tets + more, rs) == Chosen(tets, rs)
    decreases |rs|
  {
    if rs != [] { ChosenOfLonger(tets, more, rs[..|rs| - 1]); }
  }

  /** What has become of the tetrahedra. */
  lemma Refined(v: Measure, tets: seq<Cell>, rs: seq<nat>, sorted: seq<nat>, nodes: seq<Point>, groups: seq<nat>,
                pieces: seq<Cell>, result: seq<Cell>, nodes': seq<Point>)
    requires Choice(tets, rs, |nodes|) && |groups| == |rs| && multiset(sorted) == multiset(rs)
    requires InRange(sorted, |tets|) && nodes' == nodes + Centres(tets, rs, nodes)
    requires pieces == AllPieces(tets, rs, |nodes|, groups) && Deleted(tets + pieces, sorted, |tets|, result)
    requires Splits(v)
    ensures multiset(result) + multiset(Chosen(tets, rs)) == multiset(tets) + multiset(pieces)
    ensures CellsInRange(result, 4, |nodes'|) && Total(result, MeasureIn(v, nodes')) == Total(tets, MeasureIn(v, nodes))
  {
    var centres, chosen := Centres(tets, rs, nodes), Chosen(tets, rs);
    RefinedBag(tets, pieces, rs, sorted, result);
    AllPiecesVolume(v, tets, rs, nodes, groups, pieces, nodes', chosen);
    VolumeGrows(v, tets, nodes, centres);
    RangeConcat(tets, pieces, |nodes'|);
    RefinedRange(tets + pieces, chosen, result, |nodes'|);
    ChosenInRange(tets, rs, |nodes|);
    VolumeGrows(v, chosen, nodes, centres);
    RefinedTotal(tets, pieces, chosen, result, MeasureIn(v, nodes), MeasureIn(v, nodes'));
  }

  lemma RefinedBag(tets: seq<Cell>, pieces: seq<Cell>, rs: seq<nat>, sorted: seq<nat>, result: seq<Cell>)
    requires multiset(sorted) == multiset(rs) && InRange(sorted, |tets|)
    requires InRange(rs, |tets|) && Deleted(tets + pieces, sorted, |tets|, result)
    ensures multiset(result) + multiset(Chosen(tets, rs)) == multiset(tets) + multiset(pieces)
    ensures multiset(result + Chosen(tets, rs)) == multiset(tets + pieces)
  {
    ChosenOfLonger(tets, pieces, sorted);
    ChosenSame(tets, sorted, rs);
  }

  lemma RefinedRange(all: seq<Cell>, chosen: seq<Cell>, result: seq<Cell>, n: nat)
    requires CellsInRange(all, 4, n) && multiset(result + chosen) == multiset(all)
    ensures CellsInRange(result, 4, n)
  {
    forall i | 0 <= i < |result| ensures |result[i].p| == 4 && InRange(result[i].p, n) {
      assert result[i] == (result + chosen)[i];
      assert result[i] in multiset(all);
    }
  }

  lemma RefinedTotal<X>(tets: seq<X>, pieces: seq<X>, chosen: seq<X>, result: seq<X>, v: X -> real, w: X -> real)
    requires multiset(result + chosen) == multiset(tets + pieces)
    requires Total(pieces, w) == Total(chosen, v) == Total(chosen, w) && Total(tets, w) == Total(tets, v)
    ensures Total(result, w) == Total(tets, v)
  {
    TotalOfBag(result + chosen, tets + pieces, w);
    TotalConcat(result, chosen, w);
    TotalConcat(tets, pieces, w);
  }

  lemma {:induction false} ChosenInRange(tets: seq<Cell>, rs: seq<nat>, n: nat)
    requires Choice(tets, rs, n)
    ensures CellsInRange(Chosen(tets, rs), 4, n)
    decreases |rs|
  {
    if rs != [] { ChosenInRange(tets, rs[..|rs| - 1], n); }
  }
}
