/** Determinants by expansion along the first row, and the signed volume of a tetrahedron. */
module Determinants {
  import opened MeshNodes

  type Matrix = seq<seq<real>>

  ghost predicate Square(a: Matrix, n: nat)
  {
    |a| == n && forall i | 0 <= i < n :: |a[i]| == n
  }

  /** The matrix without its first row and without column `j`. */
  function Minor(a: Matrix, j: nat): Matrix
    requires Square(a, |a|) && j < |a|
  {
    seq(|a| - 1, i requires 0 <= i < |a| - 1 => a[i + 1][..j] + a[i + 1][j + 1..])
  }

  // ----- the textbook determinant -----

  function Det(a: Matrix): real
    requires Square(a, |a|) && |a| > 1
    decreases |a|, 0
  {
    if |a| == 2 then a[0][0] * a[1][1] - a[1][0] * a[0][1] else Expansion(a, |a|)
  }

  /** The first `k` terms of the expansion: the signs alternate, beginning with plus. */
  function Expansion(a: Matrix, k: nat): real
    requires Square(a, |a|) && |a| > 2 && k <= |a|
    decreases |a| - 1, k + 1
  {
    if k == 0 then 0.0
    else Expansion(a, k - 1) + if k % 2 == 1 then Cofactor(a, k - 1) else -Cofactor(a, k - 1)
  }

  function Cofactor(a: Matrix, j: nat): real
    requires Square(a, |a|) && |a| > 2 && j < |a|
    decreases |a| - 1, 1
  {
    a[0][j] * Det(Minor(a, j))
  }

  // ----- the determinant that is computed -----

  function SignVal(val: nat): real
  {
    if val % 2 == 1 then 1.0 else -1.0
  }

  function Computed(a: Matrix): real
    requires Square(a, |a|) && |a| > 1
    decreases |a|, 0
  {
    if |a| == 2 then a[0][0] * a[1][1] - a[1][0] * a[0][1] else Terms(a, |a|)
  }

  function Terms(a: Matrix, k: nat): real
    requires Square(a, |a|) && |a| > 2 && k <= |a|
    decreases |a| - 1, k + 1
  {
    if k == 0 then 0.0
    else Terms(a, k - 1) + Term(a, k - 1)
  }

  function Term(a: Matrix, j1: nat): real
    requires Square(a, |a|) && |a| > 2 && j1 < |a|
    decreases |a| - 1, 1
  {
    SignVal(2 + j1) * a[0][j1] * Computed(Minor(a, j1))
  }

  /** The signs begin with minus, so that each expansion turns the sign: for matrices of odd
      size what is computed is the negated determinant. */
  lemma {:induction false} ComputedIs(a: Matrix)
    requires Square(a, |a|) && |a| > 1
    ensures Computed(a) == if |a| % 2 == 0 then Det(a) else -Det(a)
    decreases |a|, 0
  {
    if |a| > 2 { TermsAre(a, |a|); }
  }

  lemma {:induction false} TermsAre(a: Matrix, k: nat)
    requires Square(a, |a|) && |a| > 2 && k <= |a|
    ensures Terms(a, k) == if |a| % 2 == 0 then Expansion(a, k) else -Expansion(a, k)
    decreases |a| - 1, k + 1
  {
    if k > 0 {
      TermsAre(a, k - 1);
      TermIs(a, k - 1);
      var t, e, x, y := Terms(a, k - 1), Expansion(a, k - 1), Term(a, k - 1), Cofactor(a, k - 1);
      assert Terms(a, k) == t + x;
      NextSum(x, y, |a|, k - 1, t, t + x, e, Expansion(a, k));
    }
  }

  lemma {:induction false} TermIs(a: Matrix, j: nat)
    requires Square(a, |a|) && |a| > 2 && j < |a|
    ensures Term(a, j) == if |a| % 2 == j % 2 then Cofactor(a, j) else -Cofactor(a, j)
    decreases |a| - 1, 1
  {
    var s, c, d := SignVal(2 + j), Computed(Minor(a, j)), Det(Minor(a, j));
    var plus, same := j % 2 == 1, |a| % 2 == 1;
    assert s == if plus then 1.0 else -1.0;
    ComputedIs(Minor(a, j));
    assert c == if same then d else -d;
    TermSign(s, a[0][j], c, d, plus, same);
  }

  lemma TermSign(s: real, x: real, c: real, d: real, plus: bool, same: bool)
    requires s == (if plus then 1.0 else -1.0) && c == if same then d else -d
    ensures s * x * c == if plus == same then x * d else -(x * d)
  {
    TimesSign(s, x, c);
    TimesNegated(x, d);
  }

  lemma NextSum(x: real, y: real, n: nat, j: nat, t: real, t': real, e: real, e': real)
    requires x == (if n % 2 == j % 2 then y else -y) && t == if n % 2 == 0 then e else -e
    requires t' == t + x && e' == e + if j % 2 == 0 then y else -y
    ensures t' == if n % 2 == 0 then e' else -e'
  {
  }

  lemma TimesSign(s: real, x: real, c: real)
    requires s == 1.0 || s == -1.0
    ensures s * x * c == if s == 1.0 then x * c else -(x * c)
  {
    assert s * x == if s == 1.0 then x else -x;
    TimesNegated(c, x);
  }

  lemma TimesNegated(x: real, d: real)
    ensures x * -d == -(x * d) == -d * x
  {
  }

  /** What is computed is the determinant exactly for matrices of even size and for
      singular ones. */
  lemma ComputedIsDet(a: Matrix)
    requires Square(a, |a|) && |a| > 1
    ensures Computed(a) == Det(a) <==> |a| % 2 == 0 || Det(a) == 0.0
  {
    ComputedIs(a);
  }

  /** The identity of size three is computed to have determinant -1. */
  lemma IdentityNegated()
    ensures var a: Matrix := [[1.0, 0.0, 0.0], [0.0, 1.0, 0.0], [0.0, 0.0, 1.0]];
            Square(a, 3) && Det(a) == 1.0 && Computed(a) == -1.0
  {
    var a: Matrix := [[1.0, 0.0, 0.0], [0.0, 1.0, 0.0], [0.0, 0.0, 1.0]];
    Det3(a);
    ComputedIs(a);
  }

  // ----- the scratch arrays -----

  ghost function Mat(a: array2<real>): Matrix
    reads a
  {
    seq(a.Length0, i requires 0 <= i < a.Length0 reads a =>
      seq(a.Length1, j requires 0 <= j < a.Length1 reads a => a[i, j]))
  }

  /** The column that becomes column `c` when column `j` is left out. */
  function Past(c: nat, j: nat): nat
  {
    if c < j then c else c + 1
  }

  /** The scratch matrix holds the minor. */
  method FillMinor(a: array2<real>, j1: nat) returns (m: array2<real>)
    requires a.Length0 == a.Length1 > 2 && j1 < a.Length0
    ensures fresh(m) && m.Length0 == m.Length1 == a.Length0 - 1
    ensures Mat(m) == Minor(Mat(a), j1)
  {
    var n := a.Length0;
    m := new real[n - 1, n - 1];
    var i := 1;
    while i < n
      invariant 1 <= i <= n
      invariant forall r, c | 0 <= r < i - 1 && 0 <= c < n - 1 :: m[r, c] == a[r + 1, Past(c, j1)]
    {
      var j, j2 := 0, 0;
      while j < n
        invariant 0 <= j <= n && j2 == if j <= j1 then j else j - 1
        invariant forall r, c | 0 <= r < i - 1 && 0 <= c < n - 1 :: m[r, c] == a[r + 1, Past(c, j1)]
        invariant forall c | 0 <= c < j2 :: m[i - 1, c] == a[i, Past(c, j1)]
      {
        if j != j1 {
          m[i - 1, j2] := a[i, j];
          j2 := j2 + 1;
        }
        j := j + 1;
      }
      i := i + 1;
    }
    MinorIs(Mat(a), Mat(m), j1);
  }

  lemma MinorIs(a: Matrix, m: Matrix, j: nat)
    requires Square(a, |a|) && |a| > 2 && j < |a| && Square(m, |a| - 1)
    requires forall r, c | 0 <= r < |a| - 1 && 0 <= c < |a| - 1 :: m[r][c] == a[r + 1][Past(c, j)]
    ensures m == Minor(a, j)
  {
    forall r | 0 <= r < |a| - 1 ensures m[r] == Minor(a, j)[r] {
      var row := a[r + 1][..j] + a[r + 1][j + 1..];
      forall c | 0 <= c < |a| - 1 ensures m[r][c] == row[c] { assert m[r][c] == a[r + 1][Past(c, j)]; }
      assert m[r] == row;
    }
  }

  method NextTerm(det0: real, x: real, d: real, ghost mat: Matrix, j1: nat) returns (det: real)
    requires Square(mat, |mat|) && |mat| > 2 && j1 < |mat| && det0 == Terms(mat, j1)
    requires x == mat[0][j1] && d == Computed(Minor(mat, j1))
    ensures det == Terms(mat, j1 + 1)
  {
    det := det0 + SignVal(2 + j1) * x * d;
  }

  /** Recursive expansion by minors. */
  method Determinant(a: array2<real>, n: nat) returns (det: real)
    requires a.Length0 == a.Length1 == n > 1
    ensures det == Computed(Mat(a))
    decreases n
  {
    ghost var mat := Mat(a);
    if n == 2 {
      det := a[0, 0] * a[1, 1] - a[1, 0] * a[0, 1];
    } else {
      det := 0.0;
      for j1 := 0 to n
        invariant Mat(a) == mat && det == Terms(mat, j1)
      {
        var m := FillMinor(a, j1);
        var d := Determinant(m, n - 1);
        det := NextTerm(det, a[0, j1], d, mat, j1);
      }
    }
  }

  // ----- tetrahedra -----

  /** The triple product. */
  function Triple(a: Point, b: Point, c: Point): real
  {
    a.x * (b.y * c.z - c.y * b.z) - a.y * (b.x * c.z - c.x * b.z) + a.z * (b.x * c.y - c.x * b.y)
  }

  /** The corners as rows, with a column of ones. */
  function Corners(a: Point, b: Point, c: Point, d: Point): Matrix
  {
    [[a.x, a.y, a.z, 1.0], [b.x, b.y, b.z, 1.0], [c.x, c.y, c.z, 1.0], [d.x, d.y, d.z, 1.0]]
  }

  /** Six times the signed volume of a tetrahedron. */
  function Volume6(a: Point, b: Point, c: Point, d: Point): real
  {
    Triple(a, b, c) - Triple(a, b, d) + Triple(a, c, d) - Triple(b, c, d)
  }

  method FourDeterminant(a: Point, b: Point, c: Point, d: Point) returns (v: real)
    ensures v == Volume6(a, b, c, d)
  {
    var rows := CornerRows(a, b, c, d);
    v := Determinant(rows, 4);
    ComputedIs(Corners(a, b, c, d));
    CornersDet(a, b, c, d);
  }

  /** The coordinates of a point. */
  function Coord(a: Point, ui: nat): real
  {
    if ui == 0 then a.x else if ui == 1 then a.y else a.z
  }

  method CornerRows(a: Point, b: Point, c: Point, d: Point) returns (rows: array2<real>)
    ensures rows.Length0 == rows.Length1 == 4 && Mat(rows) == Corners(a, b, c, d)
  {
    rows := new real[4, 4];
    for ui := 0 to 3
      invariant forall k | 0 <= k < ui :: rows[0, k] == Coord(a, k) && rows[1, k] == Coord(b, k)
      invariant forall k | 0 <= k < ui :: rows[2, k] == Coord(c, k) && rows[3, k] == Coord(d, k)
    {
      rows[0, ui] := Coord(a, ui);
      rows[1, ui] := Coord(b, ui);
      rows[2, ui] := Coord(c, ui);
      rows[3, ui] := Coord(d, ui);
    }
    for ui := 0 to 4
      invariant forall k | 0 <= k < ui :: rows[k, 3] == 1.0
      invariant forall k | 0 <= k < 3 :: rows[0, k] == Coord(a, k) && rows[1, k] == Coord(b, k)
      invariant forall k | 0 <= k < 3 :: rows[2, k] == Coord(c, k) && rows[3, k] == Coord(d, k)
    {
      rows[ui, 3] := 1.0;
    }
    FourRows(Mat(rows), a, b, c, d);
  }

  lemma FourRows(m: Matrix, a: Point, b: Point, c: Point, d: Point)
    requires Square(m, 4) && forall k | 0 <= k < 4 :: m[k][3] == 1.0
    requires forall k | 0 <= k < 3 :: m[0][k] == Coord(a, k) && m[1][k] == Coord(b, k)
    requires forall k | 0 <= k < 3 :: m[2][k] == Coord(c, k) && m[3][k] == Coord(d, k)
    ensures m == Corners(a, b, c, d)
  {
    assert m[0][0] == a.x && m[1][0] == b.x && m[2][0] == c.x && m[3][0] == d.x;
    assert m[0][1] == a.y && m[1][1] == b.y && m[2][1] == c.y && m[3][1] == d.y;
    assert m[0][2] == a.z && m[1][2] == b.z && m[2][2] == c.z && m[3][2] == d.z;
    var n := Corners(a, b, c, d);
    assert forall r | 0 <= r < 4 :: m[r] == n[r];
  }

  lemma Det3(a: Matrix)
    requires Square(a, 3)
    ensures Det(a) == a[0][0] * (a[1][1] * a[2][2] - a[2][1] * a[1][2])
                    - a[0][1] * (a[1][0] * a[2][2] - a[2][0] * a[1][2])
                    + a[0][2] * (a[1][0] * a[2][1] - a[2][0] * a[1][1])
  {
    assert Det(a) == Expansion(a, 3);
    assert Expansion(a, 3) == Expansion(a, 2) + a[0][2] * Det(Minor(a, 2));
    assert Expansion(a, 2) == Expansion(a, 1) - a[0][1] * Det(Minor(a, 1));
    assert Expansion(a, 1) == Expansion(a, 0) + a[0][0] * Det(Minor(a, 0));
  }

  lemma MinorOfFour(a: Matrix, j: nat)
    requires Square(a, 4) && j < 4
    ensures Square(Minor(a, j), 3)
    ensures forall r, c | 0 <= r < 3 && 0 <= c < 3 :: Minor(a, j)[r][c] == a[r + 1][Past(c, j)]
  {
  }

  lemma CornersDet(a: Point, b: Point, c: Point, d: Point)
    ensures Det(Corners(a, b, c, d)) == Volume6(a, b, c, d)
  {
    var m := Corners(a, b, c, d);
    assert Det(m) == Expansion(m, 4);
    CornerTerms(m);
    CornerMinor(m, 0, b.y, b.z, 1.0, c.y, c.z, 1.0, d.y, d.z, 1.0);
    CornerMinor(m, 1, b.x, b.z, 1.0, c.x, c.z, 1.0, d.x, d.z, 1.0);
    CornerMinor(m, 2, b.x, b.y, 1.0, c.x, c.y, 1.0, d.x, d.y, 1.0);
    CornerMinor(m, 3, b.x, b.y, b.z, c.x, c.y, c.z, d.x, d.y, d.z);
  }

  lemma CornerTerms(m: Matrix)
    requires Square(m, 4)
    ensures Expansion(m, 4) == m[0][0] * Det(Minor(m, 0)) - m[0][1] * Det(Minor(m, 1))
                             + m[0][2] * Det(Minor(m, 2)) - m[0][3] * Det(Minor(m, 3))
  {
    assert Expansion(m, 1) == Expansion(m, 0) + m[0][0] * Det(Minor(m, 0));
    assert Expansion(m, 2) == Expansion(m, 1) - m[0][1] * Det(Minor(m, 1));
    assert Expansion(m, 3) == Expansion(m, 2) + m[0][2] * Det(Minor(m, 2));
  }

  lemma CornerMinor(m: Matrix, j: nat, a: real, b: real, c: real, d: real, e: real, f: real, g: real, h: real, i: real)
    requires Square(m, 4) && j < 4
    requires [a, b, c] == [m[1][Past(0, j)], m[1][Past(1, j)], m[1][Past(2, j)]]
    requires [d, e, f] == [m[2][Past(0, j)], m[2][Past(1, j)], m[2][Past(2, j)]]
    requires [g, h, i] == [m[3][Past(0, j)], m[3][Past(1, j)], m[3][Past(2, j)]]
    ensures Det(Minor(m, j)) == a * (e * i - h * f) - b * (d * i - g * f) + c * (d * h - g * e)
  {
    MinorOfFour(m, j);
    Det3(Minor(m, j));
  }
}
