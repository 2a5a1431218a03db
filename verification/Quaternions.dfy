/** Rotating points with quaternions, over the reals. */
module Quaternions {

  datatype Quaternion = Quaternion(a: real, b: real, c: real, d: real)

  datatype Vector = Vector(x: real, y: real, z: real)

  // ----- quaternion algebra -----

  /** The Hamilton product. */
  function Mul(p: Quaternion, q: Quaternion): Quaternion
  {
    Quaternion(p.a * q.a - p.b * q.b - p.c * q.c - p.d * q.d,
               p.a * q.b + p.b * q.a + p.c * q.d - p.d * q.c,
               p.a * q.c - p.b * q.d + p.c * q.a + p.d * q.b,
               p.a * q.d + p.b * q.c - p.c * q.b + p.d * q.a)
  }

  function Conj(q: Quaternion): Quaternion
  {
    Quaternion(q.a, -q.b, -q.c, -q.d)
  }

  function Scale(n: real, q: Quaternion): Quaternion
  {
    Quaternion(n * q.a, n * q.b, n * q.c, n * q.d)
  }

  function Norm(q: Quaternion): real
  {
    q.a * q.a + q.b * q.b + q.c * q.c + q.d * q.d
  }

  function Pure(v: Vector): Quaternion
  {
    Quaternion(0.0, v.x, v.y, v.z)
  }

  function VectorPart(q: Quaternion): Vector
  {
    Vector(q.b, q.c, q.d)
  }

  function Dot(u: Vector, v: Vector): real
  {
    u.x * v.x + u.y * v.y + u.z * v.z
  }

  // The components of a product of three quaternions, multiplied out in either order.

  lemma Component1(a: real, b: real, c: real, d: real, e: real, f: real, g: real, h: real, i: real, j: real, k: real,
                   l: real,
                   s1: real, s2: real, s3: real, s4: real, t1: real, t2: real, t3: real, t4: real)
    requires s1 == a * e - b * f - c * g - d * h && s2 == a * f + b * e + c * h - d * g
    requires s3 == a * g - b * h + c * e + d * f && s4 == a * h + b * g - c * f + d * e
    requires t1 == e * i - f * j - g * k - h * l && t2 == e * j + f * i + g * l - h * k
    requires t3 == e * k - f * l + g * i + h * j && t4 == e * l + f * k - g * j + h * i
    ensures s1 * i - s2 * j - s3 * k - s4 * l == a * t1 - b * t2 - c * t3 - d * t4
  {
  }

  lemma Component2(a: real, b: real, c: real, d: real, e: real, f: real, g: real, h: real, i: real, j: real, k: real,
                   l: real,
                   s1: real, s2: real, s3: real, s4: real, t1: real, t2: real, t3: real, t4: real)
    requires s1 == a * e - b * f - c * g - d * h && s2 == a * f + b * e + c * h - d * g
    requires s3 == a * g - b * h + c * e + d * f && s4 == a * h + b * g - c * f + d * e
    requires t1 == e * i - f * j - g * k - h * l && t2 == e * j + f * i + g * l - h * k
    requires t3 == e * k - f * l + g * i + h * j && t4 == e * l + f * k - g * j + h * i
    ensures s1 * j + s2 * i + s3 * l - s4 * k == a * t2 + b * t1 + c * t4 - d * t3
  {
  }

  lemma Component3(a: real, b: real, c: real, d: real, e: real, f: real, g: real, h: real, i: real, j: real, k: real,
                   l: real,
                   s1: real, s2: real, s3: real, s4: real, t1: real, t2: real, t3: real, t4: real)
    requires s1 == a * e - b * f - c * g - d * h && s2 == a * f + b * e + c * h - d * g
    requires s3 == a * g - b * h + c * e + d * f && s4 == a * h + b * g - c * f + d * e
    requires t1 == e * i - f * j - g * k - h * l && t2 == e * j + f * i + g * l - h * k
    requires t3 == e * k - f * l + g * i + h * j && t4 == e * l + f * k - g * j + h * i
    ensures s1 * k - s2 * l + s3 * i + s4 * j == a * t3 - b * t4 + c * t1 + d * t2
  {
  }

  lemma Component4(a: real, b: real, c: real, d: real, e: real, f: real, g: real, h: real, i: real, j: real, k: real,
                   l: real,
                   s1: real, s2: real, s3: real, s4: real, t1: real, t2: real, t3: real, t4: real)
    requires s1 == a * e - b * f - c * g - d * h && s2 == a * f + b * e + c * h - d * g
    requires s3 == a * g - b * h + c * e + d * f && s4 == a * h + b * g - c * f + d * e
    requires t1 == e * i - f * j - g * k - h * l && t2 == e * j + f * i + g * l - h * k
    requires t3 == e * k - f * l + g * i + h * j && t4 == e * l + f * k - g * j + h * i
    ensures s1 * l + s2 * k - s3 * j + s4 * i == a * t4 + b * t3 - c * t2 + d * t1
  {
  }

  lemma SameParts(x: Quaternion, y: Quaternion)
    requires x.a == y.a && x.b == y.b && x.c == y.c && x.d == y.d
    ensures x == y
  {
  }

  lemma Associates1(p: Quaternion, q: Quaternion, r: Quaternion, s: Quaternion, t: Quaternion)
    requires s == Mul(p, q) && t == Mul(q, r)
    ensures Mul(s, r).a == Mul(p, t).a
  {
    Component1(p.a, p.b, p.c, p.d, q.a, q.b, q.c, q.d, r.a, r.b, r.c, r.d,
               s.a, s.b, s.c, s.d, t.a, t.b, t.c, t.d);
  }

  lemma Associates2(p: Quaternion, q: Quaternion, r: Quaternion, s: Quaternion, t: Quaternion)
    requires s == Mul(p, q) && t == Mul(q, r)
    ensures Mul(s, r).b == Mul(p, t).b
  {
    Component2(p.a, p.b, p.c, p.d, q.a, q.b, q.c, q.d, r.a, r.b, r.c, r.d,
               s.a, s.b, s.c, s.d, t.a, t.b, t.c, t.d);
  }

  lemma Associates3(p: Quaternion, q: Quaternion, r: Quaternion, s: Quaternion, t: Quaternion)
    requires s == Mul(p, q) && t == Mul(q, r)
    ensures Mul(s, r).c == Mul(p, t).c
  {
    Component3(p.a, p.b, p.c, p.d, q.a, q.b, q.c, q.d, r.a, r.b, r.c, r.d,
               s.a, s.b, s.c, s.d, t.a, t.b, t.c, t.d);
  }

  lemma Associates4(p: Quaternion, q: Quaternion, r: Quaternion, s: Quaternion, t: Quaternion)
    requires s == Mul(p, q) && t == Mul(q, r)
    ensures Mul(s, r).d == Mul(p, t).d
  {
    Component4(p.a, p.b, p.c, p.d, q.a, q.b, q.c, q.d, r.a, r.b, r.c, r.d,
               s.a, s.b, s.c, s.d, t.a, t.b, t.c, t.d);
  }

  lemma MulAssociates(p: Quaternion, q: Quaternion, r: Quaternion)
    ensures Mul(Mul(p, q), r) == Mul(p, Mul(q, r))
  {
    var s, t := Mul(p, q), Mul(q, r);
    Associates1(p, q, r, s, t);
    Associates2(p, q, r, s, t);
    Associates3(p, q, r, s, t);
    Associates4(p, q, r, s, t);
    SameParts(Mul(s, r), Mul(p, t));
  }

  // The components of the conjugate of a product, multiplied out.

  lemma Conjugated1(a: real, b: real, c: real, d: real, e: real, f: real, g: real, h: real)
    ensures a * e - b * f - c * g - d * h == e * a - -f * -b - -g * -c - -h * -d
  {
  }

  lemma Conjugated2(a: real, b: real, c: real, d: real, e: real, f: real, g: real, h: real)
    ensures -(a * f + b * e + c * h - d * g) == e * -b + -f * a + -g * -d - -h * -c
  {
  }

  lemma Conjugated3(a: real, b: real, c: real, d: real, e: real, f: real, g: real, h: real)
    ensures -(a * g - b * h + c * e + d * f) == e * -c - -f * -d + -g * a + -h * -b
  {
  }

  lemma Conjugated4(a: real, b: real, c: real, d: real, e: real, f: real, g: real, h: real)
    ensures -(a * h + b * g - c * f + d * e) == e * -d + -f * -c - -g * -b + -h * a
  {
  }

  lemma ConjPart1(p: Quaternion, q: Quaternion, u: Quaternion, v: Quaternion)
    requires u == Conj(p) && v == Conj(q)
    ensures Conj(Mul(p, q)).a == Mul(v, u).a
  {
    Conjugated1(p.a, p.b, p.c, p.d, q.a, q.b, q.c, q.d);
  }

  lemma ConjPart2(p: Quaternion, q: Quaternion, u: Quaternion, v: Quaternion)
    requires u == Conj(p) && v == Conj(q)
    ensures Conj(Mul(p, q)).b == Mul(v, u).b
  {
    Conjugated2(p.a, p.b, p.c, p.d, q.a, q.b, q.c, q.d);
  }

  lemma ConjPart3(p: Quaternion, q: Quaternion, u: Quaternion, v: Quaternion)
    requires u == Conj(p) && v == Conj(q)
    ensures Conj(Mul(p, q)).c == Mul(v, u).c
  {
    Conjugated3(p.a, p.b, p.c, p.d, q.a, q.b, q.c, q.d);
  }

  lemma ConjPart4(p: Quaternion, q: Quaternion, u: Quaternion, v: Quaternion)
    requires u == Conj(p) && v == Conj(q)
    ensures Conj(Mul(p, q)).d == Mul(v, u).d
  {
    Conjugated4(p.a, p.b, p.c, p.d, q.a, q.b, q.c, q.d);
  }

  lemma ConjMul(p: Quaternion, q: Quaternion)
    ensures Conj(Mul(p, q)) == Mul(Conj(q), Conj(p))
  {
    var u, v := Conj(p), Conj(q);
    ConjPart1(p, q, u, v);
    ConjPart2(p, q, u, v);
    ConjPart3(p, q, u, v);
    ConjPart4(p, q, u, v);
    SameParts(Conj(Mul(p, q)), Mul(v, u));
  }

  lemma MulConj(q: Quaternion)
    ensures Mul(Conj(q), q) == Quaternion(Norm(q), 0.0, 0.0, 0.0)
  {
  }

  lemma MulReal(q: Quaternion, n: real)
    ensures Mul(q, Quaternion(n, 0.0, 0.0, 0.0)) == Scale(n, q)
  {
  }

  lemma RealMul(n: real, q: Quaternion)
    ensures Mul(Quaternion(n, 0.0, 0.0, 0.0), q) == Scale(n, q)
  {
  }

  // ----- rotation -----

  /** A product whose second factor is taken to have no scalar part. */
  function QuatMultNoSecondA(q1: Quaternion, q2: Quaternion): Quaternion
  {
    Quaternion(-q1.b * q2.b - q1.c * q2.c - q1.d * q2.d,
               q1.a * q2.b + q1.c * q2.d - q1.d * q2.c,
               q1.a * q2.c - q1.b * q2.d + q1.d * q2.b,
               q1.a * q2.d + q1.b * q2.c - q1.c * q2.b)
  }

  /** The vector part of the product with a conjugate. */
  function QuatPointMult(q1: Quaternion, q2: Quaternion): Vector
  {
    Vector(-q1.a * q2.b + q1.b * q2.a - q1.c * q2.d + q1.d * q2.c,
           -q1.a * q2.c + q1.b * q2.d + q1.c * q2.a - q1.d * q2.b,
           -q1.a * q2.d - q1.b * q2.c + q1.c * q2.b + q1.d * q2.a)
  }

  /** What the point becomes: q p q*. */
  function Rotated(q: Quaternion, p: Vector): Quaternion
  {
    Mul(Mul(q, Pure(p)), Conj(q))
  }

  function Rotate(q: Quaternion, p: Vector): Vector
  {
    VectorPart(Rotated(q, p))
  }

  lemma NoSecondIs(q: Quaternion, p: Quaternion)
    ensures QuatMultNoSecondA(q, p) == Mul(q, p.(a := 0.0))
  {
  }

  lemma PointMultIs(t: Quaternion, q: Quaternion)
    ensures QuatPointMult(t, q) == VectorPart(Mul(t, Conj(q)))
  {
    PointMultParts(t.a, t.b, t.c, t.d, q.a, q.b, q.c, q.d);
  }

  lemma PointMultParts(a: real, b: real, c: real, d: real, e: real, f: real, g: real, h: real)
    ensures -a * f + b * e - c * h + d * g == a * -f + b * e + c * -h - d * -g
    ensures -a * g + b * h + c * e - d * f == a * -g - b * -h + c * e + d * -f
    ensures -a * h - b * g + c * f + d * e == a * -h + b * -g - c * -f + d * e
  {
  }

  /** The two specialised products together rotate. */
  lemma ProductsRotate(q: Quaternion, p: Quaternion)
    ensures QuatPointMult(QuatMultNoSecondA(q, p), q) == Rotate(q, VectorPart(p))
  {
    NoSecondIs(q, p);
    PointMultIs(Mul(q, Pure(VectorPart(p))), q);
  }

  // ----- what rotation keeps -----

  /** The scalar part of a product does not depend on the order of the factors. */
  lemma ScalarCommutes(x: Quaternion, y: Quaternion)
    ensures Mul(x, y).a == Mul(y, x).a
  {
  }

  /** Between a quaternion and its conjugate the scalar part is multiplied by the norm. */
  lemma ScalarOf(q: Quaternion, w: Quaternion, t: Quaternion, n: real)
    requires t == Mul(q, w) && n == Norm(q)
    ensures Mul(t, Conj(q)).a == n * w.a
  {
    ScalarCommutes(t, Conj(q));
    MulAssociates(Conj(q), q, w);
    MulConj(q);
    RealMul(n, w);
  }

  /** The rotated point has no scalar part. */
  lemma RotatedPure(q: Quaternion, p: Vector)
    ensures Rotated(q, p) == Pure(Rotate(q, p))
  {
    ScalarOf(q, Pure(p), Mul(q, Pure(p)), Norm(q));
    assert Norm(q) * Pure(p).a == 0.0;
  }

  /** The dot product is the scalar part of a product with a conjugate. */
  lemma DotIs(x: Quaternion, y: Quaternion)
    requires x.a == 0.0
    ensures Mul(x, Conj(y)).a == Dot(VectorPart(x), VectorPart(y))
  {
    DotParts(x.b, x.c, x.d, y.a, y.b, y.c, y.d);
  }

  lemma DotParts(b: real, c: real, d: real, e: real, f: real, g: real, h: real)
    ensures 0.0 * e - b * -f - c * -g - d * -h == b * f + c * g + d * h
  {
  }

  lemma MulScale(n: real, p: Quaternion, q: Quaternion)
    ensures Mul(p, Scale(n, q)) == Scale(n, Mul(p, q))
  {
    MulReal(q, n);
    MulAssociates(p, q, Quaternion(n, 0.0, 0.0, 0.0));
    MulReal(Mul(p, q), n);
  }

  /** A conjugate and its quaternion meet in the middle. */
  lemma MeetInside(x: Quaternion, c: Quaternion, q: Quaternion, y: Quaternion)
    requires c == Conj(q)
    ensures Mul(Mul(x, c), Mul(q, y)) == Scale(Norm(q), Mul(x, y))
  {
    var z, n := Mul(q, y), Norm(q);
    MulAssociates(x, c, z);
    assert Mul(c, z) == Scale(n, y) by {
      MulAssociates(c, q, y);
      MulConj(q);
      RealMul(n, y);
    }
    MulScale(n, x, y);
  }

  lemma ConjTwice(q: Quaternion)
    ensures Conj(Conj(q)) == q
  {
  }

  /** The conjugate of a rotated quaternion is the rotated conjugate. */
  lemma ConjRotated(q: Quaternion, v: Quaternion, c: Quaternion, w: Quaternion)
    requires c == Conj(q) && w == Conj(v)
    ensures Conj(Mul(Mul(q, v), c)) == Mul(q, Mul(w, c))
  {
    ConjMul(Mul(q, v), c);
    ConjMul(q, v);
    ConjTwice(q);
  }

  lemma Flank(q: Quaternion, u: Quaternion, w: Quaternion, c: Quaternion)
    ensures Mul(Mul(q, u), Mul(w, c)) == Mul(Mul(q, Mul(u, w)), c)
  {
    MulAssociates(Mul(q, u), w, c);
    MulAssociates(q, u, w);
  }

  /** Rotation multiplies dot products by the square of the norm: with a unit quaternion
      all lengths and angles are kept. */
  lemma RotationKeepsDot(q: Quaternion, u: Vector, v: Vector)
    ensures Dot(Rotate(q, u), Rotate(q, v)) == Norm(q) * (Norm(q) * Dot(u, v))
  {
    var c, pu, pv := Conj(q), Pure(u), Pure(v);
    var w := Conj(pv);
    RotatedPure(q, u);
    DotIs(Rotated(q, u), Rotated(q, v));
    ConjRotated(q, pv, c, w);
    MeetInside(Mul(q, pu), c, q, Mul(w, c));
    Flank(q, pu, w, c);
    ScalarOf(q, Mul(pu, w), Mul(q, Mul(pu, w)), Norm(q));
    DotIs(pu, pv);
  }

  /** Rotating twice is rotating by the product. */
  lemma RotationComposes(p: Quaternion, q: Quaternion, v: Vector)
    ensures Rotate(Mul(p, q), v) == Rotate(p, Rotate(q, v))
  {
    RotatedPure(q, v);
    Nested(p, q, Pure(v), Conj(p), Conj(q));
  }

  lemma Nested(p: Quaternion, q: Quaternion, v: Quaternion, c: Quaternion, d: Quaternion)
    requires c == Conj(p) && d == Conj(q)
    ensures Mul(Mul(Mul(p, q), v), Conj(Mul(p, q))) == Mul(Mul(p, Mul(Mul(q, v), d)), c)
  {
    ConjMul(p, q);
    MulAssociates(p, q, v);
    MulAssociates(Mul(p, Mul(q, v)), d, c);
    MulAssociates(p, Mul(q, v), d);
  }

  // ----- unit quaternions -----

  /** Norms multiply, so that products of unit quaternions are unit quaternions. */
  lemma NormMul(p: Quaternion, q: Quaternion)
    ensures Norm(Mul(p, q)) == Norm(p) * Norm(q)
  {
    ConjMul(p, q);
    MeetInside(Conj(q), Conj(p), p, q);
    MulConj(q);
    MulConj(Mul(p, q));
  }

  /** The quaternion of a rotation about `r`, given the sine and the cosine of half the angle. */
  function RotQuat(r: Vector, sinCoeff: real, cosCoeff: real): Quaternion
  {
    Quaternion(cosCoeff, sinCoeff * r.x, sinCoeff * r.y, sinCoeff * r.z)
  }

  lemma UnitParts(x: real, y: real, z: real, s: real, c: real)
    requires x * x + y * y + z * z == 1.0 && c * c + s * s == 1.0
    ensures c * c + (s * x) * (s * x) + (s * y) * (s * y) + (s * z) * (s * z) == 1.0
  {
    assert (s * x) * (s * x) + (s * y) * (s * y) + (s * z) * (s * z) == (s * s) * (x * x + y * y + z * z);
  }

  lemma RotQuatUnit(r: Vector, s: real, c: real)
    requires Dot(r, r) == 1.0 && c * c + s * s == 1.0
    ensures Norm(RotQuat(r, s, c)) == 1.0
  {
    UnitParts(r.x, r.y, r.z, s, c);
  }

  lemma CrossParts(x: real, y: real, z: real, s: real)
    ensures (s * y) * z - (s * z) * y == 0.0 == z * (s * y) - y * (s * z)
    ensures (s * x) * y == x * (s * y) && (s * x) * z == x * (s * z) && (s * y) * z == y * (s * z)
  {
  }

  /** A rotation commutes with its axis. */
  lemma AxisCommutes(r: Vector, s: real, c: real)
    ensures Mul(RotQuat(r, s, c), Pure(r)) == Mul(Pure(r), RotQuat(r, s, c))
  {
    CrossParts(r.x, r.y, r.z, s);
    CrossParts(r.y, r.z, r.x, s);
    CrossParts(r.z, r.x, r.y, s);
    SameParts(Mul(RotQuat(r, s, c), Pure(r)), Mul(Pure(r), RotQuat(r, s, c)));
  }

  lemma MulByConj(q: Quaternion)
    ensures Mul(q, Conj(q)) == Quaternion(Norm(q), 0.0, 0.0, 0.0)
  {
  }

  /** The axis stays where it is. */
  lemma RotationKeepsAxis(r: Vector, s: real, c: real)
    requires Dot(r, r) == 1.0 && c * c + s * s == 1.0
    ensures Rotate(RotQuat(r, s, c), r) == r
  {
    var q := RotQuat(r, s, c);
    RotQuatUnit(r, s, c);
    AxisCommutes(r, s, c);
    MulAssociates(Pure(r), q, Conj(q));
    MulByConj(q);
    MulReal(Pure(r), 1.0);
  }

  // ----- angle and direction -----

  function Cross(u: Vector, v: Vector): Vector
  {
    Vector(u.y * v.z - u.z * v.y, u.z * v.x - u.x * v.z, u.x * v.y - u.y * v.x)
  }

  function Plus(u: Vector, v: Vector): Vector
  {
    Vector(u.x + v.x, u.y + v.y, u.z + v.z)
  }

  function Times(n: real, v: Vector): Vector
  {
    Vector(n * v.x, n * v.y, n * v.z)
  }

  /** Rodrigues' formula: `v` turned about the unit axis `r` by the angle with cosine `cos` and
      sine `sin`, counterclockwise as seen from the tip of the axis. */
  function Turned(r: Vector, sin: real, cos: real, v: Vector): Vector
  {
    Plus(Plus(Times(cos, v), Times(sin, Cross(r, v))), Times((1.0 - cos) * Dot(r, v), r))
  }

  /** The product with a point, and the product of that with the conjugate, in one component;
      the others follow by turning x, y and z round. */
  lemma TurnedPart(c: real, s: real, x: real, y: real, z: real, u: real, v: real, w: real,
                   ta: real, tb: real, tc: real, td: real)
    requires ta == -(s * (x * u + y * v + z * w)) && tb == c * u + s * (y * w - z * v)
    requires tc == c * v + s * (z * u - x * w) && td == c * w + s * (x * v - y * u)
    ensures s * (-ta * x + y * td - z * tc) + c * tb
         == (c * c - s * s * (x * x + y * y + z * z)) * u + 2.0 * (s * c) * (y * w - z * v)
            + 2.0 * (s * s) * (x * u + y * v + z * w) * x
  {
  }

  lemma WithPoint(c: real, s: real, x: real, y: real, z: real, u: real, v: real, w: real)
    ensures c * 0.0 - (s * x) * u - (s * y) * v - (s * z) * w == -(s * (x * u + y * v + z * w))
    ensures c * u + (s * x) * 0.0 + (s * y) * w - (s * z) * v == c * u + s * (y * w - z * v)
    ensures c * v - (s * x) * w + (s * y) * 0.0 + (s * z) * u == c * v + s * (z * u - x * w)
    ensures c * w + (s * x) * v - (s * y) * u + (s * z) * 0.0 == c * w + s * (x * v - y * u)
  {
  }

  lemma WithConjugate(c: real, s: real, x: real, y: real, z: real, ta: real, tb: real, tc: real, td: real)
    ensures ta * -(s * x) + tb * c + tc * -(s * z) - td * -(s * y) == s * (-ta * x + y * td - z * tc) + c * tb
    ensures ta * -(s * y) - tb * -(s * z) + tc * c + td * -(s * x) == s * (-ta * y + z * tb - x * td) + c * tc
    ensures ta * -(s * z) + tb * -(s * y) - tc * -(s * x) + td * c == s * (-ta * z + x * tc - y * tb) + c * td
  {
  }

  /** The product of a rotation with a point. */
  lemma PointParts(r: Vector, s: real, c: real, v: Vector, t: Quaternion)
    requires t == Mul(RotQuat(r, s, c), Pure(v))
    ensures t.a == -(s * (r.x * v.x + r.y * v.y + r.z * v.z)) && t.b == c * v.x + s * (r.y * v.z - r.z * v.y)
    ensures t.c == c * v.y + s * (r.z * v.x - r.x * v.z) && t.d == c * v.z + s * (r.x * v.y - r.y * v.x)
  {
    WithPoint(c, s, r.x, r.y, r.z, v.x, v.y, v.z);
  }

  /** What rotation makes of that product. */
  lemma RotatedParts(r: Vector, s: real, c: real, v: Vector, t: Quaternion, p: Vector)
    requires t == Mul(RotQuat(r, s, c), Pure(v)) && p == Rotate(RotQuat(r, s, c), v)
    ensures p.x == s * (-t.a * r.x + r.y * t.d - r.z * t.c) + c * t.b
    ensures p.y == s * (-t.a * r.y + r.z * t.b - r.x * t.d) + c * t.c
    ensures p.z == s * (-t.a * r.z + r.x * t.c - r.y * t.b) + c * t.d
  {
    WithConjugate(c, s, r.x, r.y, r.z, t.a, t.b, t.c, t.d);
  }

  /** One component of a turn, from the sine and the cosine of half the angle. */
  lemma HalfAngle(c: real, s: real, n: real, u: real, cross: real, dot: real, x: real, sin: real, cos: real)
    requires n == 1.0 && c * c + s * s == 1.0 && sin == 2.0 * (s * c) && cos == c * c - s * s
    ensures (c * c - s * s * n) * u + 2.0 * (s * c) * cross + 2.0 * (s * s) * dot * x
         == cos * u + sin * cross + (1.0 - cos) * dot * x
  {
    assert 1.0 - cos == 2.0 * (s * s);
  }

  lemma TurnedComponent(c: real, s: real, x: real, y: real, z: real, u: real, v: real, w: real,
                        t: Quaternion, sin: real, cos: real, dot: real)
    requires x * x + y * y + z * z == 1.0 && c * c + s * s == 1.0 && dot == x * u + y * v + z * w
    requires sin == 2.0 * (s * c) && cos == c * c - s * s
    requires t.a == -(s * dot) && t.b == c * u + s * (y * w - z * v)
    requires t.c == c * v + s * (z * u - x * w) && t.d == c * w + s * (x * v - y * u)
    ensures s * (-t.a * x + y * t.d - z * t.c) + c * t.b == cos * u + sin * (y * w - z * v) + (1.0 - cos) * dot * x
  {
    TurnedPart(c, s, x, y, z, u, v, w, t.a, t.b, t.c, t.d);
    HalfAngle(c, s, x * x + y * y + z * z, u, y * w - z * v, dot, x, sin, cos);
  }

  lemma TurnedParts(p: Vector, r: Vector, v: Vector, sin: real, cos: real, dot: real)
    requires dot == Dot(r, v)
    requires p.x == cos * v.x + sin * (r.y * v.z - r.z * v.y) + (1.0 - cos) * dot * r.x
    requires p.y == cos * v.y + sin * (r.z * v.x - r.x * v.z) + (1.0 - cos) * dot * r.y
    requires p.z == cos * v.z + sin * (r.x * v.y - r.y * v.x) + (1.0 - cos) * dot * r.z
    ensures p == Turned(r, sin, cos, v)
  {
  }

  // The three components, each from its own place in the round.

  lemma TurnedX(r: Vector, s: real, c: real, v: Vector, sin: real, cos: real, t: Quaternion, dot: real)
    requires r.x * r.x + r.y * r.y + r.z * r.z == 1.0 && c * c + s * s == 1.0
    requires sin == 2.0 * (s * c) && cos == c * c - s * s && dot == r.x * v.x + r.y * v.y + r.z * v.z
    requires t.a == -(s * dot) && t.b == c * v.x + s * (r.y * v.z - r.z * v.y)
    requires t.c == c * v.y + s * (r.z * v.x - r.x * v.z) && t.d == c * v.z + s * (r.x * v.y - r.y * v.x)
    ensures s * (-t.a * r.x + r.y * t.d - r.z * t.c) + c * t.b
         == cos * v.x + sin * (r.y * v.z - r.z * v.y) + (1.0 - cos) * dot * r.x
  {
    TurnedComponent(c, s, r.x, r.y, r.z, v.x, v.y, v.z, t, sin, cos, dot);
  }

  lemma TurnedY(r: Vector, s: real, c: real, v: Vector, sin: real, cos: real, t: Quaternion, dot: real)
    requires r.x * r.x + r.y * r.y + r.z * r.z == 1.0 && c * c + s * s == 1.0
    requires sin == 2.0 * (s * c) && cos == c * c - s * s && dot == r.x * v.x + r.y * v.y + r.z * v.z
    requires t.a == -(s * dot) && t.b == c * v.x + s * (r.y * v.z - r.z * v.y)
    requires t.c == c * v.y + s * (r.z * v.x - r.x * v.z) && t.d == c * v.z + s * (r.x * v.y - r.y * v.x)
    ensures s * (-t.a * r.y + r.z * t.b - r.x * t.d) + c * t.c
         == cos * v.y + sin * (r.z * v.x - r.x * v.z) + (1.0 - cos) * dot * r.y
  {
    TurnedComponent(c, s, r.y, r.z, r.x, v.y, v.z, v.x, Quaternion(t.a, t.c, t.d, t.b), sin, cos, dot);
  }

  lemma TurnedZ(r: Vector, s: real, c: real, v: Vector, sin: real, cos: real, t: Quaternion, dot: real)
    requires r.x * r.x + r.y * r.y + r.z * r.z == 1.0 && c * c + s * s == 1.0
    requires sin == 2.0 * (s * c) && cos == c * c - s * s && dot == r.x * v.x + r.y * v.y + r.z * v.z
    requires t.a == -(s * dot) && t.b == c * v.x + s * (r.y * v.z - r.z * v.y)
    requires t.c == c * v.y + s * (r.z * v.x - r.x * v.z) && t.d == c * v.z + s * (r.x * v.y - r.y * v.x)
    ensures s * (-t.a * r.z + r.x * t.c - r.y * t.b) + c * t.d
         == cos * v.z + sin * (r.x * v.y - r.y * v.x) + (1.0 - cos) * dot * r.z
  {
    TurnedComponent(c, s, r.z, r.x, r.y, v.z, v.x, v.y, Quaternion(t.a, t.d, t.b, t.c), sin, cos, dot);
  }

  lemma FromParts(r: Vector, s: real, c: real, v: Vector, sin: real, cos: real, t: Quaternion, p: Vector, dot: real)
    requires dot == Dot(r, v)
    requires r.x * r.x + r.y * r.y + r.z * r.z == 1.0 && c * c + s * s == 1.0
    requires sin == 2.0 * (s * c) && cos == c * c - s * s && dot == r.x * v.x + r.y * v.y + r.z * v.z
    requires t.a == -(s * dot) && t.b == c * v.x + s * (r.y * v.z - r.z * v.y)
    requires t.c == c * v.y + s * (r.z * v.x - r.x * v.z) && t.d == c * v.z + s * (r.x * v.y - r.y * v.x)
    requires p.x == s * (-t.a * r.x + r.y * t.d - r.z * t.c) + c * t.b
    requires p.y == s * (-t.a * r.y + r.z * t.b - r.x * t.d) + c * t.c
    requires p.z == s * (-t.a * r.z + r.x * t.c - r.y * t.b) + c * t.d
    ensures p == Turned(r, sin, cos, v)
  {
    TurnedX(r, s, c, v, sin, cos, t, dot);
    TurnedY(r, s, c, v, sin, cos, t, dot);
    TurnedZ(r, s, c, v, sin, cos, t, dot);
    TurnedParts(p, r, v, sin, cos, dot);
  }

  /** The rotation turns by twice the angle whose sine and cosine are given, about the axis. */
  lemma Rodrigues(r: Vector, s: real, c: real, v: Vector, sin: real, cos: real)
    requires Dot(r, r) == 1.0 && c * c + s * s == 1.0 && sin == 2.0 * (s * c) && cos == c * c - s * s
    ensures Rotate(RotQuat(r, s, c), v) == Turned(r, sin, cos, v)
  {
    var t, p, dot := Mul(RotQuat(r, s, c), Pure(v)), Rotate(RotQuat(r, s, c), v), Dot(r, v);
    PointParts(r, s, c, v, t);
    RotatedParts(r, s, c, v, t, p);
    FromParts(r, s, c, v, sin, cos, t, p, dot);
  }

  /** About the z axis the x axis turns towards the y axis. */
  lemma TurnsTowardsY(s: real, c: real)
    ensures Rotate(RotQuat(Vector(0.0, 0.0, 1.0), s, c), Vector(1.0, 0.0, 0.0))
         == Vector(c * c - s * s, 2.0 * (s * c), 0.0)
  {
  }

  /** What the caller gives: a unit axis, and the sine and the cosine of half the angle. */
  predicate IsTurn(r: Vector, s: real, c: real)
  {
    Dot(r, r) == 1.0 && c * c + s * s == 1.0
  }

  /** The point turned by the whole angle. */
  function TurnedByHalf(r: Vector, s: real, c: real, v: Vector): Vector
  {
    Turned(r, 2.0 * (s * c), c * c - s * s, v)
  }

  lemma RotatesByHalf(r: Vector, s: real, c: real, v: Vector)
    ensures IsTurn(r, s, c) ==> Rotate(RotQuat(r, s, c), v) == TurnedByHalf(r, s, c, v)
  {
    if IsTurn(r, s, c) { Rodrigues(r, s, c, v, 2.0 * (s * c), c * c - s * s); }
  }

  // ----- the operations -----

  /** The quaternion for repeated rotations; sine and cosine of half the angle are given. */
  method QuatGetRotQuat(rotVec: Vector, sinCoeff: real, cosCoeff: real) returns (rotQuat: Quaternion)
    ensures rotQuat == RotQuat(rotVec, sinCoeff, cosCoeff)
  {
    var a, b, c, d := cosCoeff, sinCoeff * rotVec.x, sinCoeff * rotVec.y, sinCoeff * rotVec.z;
    rotQuat := Quaternion(a, b, c, d);
  }

  /** Rotate a point. The scalar part of the point's quaternion is never set: it may be anything. */
  method QuatRotApplyQuat(point: Vector, rotQuat: Quaternion) returns (r: Vector)
    ensures r == Rotate(rotQuat, point)
  {
    var unset: real := *;
    var pointQuat := Quaternion(unset, point.x, point.y, point.z);
    var temp := QuatMultNoSecondA(rotQuat, pointQuat);
    r := QuatPointMult(temp, rotQuat);
    ProductsRotate(rotQuat, pointQuat);
  }

  method QuatRot(point: Vector, rotVec: Vector, sinCoeff: real, cosCoeff: real) returns (r: Vector)
    ensures r == Rotate(RotQuat(rotVec, sinCoeff, cosCoeff), point)
    ensures IsTurn(rotVec, sinCoeff, cosCoeff) ==> r == TurnedByHalf(rotVec, sinCoeff, cosCoeff, point)
  {
    var rotQuat := QuatGetRotQuat(rotVec, sinCoeff, cosCoeff);
    r := QuatRotApplyQuat(point, rotQuat);
    RotatesByHalf(rotVec, sinCoeff, cosCoeff, point);
  }

  /** Rotate all points of an array in place: each as it would be alone. */
  method QuatRotArray(pointArr: array<Vector>, rotVec: Vector, sinCoeff: real, cosCoeff: real)
    modifies pointArr
    ensures forall i | 0 <= i < pointArr.Length ::
              pointArr[i] == Rotate(RotQuat(rotVec, sinCoeff, cosCoeff), old(pointArr[i]))
    ensures IsTurn(rotVec, sinCoeff, cosCoeff) ==>
              forall i | 0 <= i < pointArr.Length ::
                pointArr[i] == TurnedByHalf(rotVec, sinCoeff, cosCoeff, old(pointArr[i]))
  {
    var rotQuat := QuatGetRotQuat(rotVec, sinCoeff, cosCoeff);
    for ui := 0 to pointArr.Length
      invariant forall i | 0 <= i < ui :: pointArr[i] == Rotate(rotQuat, old(pointArr[i]))
      invariant forall i | ui <= i < pointArr.Length :: pointArr[i] == old(pointArr[i])
    {
      pointArr[ui] := QuatRotApplyQuat(pointArr[ui], rotQuat);
    }
    AllTurned(old(pointArr[..]), pointArr[..], rotVec, sinCoeff, cosCoeff);
  }

  lemma AllTurned(before: seq<Vector>, after: seq<Vector>, r: Vector, s: real, c: real)
    requires |after| == |before| && forall i | 0 <= i < |after| :: after[i] == Rotate(RotQuat(r, s, c), before[i])
    ensures IsTurn(r, s, c) ==> forall i | 0 <= i < |after| :: after[i] == TurnedByHalf(r, s, c, before[i])
  {
    forall i | 0 <= i < |after| ensures IsTurn(r, s, c) ==> after[i] == TurnedByHalf(r, s, c, before[i]) {
      RotatesByHalf(r, s, c, before[i]);
    }
  }
}
