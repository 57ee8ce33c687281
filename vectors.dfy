/** Shared value types of the renderer: 3- and 4-component vectors, a 4x4 matrix,
    the polynomial vector operations, and the library maths the engine calls but
    this model does not define (square root, normalisation, sine and cosine of an
    angle in degrees, the y-axis rotation matrix). */
module Vectors {

  datatype Option<T> = None | Some(value: T)

  /** A point, a free direction or a floating-point colour: all three share this type. */
  datatype Vec3 = Vec3(x: real, y: real, z: real)

  /** Homogeneous 4-vector. */
  datatype Vec4 = Vec4(x: real, y: real, z: real, w: real)

  /** A 4x4 matrix stored as four columns, as the linear-algebra library stores it. */
  datatype Mat4 = Mat4(c0: Vec4, c1: Vec4, c2: Vec4, c3: Vec4)

  function Add(a: Vec3, b: Vec3): Vec3 { Vec3(a.x + b.x, a.y + b.y, a.z + b.z) }

  function Sub(a: Vec3, b: Vec3): Vec3 { Vec3(a.x - b.x, a.y - b.y, a.z - b.z) }

  /** Scalar times vector. */
  function Scale(k: real, a: Vec3): Vec3 { Vec3(k * a.x, k * a.y, k * a.z) }

  /** Vector divided component-wise by a scalar. */
  function Div(a: Vec3, k: real): Vec3
    requires k != 0.0
  {
    Vec3(a.x / k, a.y / k, a.z / k)
  }

  function Dot(a: Vec3, b: Vec3): real { a.x * b.x + a.y * b.y + a.z * b.z }

  function Cross(a: Vec3, b: Vec3): Vec3 {
    Vec3(a.y * b.z - a.z * b.y, a.z * b.x - a.x * b.z, a.x * b.y - a.y * b.x)
  }

  /** Squared length. */
  function Mag2(a: Vec3): real { Dot(a, a) }

  /** Linear interpolation `a + (b - a) * t`. */
  function Lerp(a: Vec3, b: Vec3, t: real): Vec3 { Add(a, Scale(t, Sub(b, a))) }

  function Scale4(k: real, a: Vec4): Vec4 { Vec4(k * a.x, k * a.y, k * a.z, k * a.w) }

  function Add4(a: Vec4, b: Vec4): Vec4 { Vec4(a.x + b.x, a.y + b.y, a.z + b.z, a.w + b.w) }

  /** Matrix times column vector. */
  function MulMV(m: Mat4, v: Vec4): Vec4 {
    Add4(Add4(Scale4(v.x, m.c0), Scale4(v.y, m.c1)), Add4(Scale4(v.z, m.c2), Scale4(v.w, m.c3)))
  }

  /** Truncation toward zero, as a float-to-integer cast does. */
  function Trunc(x: real): int {
    if x >= 0.0 then x.Floor else -((-x).Floor)
  }

  /** The floating-point remainder `a % 360.0` of an angle in degrees: the division
      truncates, so the result takes the sign of `a` and is below a full turn in
      magnitude. */
  function Rem360(a: real): (r: real)
    ensures -360.0 < r < 360.0
    ensures a >= 0.0 ==> r >= 0.0
    ensures a <= 0.0 ==> r <= 0.0
    ensures -360.0 < a < 360.0 ==> r == a
    ensures (a - r) / 360.0 == Trunc(a / 360.0) as real
  {
    a - 360.0 * Trunc(a / 360.0) as real
  }

  /** The library maths the engine calls. The model never looks inside these functions;
      `Lawful` says what they satisfy where the library is well defined. */
  datatype MathLib = MathLib(
    sqrt: real -> real,
    normalize: Vec3 -> Vec3,
    sinDeg: real -> real,
    cosDeg: real -> real,
    rotationY: real -> Mat4)

  /** Square root on non-negative arguments; normalisation of a non-zero vector is the
      vector times the reciprocal of its length. Nothing is assumed about a negative
      argument to sqrt or the zero vector (both give NaN in floating point). */
  ghost predicate Lawful(m: MathLib) {
    SqrtLawful(m) && NormalizeLawful(m)
  }

  ghost predicate SqrtLawful(m: MathLib) {
    && (forall x :: 0.0 <= x ==> 0.0 <= m.sqrt(x))
    && (forall x :: 0.0 <= x ==> m.sqrt(x) * m.sqrt(x) == x)
  }

  ghost predicate NormalizeLawful(m: MathLib)
    requires SqrtLawful(m)
  {
    forall v {:trigger m.normalize(v)} :: 0.0 < Dot(v, v) ==> m.normalize(v) == Scale(1.0 / m.sqrt(Dot(v, v)), v)
  }

  /** A square root is determined by its square. */
  lemma SqrtOf(m: MathLib, x: real, s: real)
    requires Lawful(m)
    requires 0.0 <= s && s * s == x
    ensures m.sqrt(x) == s
  {
    var t := m.sqrt(x);
    assert 0.0 <= t && t * t == x;
    assert (t - s) * (t + s) == 0.0;
    if t + s == 0.0 {
      assert t == 0.0 && s == 0.0;
    } else {
      var d, e := t - s, t + s;
      assert d * e == 0.0;
      assert d == (d * e) / e;
    }
  }

  /** A non-negative number whose square is at least 1 is itself at least 1. */
  lemma AtLeastOneFromSquare(s: real)
    requires 0.0 <= s && 1.0 <= s * s
    ensures 1.0 <= s
  {
    if s < 1.0 {
      SquareBelowOne(s);
      assert false;
    }
  }

  lemma SquareBelowOne(s: real)
    requires 0.0 <= s < 1.0
    ensures s * s < 1.0
  {
    assert s * s <= s * 1.0;
  }

  lemma DotScale(k: real, a: Vec3, b: Vec3)
    ensures Dot(Scale(k, a), b) == k * Dot(a, b)
  {
  }

  lemma DotCommutes(a: Vec3, b: Vec3)
    ensures Dot(a, b) == Dot(b, a)
  {
  }

  /** The dot product is linear in its first argument. */
  lemma DotAddScale(a: Vec3, b: Vec3, c: Vec3, s: real)
    ensures Dot(Add(a, Scale(s, b)), c) == Dot(a, c) + s * Dot(b, c)
  {
  }

  /** The cross product is linear in its first argument. */
  lemma CrossAddScale(a: Vec3, b: Vec3, c: Vec3, s: real)
    ensures Cross(Add(a, Scale(s, b)), c) == Add(Cross(a, c), Scale(s, Cross(b, c)))
  {
  }

  /** Swapping the outer two vectors of a scalar triple product negates it. */
  lemma TripleProductSwap(a: Vec3, b: Vec3, c: Vec3)
    ensures Dot(c, Cross(b, a)) == -Dot(a, Cross(b, c))
  {
  }

  /** A unit vector is its own normalisation. */
  lemma NormalizeOfUnit(m: MathLib, v: Vec3)
    requires Lawful(m)
    requires Mag2(v) == 1.0
    ensures m.normalize(v) == v
  {
    SqrtOf(m, Dot(v, v), 1.0);
    assert m.normalize(v) == Scale(1.0 / 1.0, v);
  }

  /** A normalised non-zero vector is a positive multiple of it with unit length. */
  lemma NormalizeIsUnit(m: MathLib, v: Vec3)
    requires Lawful(m)
    requires 0.0 < Mag2(v)
    ensures Mag2(m.normalize(v)) == 1.0
    ensures 0.0 < Dot(m.normalize(v), v)
  {
    var s := m.sqrt(Dot(v, v));
    assert s * s == Dot(v, v);
    assert s > 0.0;
    var k := 1.0 / s;
    assert m.normalize(v) == Scale(k, v);
    DotScale(k, v, v);
    DotScale(k, v, Scale(k, v));
    assert Dot(v, Scale(k, v)) == k * Dot(v, v);
    assert Mag2(m.normalize(v)) == k * k * (s * s);
    assert k * s == 1.0;
    assert k > 0.0;
  }
}
