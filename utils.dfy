/** Numeric helpers: tolerant comparisons, homogeneous-coordinate conversion, clamping
    and the conversion of a floating-point colour to output bytes. */
module Utils {
  import opened Vectors

  /** Tolerance of every tolerant comparison. */
  const EPSILON: real := 0.0005

  function Abs(x: real): (r: real)
    ensures 0.0 <= r && (r == x || r == -x)
  {
    if x < 0.0 then -x else x
  }

  /** L1 distance between two vectors (named after the Hamming distance). */
  function HammingDistance(a: Vec3, b: Vec3): (d: real)
    ensures 0.0 <= d
    ensures d == 0.0 <==> a == b
  {
    Abs(a.x - b.x) + Abs(a.y - b.y) + Abs(a.z - b.z)
  }

  lemma HammingDistanceSymmetric(a: Vec3, b: Vec3)
    ensures HammingDistance(a, b) == HammingDistance(b, a)
  {
  }

  /** Tolerant equality: the two values are closer than EPSILON. */
  function IsEq(a: real, b: real): bool {
    Abs(a - b) < EPSILON
  }

  lemma IsEqSymmetric(a: real, b: real)
    ensures IsEq(a, b) == IsEq(b, a)
  {
  }

  /** Tolerant vector equality: the L1 distance is below EPSILON, so every
      component is tolerantly equal. */
  function IsEqVec(a: Vec3, b: Vec3): (r: bool)
    ensures a == b ==> r
    ensures r ==> IsEq(a.x, b.x) && IsEq(a.y, b.y) && IsEq(a.z, b.z)
  {
    HammingDistance(a, b) < EPSILON
  }

  lemma IsEqVecSymmetric(a: Vec3, b: Vec3)
    ensures IsEqVec(a, b) == IsEqVec(b, a)
  {
    HammingDistanceSymmetric(a, b);
  }

  function IsZero(x: real): (r: bool)
    ensures r <==> IsEq(x, 0.0)
  {
    Abs(x) < EPSILON
  }

  function IsNegative(x: real): (r: bool)
    ensures r ==> !IsZero(x)
  {
    x < -EPSILON
  }

  function IsPositive(x: real): (r: bool)
    ensures r ==> !IsZero(x) && !IsNegative(x)
  {
    x > EPSILON
  }

  function IsLessThan(a: real, b: real): (r: bool)
    ensures r ==> !IsEq(a, b)
  {
    a < b - EPSILON
  }

  function IsGreaterThan(a: real, b: real): (r: bool)
    ensures r ==> !IsEq(a, b) && !IsLessThan(a, b)
  {
    a > b + EPSILON
  }

  /** The three sign classes leave out the two boundary points. */
  lemma SignClassesAtEpsilon()
    ensures !IsNegative(EPSILON) && !IsZero(EPSILON) && !IsPositive(EPSILON)
    ensures !IsNegative(-EPSILON) && !IsZero(-EPSILON) && !IsPositive(-EPSILON)
  {
  }

  /** Drops the homogeneous coordinate. */
  function To3(v: Vec4): Vec3 {
    Vec3(v.x, v.y, v.z)
  }

  /** Homogeneous point: the fourth coordinate is 1, and To3 undoes it. */
  function To4(v: Vec3): (r: Vec4)
    ensures r.w == 1.0
    ensures To3(r) == v
  {
    Vec4(v.x, v.y, v.z, 1.0)
  }

  /** `val` limited to `[min, max]`; a value already in range is returned unchanged. */
  function Clamp(val: real, min: real, max: real): (r: real)
    ensures min <= max ==> min <= r <= max
    ensures min <= val <= max ==> r == val
  {
    if val < min then min
    else if val > max then max
    else val
  }

  /** Clamping only ever returns the value itself or one of the two bounds. */
  lemma ClampPicksBoundOrValue(val: real, min: real, max: real)
    ensures var r := Clamp(val, min, max);
      && (val < min ==> r == min)
      && (min <= val && max < val ==> r == max)
      && (r == val || r == min || r == max)
  {
  }

  lemma ClampIdempotent(val: real, min: real, max: real)
    requires min <= max
    ensures Clamp(Clamp(val, min, max), min, max) == Clamp(val, min, max)
  {
  }

  /** Every component limited to `[0, 0.999]`. */
  function ClampColour(c: Vec3): Vec3 {
    Vec3(Clamp(c.x, 0.0, 0.999), Clamp(c.y, 0.0, 0.999), Clamp(c.z, 0.0, 0.999))
  }

  /** A clamped colour lies in `[0, 0.999]` in every component, and components
      already in range are kept. */
  lemma ClampColourInRange(c: Vec3)
    ensures var r := ClampColour(c);
      && 0.0 <= r.x <= 0.999 && 0.0 <= r.y <= 0.999 && 0.0 <= r.z <= 0.999
      && (0.0 <= c.x <= 0.999 ==> r.x == c.x)
      && (0.0 <= c.y <= 0.999 ==> r.y == c.y)
      && (0.0 <= c.z <= 0.999 ==> r.z == c.z)
  {
  }

  newtype Byte = x: int | 0 <= x < 256

  /** An 8-bit colour triple. */
  datatype Rgb = Rgb(r: Byte, g: Byte, b: Byte)

  /** The float-to-byte cast: truncation toward zero, saturating at both ends. */
  function AsU8(x: real): Byte {
    if x < 1.0 then 0
    else if x >= 256.0 then 255
    else x.Floor as Byte
  }

  /** In range the cast keeps the integer part; below 0 it gives 0 and from 256 up
      it gives 255. */
  lemma AsU8Saturates(x: real)
    ensures 0.0 <= x < 256.0 ==> AsU8(x) as real <= x < AsU8(x) as real + 1.0
    ensures x < 0.0 ==> AsU8(x) == 0
    ensures x >= 256.0 ==> AsU8(x) == 255
  {
  }

  function AsInt(c: Vec3): Rgb {
    Rgb(AsU8(c.x), AsU8(c.y), AsU8(c.z))
  }

  /** Component-wise square root (gamma 2). */
  function GammaCorrect(m: MathLib, c: Vec3): Vec3 {
    Vec3(m.sqrt(c.x), m.sqrt(c.y), m.sqrt(c.z))
  }

  /** With well-behaved maths, every non-negative component is replaced by its
      non-negative square root. */
  lemma GammaCorrectIsSquareRoot(m: MathLib, c: Vec3)
    requires Lawful(m)
    ensures var r := GammaCorrect(m, c);
      && (0.0 <= c.x ==> 0.0 <= r.x && r.x * r.x == c.x)
      && (0.0 <= c.y ==> 0.0 <= r.y && r.y * r.y == c.y)
      && (0.0 <= c.z ==> 0.0 <= r.z && r.z * r.z == c.z)
  {
  }

  /** The whole output pipeline: gamma correction, clamping, scaling by 256 and the
      byte cast. */
  function CorrectForOutput(m: MathLib, c: Vec3): Rgb {
    AsInt(Scale(256.0, ClampColour(GammaCorrect(m, c))))
  }

  /** After clamping, 256 times a component is at most 255.744, so every output byte
      is the plain truncation of it and the cast never saturates. */
  lemma OutputIsTruncation(m: MathLib, c: Vec3)
    ensures var g := ClampColour(GammaCorrect(m, c));
      var r := CorrectForOutput(m, c);
      && r.r as int == (256.0 * g.x).Floor
      && r.g as int == (256.0 * g.y).Floor
      && r.b as int == (256.0 * g.z).Floor
  {
    ClampColourInRange(GammaCorrect(m, c));
    OutputScaleInRange(ClampColour(GammaCorrect(m, c)));
  }

  /** A clamped colour scaled by 256 stays in `[0, 255.744]`. */
  lemma OutputScaleInRange(c: Vec3)
    requires 0.0 <= c.x <= 0.999 && 0.0 <= c.y <= 0.999 && 0.0 <= c.z <= 0.999
    ensures var s := Scale(256.0, c);
      && 0.0 <= s.x <= 255.744 && 0.0 <= s.y <= 255.744 && 0.0 <= s.z <= 255.744
      && AsU8(s.x) as int == s.x.Floor && AsU8(s.y) as int == s.y.Floor && AsU8(s.z) as int == s.z.Floor
  {
  }

  /** Full or over-full intensity gives byte 255, zero intensity gives byte 0, in
      each of the three channels. */
  lemma OutputExtremes(m: MathLib, c: Vec3)
    requires Lawful(m)
    ensures c.x >= 1.0 ==> CorrectForOutput(m, c).r == 255
    ensures c.x == 0.0 ==> CorrectForOutput(m, c).r == 0
    ensures c.y >= 1.0 ==> CorrectForOutput(m, c).g == 255
    ensures c.y == 0.0 ==> CorrectForOutput(m, c).g == 0
    ensures c.z >= 1.0 ==> CorrectForOutput(m, c).b == 255
    ensures c.z == 0.0 ==> CorrectForOutput(m, c).b == 0
  {
    ChannelExtremes(m, c.x);
    ChannelExtremes(m, c.y);
    ChannelExtremes(m, c.z);
  }

  /** One channel of the output pipeline at the two ends of the intensity range. */
  lemma ChannelExtremes(m: MathLib, a: real)
    requires Lawful(m)
    ensures a >= 1.0 ==> AsU8(256.0 * Clamp(m.sqrt(a), 0.0, 0.999)) == 255
    ensures a == 0.0 ==> AsU8(256.0 * Clamp(m.sqrt(a), 0.0, 0.999)) == 0
  {
    var s := m.sqrt(a);
    if a >= 1.0 {
      assert 0.0 <= s && s * s == a;
      AtLeastOneFromSquare(s);
    }
    if a == 0.0 {
      SqrtOf(m, 0.0, 0.0);
    }
  }
}
