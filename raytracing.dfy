/** The ray-tracing engine: shapes and their intersection tests, the scene-wide
    nearest-hit query, colour resolution, the recursive tracer and the camera. */
module Raytracing {
  import opened Vectors
  import opened Utils
  import opened Constants

  datatype Material = Specular | Diffuse | Lambertian

  datatype Ray = Ray(start: Vec3, dir: Vec3)

  // ---------------------------------------------------------------------------
  // Intersection results
  // ---------------------------------------------------------------------------

  datatype BarycentricCoords = BarycentricCoords(u: real, v: real, w: real)

  /** Weights from the two coordinates a triangle test computes; the third is
      derived so that the three always sum to 1. */
  function NewBarycentric(u: real, v: real): (b: BarycentricCoords)
    ensures b.u == u && b.v == v
    ensures b.u + b.v + b.w == 1.0
  {
    BarycentricCoords(u, v, 1.0 - u - v)
  }

  /** Shading data of a hit: barycentric weights for a triangle, nothing for a sphere. */
  datatype TextureCoords = Barycentric(coords: BarycentricCoords) | NoTexture

  datatype Location = Location(distance: real, textureCoords: TextureCoords)

  // ---------------------------------------------------------------------------
  // Spheres
  // ---------------------------------------------------------------------------

  function Min(a: real, b: real): real { if a < b then a else b }

  datatype Sphere = Sphere(centre: Vec3, radius: real, colour: Vec3, material: Material)
  {
    /** Length of the projection of start-to-centre on the ray direction. */
    function Adjacent(ray: Ray): real {
      Dot(ray.dir, Sub(centre, ray.start))
    }

    /** Squared distance from the centre to the ray's line (for a unit direction). */
    function OppositeSquared(ray: Ray): real {
      Mag2(Sub(centre, ray.start)) - Adjacent(ray) * Adjacent(ray)
    }

    /** Squared half-length of the chord the ray's line cuts from the sphere. */
    function Discriminant(ray: Ray): real {
      radius * radius - OppositeSquared(ray)
    }

    function HalfChord(m: MathLib, ray: Ray): real {
      m.sqrt(Discriminant(ray))
    }

    /** The smaller of the two roots `adjacent -/+ half_chord`. */
    function NearerRoot(m: MathLib, ray: Ray): real {
      Min(Adjacent(ray) - HalfChord(m, ray), Adjacent(ray) + HalfChord(m, ray))
    }

    /** Perpendicular-distance test. A hit needs the line to pass within the
        tolerant radius and the nearer root to clear the 0.001 self-hit floor; the
        separate "both roots behind the start" rejection is implied by the floor. */
    function Intersect(m: MathLib, ray: Ray): (r: Option<Location>)
      ensures r.Some? <==> OppositeSquared(ray) <= radius * radius + EPSILON && 0.001 <= NearerRoot(m, ray)
      ensures r.Some? ==> r.value == Location(NearerRoot(m, ray), NoTexture)
    {
      var adjacent := Adjacent(ray);
      var oppositeSquared := OppositeSquared(ray);
      var radiusSquared := radius * radius;
      if IsGreaterThan(oppositeSquared, radiusSquared) then None
      else
        var halfChord := HalfChord(m, ray);
        var isect0 := adjacent - halfChord;
        var isect1 := adjacent + halfChord;
        if isect0 < 0.0 && isect1 < 0.0 then None
        else
          var distance := if isect0 < isect1 then isect0 else isect1;
          if distance < 0.001 then None
          else Some(Location(distance, NoTexture))
    }

    function GetColour(tc: TextureCoords): (c: Vec3)
      requires tc.NoTexture?
      ensures c == colour
    {
      colour
    }

    /** Outward normal at a surface point: (point - centre) / radius, normalised. */
    function GetNormal(m: MathLib, location: Vec3): Vec3
      requires radius != 0.0
    {
      m.normalize(Div(Sub(location, centre), radius))
    }
  }

  /** When the line passes within the exact radius, the half chord is a true square
      root and the reported distance is the near root `adjacent - half_chord`. */
  lemma SphereHitIsNearRoot(m: MathLib, s: Sphere, ray: Ray)
    requires Lawful(m)
    requires s.OppositeSquared(ray) <= s.radius * s.radius
    ensures 0.0 <= s.HalfChord(m, ray)
    ensures s.NearerRoot(m, ray) == s.Adjacent(ray) - s.HalfChord(m, ray)
    ensures s.Intersect(m, ray).Some? ==> s.Intersect(m, ray).value.distance == s.Adjacent(ray) - s.HalfChord(m, ray)
  {
    assert 0.0 <= s.radius * s.radius - s.OppositeSquared(ray);
  }

  /** A ray that starts strictly inside a sphere never hits it: the near root is
      negative, so the self-hit floor rejects it. */
  lemma SphereMissesFromInside(m: MathLib, s: Sphere, ray: Ray)
    requires Lawful(m)
    requires Mag2(Sub(s.centre, ray.start)) < s.radius * s.radius
    ensures s.Intersect(m, ray).None?
  {
    var a := s.Adjacent(ray);
    var arg := s.radius * s.radius - s.OppositeSquared(ray);
    assert arg > a * a;
    var h := s.HalfChord(m, ray);
    assert 0.0 <= h && h * h == arg;
    var absA := Abs(a);
    assert absA * absA == a * a;
    SquareLessIsLess(absA, h);
    assert s.NearerRoot(m, ray) < 0.0;
  }

  /** For non-negative numbers, a smaller square means a smaller number. */
  lemma SquareLessIsLess(a: real, b: real)
    requires 0.0 <= a && 0.0 <= b && a * a < b * b
    ensures a < b
  {
    if b <= a {
      MulMonotone(b, b, a);
      MulMonotone(a, b, a);
      assert false;
    }
  }

  lemma MulMonotone(k: real, x: real, y: real)
    requires 0.0 <= k && x <= y
    ensures k * x <= k * y
  {
    assert k * y - k * x == k * (y - x);
  }

  /** A ray aimed straight at the centre from distance `d` (unit direction) hits at
      `d - radius` when that clears the self-hit floor. */
  lemma SphereHeadOnHit(m: MathLib, s: Sphere, ray: Ray, d: real)
    requires Lawful(m)
    requires Mag2(ray.dir) == 1.0
    requires 0.0 < s.radius
    requires s.centre == Add(ray.start, Scale(d, ray.dir))
    requires 0.001 <= d - s.radius
    ensures s.Intersect(m, ray) == Some(Location(d - s.radius, NoTexture))
  {
    var tc := Sub(s.centre, ray.start);
    assert tc == Scale(d, ray.dir);
    DotScale(d, ray.dir, ray.dir);
    assert s.Adjacent(ray) == d;
    DotScale(d, ray.dir, Scale(d, ray.dir));
    assert Dot(ray.dir, Scale(d, ray.dir)) == d * Dot(ray.dir, ray.dir);
    assert Mag2(tc) == d * d;
    assert s.OppositeSquared(ray) == 0.0;
    assert s.Discriminant(ray) == s.radius * s.radius;
    SqrtOf(m, s.Discriminant(ray), s.radius);
  }

  /** With a unit direction and the line within the exact radius, a reported hit
      lies on the sphere: its distance from the centre is the radius. */
  lemma SphereHitIsOnSphere(m: MathLib, s: Sphere, ray: Ray)
    requires Lawful(m)
    requires Mag2(ray.dir) == 1.0
    requires s.OppositeSquared(ray) <= s.radius * s.radius
    requires s.Intersect(m, ray).Some?
    ensures Mag2(Sub(Add(ray.start, Scale(s.Intersect(m, ray).value.distance, ray.dir)), s.centre))
         == s.radius * s.radius
  {
    SphereHitIsNearRoot(m, s, ray);
    var t := s.Intersect(m, ray).value.distance;
    var tc := Sub(s.centre, ray.start);
    var a, h := s.Adjacent(ray), s.HalfChord(m, ray);
    assert h * h == s.radius * s.radius - (Mag2(tc) - a * a);
    DistanceAlongRay(ray.start, ray.dir, s.centre, t);
    ChordAlgebra(t, a, h, Mag2(tc), s.radius * s.radius);
  }

  /** Squared distance from `c` of the point `t` along a unit ray from `p`. */
  lemma DistanceAlongRay(p: Vec3, d: Vec3, c: Vec3, t: real)
    requires Mag2(d) == 1.0
    ensures Mag2(Sub(Add(p, Scale(t, d)), c)) == t * t - 2.0 * t * Dot(d, Sub(c, p)) + Mag2(Sub(c, p))
  {
  }

  lemma ChordAlgebra(t: real, a: real, h: real, q: real, r2: real)
    requires t == a - h && h * h == r2 - (q - a * a)
    ensures t * t - 2.0 * t * a + q == r2
  {
  }

  /** Moving the ray and the sphere by the same offset does not change the hit. */
  lemma SphereTranslationInvariant(m: MathLib, s: Sphere, ray: Ray, offset: Vec3)
    ensures s.(centre := Add(s.centre, offset)).Intersect(m, Ray(Add(ray.start, offset), ray.dir))
         == s.Intersect(m, ray)
  {
    var moved := s.(centre := Add(s.centre, offset));
    var movedRay := Ray(Add(ray.start, offset), ray.dir);
    assert Sub(moved.centre, movedRay.start) == Sub(s.centre, ray.start);
    assert moved.Adjacent(movedRay) == s.Adjacent(ray);
    assert moved.OppositeSquared(movedRay) == s.OppositeSquared(ray);
    assert moved.Discriminant(movedRay) == s.Discriminant(ray);
  }

  /** The normal of a sphere of positive radius at a point other than its centre is
      a unit vector pointing away from the centre. */
  lemma SphereNormalPointsOutward(m: MathLib, s: Sphere, location: Vec3)
    requires Lawful(m)
    requires 0.0 < s.radius
    requires 0.0 < Mag2(Sub(location, s.centre))
    ensures Mag2(s.GetNormal(m, location)) == 1.0
    ensures 0.0 < Dot(s.GetNormal(m, location), Sub(location, s.centre))
  {
    var v := Sub(location, s.centre);
    var w := Div(v, s.radius);
    assert v == Scale(s.radius, w);
    DotScale(s.radius, w, w);
    DotScale(s.radius, w, Scale(s.radius, w));
    assert Mag2(v) == s.radius * s.radius * Mag2(w);
    assert 0.0 < Mag2(w);
    NormalizeIsUnit(m, w);
    var n := m.normalize(w);
    DotScale(s.radius, w, n);
    assert Dot(n, v) == s.radius * Dot(n, w);
  }

  // ---------------------------------------------------------------------------
  // Triangles
  // ---------------------------------------------------------------------------

  /** Unit face normal `normalize((v2 - v0) x (v1 - v0))`, fixed at construction. */
  function ComputeNormal(m: MathLib, v0: Vec3, v1: Vec3, v2: Vec3): Vec3 {
    m.normalize(Cross(Sub(v2, v0), Sub(v1, v0)))
  }

  /** For a non-degenerate triangle the face normal is a unit vector perpendicular
      to both edges. */
  lemma FaceNormalIsPerpendicular(m: MathLib, v0: Vec3, v1: Vec3, v2: Vec3)
    requires Lawful(m)
    requires 0.0 < Mag2(Cross(Sub(v2, v0), Sub(v1, v0)))
    ensures Mag2(ComputeNormal(m, v0, v1, v2)) == 1.0
    ensures Dot(ComputeNormal(m, v0, v1, v2), Sub(v1, v0)) == 0.0
    ensures Dot(ComputeNormal(m, v0, v1, v2), Sub(v2, v0)) == 0.0
  {
    var c := Cross(Sub(v2, v0), Sub(v1, v0));
    NormalizeIsUnit(m, c);
    var k := 1.0 / m.sqrt(Dot(c, c));
    assert ComputeNormal(m, v0, v1, v2) == Scale(k, c);
    CrossIsPerpendicular(Sub(v2, v0), Sub(v1, v0));
    DotScale(k, c, Sub(v1, v0));
    DotScale(k, c, Sub(v2, v0));
  }

  lemma CrossIsPerpendicular(a: Vec3, b: Vec3)
    ensures Dot(Cross(a, b), a) == 0.0 && Dot(Cross(a, b), b) == 0.0
  {
  }

  datatype Triangle = Triangle(
    v0: Vec3, v1: Vec3, v2: Vec3,
    colour0: Vec3, colour1: Vec3, colour2: Vec3,
    material: Material,
    normal: Vec3)
  {
    /** The stored normal is the one computed from the vertices. */
    ghost predicate WellFormed(m: MathLib) {
      normal == ComputeNormal(m, v0, v1, v2)
    }

    /** `e1 . (dir x e2)` with edges `e1 = v1 - v0`, `e2 = v2 - v0`; its sign says
        which face the ray sees. */
    function Determinant(ray: Ray): real {
      Dot(Sub(v1, v0), Cross(ray.dir, Sub(v2, v0)))
    }

    /** The weight of v1 (the engine multiplies by the reciprocal of the
        determinant, which is the same quotient in exact arithmetic). */
    function BaryU(ray: Ray): real
      requires Determinant(ray) != 0.0
    {
      Dot(Sub(ray.start, v0), Cross(ray.dir, Sub(v2, v0))) / Determinant(ray)
    }

    /** The weight of v2. */
    function BaryV(ray: Ray): real
      requires Determinant(ray) != 0.0
    {
      Dot(ray.dir, Cross(Sub(ray.start, v0), Sub(v1, v0))) / Determinant(ray)
    }

    /** The ray parameter of the hit on the triangle's plane. */
    function HitDistance(ray: Ray): real
      requires Determinant(ray) != 0.0
    {
      Dot(Sub(v2, v0), Cross(Sub(ray.start, v0), Sub(v1, v0))) / Determinant(ray)
    }

    /** Moller-Trumbore test. A hit is reported exactly when the determinant is at
        least EPSILON or exactly -EPSILON (the two guards both let that value
        through), and the weights lie in the tolerant triangle. The distance is
        never sign-checked. */
    function Intersect(ray: Ray): (r: Option<Location>)
      ensures r.Some? <==>
        && (Determinant(ray) >= EPSILON || Determinant(ray) == -EPSILON)
        && -EPSILON <= BaryU(ray) <= 1.0 + EPSILON
        && -EPSILON <= BaryV(ray)
        && BaryU(ray) + BaryV(ray) <= 1.0 + EPSILON
      ensures r.Some? ==>
        r.value == Location(HitDistance(ray), Barycentric(NewBarycentric(BaryU(ray), BaryV(ray))))
    {
      var determinant := Determinant(ray);
      if IsNegative(determinant) then None
      else if IsZero(determinant) then None
      else
        var u := BaryU(ray);
        if IsNegative(u) || IsGreaterThan(u, 1.0) then None
        else
          var v := BaryV(ray);
          if IsNegative(v) || IsGreaterThan(u + v, 1.0) then None
          else
            var distance := HitDistance(ray);
            Some(Location(distance, Barycentric(NewBarycentric(u, v))))
    }

    /** `u * colour0 + v * colour1 + w * colour2`; a triangle whose three vertex
        colours agree shows that colour at every hit. */
    function GetColour(tc: TextureCoords): (c: Vec3)
      requires tc.Barycentric?
      ensures tc.coords.u + tc.coords.v + tc.coords.w == 1.0 && colour0 == colour1 == colour2 ==> c == colour0
    {
      var b := tc.coords;
      Add(Add(Scale(b.u, colour0), Scale(b.v, colour1)), Scale(b.w, colour2))
    }

    function GetNormal(location: Vec3): Vec3 {
      normal
    }
  }

  /** Builds a triangle and fixes its face normal. */
  function NewTriangle(m: MathLib, v0: Vec3, v1: Vec3, v2: Vec3,
                       colour0: Vec3, colour1: Vec3, colour2: Vec3, material: Material): (t: Triangle)
    ensures t.WellFormed(m)
    ensures t.v0 == v0 && t.v1 == v1 && t.v2 == v2 && t.material == material
    ensures t.colour0 == colour0 && t.colour1 == colour1 && t.colour2 == colour2
  {
    Triangle(v0, v1, v2, colour0, colour1, colour2, material, ComputeNormal(m, v0, v1, v2))
  }

  /** The weights of every accepted triangle hit sum to 1 and each lies within the
      tolerance band around [0, 1]. */
  lemma TriangleHitWeights(t: Triangle, ray: Ray)
    requires t.Intersect(ray).Some?
    ensures var b := t.Intersect(ray).value.textureCoords.coords;
      && b.u + b.v + b.w == 1.0
      && -EPSILON <= b.u <= 1.0 + EPSILON
      && -EPSILON <= b.v <= 1.0 + 2.0 * EPSILON
      && -EPSILON <= b.w <= 1.0 + 2.0 * EPSILON
  {
  }

  /** The point the hit distance names along the ray is the barycentric combination
      of the vertices with weights `1 - u - v`, `u` and `v`: `u` is the weight of v1
      and `v` that of v2. */
  lemma TriangleHitPoint(t: Triangle, ray: Ray)
    requires t.Determinant(ray) != 0.0
    ensures var u, v := t.BaryU(ray), t.BaryV(ray);
      Add(ray.start, Scale(t.HitDistance(ray), ray.dir))
      == Add(Add(Scale(1.0 - u - v, t.v0), Scale(u, t.v1)), Scale(v, t.v2))
  {
    var e1, e2 := Sub(t.v1, t.v0), Sub(t.v2, t.v0);
    EdgeSolution(e1, e2, ray.dir, Sub(ray.start, t.v0));
    var q := Add(ray.start, Scale(t.HitDistance(ray), ray.dir));
    assert Sub(q, t.v0) == Add(Sub(ray.start, t.v0), Scale(t.HitDistance(ray), ray.dir));
    RecombineVertices(q, t.v0, t.v1, t.v2, t.BaryU(ray), t.BaryV(ray));
  }

  /** The Moller-Trumbore quotients solve `d + t * c == u * a + v * b`. */
  lemma EdgeSolution(a: Vec3, b: Vec3, c: Vec3, d: Vec3)
    requires Dot(a, Cross(c, b)) != 0.0
    ensures var det := Dot(a, Cross(c, b));
      Add(d, Scale(Dot(b, Cross(d, a)) / det, c))
      == Add(Scale(Dot(d, Cross(c, b)) / det, a), Scale(Dot(c, Cross(d, a)) / det, b))
  {
    CramerX(a, b, c, d);
    CramerY(a, b, c, d);
    CramerZ(a, b, c, d);
    SolveByCramer(Dot(a, Cross(c, b)), Dot(d, Cross(c, b)), Dot(c, Cross(d, a)), Dot(b, Cross(d, a)), a, b, c, d);
  }

  /** Dividing Cramer's identities by the determinant gives the solution. */
  lemma SolveByCramer(det: real, pu: real, pv: real, pt: real, a: Vec3, b: Vec3, c: Vec3, d: Vec3)
    requires det != 0.0
    requires det * d.x == pu * a.x + pv * b.x - pt * c.x
    requires det * d.y == pu * a.y + pv * b.y - pt * c.y
    requires det * d.z == pu * a.z + pv * b.z - pt * c.z
    ensures Add(d, Scale(pt / det, c)) == Add(Scale(pu / det, a), Scale(pv / det, b))
  {
    DivideCramer(det, d.x, pu, pv, pt, a.x, b.x, c.x);
    DivideCramer(det, d.y, pu, pv, pt, a.y, b.y, c.y);
    DivideCramer(det, d.z, pu, pv, pt, a.z, b.z, c.z);
  }

  /** Cramer's rule for the system `u * a + v * b - t * c == d`, multiplied out one
      component at a time. */
  lemma CramerX(a: Vec3, b: Vec3, c: Vec3, d: Vec3)
    ensures Dot(a, Cross(c, b)) * d.x == Dot(d, Cross(c, b)) * a.x + Dot(c, Cross(d, a)) * b.x - Dot(b, Cross(d, a)) * c.x
  {
  }

  lemma CramerY(a: Vec3, b: Vec3, c: Vec3, d: Vec3)
    ensures Dot(a, Cross(c, b)) * d.y == Dot(d, Cross(c, b)) * a.y + Dot(c, Cross(d, a)) * b.y - Dot(b, Cross(d, a)) * c.y
  {
  }

  lemma CramerZ(a: Vec3, b: Vec3, c: Vec3, d: Vec3)
    ensures Dot(a, Cross(c, b)) * d.z == Dot(d, Cross(c, b)) * a.z + Dot(c, Cross(d, a)) * b.z - Dot(b, Cross(d, a)) * c.z
  {
  }

  lemma DivideCramer(det: real, x: real, pu: real, pv: real, pt: real, a: real, b: real, c: real)
    requires det != 0.0
    requires det * x == pu * a + pv * b - pt * c
    ensures x + (pt / det) * c == (pu / det) * a + (pv / det) * b
  {
  }

  /** A point whose offset from v0 is `u * (v1 - v0) + v * (v2 - v0)` is the
      combination of the vertices with weights `1 - u - v`, `u` and `v`. */
  lemma RecombineVertices(q: Vec3, v0: Vec3, v1: Vec3, v2: Vec3, u: real, v: real)
    requires Sub(q, v0) == Add(Scale(u, Sub(v1, v0)), Scale(v, Sub(v2, v0)))
    ensures q == Add(Add(Scale(1.0 - u - v, v0), Scale(u, v1)), Scale(v, v2))
  {
    RecombineVertex(q.x, v0.x, v1.x, v2.x, u, v);
    RecombineVertex(q.y, v0.y, v1.y, v2.y, u, v);
    RecombineVertex(q.z, v0.z, v1.z, v2.z, u, v);
  }

  lemma RecombineVertex(q: real, p0: real, p1: real, p2: real, u: real, v: real)
    requires q - p0 == u * (p1 - p0) + v * (p2 - p0)
    ensures q == (1.0 - u - v) * p0 + u * p1 + v * p2
  {
  }

  /** The ray moved `s` along its own direction. */
  function Advanced(ray: Ray, s: real): Ray {
    Ray(Add(ray.start, Scale(s, ray.dir)), ray.dir)
  }

  /** The ray pointed the other way from the same start. */
  function Reversed(ray: Ray): Ray {
    Ray(ray.start, Scale(-1.0, ray.dir))
  }

  /** Sliding the start along the ray keeps the weights and shortens the distance by
      the same amount; since the distance is never sign-checked, a triangle behind
      the start (`s` beyond the hit) is still reported, at a negative distance. */
  lemma TriangleHitSlidesAlongRay(t: Triangle, ray: Ray, s: real)
    requires t.Intersect(ray).Some?
    ensures t.Intersect(Advanced(ray, s)) ==
      Some(Location(t.Intersect(ray).value.distance - s, t.Intersect(ray).value.textureCoords))
  {
    var e1, e2 := Sub(t.v1, t.v0), Sub(t.v2, t.v0);
    var ray' := Advanced(ray, s);
    var tvec, tvec' := Sub(ray.start, t.v0), Sub(ray'.start, t.v0);
    var det := t.Determinant(ray);
    assert t.Determinant(ray') == det;
    assert tvec' == Add(tvec, Scale(s, ray.dir));
    var pvec := Cross(ray.dir, e2);
    DotAddScale(tvec, ray.dir, pvec, s);
    CrossIsPerpendicular(ray.dir, e2);
    assert t.BaryU(ray') == t.BaryU(ray);
    CrossAddScale(tvec, ray.dir, e1, s);
    var qvec, rvec := Cross(tvec, e1), Cross(ray.dir, e1);
    assert Cross(tvec', e1) == Add(qvec, Scale(s, rvec));
    DotAddScale(qvec, rvec, ray.dir, s);
    CrossIsPerpendicular(ray.dir, e1);
    DotCommutes(ray.dir, Add(qvec, Scale(s, rvec)));
    DotCommutes(ray.dir, qvec);
    DotCommutes(ray.dir, rvec);
    assert t.BaryV(ray') == t.BaryV(ray);
    DotCommutes(e2, Add(qvec, Scale(s, rvec)));
    DotAddScale(qvec, rvec, e2, s);
    DotCommutes(e2, qvec);
    DotCommutes(e2, rvec);
    TripleProductSwap(e1, ray.dir, e2);
    var y := Dot(e2, qvec);
    assert Dot(e2, Cross(tvec', e1)) == y - s * det;
    QuotientShift(y, det, s);
  }

  /** Reversing the ray negates the determinant and the distance and keeps both
      weights. */
  lemma ReversedRayMirrorsHit(t: Triangle, ray: Ray)
    requires t.Determinant(ray) != 0.0
    ensures t.Determinant(Reversed(ray)) == -t.Determinant(ray)
    ensures t.BaryU(Reversed(ray)) == t.BaryU(ray)
    ensures t.BaryV(Reversed(ray)) == t.BaryV(ray)
    ensures t.HitDistance(Reversed(ray)) == -t.HitDistance(ray)
  {
    var e1, e2 := Sub(t.v1, t.v0), Sub(t.v2, t.v0);
    var tvec := Sub(ray.start, t.v0);
    var pvec := Cross(ray.dir, e2);
    var d := Scale(-1.0, ray.dir);
    assert Cross(d, e2) == Scale(-1.0, pvec);
    DotScale(-1.0, pvec, e1);
    DotCommutes(e1, Scale(-1.0, pvec));
    DotCommutes(e1, pvec);
    var det := t.Determinant(ray);
    assert t.Determinant(Reversed(ray)) == -det;
    DotScale(-1.0, pvec, tvec);
    DotCommutes(tvec, Scale(-1.0, pvec));
    DotCommutes(tvec, pvec);
    QuotientNegated(Dot(tvec, pvec), det);
    var qvec := Cross(tvec, e1);
    DotScale(-1.0, ray.dir, qvec);
    QuotientNegated(Dot(ray.dir, qvec), det);
    NegatedDivisor(Dot(e2, qvec), det);
  }

  /** The back face of a triangle whose front face is met at determinant exactly
      EPSILON: the reversed ray meets it at exactly -EPSILON, which passes both the
      culling and the parallel-ray guards, so it is hit too. */
  lemma BackFaceAtMinusEpsilonIsHit(t: Triangle, ray: Ray)
    requires t.Determinant(ray) == EPSILON
    requires t.Intersect(ray).Some?
    ensures t.Determinant(Reversed(ray)) == -EPSILON
    ensures t.Intersect(Reversed(ray)) ==
      Some(Location(-t.Intersect(ray).value.distance, t.Intersect(ray).value.textureCoords))
  {
    ReversedRayMirrorsHit(t, ray);
  }

  lemma QuotientShift(y: real, d: real, s: real)
    requires d != 0.0
    ensures (y - s * d) / d == y / d - s
  {
  }

  lemma QuotientNegated(x: real, d: real)
    requires d != 0.0
    ensures -x / -d == x / d
  {
  }

  lemma NegatedDivisor(x: real, d: real)
    requires d != 0.0
    ensures x / -d == -(x / d)
  {
  }

  // ---------------------------------------------------------------------------
  // Objects
  // ---------------------------------------------------------------------------

  datatype Object = TriangleObject(triangle: Triangle) | SphereObject(sphere: Sphere)
  {
    /** A sphere must have a non-zero radius for its normal to be defined. */
    predicate Valid() {
      SphereObject? ==> sphere.radius != 0.0
    }

    /** The texture-coordinate kind this shape can be coloured from. */
    predicate Accepts(tc: TextureCoords) {
      TriangleObject? <==> tc.Barycentric?
    }

    function GetMaterial(): Material {
      match this
      case TriangleObject(t) => t.material
      case SphereObject(s) => s.material
    }

    function GetNormal(m: MathLib, location: Vec3): Vec3
      requires Valid()
    {
      match this
      case TriangleObject(t) => t.GetNormal(location)
      case SphereObject(s) => s.GetNormal(m, location)
    }

    function GetColour(tc: TextureCoords): Vec3
      requires Accepts(tc)
    {
      match this
      case TriangleObject(t) => t.GetColour(tc)
      case SphereObject(s) => s.GetColour(tc)
    }

    /** Every reported hit carries the texture kind this shape's colour needs. */
    function Intersect(m: MathLib, ray: Ray): (r: Option<Location>)
      ensures r.Some? ==> Accepts(r.value.textureCoords)
    {
      match this
      case SphereObject(s) => s.Intersect(m, ray)
      case TriangleObject(t) => t.Intersect(ray)
    }
  }

  // ---------------------------------------------------------------------------
  // Scene: nearest hit
  // ---------------------------------------------------------------------------

  /** A hit together with the object hit and its position in the scene. */
  datatype Intersection = Intersection(location: Location, obj: Object, index: nat)

  predicate HitsBelow(o: Object, m: MathLib, ray: Ray, bound: real) {
    var h := o.Intersect(m, ray);
    h.Some? && h.value.distance < bound
  }

  predicate HitsAtOrBelow(o: Object, m: MathLib, ray: Ray, bound: real) {
    var h := o.Intersect(m, ray);
    h.Some? && h.value.distance <= bound
  }

  /** The nearest hit among `objects`, scanning in order with a running minimum
      seeded at F32_MAX and replaced only on a strictly smaller distance. Whatever
      it returns is one object's own hit, below F32_MAX. */
  function Nearest(objects: seq<Object>, m: MathLib, ray: Ray): (r: Option<Intersection>)
    ensures r.Some? ==>
      && r.value.index < |objects|
      && r.value.obj == objects[r.value.index]
      && objects[r.value.index].Intersect(m, ray) == Some(r.value.location)
      && r.value.location.distance < F32_MAX
    decreases |objects|
  {
    if objects == [] then None
    else
      var last := |objects| - 1;
      var best := Nearest(objects[..last], m, ray);
      var bound := if best.Some? then best.value.location.distance else F32_MAX;
      match objects[last].Intersect(m, ray)
      case Some(location) =>
        if location.distance < bound then Some(Intersection(location, objects[last], last)) else best
      case None => best
  }

  /** The scan finds the minimum: the result is absent exactly when no object
      reports a hit below F32_MAX; otherwise no object reports a nearer hit, and
      every earlier object reports nothing at that distance or nearer (the first
      object wins a tie). */
  lemma {:induction false} NearestIsFirstMinimum(objects: seq<Object>, m: MathLib, ray: Ray)
    ensures var r := Nearest(objects, m, ray);
      && (r.None? <==> forall i :: 0 <= i < |objects| ==> !HitsBelow(objects[i], m, ray, F32_MAX))
      && (r.Some? ==> forall i :: 0 <= i < |objects| ==> !HitsBelow(objects[i], m, ray, r.value.location.distance))
      && (r.Some? ==> forall i :: 0 <= i < r.value.index ==> !HitsAtOrBelow(objects[i], m, ray, r.value.location.distance))
    decreases |objects|
  {
    if objects != [] {
      var last := |objects| - 1;
      var prefix := objects[..last];
      NearestIsFirstMinimum(prefix, m, ray);
      assert forall i :: 0 <= i < last ==> prefix[i] == objects[i];
    }
  }

  datatype Scene = Scene(objects: seq<Object>)
  {
    predicate Valid() {
      forall i :: 0 <= i < |objects| ==> objects[i].Valid()
    }

    /** The linear scan over the objects, with the running minimum in locals. */
    method ClosestIntersection(m: MathLib, ray: Ray) returns (closest: Option<Intersection>)
      ensures closest == Nearest(objects, m, ray)
    {
      var closestDist := F32_MAX;
      closest := None;
      for i := 0 to |objects|
        invariant closest == Nearest(objects[..i], m, ray)
        invariant closestDist == if closest.Some? then closest.value.location.distance else F32_MAX
      {
        assert objects[..i + 1][..i] == objects[..i];
        match objects[i].Intersect(m, ray)
        case Some(location) =>
          if location.distance < closestDist {
            closestDist := location.distance;
            closest := Some(Intersection(location, objects[i], i));
          }
        case None =>
      }
      assert objects[..|objects|] == objects;
    }
  }

  // ---------------------------------------------------------------------------
  // Tracer
  // ---------------------------------------------------------------------------

  /** Sky gradient for a ray that escapes: TOP for a ray pointing straight down,
      BOTTOM for one pointing straight up, in between for unit directions. */
  function Background(dir: Vec3): (c: Vec3)
    ensures dir.y == -1.0 ==> c == BACKGROUND_TOP
    ensures dir.y == 1.0 ==> c == BACKGROUND_BOTTOM
    ensures -1.0 <= dir.y <= 1.0 ==> 0.5 <= c.x <= 1.0 && 0.7 <= c.y <= 1.0 && c.z == 1.0
  {
    Lerp(BACKGROUND_TOP, BACKGROUND_BOTTOM, 0.5 * (dir.y + 1.0))
  }

  /** The mirror direction before normalisation. */
  function Mirror(dir: Vec3, normal: Vec3): Vec3 {
    Sub(dir, Scale(2.0 * Dot(dir, normal), normal))
  }

  function Reflect(m: MathLib, dir: Vec3, normal: Vec3): Vec3 {
    m.normalize(Mirror(dir, normal))
  }

  /** Off a unit normal, mirroring negates the normal component, so incident and
      reflected directions make equal angles with the normal. */
  lemma MirrorFlipsNormalComponent(dir: Vec3, normal: Vec3)
    requires Mag2(normal) == 1.0
    ensures Dot(Mirror(dir, normal), normal) == -Dot(dir, normal)
  {
    var k := 2.0 * Dot(dir, normal);
    assert Mirror(dir, normal) == Add(dir, Scale(-k, normal));
    DotAddScale(dir, normal, normal, -k);
  }

  /** Mirroring off a unit normal keeps the length of the direction. */
  lemma MirrorKeepsLength(dir: Vec3, normal: Vec3)
    requires Mag2(normal) == 1.0
    ensures Mag2(Mirror(dir, normal)) == Mag2(dir)
  {
    var c, k := Dot(dir, normal), 2.0 * Dot(dir, normal);
    var r := Mirror(dir, normal);
    var rn, rd := Dot(r, normal), Dot(r, dir);
    assert rn == c - k by {
      MirrorFlipsNormalComponent(dir, normal);
    }
    assert rd == Mag2(dir) - k * c by {
      assert r == Add(dir, Scale(-k, normal));
      DotAddScale(dir, normal, dir, -k);
      DotCommutes(normal, dir);
    }
    assert Mag2(r) == rd - k * rn by {
      assert r == Add(dir, Scale(-k, normal));
      DotAddScale(dir, normal, r, -k);
      DotCommutes(dir, r);
      DotCommutes(normal, r);
    }
    MirrorLengthAlgebra(Mag2(dir), c, k, rd, rn);
  }

  lemma MirrorLengthAlgebra(a: real, c: real, k: real, rd: real, rn: real)
    requires k == 2.0 * c && rd == a - k * c && rn == c - k
    ensures rd - k * rn == a
  {
  }

  /** Head-on incidence against a unit normal bounces straight back along the normal. */
  lemma ReflectStraightOn(m: MathLib, normal: Vec3)
    requires Lawful(m)
    requires Mag2(normal) == 1.0
    ensures Reflect(m, Scale(-1.0, normal), normal) == normal
  {
    var dir := Scale(-1.0, normal);
    DotScale(-1.0, normal, normal);
    var k := 2.0 * Dot(dir, normal);
    assert k == -2.0;
    assert Mirror(dir, normal) == normal;
    NormalizeOfUnit(m, normal);
  }

  /** A 45-degree incident ray reflects to the mirrored 45-degree direction. */
  lemma ReflectAt45Degrees(m: MathLib)
    requires Lawful(m)
    ensures Reflect(m, m.normalize(Vec3(1.0, 0.0, -1.0)), Vec3(0.0, 0.0, 1.0)) == m.normalize(Vec3(1.0, 0.0, 1.0))
  {
    var s := m.sqrt(2.0);
    assert 0.0 <= s && s * s == 2.0;
    var k := 1.0 / s;
    assert k * k == 0.5 by {
      assert k * s == 1.0;
      assert (k * s) * (k * s) == 1.0;
      assert (k * k) * (s * s) == 1.0;
    }
    assert m.normalize(Vec3(1.0, 0.0, -1.0)) == Vec3(k, 0.0, -k);
    assert m.normalize(Vec3(1.0, 0.0, 1.0)) == Vec3(k, 0.0, k);
    var r := Mirror(Vec3(k, 0.0, -k), Vec3(0.0, 0.0, 1.0));
    assert r == Vec3(k, 0.0, k);
    assert Mag2(r) == 1.0;
    NormalizeOfUnit(m, r);
  }

  /** Direction of a Lambertian bounce from an accepted sample `p` of the unit ball. */
  function ScatterDirection(m: MathLib, normal: Vec3, p: Vec3): Vec3 {
    m.normalize(Add(normal, p))
  }

  /** Index of the first draw strictly inside the unit ball. */
  function FirstInsideUnitBall(draws: seq<Vec3>): (r: Option<nat>)
    ensures r.Some? ==>
      && r.value < |draws|
      && Mag2(draws[r.value]) < 1.0
      && forall j :: 0 <= j < r.value ==> Mag2(draws[j]) >= 1.0
    ensures r.None? ==> forall j :: 0 <= j < |draws| ==> Mag2(draws[j]) >= 1.0
  {
    if draws == [] then None
    else if Mag2(draws[0]) < 1.0 then Some(0)
    else
      match FirstInsideUnitBall(draws[1..])
      case None => None
      case Some(k) => Some(k + 1)
  }

  /** Rejection sampling over a finite stream of uniform draws from [-1, 1]^3: the
      first draw strictly inside the unit ball is added to the normal. */
  method DiffuseDirection(m: MathLib, normal: Vec3, draws: seq<Vec3>) returns (dir: Option<Vec3>)
    ensures dir == match FirstInsideUnitBall(draws)
                   case None => None
                   case Some(k) => Some(ScatterDirection(m, normal, draws[k]))
  {
    var i := 0;
    while i < |draws|
      invariant 0 <= i <= |draws|
      invariant forall j :: 0 <= j < i ==> Mag2(draws[j]) >= 1.0
    {
      if Mag2(draws[i]) < 1.0 {
        return Some(ScatterDirection(m, normal, draws[i]));
      }
      i := i + 1;
    }
    return None;
  }

  /** The hit position as the tracer computes it: `distance * dir`, without adding
      the ray's start. */
  function HitPosition(ray: Ray, distance: real): (p: Vec3)
    ensures p == Add(ray.start, Scale(distance, ray.dir)) <==> ray.start == Vec3(0.0, 0.0, 0.0)
  {
    Scale(distance, ray.dir)
  }

  /** A secondary ray, its start pushed off the surface by 0.005 along the normal. */
  function BounceRay(position: Vec3, normal: Vec3, dir: Vec3): Ray {
    Ray(Add(position, Scale(0.005, normal)), dir)
  }

  /** The colour seen along `ray`. `depth` is the remaining bounce budget; the
      Lambertian bounce at remaining depth `d` uses the sample `scatter(d)`. */
  function Trace(m: MathLib, ray: Ray, scene: Scene, depth: nat, scatter: nat -> Vec3): Vec3
    requires scene.Valid()
    decreases depth
  {
    match Nearest(scene.objects, m, ray)
    case None => Background(ray.dir)
    case Some(i) =>
      var position := HitPosition(ray, i.location.distance);
      match i.obj.GetMaterial()
      case Specular =>
        if depth > 0 then
          var normal := i.obj.GetNormal(m, position);
          Scale(0.9, Trace(m, BounceRay(position, normal, Reflect(m, ray.dir, normal)), scene, depth - 1, scatter))
        else
          i.obj.GetColour(i.location.textureCoords)
      case Diffuse => i.obj.GetColour(i.location.textureCoords)
      case Lambertian =>
        if depth > 0 then
          var normal := i.obj.GetNormal(m, position);
          Scale(0.5, Trace(m, BounceRay(position, normal, ScatterDirection(m, normal, scatter(depth))), scene, depth - 1, scatter))
        else
          BLACK
  }

  /** What Trace does, case by case: a miss gives the sky; Diffuse gives the surface
      colour at any depth; Specular and Lambertian recurse once, with depth - 1,
      from `distance * dir + 0.005 * normal`, and scale by 0.9 and 0.5; at depth 0
      they give the surface colour and black. */
  lemma TraceCases(m: MathLib, ray: Ray, scene: Scene, depth: nat, scatter: nat -> Vec3)
    requires scene.Valid()
    ensures Nearest(scene.objects, m, ray).None? ==> Trace(m, ray, scene, depth, scatter) == Background(ray.dir)
    ensures Nearest(scene.objects, m, ray).Some? ==>
      var i := Nearest(scene.objects, m, ray).value;
      var start := Scale(i.location.distance, ray.dir);
      var normal := i.obj.GetNormal(m, start);
      var surface := i.obj.GetColour(i.location.textureCoords);
      var next := Add(start, Scale(0.005, normal));
      && (i.obj.GetMaterial() == Diffuse ==> Trace(m, ray, scene, depth, scatter) == surface)
      && (i.obj.GetMaterial() == Specular && depth == 0 ==> Trace(m, ray, scene, depth, scatter) == surface)
      && (i.obj.GetMaterial() == Lambertian && depth == 0 ==> Trace(m, ray, scene, depth, scatter) == BLACK)
      && (i.obj.GetMaterial() == Specular && depth > 0 ==>
            Trace(m, ray, scene, depth, scatter)
            == Scale(0.9, Trace(m, Ray(next, Reflect(m, ray.dir, normal)), scene, depth - 1, scatter)))
      && (i.obj.GetMaterial() == Lambertian && depth > 0 ==>
            Trace(m, ray, scene, depth, scatter)
            == Scale(0.5, Trace(m, Ray(next, ScatterDirection(m, normal, scatter(depth))), scene, depth - 1, scatter)))
  {
  }

  /** Without Lambertian objects the random samples are never consulted. */
  lemma {:induction false} TraceIgnoresScatterWithoutLambertian(
    m: MathLib, ray: Ray, scene: Scene, depth: nat, scatter1: nat -> Vec3, scatter2: nat -> Vec3)
    requires scene.Valid()
    requires forall i :: 0 <= i < |scene.objects| ==> scene.objects[i].GetMaterial() != Lambertian
    ensures Trace(m, ray, scene, depth, scatter1) == Trace(m, ray, scene, depth, scatter2)
    decreases depth
  {
    match Nearest(scene.objects, m, ray)
    case None =>
    case Some(i) =>
      var position := HitPosition(ray, i.location.distance);
      if i.obj.GetMaterial() == Specular && depth > 0 {
        var normal := i.obj.GetNormal(m, position);
        TraceIgnoresScatterWithoutLambertian(m, BounceRay(position, normal, Reflect(m, ray.dir, normal)),
                                             scene, depth - 1, scatter1, scatter2);
      }
  }

  predicate InUnitCube(c: Vec3) {
    0.0 <= c.x <= 1.0 && 0.0 <= c.y <= 1.0 && 0.0 <= c.z <= 1.0
  }

  /** Every colour an object can show lies in the unit cube: spheres and triangles
      whose three vertex colours agree, all with colours in the cube. */
  predicate UnitColoured(o: Object) {
    match o
    case SphereObject(s) => InUnitCube(s.colour)
    case TriangleObject(t) => t.colour0 == t.colour1 == t.colour2 && InUnitCube(t.colour0)
  }

  /** The library's normalisation never yields a y component outside [-1, 1]. */
  ghost predicate UnitDirections(m: MathLib) {
    forall v :: -1.0 <= m.normalize(v).y <= 1.0
  }

  /** Attenuation never brightens: with unit-cube colours and a primary ray whose
      direction has |y| <= 1, every traced colour stays in the unit cube. */
  lemma {:induction false} TraceStaysInUnitCube(m: MathLib, ray: Ray, scene: Scene, depth: nat, scatter: nat -> Vec3)
    requires scene.Valid()
    requires forall i :: 0 <= i < |scene.objects| ==> UnitColoured(scene.objects[i])
    requires UnitDirections(m)
    requires -1.0 <= ray.dir.y <= 1.0
    ensures InUnitCube(Trace(m, ray, scene, depth, scatter))
    decreases depth
  {
    match Nearest(scene.objects, m, ray)
    case None =>
    case Some(i) =>
      var position := HitPosition(ray, i.location.distance);
      assert UnitColoured(i.obj);
      match i.obj.GetMaterial()
      case Specular =>
        if depth > 0 {
          var normal := i.obj.GetNormal(m, position);
          TraceStaysInUnitCube(m, BounceRay(position, normal, Reflect(m, ray.dir, normal)), scene, depth - 1, scatter);
        }
      case Diffuse =>
      case Lambertian =>
        if depth > 0 {
          var normal := i.obj.GetNormal(m, position);
          TraceStaysInUnitCube(m, BounceRay(position, normal, ScatterDirection(m, normal, scatter(depth))), scene, depth - 1, scatter);
        }
  }

  /** Why `UnitColoured` asks a triangle for three equal vertex colours: the tolerance
      band accepts weights `(-EPSILON, 0.5, 0.5 + EPSILON)` (`TolerantHit` exhibits such
      a hit), and there a triangle coloured black, white, white shows a red component
      of `1 + EPSILON`, outside the unit cube. A diffuse object shows that colour when
      traced (`DiffuseHitShowsColour`). */
  lemma TolerantWeightsLeaveUnitCube(t: Triangle)
    requires t.colour0 == Vec3(0.0, 0.0, 0.0)
    requires t.colour1 == Vec3(1.0, 1.0, 1.0) && t.colour2 == Vec3(1.0, 1.0, 1.0)
    ensures var c := t.GetColour(Barycentric(NewBarycentric(-EPSILON, 0.5)));
      c.x == 1.0 + EPSILON && !InUnitCube(c)
  {
    assert NewBarycentric(-EPSILON, 0.5) == BarycentricCoords(-EPSILON, 0.5, 0.5 + EPSILON);
  }

  /** The scan over a scene of one object reports that object's hit. */
  lemma LoneObjectNearest(o: Object, m: MathLib, ray: Ray, location: Location)
    requires o.Intersect(m, ray) == Some(location)
    requires location.distance < F32_MAX
    ensures Nearest([o], m, ray) == Some(Intersection(location, o, 0))
  {
    assert [o][..0] == [];
  }

  /** A ray whose nearest hit is on a diffuse object is traced to that object's colour
      at the hit, at any depth. */
  lemma DiffuseHitShowsColour(m: MathLib, ray: Ray, scene: Scene, depth: nat, scatter: nat -> Vec3)
    requires scene.Valid()
    requires Nearest(scene.objects, m, ray).Some?
    requires Nearest(scene.objects, m, ray).value.obj.GetMaterial() == Diffuse
    ensures var i := Nearest(scene.objects, m, ray).value;
      Trace(m, ray, scene, depth, scatter) == i.obj.GetColour(i.location.textureCoords)
  {
  }

  /** A hit the tolerance band accepts although `u` is negative: straight down from
      `(-EPSILON, 0.5, 1)` onto the unit right triangle in the plane z = 0, at
      distance 1 with the weights of v1 and v2 being `-EPSILON` and `0.5`. */
  lemma TolerantHit(t: Triangle, ray: Ray)
    requires t.v0 == Vec3(0.0, 0.0, 0.0) && t.v1 == Vec3(1.0, 0.0, 0.0) && t.v2 == Vec3(0.0, 1.0, 0.0)
    requires ray == Ray(Vec3(-EPSILON, 0.5, 1.0), Vec3(0.0, 0.0, -1.0))
    ensures t.Intersect(ray) == Some(Location(1.0, Barycentric(NewBarycentric(-EPSILON, 0.5))))
  {
    UnitTriangleProducts(t.v0, t.v1, t.v2, ray.start, ray.dir, -EPSILON, 0.5);
    HitFromProducts(t, ray, -EPSILON, 0.5);
  }

  /** A triangle test whose determinant is 1 and whose weight numerators lie in the
      tolerant triangle reports the hit at the distance numerator. */
  lemma HitFromProducts(t: Triangle, ray: Ray, a: real, b: real)
    requires var e1, e2, offset := Sub(t.v1, t.v0), Sub(t.v2, t.v0), Sub(ray.start, t.v0);
      && Dot(e1, Cross(ray.dir, e2)) == 1.0
      && Dot(offset, Cross(ray.dir, e2)) == a
      && Dot(ray.dir, Cross(offset, e1)) == b
      && Dot(e2, Cross(offset, e1)) == 1.0
    requires -EPSILON <= a <= 1.0 + EPSILON && -EPSILON <= b && a + b <= 1.0 + EPSILON
    ensures t.Intersect(ray) == Some(Location(1.0, Barycentric(NewBarycentric(a, b))))
  {
    UnitDeterminantQuotients(t, ray);
    HitFromWeights(t, ray, a, b, 1.0);
  }

  /** A triangle test with determinant 1 and weights in the tolerant triangle reports
      the hit. */
  lemma HitFromWeights(t: Triangle, ray: Ray, u: real, v: real, d: real)
    requires t.Determinant(ray) == 1.0
    requires t.BaryU(ray) == u && t.BaryV(ray) == v && t.HitDistance(ray) == d
    requires -EPSILON <= u <= 1.0 + EPSILON && -EPSILON <= v && u + v <= 1.0 + EPSILON
    ensures t.Intersect(ray) == Some(Location(d, Barycentric(NewBarycentric(u, v))))
  {
  }

  /** With determinant 1 the three quotients are their numerators. */
  lemma UnitDeterminantQuotients(t: Triangle, ray: Ray)
    requires t.Determinant(ray) == 1.0
    ensures var e1, e2, offset := Sub(t.v1, t.v0), Sub(t.v2, t.v0), Sub(ray.start, t.v0);
      && t.BaryU(ray) == Dot(offset, Cross(ray.dir, e2))
      && t.BaryV(ray) == Dot(ray.dir, Cross(offset, e1))
      && t.HitDistance(ray) == Dot(e2, Cross(offset, e1))
  {
    var e1, e2, offset := Sub(t.v1, t.v0), Sub(t.v2, t.v0), Sub(ray.start, t.v0);
    DivideByOne(Dot(offset, Cross(ray.dir, e2)), t.Determinant(ray));
    DivideByOne(Dot(ray.dir, Cross(offset, e1)), t.Determinant(ray));
    DivideByOne(Dot(e2, Cross(offset, e1)), t.Determinant(ray));
  }

  /** Straight down from `(a, b, 1)` onto the unit right triangle in the plane z = 0:
      the Moller-Trumbore determinant is 1 and the numerators of the two weights and
      the distance are `a`, `b` and 1. */
  lemma UnitTriangleProducts(v0: Vec3, v1: Vec3, v2: Vec3, start: Vec3, dir: Vec3, a: real, b: real)
    requires v0 == Vec3(0.0, 0.0, 0.0) && v1 == Vec3(1.0, 0.0, 0.0) && v2 == Vec3(0.0, 1.0, 0.0)
    requires start == Vec3(a, b, 1.0) && dir == Vec3(0.0, 0.0, -1.0)
    ensures var e1, e2, offset := Sub(v1, v0), Sub(v2, v0), Sub(start, v0);
      && Dot(e1, Cross(dir, e2)) == 1.0
      && Dot(offset, Cross(dir, e2)) == a
      && Dot(dir, Cross(offset, e1)) == b
      && Dot(e2, Cross(offset, e1)) == 1.0
  {
  }

  lemma DivideByOne(x: real, d: real)
    requires d == 1.0
    ensures x / d == x
  {
  }

  /** A diffuse sphere straight ahead of a unit ray, alone in the scene: the scan
      reports it at `d - radius` and the tracer shows its colour at any depth. */
  lemma DiffuseSphereAhead(m: MathLib, s: Sphere, ray: Ray, d: real, depth: nat, scatter: nat -> Vec3)
    requires Lawful(m)
    requires Mag2(ray.dir) == 1.0
    requires 0.0 < s.radius && s.material == Diffuse
    requires s.centre == Add(ray.start, Scale(d, ray.dir))
    requires 0.001 <= d - s.radius < F32_MAX
    ensures Nearest([SphereObject(s)], m, ray) == Some(Intersection(Location(d - s.radius, NoTexture), SphereObject(s), 0))
    ensures Scene([SphereObject(s)]).Valid()
    ensures Trace(m, ray, Scene([SphereObject(s)]), depth, scatter) == s.colour
  {
    SphereHeadOnHit(m, s, ray, d);
    assert [SphereObject(s)][..0] == [];
  }

  // ---------------------------------------------------------------------------
  // Camera
  // ---------------------------------------------------------------------------

  /** `v` as a homogeneous point, multiplied by `matrix`, back to three components. */
  function RotateVector(v: Vec3, matrix: Mat4): Vec3 {
    To3(MulMV(matrix, To4(v)))
  }

  /** Pre-normalisation direction from `origin` to the viewport point (u, v). */
  function ViewDirection(lowerLeftCorner: Vec3, horizontal: Vec3, vertical: Vec3, origin: Vec3, u: real, v: real): Vec3 {
    Sub(Add(Add(lowerLeftCorner, Scale(u, horizontal)), Scale(v, vertical)), origin)
  }

  /** The viewport is 2 high and `2 * aspectRatio` wide, centred `focalLength` in
      front of the origin along -z. */
  function InitialLowerLeftCorner(origin: Vec3, focalLength: real, aspectRatio: real): Vec3 {
    Sub(Sub(Sub(origin, Div(Vec3(2.0 * aspectRatio, 0.0, 0.0), 2.0)), Div(Vec3(0.0, 2.0, 0.0), 2.0)), Vec3(0.0, 0.0, focalLength))
  }

  /** For a freshly built camera the direction through (u, v) does not depend on
      where the camera is. */
  lemma FreshViewDirection(origin: Vec3, focalLength: real, aspectRatio: real, u: real, v: real)
    ensures ViewDirection(InitialLowerLeftCorner(origin, focalLength, aspectRatio),
                          Vec3(2.0 * aspectRatio, 0.0, 0.0), Vec3(0.0, 2.0, 0.0), origin, u, v)
         == Vec3((2.0 * u - 1.0) * aspectRatio, 2.0 * v - 1.0, -focalLength)
  {
    var corner := InitialLowerLeftCorner(origin, focalLength, aspectRatio);
    assert corner == Vec3(origin.x - aspectRatio, origin.y - 1.0, origin.z - focalLength);
    assert (2.0 * u - 1.0) * aspectRatio == u * (2.0 * aspectRatio) - aspectRatio;
  }

  /** Moving the origin without touching the viewport shifts every direction by the
      opposite of the move. */
  lemma StaleViewportShift(lowerLeftCorner: Vec3, horizontal: Vec3, vertical: Vec3, before: Vec3, after: Vec3, u: real, v: real)
    ensures ViewDirection(lowerLeftCorner, horizontal, vertical, after, u, v)
         == Add(ViewDirection(lowerLeftCorner, horizontal, vertical, before, u, v), Sub(before, after))
  {
  }

  /** The camera fields a primary ray depends on. */
  datatype CameraView = CameraView(origin: Vec3, lowerLeftCorner: Vec3, horizontal: Vec3, vertical: Vec3)
  {
    /** The primary ray for normalised screen coordinates (u, v): it starts at the
        camera origin and points through the viewport point. */
    function CameraRay(m: MathLib, u: real, v: real): (r: Ray)
      ensures r.start == origin
      ensures r.dir == m.normalize(ViewDirection(lowerLeftCorner, horizontal, vertical, origin, u, v))
    {
      Ray(origin, m.normalize(ViewDirection(lowerLeftCorner, horizontal, vertical, origin, u, v)))
    }
  }

  class Camera {
    var origin: Vec3
    var horizontalDir: Vec3
    var verticalDir: Vec3
    var lowerLeftCorner: Vec3
    var yaw: real
    var rotationMatrix: Mat4

    constructor (m: MathLib, origin: Vec3, focalLength: real, aspectRatio: real, yaw: real)
      ensures this.origin == origin && this.yaw == yaw && rotationMatrix == m.rotationY(yaw)
      ensures horizontalDir == Vec3(2.0 * aspectRatio, 0.0, 0.0) && verticalDir == Vec3(0.0, 2.0, 0.0)
      ensures lowerLeftCorner == InitialLowerLeftCorner(origin, focalLength, aspectRatio)
      ensures forall u, v :: RayDirection(u, v) == Vec3((2.0 * u - 1.0) * aspectRatio, 2.0 * v - 1.0, -focalLength)
    {
      var viewportHeight := 2.0;
      var viewportWidth := aspectRatio * viewportHeight;
      this.origin := origin;
      this.horizontalDir := Vec3(viewportWidth, 0.0, 0.0);
      this.verticalDir := Vec3(0.0, viewportHeight, 0.0);
      this.lowerLeftCorner := InitialLowerLeftCorner(origin, focalLength, aspectRatio);
      this.yaw := yaw;
      this.rotationMatrix := m.rotationY(yaw);
      new;
      forall u: real, v: real
        ensures RayDirection(u, v) == Vec3((2.0 * u - 1.0) * aspectRatio, 2.0 * v - 1.0, -focalLength)
      {
        FreshViewDirection(origin, focalLength, aspectRatio, u, v);
      }
    }

    /** Direction through viewport point (u, v) before normalisation. */
    function RayDirection(u: real, v: real): Vec3
      reads this
    {
      ViewDirection(lowerLeftCorner, horizontalDir, verticalDir, origin, u, v)
    }

    /** The fields the primary rays are computed from. */
    function View(): CameraView
      reads this
    {
      CameraView(origin, lowerLeftCorner, horizontalDir, verticalDir)
    }

    /** The primary ray for normalised screen coordinates (u, v). */
    function CreateCameraRay(m: MathLib, u: real, v: real): (r: Ray)
      reads this
      ensures r.start == origin
      ensures r.dir == m.normalize(RayDirection(u, v))
    {
      View().CameraRay(m, u, v)
    }

    /** Adds `delta` to the yaw (wrapped below a full turn), recomputes the rotation
        matrix and rotates the origin about the world y axis by `delta`. The viewport
        is left as it was, so every ray now aims at the old viewport. */
    method Rotate(m: MathLib, delta: real)
      modifies this
      ensures yaw == Rem360(old(yaw) + delta) && -360.0 < yaw < 360.0
      ensures rotationMatrix == m.rotationY(yaw)
      ensures origin == RotateVector(old(origin), m.rotationY(delta))
      ensures horizontalDir == old(horizontalDir) && verticalDir == old(verticalDir)
      ensures lowerLeftCorner == old(lowerLeftCorner)
      ensures forall u, v :: RayDirection(u, v) == Add(old(RayDirection(u, v)), Sub(old(origin), origin))
    {
      yaw := Rem360(yaw + delta);
      rotationMatrix := m.rotationY(yaw);
      var locationRotation := m.rotationY(delta);
      origin := RotateVector(origin, locationRotation);
    }

    /** Moves the origin by `distance` along the yaw's forward direction in the
        x-z plane; nothing else changes, the viewport included. */
    method Dolly(m: MathLib, distance: real)
      modifies this
      ensures origin == Vec3(old(origin.x) - distance * m.sinDeg(yaw), old(origin.y),
                             old(origin.z) - distance * m.cosDeg(yaw))
      ensures yaw == old(yaw) && rotationMatrix == old(rotationMatrix)
      ensures horizontalDir == old(horizontalDir) && verticalDir == old(verticalDir)
      ensures lowerLeftCorner == old(lowerLeftCorner)
      ensures forall u, v :: RayDirection(u, v) == Add(old(RayDirection(u, v)), Sub(old(origin), origin))
    {
      origin := origin.(x := origin.x - distance * m.sinDeg(yaw));
      origin := origin.(z := origin.z - distance * m.cosDeg(yaw));
    }
  }

  /** With well-behaved maths, every primary ray has a unit direction unless the
      viewport point coincides with the origin. */
  lemma CameraRayIsUnit(m: MathLib, camera: Camera, u: real, v: real)
    requires Lawful(m)
    requires 0.0 < Mag2(camera.RayDirection(u, v))
    ensures Mag2(camera.CreateCameraRay(m, u, v).dir) == 1.0
  {
    NormalizeIsUnit(m, camera.RayDirection(u, v));
  }
}
