/** triangle.js and smooth-triangle.js: a flat triangle stored with its two edges and its
    normal, the Möller–Trumbore intersection, and the smooth triangle that interpolates three
    vertex normals. `isZero` and `normalize` are passed in. */
module Triangles {
  import opened Wrappers
  import opened Tuples
  import opened Intersections
  import opened Rays

  /** The fields the `Triangle` constructor sets. */
  datatype TriangleData = TriangleData(p1: Tuple, p2: Tuple, p3: Tuple, e1: Tuple, e2: Tuple, normal: Tuple)

  /** `new Triangle(p1, p2, p3)`: the edges from p1 to the other two corners, and the
      normalised cross product of the edges as the normal. */
  function MakeTriangle(p1: Tuple, p2: Tuple, p3: Tuple, normalize: Tuple -> Tuple): (tri: TriangleData)
    ensures tri.p1 == p1 && tri.p2 == p2 && tri.p3 == p3
    ensures Add(p1, tri.e1) == p2 && Add(p1, tri.e2) == p3
    ensures IsPoint(p1) && IsPoint(p2) && IsPoint(p3) ==> IsVector(tri.e1) && IsVector(tri.e2)
    ensures tri.normal == normalize(Cross(tri.e2, tri.e1))
  {
    var e1 := Sub(p2, p1);
    var e2 := Sub(p3, p1);
    TriangleData(p1, p2, p3, e1, e2, normalize(Cross(e2, e1)))
  }

  /** The cross product that `normalize` receives is perpendicular to both edges. */
  lemma NormalIsPerpendicular(tri: TriangleData)
    ensures Dot(Cross(tri.e2, tri.e1), tri.e1) == 0.0
    ensures Dot(Cross(tri.e2, tri.e1), tri.e2) == 0.0
  {
  }

  /** The triangle of the examples: corners (0, 1, 0), (-1, 0, 0) and (1, 0, 0) give edges
      (-1, -1, 0) and (1, -1, 0), whose cross product points along -z. */
  lemma ConstructorExample(normalize: Tuple -> Tuple)
    ensures var tri := MakeTriangle(Point(0.0, 1.0, 0.0), Point(-1.0, 0.0, 0.0), Point(1.0, 0.0, 0.0), normalize);
            tri.e1 == Vector(-1.0, -1.0, 0.0) && tri.e2 == Vector(1.0, -1.0, 0.0)
            && tri.normal == normalize(Vector(0.0, 0.0, -2.0))
  {
    var e1 := Vector(-1.0, -1.0, 0.0);
    var e2 := Vector(1.0, -1.0, 0.0);
    assert Sub(Point(-1.0, 0.0, 0.0), Point(0.0, 1.0, 0.0)) == e1 by {}
    assert Sub(Point(1.0, 0.0, 0.0), Point(0.0, 1.0, 0.0)) == e2 by {}
    assert Cross(e2, e1) == Vector(0.0, 0.0, -2.0) by {}
  }

  /** The triangle's corners are points, so its edges are vectors. */
  predicate WellFormed(tri: TriangleData)
  {
    IsPoint(tri.p1) && IsVector(tri.e1) && IsVector(tri.e2)
  }

  /** What `localIntersectHelper` returns when it finds a hit. */
  datatype Uvt = Uvt(t: real, u: real, v: real)

  /** The determinant `e1 . (direction x e2)` of the Möller–Trumbore system. */
  function MtDet(tri: TriangleData, r: Ray): real
  {
    Dot(tri.e1, Cross(r.direction, tri.e2))
  }

  /** (u, v) are barycentric coordinates of a point inside the triangle or on its border. */
  predicate InTriangle(u: real, v: real)
  {
    0.0 <= u && 0.0 <= v && u + v <= 1.0
  }

  /** The ray at t is the point p1 + u e1 + v e2 of the triangle's plane. */
  predicate MeetsAt(tri: TriangleData, r: Ray, t: real, u: real, v: real)
  {
    Position(r, t) == Add(tri.p1, Add(Multiply(tri.e1, u), Multiply(tri.e2, v)))
  }

  /** `p1ToOrigin`, the vector from p1 to the ray's origin. */
  function MtS(tri: TriangleData, r: Ray): Tuple
  {
    Sub(r.origin, tri.p1)
  }

  /** `u = f (p1ToOrigin . dirCrossE)` with `f = 1 / det`. */
  function MtU(tri: TriangleData, r: Ray): real
    requires MtDet(tri, r) != 0.0
  {
    (1.0 / MtDet(tri, r)) * Dot(MtS(tri, r), Cross(r.direction, tri.e2))
  }

  /** `v = f (direction . originCrossE1)`. */
  function MtV(tri: TriangleData, r: Ray): real
    requires MtDet(tri, r) != 0.0
  {
    (1.0 / MtDet(tri, r)) * Dot(r.direction, Cross(MtS(tri, r), tri.e1))
  }

  /** `t = f (e2 . originCrossE1)`. */
  function MtT(tri: TriangleData, r: Ray): real
    requires MtDet(tri, r) != 0.0
  {
    (1.0 / MtDet(tri, r)) * Dot(tri.e2, Cross(MtS(tri, r), tri.e1))
  }

  /** `localIntersectHelper(ray)`: nothing when `isZero(det)` (the ray is parallel to the
      plane), nothing when u is outside [0, 1], nothing when v < 0 or u + v > 1, and
      otherwise t, u and v. The division by det needs `isZero` to hold at 0. */
  function LocalIntersectHelper(tri: TriangleData, r: Ray, isZero: real -> bool): (h: Option<Uvt>)
    requires isZero(0.0)
    ensures isZero(MtDet(tri, r)) ==> h == None
    ensures h.Some? ==> InTriangle(h.value.u, h.value.v) && h.value.u <= 1.0
  {
    if isZero(MtDet(tri, r)) then None
    else if MtU(tri, r) < 0.0 || MtU(tri, r) > 1.0 then None
    else if MtV(tri, r) < 0.0 || MtU(tri, r) + MtV(tri, r) > 1.0 then None
    else Some(Uvt(MtT(tri, r), MtU(tri, r), MtV(tri, r)))
  }

  /** Cramer's rule for the system `s = u e1 + v e2 - t d`, multiplied through by its
      determinant, one coordinate at a time; the coefficients are the triple products the
      helper computes. */
  lemma CramerX(s: Tuple, d: Tuple, e1: Tuple, e2: Tuple)
    ensures Dot(e1, Cross(d, e2)) * s.x
            == Dot(s, Cross(d, e2)) * e1.x + Dot(d, Cross(s, e1)) * e2.x - Dot(e2, Cross(s, e1)) * d.x
  {
  }

  lemma CramerY(s: Tuple, d: Tuple, e1: Tuple, e2: Tuple)
    ensures Dot(e1, Cross(d, e2)) * s.y
            == Dot(s, Cross(d, e2)) * e1.y + Dot(d, Cross(s, e1)) * e2.y - Dot(e2, Cross(s, e1)) * d.y
  {
  }

  lemma CramerZ(s: Tuple, d: Tuple, e1: Tuple, e2: Tuple)
    ensures Dot(e1, Cross(d, e2)) * s.z
            == Dot(s, Cross(d, e2)) * e1.z + Dot(d, Cross(s, e1)) * e2.z - Dot(e2, Cross(s, e1)) * d.z
  {
  }

  /** The scalar triple product is unchanged by a cyclic rotation of its factors, and is zero
      when a factor repeats. */
  lemma TripleProductLaws(a: Tuple, b: Tuple, c: Tuple)
    ensures Dot(a, Cross(b, c)) == Dot(b, Cross(c, a)) == Dot(c, Cross(a, b))
    ensures Dot(a, Cross(a, b)) == 0.0 && Dot(b, Cross(a, b)) == 0.0
  {
    assert Dot(a, Cross(b, c)) == Dot(b, Cross(c, a)) by {}
    assert Dot(b, Cross(c, a)) == Dot(c, Cross(a, b)) by {}
    assert Dot(a, Cross(a, b)) == 0.0 by {}
    assert Dot(b, Cross(a, b)) == 0.0 by {}
  }

  /** A dot product with a vector is linear in its other factor. */
  lemma DotLinear(s: Tuple, a: Tuple, b: Tuple, c: Tuple, m: Tuple, t: real, u: real, v: real)
    requires IsVector(m)
    requires s.x == u * a.x + v * b.x - t * c.x
    requires s.y == u * a.y + v * b.y - t * c.y
    requires s.z == u * a.z + v * b.z - t * c.z
    ensures Dot(s, m) == u * Dot(a, m) + v * Dot(b, m) - t * Dot(c, m)
  {
  }

  /** Conversely, when `s = u e1 + v e2 - t d` the triple products are u, v and t times the
      determinant. */
  lemma TripleProductsOfSolution(s: Tuple, d: Tuple, e1: Tuple, e2: Tuple, t: real, u: real, v: real)
    requires s.x == u * e1.x + v * e2.x - t * d.x
    requires s.y == u * e1.y + v * e2.y - t * d.y
    requires s.z == u * e1.z + v * e2.z - t * d.z
    ensures var p := Cross(d, e2); var q := Cross(s, e1); var det := Dot(e1, p);
            Dot(s, p) == u * det && Dot(d, q) == v * det && Dot(e2, q) == t * det
  {
    var det := Dot(e1, Cross(d, e2));
    TripleProductLaws(d, e2, e1);
    TripleProductLaws(e1, d, e2);
    TripleProductLaws(d, s, e1);
    TripleProductLaws(e2, s, e1);
    TripleProductLaws(e1, e2, d);
    TripleProductLaws(d, e2, d);
    TripleProductLaws(e2, d, e1);
    TripleProductLaws(e1, d, e1);
    TripleProductLaws(e1, e2, e1);
    DotLinear(s, e1, e2, d, Cross(d, e2), t, u, v);
    DotLinear(s, e1, e2, d, Cross(e1, d), t, u, v);
    DotLinear(s, e1, e2, d, Cross(e1, e2), t, u, v);
  }

  /** One component of the scaled Cramer identity divided by the determinant. */
  lemma DivideComponent(det: real, f: real, s: real, a: real, b: real, c: real, e: real, g: real, d: real)
    requires det != 0.0 && f == 1.0 / det && det * s == a * e + b * g - c * d
    ensures s == (f * a) * e + (f * b) * g - (f * c) * d
  {
    assert f * det == 1.0;
    assert f * (det * s) == f * (a * e + b * g - c * d);
  }

  /** A triple product that is k times the determinant gives k after the division. */
  lemma DivideBack(det: real, f: real, x: real, k: real)
    requires det != 0.0 && f == 1.0 / det && x == k * det
    ensures f * x == k
  {
    assert f * det == 1.0;
  }

  /** For a well-formed triangle and ray, meeting at (t, u, v) is the linear system
      `origin - p1 = u e1 + v e2 - t direction`. */
  lemma MeetsAtComponents(tri: TriangleData, r: Ray, t: real, u: real, v: real)
    requires WellFormed(tri) && IsPoint(r.origin) && IsVector(r.direction)
    ensures var s := Sub(r.origin, tri.p1); var d := r.direction;
            MeetsAt(tri, r, t, u, v)
            <==> s.x == u * tri.e1.x + v * tri.e2.x - t * d.x
                 && s.y == u * tri.e1.y + v * tri.e2.y - t * d.y
                 && s.z == u * tri.e1.z + v * tri.e2.z - t * d.z
  {
    var o, d, p1, e1, e2 := r.origin, r.direction, tri.p1, tri.e1, tri.e2;
    assert Position(r, t) == Tuple(o.x + d.x * t, o.y + d.y * t, o.z + d.z * t, 1.0) by {
      assert d.w * t == 0.0;
    }
    assert Add(p1, Add(Multiply(e1, u), Multiply(e2, v)))
           == Tuple(p1.x + (e1.x * u + e2.x * v), p1.y + (e1.y * u + e2.y * v), p1.z + (e1.z * u + e2.z * v), 1.0) by {
      assert e1.w * u == 0.0 && e2.w * v == 0.0;
    }
    assert Sub(o, p1) == Tuple(o.x - p1.x, o.y - p1.y, o.z - p1.z, 0.0);
  }

  /** With a non-zero determinant, `MtU`, `MtV` and `MtT` solve the system
      `p1ToOrigin = u e1 + v e2 - t direction` (Cramer's rule). */
  lemma SolutionSolvesSystem(tri: TriangleData, r: Ray)
    requires MtDet(tri, r) != 0.0
    ensures var s, d, u, v, t := MtS(tri, r), r.direction, MtU(tri, r), MtV(tri, r), MtT(tri, r);
            s.x == u * tri.e1.x + v * tri.e2.x - t * d.x
            && s.y == u * tri.e1.y + v * tri.e2.y - t * d.y
            && s.z == u * tri.e1.z + v * tri.e2.z - t * d.z
  {
    SolvesX(tri, r);
    SolvesY(tri, r);
    SolvesZ(tri, r);
  }

  lemma SolvesX(tri: TriangleData, r: Ray)
    requires MtDet(tri, r) != 0.0
    ensures MtS(tri, r).x == MtU(tri, r) * tri.e1.x + MtV(tri, r) * tri.e2.x - MtT(tri, r) * r.direction.x
  {
    var s, d, det := MtS(tri, r), r.direction, MtDet(tri, r);
    CramerX(s, d, tri.e1, tri.e2);
    DivideComponent(det, 1.0 / det, s.x, Dot(s, Cross(d, tri.e2)), Dot(d, Cross(s, tri.e1)),
                    Dot(tri.e2, Cross(s, tri.e1)), tri.e1.x, tri.e2.x, d.x);
  }

  lemma SolvesY(tri: TriangleData, r: Ray)
    requires MtDet(tri, r) != 0.0
    ensures MtS(tri, r).y == MtU(tri, r) * tri.e1.y + MtV(tri, r) * tri.e2.y - MtT(tri, r) * r.direction.y
  {
    var s, d, det := MtS(tri, r), r.direction, MtDet(tri, r);
    CramerY(s, d, tri.e1, tri.e2);
    DivideComponent(det, 1.0 / det, s.y, Dot(s, Cross(d, tri.e2)), Dot(d, Cross(s, tri.e1)),
                    Dot(tri.e2, Cross(s, tri.e1)), tri.e1.y, tri.e2.y, d.y);
  }

  lemma SolvesZ(tri: TriangleData, r: Ray)
    requires MtDet(tri, r) != 0.0
    ensures MtS(tri, r).z == MtU(tri, r) * tri.e1.z + MtV(tri, r) * tri.e2.z - MtT(tri, r) * r.direction.z
  {
    var s, d, det := MtS(tri, r), r.direction, MtDet(tri, r);
    CramerZ(s, d, tri.e1, tri.e2);
    DivideComponent(det, 1.0 / det, s.z, Dot(s, Cross(d, tri.e2)), Dot(d, Cross(s, tri.e1)),
                    Dot(tri.e2, Cross(s, tri.e1)), tri.e1.z, tri.e2.z, d.z);
  }

  /** With a non-zero determinant, the ray at `MtT` is p1 + `MtU` e1 + `MtV` e2. */
  lemma SolutionMeetsPlane(tri: TriangleData, r: Ray)
    requires WellFormed(tri) && IsPoint(r.origin) && IsVector(r.direction) && MtDet(tri, r) != 0.0
    ensures MeetsAt(tri, r, MtT(tri, r), MtU(tri, r), MtV(tri, r))
  {
    SolutionSolvesSystem(tri, r);
    MeetsAtComponents(tri, r, MtT(tri, r), MtU(tri, r), MtV(tri, r));
  }

  /** Every result of the helper is a point of the triangle: the ray at t is p1 + u e1 + v e2
      with (u, v) inside the triangle. */
  lemma HelperHitLiesOnTriangle(tri: TriangleData, r: Ray, isZero: real -> bool)
    requires isZero(0.0) && WellFormed(tri) && IsPoint(r.origin) && IsVector(r.direction)
    ensures var h := LocalIntersectHelper(tri, r, isZero);
            h.Some? ==> InTriangle(h.value.u, h.value.v) && MeetsAt(tri, r, h.value.t, h.value.u, h.value.v)
  {
    var h := LocalIntersectHelper(tri, r, isZero);
    if h.Some? {
      assert h.value == Uvt(MtT(tri, r), MtU(tri, r), MtV(tri, r));
      SolutionMeetsPlane(tri, r);
    }
  }

  /** Every point of the triangle that the ray meets is found: when the determinant is not
      taken for zero and the ray at t is p1 + u e1 + v e2 with (u, v) inside the triangle,
      the helper returns exactly t, u and v. */
  lemma HelperFindsEveryHit(tri: TriangleData, r: Ray, isZero: real -> bool, t: real, u: real, v: real)
    requires isZero(0.0) && WellFormed(tri) && IsPoint(r.origin) && IsVector(r.direction)
    requires !isZero(MtDet(tri, r)) && InTriangle(u, v) && MeetsAt(tri, r, t, u, v)
    ensures LocalIntersectHelper(tri, r, isZero) == Some(Uvt(t, u, v))
  {
    assert MtDet(tri, r) != 0.0;
    SolutionIsUnique(tri, r, t, u, v);
  }

  /** Where the ray meets the plane at (t, u, v), the triple products are u, v and t times
      the determinant. */
  lemma SolutionProducts(tri: TriangleData, r: Ray, t: real, u: real, v: real)
    requires WellFormed(tri) && IsPoint(r.origin) && IsVector(r.direction) && MeetsAt(tri, r, t, u, v)
    ensures var s, d, det := MtS(tri, r), r.direction, MtDet(tri, r);
            Dot(s, Cross(d, tri.e2)) == u * det && Dot(d, Cross(s, tri.e1)) == v * det
            && Dot(tri.e2, Cross(s, tri.e1)) == t * det
  {
    MeetsAtComponents(tri, r, t, u, v);
    TripleProductsOfSolution(MtS(tri, r), r.direction, tri.e1, tri.e2, t, u, v);
  }

  /** With a non-zero determinant, the only (t, u, v) at which the ray meets the plane of
      the triangle is the one `MtT`, `MtU` and `MtV` compute. */
  lemma SolutionIsUnique(tri: TriangleData, r: Ray, t: real, u: real, v: real)
    requires WellFormed(tri) && IsPoint(r.origin) && IsVector(r.direction)
    requires MtDet(tri, r) != 0.0 && MeetsAt(tri, r, t, u, v)
    ensures MtU(tri, r) == u && MtV(tri, r) == v && MtT(tri, r) == t
  {
    var d := r.direction;
    var s := MtS(tri, r);
    var p := Cross(d, tri.e2);
    var q := Cross(s, tri.e1);
    var det := MtDet(tri, r);
    var f := 1.0 / det;
    SolutionProducts(tri, r, t, u, v);
    DivideBack(det, f, Dot(s, p), u);
    DivideBack(det, f, Dot(d, q), v);
    DivideBack(det, f, Dot(tri.e2, q), t);
  }

  /** `localIntersect(ray)`: at most one intersection, tagged with the triangle, at the
      helper's t. */
  function LocalIntersect<T>(self: T, tri: TriangleData, r: Ray, isZero: real -> bool): (xs: seq<Intersection<T>>)
    requires isZero(0.0)
    ensures |xs| <= 1 && AllTagged(xs, self)
    ensures xs == [] <==> LocalIntersectHelper(tri, r, isZero).None?
    ensures xs != [] ==> xs[0] == Intersection(LocalIntersectHelper(tri, r, isZero).value.t, self)
  {
    var res := LocalIntersectHelper(tri, r, isZero);
    if res.Some? then [Intersection(res.value.t, self)] else []
  }

  /** The intersection `localIntersect` reports is where the ray meets the triangle, and
      where the ray meets the triangle (with a determinant not taken for zero) is reported. */
  lemma LocalIntersectMeetsTriangle<T>(self: T, tri: TriangleData, r: Ray, isZero: real -> bool)
    requires isZero(0.0) && WellFormed(tri) && IsPoint(r.origin) && IsVector(r.direction)
    ensures var xs := LocalIntersect(self, tri, r, isZero);
            xs != [] ==> exists u, v :: InTriangle(u, v) && MeetsAt(tri, r, xs[0].t, u, v)
    ensures forall t, u, v :: !isZero(MtDet(tri, r)) && InTriangle(u, v) && MeetsAt(tri, r, t, u, v)
              ==> LocalIntersect(self, tri, r, isZero) == [Intersection(t, self)]
  {
    HelperHitLiesOnTriangle(tri, r, isZero);
    forall t, u, v | !isZero(MtDet(tri, r)) && InTriangle(u, v) && MeetsAt(tri, r, t, u, v)
      ensures LocalIntersect(self, tri, r, isZero) == [Intersection(t, self)]
    {
      HelperFindsEveryHit(tri, r, isZero, t, u, v);
    }
  }

  /** The fields of `new SmoothTriangle(p1, p2, p3, n1, n2, n3)`: the flat triangle's fields
      and the three vertex normals. */
  datatype SmoothData = SmoothData(tri: TriangleData, n1: Tuple, n2: Tuple, n3: Tuple)

  /** `new SmoothTriangle(p1, p2, p3, n1, n2, n3)`. */
  function MakeSmoothTriangle(p1: Tuple, p2: Tuple, p3: Tuple, n1: Tuple, n2: Tuple, n3: Tuple,
                              normalize: Tuple -> Tuple): (st: SmoothData)
    ensures st.tri == MakeTriangle(p1, p2, p3, normalize)
    ensures st.n1 == n1 && st.n2 == n2 && st.n3 == n3
  {
    SmoothData(MakeTriangle(p1, p2, p3, normalize), n1, n2, n3)
  }

  /** `localNormalAt(p, i)`: the vertex normals weighted by the barycentric (u, v) of the
      intersection i, `n2 u + n3 v + n1 (1 - u - v)`; the point is not used. */
  function SmoothNormalAt(st: SmoothData, u: real, v: real): (n: Tuple)
    ensures IsVector(st.n1) && IsVector(st.n2) && IsVector(st.n3) ==> IsVector(n)
  {
    Add(Multiply(st.n2, u), Add(Multiply(st.n3, v), Multiply(st.n1, 1.0 - u - v)))
  }

  /** At the corners (0, 0), (1, 0) and (0, 1) the interpolated normal is n1, n2 and n3. */
  lemma SmoothNormalAtCorners(st: SmoothData)
    ensures SmoothNormalAt(st, 0.0, 0.0) == st.n1
    ensures SmoothNormalAt(st, 1.0, 0.0) == st.n2
    ensures SmoothNormalAt(st, 0.0, 1.0) == st.n3
  {
    ScaleByOneAndZero(st.n1);
    ScaleByOneAndZero(st.n2);
    ScaleByOneAndZero(st.n3);
  }

  /** Scaling by 1 keeps a tuple and scaling by 0 gives the zero tuple. */
  lemma ScaleByOneAndZero(n: Tuple)
    ensures Multiply(n, 1.0) == n
    ensures Multiply(n, 0.0) == Tuple(0.0, 0.0, 0.0, 0.0)
  {
  }

  /** The interpolation is affine: the normal at (u, v) is n1 plus u times (n2 - n1) plus v
      times (n3 - n1), so it varies linearly across the triangle. */
  lemma SmoothNormalIsAffine(st: SmoothData, u: real, v: real)
    ensures SmoothNormalAt(st, u, v)
            == Add(st.n1, Add(Multiply(Sub(st.n2, st.n1), u), Multiply(Sub(st.n3, st.n1), v)))
  {
  }

  /** `localIntersect(ray)` of the smooth triangle: the flat triangle's helper, with the u and
      v it passes to `Intersection` dropped, since `Intersection` keeps only t and the
      object. */
  function SmoothLocalIntersect<T>(self: T, st: SmoothData, r: Ray, isZero: real -> bool): (xs: seq<Intersection<T>>)
    requires isZero(0.0)
    ensures xs == LocalIntersect(self, st.tri, r, isZero)
  {
    var res := LocalIntersectHelper(st.tri, r, isZero);
    if res.Some? then [Intersection(res.value.t, self)] else []
  }
}
