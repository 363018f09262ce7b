/** Rays, points along them, and the unit-sphere intersection of ray.js. */
module Rays {
  import opened RtMath
  import opened Tuples
  import opened Intersections

  datatype Ray = Ray(origin: Tuple, direction: Tuple)

  /** `position(ray, t)`: origin + t * direction. */
  function Position(r: Ray, t: real): Tuple
  {
    Add(r.origin, Multiply(r.direction, t))
  }

  /** A point plus a multiple of a vector is a point; t = 0 is the origin, and moving along
      the ray adds up. */
  lemma PositionLaws(r: Ray, t: real, u: real)
    ensures Position(r, 0.0) == r.origin
    ensures IsPoint(r.origin) && IsVector(r.direction) ==> IsPoint(Position(r, t))
    ensures Position(r, t + u) == Add(Position(r, t), Multiply(r.direction, u))
  {
  }

  /** The examples: from (2, 3, 4) along (1, 0, 0) at t = 0, 1, -1 and 2.5. */
  lemma PositionExamples()
    ensures Position(Ray(Point(2.0, 3.0, 4.0), Vector(1.0, 0.0, 0.0)), 0.0) == Point(2.0, 3.0, 4.0)
    ensures Position(Ray(Point(2.0, 3.0, 4.0), Vector(1.0, 0.0, 0.0)), 1.0) == Point(3.0, 3.0, 4.0)
    ensures Position(Ray(Point(2.0, 3.0, 4.0), Vector(1.0, 0.0, 0.0)), -1.0) == Point(1.0, 3.0, 4.0)
    ensures Position(Ray(Point(2.0, 3.0, 4.0), Vector(1.0, 0.0, 0.0)), 2.5) == Point(4.5, 3.0, 4.0)
  {
    assert Multiply(Vector(1.0, 0.0, 0.0), 0.0) == Vector(0.0, 0.0, 0.0);
    assert Multiply(Vector(1.0, 0.0, 0.0), 1.0) == Vector(1.0, 0.0, 0.0);
    assert Multiply(Vector(1.0, 0.0, 0.0), -1.0) == Vector(-1.0, 0.0, 0.0);
    assert Multiply(Vector(1.0, 0.0, 0.0), 2.5) == Vector(2.5, 0.0, 0.0);
  }

  /** The quadratic coefficients of ray.js `intersect`. */
  function SphereA(r: Ray): real { Dot(r.direction, r.direction) }
  function SphereB(r: Ray): real { 2.0 * Dot(r.direction, Sub(r.origin, Point(0.0, 0.0, 0.0))) }
  function SphereC(r: Ray): real
  {
    Dot(Sub(r.origin, Point(0.0, 0.0, 0.0)), Sub(r.origin, Point(0.0, 0.0, 0.0))) - 1.0
  }
  function Discriminant(r: Ray): real
  {
    SphereB(r) * SphereB(r) - 4.0 * SphereA(r) * SphereC(r)
  }

  /** `intersect(s, ray)` against the unit sphere at the origin. The shape only tags the
      results: its transformation is not consulted. A direction with `dot(d, d) = 0` would
      divide by zero and is not part of the model. */
  function Intersect<T>(s: T, r: Ray, sqrt: real -> real): (xs: seq<Intersection<T>>)
    requires SphereA(r) != 0.0
    ensures xs == [] <==> Discriminant(r) < 0.0
    ensures |xs| == 0 || |xs| == 2
    ensures forall k :: 0 <= k < |xs| ==> xs[k].obj == s
  {
    var a := SphereA(r);
    var b := SphereB(r);
    var disc := Discriminant(r);
    if disc < 0.0 then []
    else
      var t1 := (-b - sqrt(disc)) / (2.0 * a);
      var t2 := (-b + sqrt(disc)) / (2.0 * a);
      [Intersection(t1, s), Intersection(t2, s)]
  }

  /** A root of the quadratic formula solves the quadratic. */
  lemma QuadraticRoot(a: real, b: real, c: real, d: real, q: real, t: real)
    requires a != 0.0 && d == b * b - 4.0 * a * c && q * q == d && t == (-b + q) / (2.0 * a)
    ensures a * t * t + b * t + c == 0.0
  {
    var u := 2.0 * a * t;
    assert u == -b + q;
    assert (u + b) * (u + b) == b * b - 4.0 * a * c;
    assert u * u + 2.0 * u * b + 4.0 * a * c == 0.0;
    assert 4.0 * a * (a * t * t + b * t + c) == 0.0;
  }

  /** For a positive leading coefficient and a non-negative discriminant with square root
      q, the two quadratic-formula roots are ordered and both solve the quadratic. */
  lemma QuadraticPair(a: real, b: real, c: real, d: real, q: real)
    requires a > 0.0 && d == b * b - 4.0 * a * c && q >= 0.0 && q * q == d
    ensures (-b - q) / (2.0 * a) <= (-b + q) / (2.0 * a)
    ensures var t := (-b - q) / (2.0 * a); a * t * t + b * t + c == 0.0
    ensures var t := (-b + q) / (2.0 * a); a * t * t + b * t + c == 0.0
  {
    QuadraticRoot(a, b, c, d, -q, (-b - q) / (2.0 * a));
    QuadraticRoot(a, b, c, d, q, (-b + q) / (2.0 * a));
  }

  /** The squared distance of `position(r, t)` from the origin, for a point origin and a
      vector direction, is `a t² + b t + c + 1`. */
  lemma DistanceAlongRay(r: Ray, t: real)
    requires IsPoint(r.origin) && IsVector(r.direction)
    ensures var p := Position(r, t);
            p.x * p.x + p.y * p.y + p.z * p.z
            == SphereA(r) * t * t + SphereB(r) * t + SphereC(r) + 1.0
  {
    var o, d := r.origin, r.direction;
    SphereCoefficients(r);
    PositionAlong(r, t);
    SquaresAlong(o.x + d.x * t, o.y + d.y * t, o.z + d.z * t, o.x, o.y, o.z, d.x, d.y, d.z, t,
                 SphereA(r), SphereB(r), SphereC(r));
  }

  /** The coordinates of `position(r, t)`. */
  lemma PositionAlong(r: Ray, t: real)
    ensures var p, o, d := Position(r, t), r.origin, r.direction;
            p.x == o.x + d.x * t && p.y == o.y + d.y * t && p.z == o.z + d.z * t
  {
  }

  /** The coefficients written out for a point origin and a vector direction. */
  lemma SphereCoefficients(r: Ray)
    requires IsPoint(r.origin) && IsVector(r.direction)
    ensures var o, d := r.origin, r.direction;
            SphereA(r) == d.x * d.x + d.y * d.y + d.z * d.z
            && SphereB(r) == 2.0 * (d.x * o.x + d.y * o.y + d.z * o.z)
            && SphereC(r) == o.x * o.x + o.y * o.y + o.z * o.z - 1.0
  {
  }

  /** The squared length of o + d t as a polynomial in t. */
  lemma SquaresAlong(px: real, py: real, pz: real, ox: real, oy: real, oz: real,
                     dx: real, dy: real, dz: real, t: real, a: real, b: real, c: real)
    requires px == ox + dx * t && py == oy + dy * t && pz == oz + dz * t
    requires a == dx * dx + dy * dy + dz * dz && b == 2.0 * (dx * ox + dy * oy + dz * oz)
    requires c == ox * ox + oy * oy + oz * oz - 1.0
    ensures px * px + py * py + pz * pz == a * t * t + b * t + c + 1.0
  {
    SquareAlong(ox, dx, t);
    SquareAlong(oy, dy, t);
    SquareAlong(oz, dz, t);
  }

  /** The square of one coordinate along a ray. */
  lemma SquareAlong(o: real, d: real, t: real)
    ensures (o + d * t) * (o + d * t) == d * d * t * t + 2.0 * (d * o) * t + o * o
  {
  }

  /** ray.js `intersect`: no result for a negative discriminant, otherwise two results
      tagged with the shape, in ascending order, equal for a tangent ray, and each lying on
      the unit sphere. */
  lemma IntersectSolves<T>(s: T, r: Ray, sqrt: real -> real)
    requires SphereA(r) != 0.0 && IsSqrt(sqrt)
    requires IsPoint(r.origin) && IsVector(r.direction)
    ensures var xs := Intersect(s, r, sqrt);
            (xs == [] <==> Discriminant(r) < 0.0)
            && (xs != [] ==>
                  |xs| == 2 && xs[0].obj == s && xs[1].obj == s && xs[0].t <= xs[1].t
                  && (Discriminant(r) == 0.0 ==> xs[0].t == xs[1].t)
                  && forall k :: 0 <= k < 2 ==> OnUnitSphere(Position(r, xs[k].t)))
  {
    var xs := Intersect(s, r, sqrt);
    var a, b, c, d := SphereA(r), SphereB(r), SphereC(r), Discriminant(r);
    if d >= 0.0 {
      var q := sqrt(d);
      assert q >= 0.0 && q * q == d;
      assert a > 0.0 by {
        assert a == r.direction.x * r.direction.x + r.direction.y * r.direction.y
                   + r.direction.z * r.direction.z;
      }
      assert xs[0].t == (-b - q) / (2.0 * a) && xs[1].t == (-b + q) / (2.0 * a);
      assert (-b - q) / (2.0 * a) <= (-b + q) / (2.0 * a);
      if d == 0.0 {
        if q > 0.0 {
          SquaresOrdered(0.0, q);
        }
      }
      QuadraticRoot(a, b, c, d, -q, xs[0].t);
      QuadraticRoot(a, b, c, d, q, xs[1].t);
      RootOnUnitSphere(r, xs[0].t);
      RootOnUnitSphere(r, xs[1].t);
    }
  }

  /** A point at distance 1 from the origin. */
  predicate OnUnitSphere(p: Tuple)
  {
    p.x * p.x + p.y * p.y + p.z * p.z == 1.0
  }

  /** A root of the ray's quadratic is a parameter at which the ray meets the unit sphere. */
  lemma RootOnUnitSphere(r: Ray, t: real)
    requires IsPoint(r.origin) && IsVector(r.direction)
    requires SphereA(r) * t * t + SphereB(r) * t + SphereC(r) == 0.0
    ensures OnUnitSphere(Position(r, t))
  {
    DistanceAlongRay(r, t);
  }

  /** The discriminant of a ray whose coefficients are those of a ray along (0, 0, 1) from
      (0, y, z). */
  lemma DiscriminantAlongZ(r: Ray, y: real, z: real)
    requires SphereA(r) == 1.0 && SphereB(r) == 2.0 * z && SphereC(r) == y * y + z * z - 1.0
    ensures Discriminant(r) == 4.0 * (1.0 - y * y)
  {
  }

  /** The coefficients for a ray along (0, 0, 1) from (0, y, z). */
  lemma AlongZCoefficients(y: real, z: real)
    ensures var r := Ray(Point(0.0, y, z), Vector(0.0, 0.0, 1.0));
            SphereA(r) == 1.0 && SphereB(r) == 2.0 * z && SphereC(r) == y * y + z * z - 1.0
  {
  }

  /** `intersect` in terms of named coefficients. */
  lemma IntersectFrom<T>(s: T, r: Ray, sqrt: real -> real, a: real, b: real, d: real)
    requires SphereA(r) == a && a != 0.0 && SphereB(r) == b && Discriminant(r) == d
    ensures d < 0.0 ==> Intersect(s, r, sqrt) == []
    ensures d >= 0.0 ==> Intersect(s, r, sqrt)
                         == [Intersection((-b - sqrt(d)) / (2.0 * a), s), Intersection((-b + sqrt(d)) / (2.0 * a), s)]
  {
  }

  /** A ray with the coefficients of one along (0, 0, 1) from (0, y, z) misses when
      |y| > 1, and otherwise meets the sphere at `-z ∓ sqrt(1 - y²)` (written with the
      discriminant `4 (1 - y²)` as `intersect` computes it). */
  lemma AlongZHits<T>(s: T, r: Ray, y: real, z: real, sqrt: real -> real)
    requires SphereA(r) == 1.0 && SphereB(r) == 2.0 * z && SphereC(r) == y * y + z * z - 1.0
    ensures y * y > 1.0 ==> Intersect(s, r, sqrt) == []
    ensures y * y <= 1.0 ==>
              Intersect(s, r, sqrt)
              == [Intersection((-2.0 * z - sqrt(4.0 * (1.0 - y * y))) / 2.0, s),
                  Intersection((-2.0 * z + sqrt(4.0 * (1.0 - y * y))) / 2.0, s)]
  {
    DiscriminantAlongZ(r, y, z);
    IntersectFrom(s, r, sqrt, 1.0, 2.0 * z, 4.0 * (1.0 - y * y));
  }

  /** Squaring is strictly increasing on the non-negative numbers. */
  lemma SquaresOrdered(u: real, v: real)
    requires 0.0 <= u < v
    ensures u * u < v * v
  {
    var d := v - u;
    assert d > 0.0 && v + u > 0.0;
    assert v * v - u * u == d * (v + u);
    assert d * (v + u) > 0.0;
  }

  /** The square root of a square is the magnitude. */
  lemma SqrtOfSquareAbs(sqrt: real -> real, v: real, d: real)
    requires IsSqrt(sqrt) && d == v * v
    ensures sqrt(d) == Abs(v)
  {
    if v >= 0.0 {
      SqrtOfSquare(sqrt, v);
    } else {
      var m := -v;
      assert m * m == d;
      SqrtOfSquare(sqrt, m);
    }
  }

  /** The square root of a perfect square. */
  lemma SqrtOfSquare(sqrt: real -> real, q: real)
    requires IsSqrt(sqrt) && q >= 0.0
    ensures sqrt(q * q) == q
  {
    var v := sqrt(q * q);
    assert v >= 0.0 && v * v == q * q;
    if v < q {
      SquaresOrdered(v, q);
    } else if q < v {
      SquaresOrdered(q, v);
    }
  }
}
