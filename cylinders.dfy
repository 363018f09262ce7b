/** cylinder.js: the infinite cylinder of radius 1 around the y axis. */
module Cylinders {
  import opened RtMath
  import opened Tuples
  import opened Intersections
  import opened Rays

  /** The quadratic coefficients of `localIntersect` (`Math.pow(v, 2)` is `v * v`). */
  function CylinderA(r: Ray): real
  {
    r.direction.x * r.direction.x + r.direction.z * r.direction.z
  }

  function CylinderB(r: Ray): real
  {
    2.0 * r.origin.x * r.direction.x + 2.0 * r.origin.z * r.direction.z
  }

  function CylinderC(r: Ray): real
  {
    r.origin.x * r.origin.x + r.origin.z * r.origin.z - 1.0
  }

  function CylinderDisc(r: Ray): real
  {
    CylinderB(r) * CylinderB(r) - 4.0 * CylinderA(r) * CylinderC(r)
  }

  /** `localIntersect(ray)`: nothing for a ray (nearly) parallel to the y axis or one that
      misses, otherwise the two roots of the quadratic, smaller one first. */
  function LocalIntersect<T>(self: T, r: Ray, sqrt: real -> real): (xs: seq<Intersection<T>>)
    ensures AllTagged(xs, self)
  {
    var a := CylinderA(r);
    if Abs(a) < EPSILON then []
    else
      var b := CylinderB(r);
      var disc := CylinderDisc(r);
      if disc < 0.0 then []
      else
        var t0 := (-b - sqrt(disc)) / (2.0 * a);
        var t1 := (-b + sqrt(disc)) / (2.0 * a);
        [Intersection(t0, self), Intersection(t1, self)]
  }

  /** `localNormalAt(p)`: the point with its y dropped, which is perpendicular to the axis
      and of length 1 on the wall. */
  function LocalNormalAt(p: Tuple): (n: Tuple)
    ensures IsVector(n) && Dot(n, Vector(0.0, 1.0, 0.0)) == 0.0
    ensures n.x == p.x && n.z == p.z
    ensures p.x * p.x + p.z * p.z == 1.0 ==> Dot(n, n) == 1.0
  {
    var n := Vector(p.x, 0.0, p.z);
    assert Dot(n, n) == p.x * p.x + p.z * p.z;
    n
  }

  /** The point is on the wall: x² + z² = 1. */
  predicate OnWall(p: Tuple)
  {
    p.x * p.x + p.z * p.z == 1.0
  }

  /** Along the ray, x² + z² - 1 is the quadratic `a t² + b t + c`. */
  lemma WallDistanceAlongRay(r: Ray, t: real)
    ensures var p := Position(r, t);
            p.x * p.x + p.z * p.z - 1.0 == CylinderA(r) * t * t + CylinderB(r) * t + CylinderC(r)
  {
    var o, d := r.origin, r.direction;
    SquareAlong(o.x, d.x, t);
    SquareAlong(o.z, d.z, t);
  }

  /** The cylinder results: none exactly when the ray is parallel to the axis within
      EPSILON or the discriminant is negative; otherwise two results tagged with the shape,
      in ascending order, each on the wall x² + z² = 1. */
  lemma LocalIntersectSolves<T>(self: T, r: Ray, sqrt: real -> real)
    requires IsSqrt(sqrt)
    ensures var xs := LocalIntersect(self, r, sqrt);
            (xs == [] <==> Abs(CylinderA(r)) < EPSILON || CylinderDisc(r) < 0.0)
            && (xs != [] ==>
                  |xs| == 2 && xs[0].obj == self && xs[1].obj == self && xs[0].t <= xs[1].t
                  && forall k :: 0 <= k < 2 ==> OnWall(Position(r, xs[k].t)))
  {
    if Abs(CylinderA(r)) >= EPSILON && CylinderDisc(r) >= 0.0 {
      TwoResultsOnWall(self, r, sqrt);
    }
  }

  /** When the ray is not parallel to the axis and the discriminant is not negative there
      are two results, tagged, in order and on the wall. */
  lemma TwoResultsOnWall<T>(self: T, r: Ray, sqrt: real -> real)
    requires IsSqrt(sqrt) && Abs(CylinderA(r)) >= EPSILON && CylinderDisc(r) >= 0.0
    ensures var xs := LocalIntersect(self, r, sqrt);
            |xs| == 2 && xs[0].obj == self && xs[1].obj == self && xs[0].t <= xs[1].t
            && OnWall(Position(r, xs[0].t)) && OnWall(Position(r, xs[1].t))
  {
    var xs := LocalIntersect(self, r, sqrt);
    LocalIntersectRoots(self, r, sqrt);
    RootsOnWall(r, sqrt(CylinderDisc(r)), xs[0].t, xs[1].t);
  }

  /** With a ray not parallel to the axis and a discriminant that is not negative, the
      results are at the two roots of the quadratic. */
  lemma LocalIntersectRoots<T>(self: T, r: Ray, sqrt: real -> real)
    requires Abs(CylinderA(r)) >= EPSILON && CylinderDisc(r) >= 0.0
    ensures var a, b, q := CylinderA(r), CylinderB(r), sqrt(CylinderDisc(r));
            LocalIntersect(self, r, sqrt)
            == [Intersection((-b - q) / (2.0 * a), self), Intersection((-b + q) / (2.0 * a), self)]
  {
  }

  /** For a ray not parallel to the axis, with q the square root of the discriminant, the
      two roots are in order and both on the wall. */
  lemma RootsOnWall(r: Ray, q: real, t0: real, t1: real)
    requires Abs(CylinderA(r)) >= EPSILON && CylinderDisc(r) >= 0.0
    requires q >= 0.0 && q * q == CylinderDisc(r)
    requires t0 == (-CylinderB(r) - q) / (2.0 * CylinderA(r)) && t1 == (-CylinderB(r) + q) / (2.0 * CylinderA(r))
    ensures t0 <= t1 && OnWall(Position(r, t0)) && OnWall(Position(r, t1))
  {
    var a, b, c, d := CylinderA(r), CylinderB(r), CylinderC(r), CylinderDisc(r);
    LeadingCoefficientPositive(r);
    QuadraticPair(a, b, c, d, q);
    RootOnWall(r, t0);
    RootOnWall(r, t1);
  }

  /** The leading coefficient is a sum of squares, so outside EPSILON of 0 it is positive. */
  lemma LeadingCoefficientPositive(r: Ray)
    requires Abs(CylinderA(r)) >= EPSILON
    ensures CylinderA(r) > 0.0
  {
    var x, z := r.direction.x, r.direction.z;
    assert x * x >= 0.0 && z * z >= 0.0;
  }

  /** A root of the ray's quadratic is a parameter at which the ray meets the wall. */
  lemma RootOnWall(r: Ray, t: real)
    requires CylinderA(r) * t * t + CylinderB(r) * t + CylinderC(r) == 0.0
    ensures OnWall(Position(r, t))
  {
    WallDistanceAlongRay(r, t);
  }
}
