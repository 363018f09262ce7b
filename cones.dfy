/** cone.js: the double cone x² + z² = y², cut to `minimum < y < maximum` and optionally
    capped. The three limits are fields of the shape; here they travel as one value. */
module Cones {
  import opened RtMath
  import opened Tuples
  import opened Intersections
  import opened Rays
  import opened Bounding

  datatype ConeLimits = ConeLimits(minimum: ExtReal, maximum: ExtReal, closed: bool)

  /** What the constructor sets: open, from -∞ to +∞. */
  const DefaultLimits: ConeLimits := ConeLimits(NegInf, PosInf, false)

  /** `checkCap(ray, t, y)`: at t the ray is within x² + z² <= |y|. */
  predicate CheckCap(r: Ray, t: real, y: real)
  {
    var x := r.origin.x + t * r.direction.x;
    var z := r.origin.z + t * r.direction.z;
    x * x + z * z <= Abs(y)
  }

  /** The quadratic coefficients of `localIntersect`. */
  function ConeA(r: Ray): real
  {
    r.direction.x * r.direction.x - r.direction.y * r.direction.y + r.direction.z * r.direction.z
  }

  function ConeB(r: Ray): real
  {
    2.0 * r.origin.x * r.direction.x - 2.0 * r.origin.y * r.direction.y + 2.0 * r.origin.z * r.direction.z
  }

  function ConeC(r: Ray): real
  {
    r.origin.x * r.origin.x - r.origin.y * r.origin.y + r.origin.z * r.origin.z
  }

  function ConeDisc(r: Ray): real
  {
    ConeB(r) * ConeB(r) - 4.0 * ConeA(r) * ConeC(r)
  }

  /** Along the ray, x² - y² + z² is the quadratic `a t² + b t + c`. */
  lemma ConeAlongRay(r: Ray, t: real)
    ensures var p := Position(r, t);
            p.x * p.x - p.y * p.y + p.z * p.z == ConeA(r) * t * t + ConeB(r) * t + ConeC(r)
  {
    var o, d := r.origin, r.direction;
    SquareAlong(o.x, d.x, t);
    SquareAlong(o.y, d.y, t);
    SquareAlong(o.z, d.z, t);
  }

  /** The point at t lies on the cone's surface. */
  predicate OnCone(r: Ray, t: real)
  {
    var p := Position(r, t);
    p.x * p.x + p.z * p.z == p.y * p.y
  }

  /** `minimum < y < maximum`. */
  predicate Within(c: ConeLimits, y: real)
  {
    LessThan(c.minimum, y) && GreaterThan(c.maximum, y)
  }

  /** The hit at a cap with a finite limit: the point at t is at that height and passes
      `checkCap`. */
  predicate OnCap(limit: ExtReal, r: Ray, t: real)
  {
    limit.Fin? && Position(r, t).y == limit.v && CheckCap(r, t, limit.v)
  }

  /** The cap at one limit: where the ray reaches that height, kept when it passes
      `checkCap`. */
  function CapHit<T>(self: T, r: Ray, limit: ExtReal): (xs: seq<Intersection<T>>)
    requires Abs(r.direction.y) >= EPSILON
    ensures |xs| <= 1 && forall k :: 0 <= k < |xs| ==> xs[k].obj == self && OnCap(limit, r, xs[k].t)
    ensures limit.Fin? && CheckCap(r, (limit.v - r.origin.y) / r.direction.y, limit.v) ==>
              xs == [Intersection((limit.v - r.origin.y) / r.direction.y, self)]
  {
    match limit
    case Fin(y) =>
      var t := (y - r.origin.y) / r.direction.y;
      if CheckCap(r, t, y) then [Intersection(t, self)] else []
    case _ => []
  }

  /** The test the comment on `checkCap` describes: at t the ray is within the cap's disc,
      whose radius at height y is |y|, so x² + z² <= y². */
  predicate InCapDisc(r: Ray, t: real, y: real)
  {
    var x := r.origin.x + t * r.direction.x;
    var z := r.origin.z + t * r.direction.z;
    x * x + z * z <= y * y
  }

  /** The cap at one limit with the disc test: where the ray reaches a finite limit's height,
      kept exactly when that point lies in the cap's disc. */
  function CapHitCorrected<T>(self: T, r: Ray, limit: ExtReal): (xs: seq<Intersection<T>>)
    requires Abs(r.direction.y) >= EPSILON
    ensures |xs| <= 1 && forall k :: 0 <= k < |xs| ==> xs[k].obj == self
    ensures limit.Fin? ==>
              var t := (limit.v - r.origin.y) / r.direction.y;
              var p := Position(r, t);
              p.y == limit.v
              && (xs != [] <==> p.x * p.x + p.z * p.z <= limit.v * limit.v)
              && (xs != [] ==> xs[0].t == t)
    ensures limit.Fin? || xs == []
  {
    match limit
    case Fin(y) =>
      var t := (y - r.origin.y) / r.direction.y;
      assert Position(r, t).y == y by { CapHeight(r, y); }
      if InCapDisc(r, t, y) then [Intersection(t, self)] else []
    case _ => []
  }

  /** Where the ray reaches height y, its point is at that height. */
  lemma CapHeight(r: Ray, y: real)
    requires r.direction.y != 0.0
    ensures Position(r, (y - r.origin.y) / r.direction.y).y == y
  {
    var t := (y - r.origin.y) / r.direction.y;
    assert t * r.direction.y == y - r.origin.y;
  }

  /** The two tests agree at limits of magnitude 0 and 1, where |y| = y². */
  lemma CheckCapAgreesAtUnitLimits(r: Ray, t: real, y: real)
    requires y == 0.0 || y == 1.0 || y == -1.0
    ensures CheckCap(r, t, y) <==> InCapDisc(r, t, y)
  {
  }

  /** As written, `checkCap` misses a cap hit: the closed cone from -4 to 4 and the ray from
      (3, 10, 0) straight down reach the top cap at t = 6, at (3, 4, 0), inside the cap's disc
      of radius 4 (9 <= 16); the test 9 <= |4| fails, so no hit is kept. The disc test keeps
      it. */
  lemma CapHitAsWrittenMissesDisc<T>(self: T)
    ensures var r := Ray(Point(3.0, 10.0, 0.0), Vector(0.0, -1.0, 0.0));
            InCapDisc(r, 6.0, 4.0) && !CheckCap(r, 6.0, 4.0)
            && CapHit(self, r, Fin(4.0)) == []
            && CapHitCorrected(self, r, Fin(4.0)) == [Intersection(6.0, self)]
  {
    var r := Ray(Point(3.0, 10.0, 0.0), Vector(0.0, -1.0, 0.0));
    assert r.origin.y == 10.0 && r.direction.y == -1.0;
    assert r.origin.x == 3.0 && r.direction.x == 0.0 && r.origin.z == 0.0 && r.direction.z == 0.0;
    assert (4.0 - 10.0) / -1.0 == 6.0;
    assert InCapDisc(r, 6.0, 4.0);
    CapHitCorrectedKeeps(self, r, 4.0);
  }

  /** Where the ray reaches height y inside the cap's disc, the disc test keeps that hit. */
  lemma CapHitCorrectedKeeps<T>(self: T, r: Ray, y: real)
    requires Abs(r.direction.y) >= EPSILON
    requires InCapDisc(r, (y - r.origin.y) / r.direction.y, y)
    ensures CapHitCorrected(self, r, Fin(y)) == [Intersection((y - r.origin.y) / r.direction.y, self)]
  {
  }

  /** `intersectCaps(ray, xs)`: xs is returned unchanged for an open cone or a ray with
      |direction.y| < EPSILON; otherwise the lower cap's hit and then the upper cap's are
      appended, each when present. */
  function IntersectCaps<T>(self: T, c: ConeLimits, r: Ray, xs: seq<Intersection<T>>): (ys: seq<Intersection<T>>)
    ensures !c.closed || Abs(r.direction.y) < EPSILON ==> ys == xs
    ensures |xs| <= |ys| <= |xs| + 2 && ys[..|xs|] == xs
    ensures forall k :: |xs| <= k < |ys| ==>
              ys[k].obj == self && (OnCap(c.minimum, r, ys[k].t) || OnCap(c.maximum, r, ys[k].t))
    ensures |ys| == |xs| + 2 ==> OnCap(c.minimum, r, ys[|xs|].t) && OnCap(c.maximum, r, ys[|xs| + 1].t)
    ensures AllTagged(xs, self) ==> AllTagged(ys, self)
  {
    if !c.closed || Abs(r.direction.y) < EPSILON then xs
    else xs + CapHit(self, r, c.minimum) + CapHit(self, r, c.maximum)
  }

  /** The root of the linear case `b t + c = 0`, taken when the ray runs parallel to one
      half of the cone (a = 0). */
  function ParallelHit(r: Ray): real
    requires ConeB(r) != 0.0
  {
    -ConeC(r) / ConeB(r)
  }

  /** The root that line 44 of cone.js computes in the linear case, `-c / (2 b)`. */
  function ParallelHitAsWritten(r: Ray): real
    requires ConeB(r) != 0.0
  {
    -ConeC(r) / (2.0 * ConeB(r))
  }

  /** For a ray exactly parallel to one half of the cone, the corrected root lies on the
      cone. */
  lemma ParallelHitOnCone(r: Ray)
    requires ConeA(r) == 0.0 && ConeB(r) != 0.0
    ensures OnCone(r, ParallelHit(r))
  {
    var t := ParallelHit(r);
    ConeAlongRay(r, t);
    assert ConeB(r) * t + ConeC(r) == 0.0;
  }

  /** The ray from (0, 0, z0) along (0, 1, 1), parallel to one half of the cone. */
  function ParallelRay(z0: real): Ray
  {
    Ray(Point(0.0, 0.0, z0), Vector(0.0, 1.0, 1.0))
  }

  lemma ParallelRayCoefficients(z0: real)
    ensures ConeA(ParallelRay(z0)) == 0.0 && ConeB(ParallelRay(z0)) == 2.0 * z0
    ensures ConeC(ParallelRay(z0)) == z0 * z0
  {
  }

  lemma ParallelRayAt(z0: real, t: real)
    ensures Position(ParallelRay(z0), t) == Tuple(0.0, t, z0 + t, 1.0)
  {
  }

  /** The point (0, y, z) is on the cone exactly when z² = y². */
  lemma OnConeAt(r: Ray, t: real, y: real, z: real)
    requires Position(r, t) == Tuple(0.0, y, z, 1.0)
    ensures OnCone(r, t) <==> z * z == y * y
  {
  }

  /** Both roots for b = 2 z0 and c = z0². */
  lemma ParallelRoots(r: Ray, z0: real)
    requires z0 != 0.0 && ConeB(r) == 2.0 * z0 && ConeC(r) == z0 * z0
    ensures ParallelHitAsWritten(r) == -z0 / 4.0 && ParallelHit(r) == -z0 / 2.0
  {
  }

  /** With w = z0 + t: w² = t² fails at t = -z0/4 and holds at t = -z0/2. */
  lemma ParallelSquares(z0: real, t: real, w: real)
    requires z0 != 0.0 && w == z0 + t
    ensures t == -z0 / 4.0 ==> w * w != t * t
    ensures t == -z0 / 2.0 ==> w * w == t * t
  {
    assert w * w - t * t == z0 * (z0 + 2.0 * t);
    if t == -z0 / 4.0 {
      assert z0 + 2.0 * t == z0 / 2.0;
      assert z0 * z0 > 0.0 by {
        if z0 < 0.0 {
          assert (-z0) * (-z0) > 0.0;
        }
      }
      assert w * w - t * t == z0 * z0 / 2.0;
    }
  }

  /** A ray from (0, 0, z0), z0 != 0, along (0, 1, 1) runs parallel to one half of the
      cone; line 44 of cone.js gives t = -z0/4, whose point is not on the cone, while the
      root of the linear equation, t = -z0/2, is. For z0 = -1: t = 1/4 at (0, 1/4, -3/4)
      instead of t = 1/2 at (0, 1/2, -1/2). */
  lemma ParallelHitAsWrittenMissesCone(z0: real)
    requires z0 != 0.0
    ensures ConeA(ParallelRay(z0)) == 0.0 && ConeB(ParallelRay(z0)) != 0.0
    ensures !OnCone(ParallelRay(z0), ParallelHitAsWritten(ParallelRay(z0)))
    ensures OnCone(ParallelRay(z0), ParallelHit(ParallelRay(z0)))
  {
    var r := ParallelRay(z0);
    ParallelRayCoefficients(z0);
    ParallelRoots(r, z0);
    var t1, t2 := -z0 / 4.0, -z0 / 2.0;
    ParallelRayAt(z0, t1);
    ParallelSquares(z0, t1, z0 + t1);
    OnConeAt(r, t1, t1, z0 + t1);
    ParallelRayAt(z0, t2);
    ParallelSquares(z0, t2, z0 + t2);
    OnConeAt(r, t2, t2, z0 + t2);
  }

  /** The body roots with y strictly between the limits, smaller t first; a negative
      discriminant gives JavaScript NaN roots, which fail the limit test, so none. */
  function BodyHits<T>(self: T, c: ConeLimits, r: Ray, sqrt: real -> real): (xs: seq<Intersection<T>>)
    requires ConeA(r) != 0.0
    ensures AllTagged(xs, self)
  {
    var a, b := ConeA(r), ConeB(r);
    var disc := ConeDisc(r);
    if disc < 0.0 then []
    else
      var t0 := (-b - sqrt(disc)) / (2.0 * a);
      var t1 := (-b + sqrt(disc)) / (2.0 * a);
      var lo := if t0 > t1 then t1 else t0;
      var hi := if t0 > t1 then t0 else t1;
      KeepWithin(self, c, r, lo) + KeepWithin(self, c, r, hi)
  }

  /** One step of the `reduce`: the root is kept when its y is between the limits. */
  function KeepWithin<T>(self: T, c: ConeLimits, r: Ray, t: real): seq<Intersection<T>>
  {
    var y := r.origin.y + t * r.direction.y;
    if Within(c, y) then [Intersection(t, self)] else []
  }

  /** `localIntersect(ray)`: for |a| < EPSILON, nothing when also |b| < EPSILON and
      otherwise the one root of line 44, `-c / (2 b)`; else the body roots between the
      limits; the cap hits follow in both cases. */
  function LocalIntersect<T>(self: T, c: ConeLimits, r: Ray, sqrt: real -> real): (xs: seq<Intersection<T>>)
    ensures Abs(ConeA(r)) < EPSILON && Abs(ConeB(r)) < EPSILON ==> xs == []
    ensures Abs(ConeA(r)) < EPSILON && Abs(ConeB(r)) >= EPSILON ==>
              xs == IntersectCaps(self, c, r, [Intersection(ParallelHitAsWritten(r), self)])
    ensures Abs(ConeA(r)) >= EPSILON ==> xs == IntersectCaps(self, c, r, BodyHits(self, c, r, sqrt))
    ensures AllTagged(xs, self)
  {
    var a := ConeA(r);
    var b := ConeB(r);
    if Abs(a) < EPSILON then
      if Abs(b) < EPSILON then []
      else IntersectCaps(self, c, r, [Intersection(ParallelHitAsWritten(r), self)])
    else
      IntersectCaps(self, c, r, BodyHits(self, c, r, sqrt))
  }

  /** `localIntersect` with the linear root of `ParallelHit` in place of line 44's; it
      agrees with `LocalIntersect` everywhere else. */
  function LocalIntersectCorrected<T>(self: T, c: ConeLimits, r: Ray, sqrt: real -> real): (xs: seq<Intersection<T>>)
    ensures Abs(ConeA(r)) < EPSILON && Abs(ConeB(r)) >= EPSILON ==>
              xs == IntersectCaps(self, c, r, [Intersection(ParallelHit(r), self)])
    ensures !(Abs(ConeA(r)) < EPSILON && Abs(ConeB(r)) >= EPSILON) ==>
              xs == LocalIntersect(self, c, r, sqrt)
    ensures AllTagged(xs, self)
  {
    if Abs(ConeA(r)) < EPSILON && Abs(ConeB(r)) >= EPSILON then
      IntersectCaps(self, c, r, [Intersection(ParallelHit(r), self)])
    else
      LocalIntersect(self, c, r, sqrt)
  }

  /** t is a root of the quadratic `a t² + b t + c` of the ray. */
  predicate IsConeRoot(r: Ray, t: real)
  {
    ConeA(r) * t * t + ConeB(r) * t + ConeC(r) == 0.0
  }

  /** With q the square root of a non-negative discriminant, both formula roots are roots. */
  lemma ConeRoots(r: Ray, q: real)
    requires ConeA(r) != 0.0 && q >= 0.0 && q * q == ConeDisc(r)
    ensures var a, b := ConeA(r), ConeB(r);
            IsConeRoot(r, (-b - q) / (2.0 * a)) && IsConeRoot(r, (-b + q) / (2.0 * a))
  {
    var a, b, cc, d := ConeA(r), ConeB(r), ConeC(r), ConeDisc(r);
    QuadraticRoot(a, b, cc, d, -q, (-b - q) / (2.0 * a));
    QuadraticRoot(a, b, cc, d, q, (-b + q) / (2.0 * a));
  }

  /** A kept root is one result, tagged with the shape, between the limits. */
  lemma KeepWithinLimits<T>(self: T, c: ConeLimits, r: Ray, t: real)
    ensures var xs := KeepWithin(self, c, r, t);
            |xs| <= 1 && forall k :: 0 <= k < |xs| ==>
              xs[k] == Intersection(t, self) && Within(c, Position(r, t).y)
  {
    assert Position(r, t).y == r.origin.y + t * r.direction.y;
  }

  /** A root of the quadratic is a point of the cone. */
  lemma RootOnCone(r: Ray, t: real)
    requires IsConeRoot(r, t)
    ensures OnCone(r, t)
  {
    ConeAlongRay(r, t);
  }

  /** The body hits: at most two, tagged with the shape, in ascending order, each on the
      cone and strictly between the limits; none for a negative discriminant. */
  lemma BodyHitsOnCone<T>(self: T, c: ConeLimits, r: Ray, sqrt: real -> real)
    requires ConeA(r) != 0.0 && IsSqrt(sqrt)
    ensures var xs := BodyHits(self, c, r, sqrt);
            |xs| <= 2 && (ConeDisc(r) < 0.0 ==> xs == [])
            && (|xs| == 2 ==> xs[0].t <= xs[1].t)
            && forall k :: 0 <= k < |xs| ==>
                 xs[k].obj == self && OnCone(r, xs[k].t) && Within(c, Position(r, xs[k].t).y)
  {
    var a, b, d := ConeA(r), ConeB(r), ConeDisc(r);
    if d >= 0.0 {
      var q := sqrt(d);
      var t0 := (-b - q) / (2.0 * a);
      var t1 := (-b + q) / (2.0 * a);
      ConeRoots(r, q);
      var lo := if t0 > t1 then t1 else t0;
      var hi := if t0 > t1 then t0 else t1;
      KeepWithinLimits(self, c, r, lo);
      KeepWithinLimits(self, c, r, hi);
      RootOnCone(r, lo);
      RootOnCone(r, hi);
      assert BodyHits(self, c, r, sqrt) == KeepWithin(self, c, r, lo) + KeepWithin(self, c, r, hi);
    }
  }

  /** For a ray exactly parallel to one half of the cone, the first result of the
      corrected intersection is on the cone. */
  lemma LocalIntersectParallel<T>(self: T, c: ConeLimits, r: Ray, sqrt: real -> real)
    requires ConeA(r) == 0.0 && Abs(ConeB(r)) >= EPSILON
    ensures var xs := LocalIntersectCorrected(self, c, r, sqrt);
            |xs| >= 1 && xs[0].obj == self && OnCone(r, xs[0].t)
  {
    ParallelHitOnCone(r);
  }

  /** As written, the ray from (0, 0, z0) along (0, 1, 1) with z0 away from 0 gets as
      first result the point at t = -z0/4, which is not on the cone, while the corrected
      intersection's first result is on it. */
  lemma LocalIntersectParallelAsWritten<T>(self: T, c: ConeLimits, z0: real, sqrt: real -> real)
    requires Abs(z0) >= EPSILON
    ensures var xs := LocalIntersect(self, c, ParallelRay(z0), sqrt);
            |xs| >= 1 && xs[0] == Intersection(-z0 / 4.0, self) && !OnCone(ParallelRay(z0), xs[0].t)
    ensures var ys := LocalIntersectCorrected(self, c, ParallelRay(z0), sqrt);
            |ys| >= 1 && ys[0] == Intersection(-z0 / 2.0, self) && OnCone(ParallelRay(z0), ys[0].t)
  {
    var r := ParallelRay(z0);
    ParallelRayCoefficients(z0);
    ParallelRoots(r, z0);
    ParallelHitAsWrittenMissesCone(z0);
  }

  /** Near a cap limit: `p.y >= maximum - EPSILON`. */
  predicate NearMaximum(c: ConeLimits, y: real)
  {
    match c.maximum
    case NegInf => true
    case Fin(v) => y >= v - EPSILON
    case PosInf => false
  }

  /** Near a cap limit: `p.y <= minimum + EPSILON`. */
  predicate NearMinimum(c: ConeLimits, y: real)
  {
    match c.minimum
    case NegInf => false
    case Fin(v) => y <= v + EPSILON
    case PosInf => true
  }

  /** `localNormalAt(p)`: straight up or down inside radius 1 near the upper or lower limit,
      and otherwise (x, ∓sqrt(x² + z²), z), with the minus sign above y = 0. */
  function LocalNormalAt(c: ConeLimits, p: Tuple, sqrt: real -> real): (n: Tuple)
    ensures IsVector(n)
    ensures p.x * p.x + p.z * p.z < 1.0 && NearMaximum(c, p.y) ==> n == Vector(0.0, 1.0, 0.0)
    ensures p.x * p.x + p.z * p.z < 1.0 && !NearMaximum(c, p.y) && NearMinimum(c, p.y) ==>
              n == Vector(0.0, -1.0, 0.0)
  {
    var dist := p.x * p.x + p.z * p.z;
    if dist < 1.0 && NearMaximum(c, p.y) then Vector(0.0, 1.0, 0.0)
    else if dist < 1.0 && NearMinimum(c, p.y) then Vector(0.0, -1.0, 0.0)
    else
      var y := sqrt(p.x * p.x + p.z * p.z);
      Vector(p.x, if p.y > 0.0 then -y else y, p.z)
  }

  /** Away from the caps, at a point of the cone the normal is (x, -y, z): the gradient of
      x² - y² + z², perpendicular to the line from the apex through the point. */
  lemma NormalOnBody(c: ConeLimits, p: Tuple, sqrt: real -> real)
    requires IsSqrt(sqrt) && p.x * p.x + p.z * p.z == p.y * p.y
    requires p.x * p.x + p.z * p.z >= 1.0 || (!NearMaximum(c, p.y) && !NearMinimum(c, p.y))
    ensures LocalNormalAt(c, p, sqrt) == Vector(p.x, -p.y, p.z)
    ensures var n := LocalNormalAt(c, p, sqrt); n.x * p.x + n.y * p.y + n.z * p.z == 0.0
  {
    var dist := p.x * p.x + p.z * p.z;
    var y := if p.y > 0.0 then -sqrt(dist) else sqrt(dist);
    SqrtOfSquareAbs(sqrt, p.y, dist);
    assert y == -p.y;
    assert !(dist < 1.0 && NearMaximum(c, p.y)) && !(dist < 1.0 && NearMinimum(c, p.y));
    assert LocalNormalAt(c, p, sqrt) == Vector(p.x, y, p.z);
  }

  /** The largest magnitude of the two limits, `Math.max(Math.abs(min), Math.abs(max))`. */
  function Limit(c: ConeLimits): (l: ExtReal)
    ensures !l.NegInf? && (l.Fin? ==> l.v >= 0.0)
  {
    ExtMax(ExtAbs(c.minimum), ExtAbs(c.maximum))
  }

  /** The box that lines 116-125 of cone.js leave: x and y from -L to L and z from -1 to 1,
      for L the larger magnitude of the limits. */
  function BoxAsWritten(c: ConeLimits): Bounds
  {
    var l := Limit(c);
    Bounds(ExtPoint(ExtNeg(l), ExtNeg(l), Fin(-1.0)), ExtPoint(l, l, Fin(1.0)))
  }

  /** `bounds()` as written: the y limits are stored and then overwritten, through the
      chained assignments, by the x limits, and z keeps the unit box's ±1. */
  method BoundsAsWritten(c: ConeLimits) returns (b: Bounds)
    ensures b == BoxAsWritten(c)
  {
    b := NewBounds();
    b := b.(min := b.min.(y := c.minimum));
    b := b.(max := b.max.(y := c.maximum));
    var lo := ExtNeg(ExtMax(ExtAbs(b.min.y), ExtAbs(b.max.y)));
    b := b.(min := b.min.(y := lo));
    b := b.(min := b.min.(x := lo));
    var hi := ExtMax(ExtAbs(b.min.y), ExtAbs(b.max.y));
    assert hi == Limit(c) by {
      assert ExtAbs(lo) == Limit(c);
    }
    b := b.(max := b.max.(y := hi));
    b := b.(max := b.max.(x := hi));
  }

  /** The default cone's box as written is infinite in y both ways. */
  lemma DefaultBoxAsWritten()
    ensures BoxAsWritten(DefaultLimits).min.y == NegInf && BoxAsWritten(DefaultLimits).max.y == PosInf
  {
  }

  /** A cone from -2 to 1 has the point (0, -3/2, 3/2) on its body, but the box as written
      stops at z = 1. */
  lemma BoxAsWrittenMissesBody()
    ensures var c := ConeLimits(Fin(-2.0), Fin(1.0), false);
            0.0 * 0.0 + 1.5 * 1.5 == -1.5 * -1.5 && Within(c, -1.5)
            && !InBox(BoxAsWritten(c), 0.0, -1.5, 1.5)
  {
  }

  /** The box the cone evidently needs: x and z from -L to L, and y between the limits. */
  function ConeBox(c: ConeLimits): Bounds
  {
    var l := Limit(c);
    Bounds(ExtPoint(ExtNeg(l), c.minimum, ExtNeg(l)), ExtPoint(l, c.maximum, l))
  }

  /** A number whose square is at most another's is at most it in magnitude. */
  lemma AbsBySquares(x: real, y: real)
    requires x * x <= y * y
    ensures Abs(x) <= Abs(y)
  {
    assert Abs(x) * Abs(x) == x * x && Abs(y) * Abs(y) == y * y;
    if Abs(y) < Abs(x) {
      SquaresOrdered(Abs(y), Abs(x));
    }
  }

  /** A height strictly between the limits is at most `Limit` in magnitude. */
  lemma WithinLimit(c: ConeLimits, y: real)
    requires Within(c, y)
    ensures AtLeast(Limit(c), Abs(y))
  {
    if y >= 0.0 {
      assert AtLeast(ExtAbs(c.maximum), y);
    } else {
      assert AtLeast(ExtAbs(c.minimum), -y);
    }
  }

  /** A number of magnitude at most l is between -l and l. */
  lemma BetweenLimits(l: ExtReal, x: real)
    requires AtLeast(l, Abs(x))
    ensures AtMost(ExtNeg(l), x) && AtLeast(l, x)
  {
  }

  /** Every point of the cone's body between its limits lies in `ConeBox`. */
  lemma ConeBoxContainsBody(c: ConeLimits, x: real, y: real, z: real)
    requires x * x + z * z == y * y && Within(c, y)
    ensures InBox(ConeBox(c), x, y, z)
  {
    var l := Limit(c);
    WithinLimit(c, y);
    AbsBySquares(x, y);
    AbsBySquares(z, y);
    BetweenLimits(l, x);
    BetweenLimits(l, z);
  }

  /** The same point is in the corrected box. */
  lemma ConeBoxHoldsExample()
    ensures InBox(ConeBox(ConeLimits(Fin(-2.0), Fin(1.0), false)), 0.0, -1.5, 1.5)
  {
  }
}
