/** cube.js: the axis-aligned cube from -1 to 1. The per-axis slab test `checkAxis` is not
    part of the source shown, so it is a parameter: for an origin and a direction component
    it gives the pair (tmin, tmax) of that axis. */
module Cubes {
  import opened RtMath
  import opened Tuples
  import opened Intersections
  import opened Rays

  /** The three values of the per-axis test, for x, y and z in that order. */
  function AxisPairs(r: Ray, checkAxis: (real, real) -> (real, real)): seq<(real, real)>
  {
    [checkAxis(r.origin.x, r.direction.x), checkAxis(r.origin.y, r.direction.y),
     checkAxis(r.origin.z, r.direction.z)]
  }

  /** `Math.max(a, b, c)`. */
  function Max3(a: real, b: real, c: real): (m: real)
    ensures m >= a && m >= b && m >= c && (m == a || m == b || m == c)
  {
    Max(Max(a, b), c)
  }

  /** `Math.min(a, b, c)`. */
  function Min3(a: real, b: real, c: real): (m: real)
    ensures m <= a && m <= b && m <= c && (m == a || m == b || m == c)
  {
    Min(Min(a, b), c)
  }

  /** `localIntersect(r)`: the latest entry and the earliest exit over the three axes; the
      ray misses exactly when some axis is entered after another is left, and otherwise
      there are two results, the latest entry first. */
  function LocalIntersect<T>(self: T, r: Ray, checkAxis: (real, real) -> (real, real)): (xs: seq<Intersection<T>>)
    ensures var ps := AxisPairs(r, checkAxis);
            (xs == [] <==> exists i, j :: 0 <= i < 3 && 0 <= j < 3 && ps[i].0 > ps[j].1)
            && (xs != [] ==>
                  |xs| == 2 && xs[0].obj == self && xs[1].obj == self && xs[0].t <= xs[1].t
                  && (forall i :: 0 <= i < 3 ==> ps[i].0 <= xs[0].t && xs[1].t <= ps[i].1)
                  && (exists i :: 0 <= i < 3 && xs[0].t == ps[i].0)
                  && (exists j :: 0 <= j < 3 && xs[1].t == ps[j].1))
  {
    var x := checkAxis(r.origin.x, r.direction.x);
    var y := checkAxis(r.origin.y, r.direction.y);
    var z := checkAxis(r.origin.z, r.direction.z);
    var tmin := Max3(x.0, y.0, z.0);
    var tmax := Min3(x.1, y.1, z.1);
    if tmin > tmax then
      assert exists i, j :: 0 <= i < 3 && 0 <= j < 3 && AxisPairs(r, checkAxis)[i].0 > AxisPairs(r, checkAxis)[j].1 by {
        var ps := AxisPairs(r, checkAxis);
        var i := if tmin == x.0 then 0 else if tmin == y.0 then 1 else 2;
        var j := if tmax == x.1 then 0 else if tmax == y.1 then 1 else 2;
        assert ps[i].0 > ps[j].1;
      }
      []
    else
      [Intersection(tmin, self), Intersection(tmax, self)]
  }

  /** `localNormalAt(point)`: the component of largest absolute value is kept and the other
      two are zeroed; ties go to x, then to y. */
  function LocalNormalAt(p: Tuple): (n: Tuple)
    ensures IsVector(n)
    ensures n == Vector(p.x, 0.0, 0.0) || n == Vector(0.0, p.y, 0.0) || n == Vector(0.0, 0.0, p.z)
    ensures n == Vector(p.x, 0.0, 0.0) <== Abs(p.x) >= Abs(p.y) && Abs(p.x) >= Abs(p.z)
    ensures n == Vector(0.0, p.y, 0.0) <== Abs(p.y) > Abs(p.x) && Abs(p.y) >= Abs(p.z)
    ensures n == Vector(0.0, 0.0, p.z) <== Abs(p.z) > Abs(p.x) && Abs(p.z) > Abs(p.y)
  {
    var maxc := Max3(Abs(p.x), Abs(p.y), Abs(p.z));
    if maxc == Abs(p.x) then Vector(p.x, 0.0, 0.0)
    else if maxc == Abs(p.y) then Vector(0.0, p.y, 0.0)
    else Vector(0.0, 0.0, p.z)
  }

  /** The normal examples at the faces and corners: (1, 0.5, -0.8) gives (1, 0, 0),
      (-0.4, 0.3, -1) gives (0, 0, -1), and the corners (1, 1, 1) and (-1, -1, -1) give x. */
  lemma NormalExamples()
    ensures LocalNormalAt(Point(1.0, 0.5, -0.8)) == Vector(1.0, 0.0, 0.0)
    ensures LocalNormalAt(Point(-0.4, 0.3, -1.0)) == Vector(0.0, 0.0, -1.0)
    ensures LocalNormalAt(Point(0.3, -1.0, -0.4)) == Vector(0.0, -1.0, 0.0)
    ensures LocalNormalAt(Point(1.0, 1.0, 1.0)) == Vector(1.0, 0.0, 0.0)
    ensures LocalNormalAt(Point(-1.0, -1.0, -1.0)) == Vector(-1.0, 0.0, 0.0)
  {
  }
}
