/** plane.js: the plane y = 0 in object space. `Plane` is a class of its own (it does not
    extend `Shape`), with no state, so both members are functions. */
module Planes {
  import opened RtMath
  import opened Tuples
  import opened Intersections
  import opened Rays

  /** `localNormalAt()`: the same unit vector along y wherever it is asked. */
  function LocalNormalAt(p: Tuple): (n: Tuple)
    ensures IsVector(n) && n.x == 0.0 && n.z == 0.0 && Dot(n, n) == 1.0 && n.y > 0.0
  {
    Vector(0.0, 1.0, 0.0)
  }

  /** `localIntersect(ray)`: nothing for a ray with |direction.y| < EPSILON (parallel to or
      inside the plane), otherwise the one t at which the ray reaches y = 0. */
  function LocalIntersect<T>(self: T, r: Ray): (xs: seq<Intersection<T>>)
    ensures Abs(r.direction.y) < EPSILON <==> xs == []
    ensures xs != [] ==> |xs| == 1 && xs[0].obj == self && Position(r, xs[0].t).y == 0.0
  {
    if Abs(r.direction.y) < EPSILON then []
    else [Intersection(-r.origin.y / r.direction.y, self)]
  }

  /** The examples: a ray parallel to the plane or inside it misses; from (0, 1, 0) going
      down along (0, -1, 0) it meets the plane at t = 1, and from below going up also at 1. */
  lemma IntersectExamples<T>(self: T)
    ensures LocalIntersect(self, Ray(Point(0.0, 10.0, 0.0), Vector(0.0, 0.0, 1.0))) == []
    ensures LocalIntersect(self, Ray(Point(0.0, 0.0, 0.0), Vector(0.0, 0.0, 1.0))) == []
    ensures LocalIntersect(self, Ray(Point(0.0, 1.0, 0.0), Vector(0.0, -1.0, 0.0))) == [Intersection(1.0, self)]
    ensures LocalIntersect(self, Ray(Point(0.0, -1.0, 0.0), Vector(0.0, 1.0, 0.0))) == [Intersection(1.0, self)]
  {
    assert -1.0 / -1.0 == 1.0;
    assert -(-1.0) / 1.0 == 1.0;
  }
}
