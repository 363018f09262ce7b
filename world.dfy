/** world.js: the scene record and the intersection of a ray with everything in it, plus
    the point light record of light.js that the scene holds. */
module Worlds {
  import opened Wrappers
  import opened Tuples
  import opened Intersections
  import opened Rays
  import opened RtMath

  /** light.js `PointLight(position, intensity)`. */
  datatype PointLight = PointLight(position: Tuple, intensity: Tuple)

  /** `World()`: a record whose `objects` array callers push into and whose light they set. */
  class World<T> {
    var objects: seq<T>
    var lightSource: Option<PointLight>

    constructor ()
      ensures objects == [] && lightSource == None
    {
      objects := [];
      lightSource := None;
    }

    /** `w.objects.push(o)`. */
    method AddObject(o: T)
      modifies this
      ensures objects == old(objects) + [o] && lightSource == old(lightSource)
    {
      objects := objects + [o];
    }

    /** `w.lightSource = light`. */
    method SetLight(light: PointLight)
      modifies this
      ensures lightSource == Some(light) && objects == old(objects)
    {
      lightSource := Some(light);
    }
  }

  /** The `reduce` of `intersectWorld`: each object's ray.js `intersect` result, concatenated
      in object order. Every object contributes the same number of hits, none when the
      discriminant is negative and two otherwise. */
  function AllHits<T>(objs: seq<T>, r: Ray, sqrt: real -> real): (xs: seq<Intersection<T>>)
    requires SphereA(r) != 0.0
    ensures |xs| == if Discriminant(r) < 0.0 then 0 else 2 * |objs|
  {
    if objs == [] then [] else Intersect(objs[0], r, sqrt) + AllHits(objs[1..], r, sqrt)
  }

  /** `intersectWorld(world, ray)`: all hits, sorted by t. */
  function IntersectWorld<T>(w: World<T>, r: Ray, sqrt: real -> real): (xs: seq<Intersection<T>>)
    reads w
    requires SphereA(r) != 0.0
    ensures SortedByT(xs) && multiset(xs) == multiset(AllHits(w.objects, r, sqrt))
    ensures |xs| == if Discriminant(r) < 0.0 then 0 else 2 * |w.objects|
  {
    var all := AllHits(w.objects, r, sqrt);
    SortByTPermutes(all);
    SortByT(all)
  }

  /** One object's hits are tagged with it and lie on the unit sphere. */
  lemma ObjectHitsOnUnitSphere<T>(o: T, r: Ray, sqrt: real -> real)
    requires SphereA(r) != 0.0 && IsSqrt(sqrt)
    requires IsPoint(r.origin) && IsVector(r.direction)
    ensures forall x :: x in Intersect(o, r, sqrt) ==> x.obj == o && OnUnitSphere(Position(r, x.t))
  {
    IntersectSolves(o, r, sqrt);
    var xs := Intersect(o, r, sqrt);
    forall x | x in xs
      ensures x.obj == o && OnUnitSphere(Position(r, x.t))
    {
      var k :| 0 <= k < |xs| && xs[k] == x;
    }
  }

  /** Every hit of the concatenation belongs to one of the objects and lies on the unit
      sphere: the objects' transformations play no part. */
  lemma {:induction false} AllHitsOnUnitSphere<T>(objs: seq<T>, r: Ray, sqrt: real -> real)
    requires SphereA(r) != 0.0 && IsSqrt(sqrt)
    requires IsPoint(r.origin) && IsVector(r.direction)
    ensures forall x :: x in AllHits(objs, r, sqrt) ==> x.obj in objs && OnUnitSphere(Position(r, x.t))
  {
    if objs != [] {
      AllHitsOnUnitSphere(objs[1..], r, sqrt);
      ObjectHitsOnUnitSphere(objs[0], r, sqrt);
      var first := Intersect(objs[0], r, sqrt);
      forall x | x in AllHits(objs, r, sqrt)
        ensures x.obj in objs && OnUnitSphere(Position(r, x.t))
      {
        if x in first {
          assert x.obj == objs[0];
        } else {
          assert x in AllHits(objs[1..], r, sqrt);
          assert x.obj in objs[1..];
        }
      }
    }
  }

  /** The same holds for the sorted result of `intersectWorld`. */
  lemma WorldHitsOnUnitSphere<T>(w: World<T>, r: Ray, sqrt: real -> real)
    requires SphereA(r) != 0.0 && IsSqrt(sqrt)
    requires IsPoint(r.origin) && IsVector(r.direction)
    ensures forall x :: x in IntersectWorld(w, r, sqrt) ==>
              x.obj in w.objects && OnUnitSphere(Position(r, x.t))
  {
    var all := AllHits(w.objects, r, sqrt);
    AllHitsOnUnitSphere(w.objects, r, sqrt);
    forall x | x in IntersectWorld(w, r, sqrt)
      ensures x.obj in w.objects && OnUnitSphere(Position(r, x.t))
    {
      assert x in multiset(IntersectWorld(w, r, sqrt));
      assert x in multiset(all);
    }
  }

  /** A new world has no objects, no light and no intersections. */
  method EmptyWorldMisses(r: Ray, sqrt: real -> real) returns (w: World<int>)
    requires SphereA(r) != 0.0
    ensures w.objects == [] && w.lightSource == None && IntersectWorld(w, r, sqrt) == []
  {
    w := new World();
  }
}
