/** bounds.js and bounding-box.js: axis-aligned boxes whose limits may be infinite (a cone's
    are), and the eight corners of a box. */
module Bounding {
  import opened RtMath

  /** A corner or limit of a box: a point whose coordinates may be infinite. */
  datatype ExtTuple = ExtTuple(x: ExtReal, y: ExtReal, z: ExtReal, w: real)

  /** `point(x, y, z)` over extended coordinates. */
  function ExtPoint(x: ExtReal, y: ExtReal, z: ExtReal): (p: ExtTuple)
    ensures p.w == 1.0 && p.x == x && p.y == y && p.z == z
  {
    ExtTuple(x, y, z, 1.0)
  }

  datatype Bounds = Bounds(min: ExtTuple, max: ExtTuple)

  /** Every coordinate of `lo` is at most the same coordinate of `hi`. */
  predicate ExtLe(a: ExtReal, b: ExtReal)
  {
    match (a, b)
    case (NegInf, _) => true
    case (_, PosInf) => true
    case (Fin(u), Fin(v)) => u <= v
    case _ => false
  }

  /** `Bounds()`: the box of the unit primitives, from (-1, -1, -1) to (1, 1, 1). Each call
      builds a new value, so changing one result cannot affect another. */
  function NewBounds(): (b: Bounds)
    ensures b.min.w == 1.0 && b.max.w == 1.0
    ensures ExtLe(b.min.x, b.max.x) && ExtLe(b.min.y, b.max.y) && ExtLe(b.min.z, b.max.z)
    ensures b.min == ExtPoint(Fin(-1.0), Fin(-1.0), Fin(-1.0))
    ensures b.max == ExtPoint(Fin(1.0), Fin(1.0), Fin(1.0))
  {
    Bounds(ExtPoint(Fin(-1.0), Fin(-1.0), Fin(-1.0)), ExtPoint(Fin(1.0), Fin(1.0), Fin(1.0)))
  }

  /** The point (x, y, z) lies in the box. */
  predicate InBox(b: Bounds, x: real, y: real, z: real)
  {
    AtMost(b.min.x, x) && AtLeast(b.max.x, x)
    && AtMost(b.min.y, y) && AtLeast(b.max.y, y)
    && AtMost(b.min.z, z) && AtLeast(b.max.z, z)
  }

  /** What `BoundingBox` returns: the bounds it was given and the corner list. */
  datatype Box = Box(bounds: Bounds, corners: seq<ExtTuple>)

  /** The value of one coordinate at a corner: the maximum when the bit is set. */
  function Pick(bit: bool, lo: ExtReal, hi: ExtReal): ExtReal
  {
    if bit then hi else lo
  }

  /** `BoundingBox(bounds)`: the eight corners, with z changing fastest, then y, then x, so
      that corner i takes the maximum in x, y and z exactly where bits 2, 1 and 0 of i are
      set; each corner is a point and the bounds are returned unchanged. */
  function BoundingBox(b: Bounds): (r: Box)
    ensures r.bounds == b && |r.corners| == 8
    ensures forall i :: 0 <= i < 8 ==>
              r.corners[i] == ExtPoint(Pick(i / 4 == 1, b.min.x, b.max.x),
                                       Pick((i / 2) % 2 == 1, b.min.y, b.max.y),
                                       Pick(i % 2 == 1, b.min.z, b.max.z))
  {
    var c1 := ExtPoint(b.min.x, b.min.y, b.min.z);
    var c2 := ExtPoint(b.min.x, b.min.y, b.max.z);
    var c3 := ExtPoint(b.min.x, b.max.y, b.min.z);
    var c4 := ExtPoint(b.min.x, b.max.y, b.max.z);
    var c5 := ExtPoint(b.max.x, b.min.y, b.min.z);
    var c6 := ExtPoint(b.max.x, b.min.y, b.max.z);
    var c7 := ExtPoint(b.max.x, b.max.y, b.min.z);
    var c8 := ExtPoint(b.max.x, b.max.y, b.max.z);
    Box(b, [c1, c2, c3, c4, c5, c6, c7, c8])
  }

  /** Every one of the eight min/max combinations is a corner, at the index that spells the
      choice in binary, and the first and last corners are the two limits. */
  lemma CornersEnumerate(b: Bounds, xMax: bool, yMax: bool, zMax: bool)
    ensures var i := (if xMax then 4 else 0) + (if yMax then 2 else 0) + (if zMax then 1 else 0);
            BoundingBox(b).corners[i]
            == ExtPoint(Pick(xMax, b.min.x, b.max.x), Pick(yMax, b.min.y, b.max.y), Pick(zMax, b.min.z, b.max.z))
    ensures BoundingBox(b).corners[0] == ExtPoint(b.min.x, b.min.y, b.min.z)
    ensures BoundingBox(b).corners[7] == ExtPoint(b.max.x, b.max.y, b.max.z)
  {
    var i := (if xMax then 4 else 0) + (if yMax then 2 else 0) + (if zMax then 1 else 0);
    assert i / 4 == 1 <==> xMax;
    assert (i / 2) % 2 == 1 <==> yMax;
    assert i % 2 == 1 <==> zMax;
  }
}
