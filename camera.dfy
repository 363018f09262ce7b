/** camera.js: the view geometry of a camera and the ray through a pixel. `Math.tan` and
    `normalize` are not part of this model: the camera takes `tan`, and `rayForPixel` takes
    `normalize`, as parameters. */
module Cameras {
  import opened Wrappers
  import opened Tuples
  import opened Matrices
  import opened MatrixLaws
  import opened InverseLaws
  import opened Rays

  datatype Camera = Camera(hsize: nat, vsize: nat, fov: real, transform: Grid,
                           halfWidth: real, halfHeight: real, pixelSize: real)

  /** `Camera(hsize, vsize, fov, transform = identity)`. With halfView = tan(fov / 2), the
      longer side of the canvas spans halfView on each side of the centre and the shorter
      one is scaled by the aspect ratio; a pixel's size is the width over hsize. */
  function MakeCamera(hsize: nat, vsize: nat, fov: real, transform: Option<Grid>, tan: real -> real): (c: Camera)
    requires hsize > 0 && vsize > 0
    ensures c.hsize == hsize && c.vsize == vsize && c.fov == fov
    ensures c.transform == if transform.Some? then transform.value else Identity()
  {
    var halfView := tan(fov / 2.0);
    var aspect := hsize as real / vsize as real;
    var halfWidth := if aspect >= 1.0 then halfView else halfView * aspect;
    var halfHeight := if aspect >= 1.0 then halfView / aspect else halfView;
    Camera(hsize, vsize, fov, if transform.Some? then transform.value else Identity(),
           halfWidth, halfHeight, (halfWidth * 2.0) / hsize as real)
  }

  /** The longer side, as a real. */
  function Longer(hsize: nat, vsize: nat): real
  {
    if hsize >= vsize then hsize as real else vsize as real
  }

  /** A landscape canvas takes the full half view across, a portrait one the full half view
      up, and the two half extents keep the canvas's aspect ratio. */
  lemma HalfExtents(hsize: nat, vsize: nat, fov: real, transform: Option<Grid>, tan: real -> real)
    requires hsize > 0 && vsize > 0
    ensures var c := MakeCamera(hsize, vsize, fov, transform, tan);
            (hsize >= vsize ==> c.halfWidth == tan(fov / 2.0))
            && (hsize < vsize ==> c.halfHeight == tan(fov / 2.0))
            && c.halfWidth * vsize as real == c.halfHeight * hsize as real
  {
    var h, v := hsize as real, vsize as real;
    var hv := tan(fov / 2.0);
    var aspect := h / v;
    DivTimes(h, v);
    AspectAtLeastOne(h, v);
    var c := MakeCamera(hsize, vsize, fov, transform, tan);
    if aspect >= 1.0 {
      DivTimes(hv, aspect);
      calc {
        c.halfHeight * h;
        (hv / aspect) * (aspect * v);
        ((hv / aspect) * aspect) * v;
        hv * v;
      }
    } else {
      calc {
        c.halfWidth * v;
        (hv * aspect) * v;
        hv * (aspect * v);
        hv * h;
      }
    }
  }

  /** Dividing by a non-zero number and multiplying back gives the number. */
  lemma DivTimes(x: real, a: real)
    requires a != 0.0
    ensures (x / a) * a == x
  {
  }

  /** A ratio of positive sides is at least one exactly when the first side is the longer. */
  lemma AspectAtLeastOne(h: real, v: real)
    requires h > 0.0 && v > 0.0
    ensures h / v >= 1.0 <==> h >= v
  {
    var a := h / v;
    DivTimes(h, v);
    if a < 1.0 {
      assert a * v < 1.0 * v;
    } else {
      assert a * v >= 1.0 * v;
    }
  }

  /** The pixel size is the whole view, 2 * halfView, over the longer side, and the canvas
      of hsize by vsize pixels covers exactly 2 * halfWidth by 2 * halfHeight. */
  lemma PixelSizeByLongerSide(hsize: nat, vsize: nat, fov: real, transform: Option<Grid>, tan: real -> real)
    requires hsize > 0 && vsize > 0
    ensures var c := MakeCamera(hsize, vsize, fov, transform, tan);
            c.pixelSize == 2.0 * tan(fov / 2.0) / Longer(hsize, vsize)
            && c.pixelSize * hsize as real == 2.0 * c.halfWidth
            && c.pixelSize * vsize as real == 2.0 * c.halfHeight
  {
    var c := MakeCamera(hsize, vsize, fov, transform, tan);
    var h, v := hsize as real, vsize as real;
    var hv := tan(fov / 2.0);
    HalfExtents(hsize, vsize, fov, transform, tan);
    assert c.pixelSize * h == 2.0 * c.halfWidth;
    ScaleOtherSide(c.pixelSize, c.halfWidth, c.halfHeight, h, v);
    if hsize >= vsize {
      assert c.pixelSize == 2.0 * hv / h;
    } else {
      assert c.pixelSize * v == 2.0 * hv;
    }
  }

  /** A pixel size that spans one side of the canvas spans the other in the same ratio. */
  lemma ScaleOtherSide(p: real, w: real, ht: real, h: real, v: real)
    requires h > 0.0 && p * h == 2.0 * w && w * v == ht * h
    ensures p * v == 2.0 * ht
  {
    calc {
      (p * v) * h;
      (p * h) * v;
      (2.0 * w) * v;
      2.0 * (w * v);
      2.0 * (ht * h);
      (2.0 * ht) * h;
    }
  }

  /** Swapping the canvas's width and height leaves the pixel size unchanged. */
  lemma PixelSizeSymmetric(hsize: nat, vsize: nat, fov: real, transform: Option<Grid>, tan: real -> real)
    requires hsize > 0 && vsize > 0
    ensures MakeCamera(hsize, vsize, fov, transform, tan).pixelSize
            == MakeCamera(vsize, hsize, fov, transform, tan).pixelSize
  {
    PixelSizeByLongerSide(hsize, vsize, fov, transform, tan);
    PixelSizeByLongerSide(vsize, hsize, fov, transform, tan);
  }

  /** The examples: 200 by 125 and 125 by 200 with a quarter-turn field of view
      (tan(fov / 2) = 1) both have pixels of size 0.01. */
  lemma PixelSizeExamples(fov: real, tan: real -> real)
    requires tan(fov / 2.0) == 1.0
    ensures MakeCamera(200, 125, fov, None, tan).pixelSize == 0.01
    ensures MakeCamera(125, 200, fov, None, tan).pixelSize == 0.01
  {
    PixelSizeByLongerSide(200, 125, fov, None, tan);
    PixelSizeByLongerSide(125, 200, fov, None, tan);
  }

  /** The canvas-plane coordinates of the centre of pixel (px, py), at z = -1. */
  function WorldX(c: Camera, px: nat): real
  {
    c.halfWidth - (px as real + 0.5) * c.pixelSize
  }

  function WorldY(c: Camera, py: nat): real
  {
    c.halfHeight - (py as real + 0.5) * c.pixelSize
  }

  /** The centre pixel of an odd-sized canvas is on the axis of view. */
  lemma CentrePixel(k: nat, m: nat, fov: real, transform: Option<Grid>, tan: real -> real)
    ensures var c := MakeCamera(2 * k + 1, 2 * m + 1, fov, transform, tan);
            WorldX(c, k) == 0.0 && WorldY(c, m) == 0.0
  {
    var c := MakeCamera(2 * k + 1, 2 * m + 1, fov, transform, tan);
    PixelSizeByLongerSide(2 * k + 1, 2 * m + 1, fov, transform, tan);
    assert (k as real + 0.5) * c.pixelSize == c.pixelSize * (2 * k + 1) as real / 2.0;
    assert (m as real + 0.5) * c.pixelSize == c.pixelSize * (2 * m + 1) as real / 2.0;
  }

  /** `rayForPixel(camera, px, py)`: the pixel's centre on the plane z = -1 and the eye at
      the origin, both taken through the inverse of the camera's transform; the direction is
      the normalised difference. A singular transform throws. */
  function RayForPixel(c: Camera, px: nat, py: nat, normalize: Tuple -> Tuple): (r: Result<Ray>)
    requires IsMatrix(c.transform, 4, 4)
    ensures r.Ok? <==> Det(c.transform) != 0.0
    ensures r.Err? ==> r.fault == NotInvertible
  {
    match Inverse(c.transform)
    case None => Err(NotInvertible)
    case Some(inv) =>
      var pixel := MulTuple(inv, Point(WorldX(c, px), WorldY(c, py), -1.0));
      var origin := MulTuple(inv, Point(0.0, 0.0, 0.0));
      Ok(Ray(origin, normalize(Sub(pixel, origin))))
  }

  /** The transform carries the ray back to the camera's own frame: its origin to the eye
      at (0, 0, 0), and the point the direction is taken towards to the pixel's centre on
      z = -1. */
  lemma RayForPixelFrame(c: Camera, px: nat, py: nat, normalize: Tuple -> Tuple)
    requires IsMatrix(c.transform, 4, 4) && Det(c.transform) != 0.0
    ensures var r := RayForPixel(c, px, py, normalize);
            r.Ok? && MulTuple(c.transform, r.value.origin) == Point(0.0, 0.0, 0.0)
            && exists pixel :: MulTuple(c.transform, pixel) == Point(WorldX(c, px), WorldY(c, py), -1.0)
                               && r.value.direction == normalize(Sub(pixel, r.value.origin))
  {
    InverseMapsBack(c.transform, Point(0.0, 0.0, 0.0));
    InverseMapsBack(c.transform, Point(WorldX(c, px), WorldY(c, py), -1.0));
  }

  /** With the identity transform the ray starts at the origin and heads for the pixel's
      centre; through the centre of a 201 by 101 canvas that is straight down -z. */
  lemma RayForPixelUntransformed(c: Camera, px: nat, py: nat, normalize: Tuple -> Tuple)
    requires c.transform == Identity()
    ensures RayForPixel(c, px, py, normalize)
            == Ok(Ray(Point(0.0, 0.0, 0.0), normalize(Vector(WorldX(c, px), WorldY(c, py), -1.0))))
  {
    MulIdentity(Identity());
    IdentityDeterminant();
    InverseUnique(Identity(), Identity());
    MulTupleIdentity(Point(0.0, 0.0, 0.0));
    MulTupleIdentity(Point(WorldX(c, px), WorldY(c, py), -1.0));
  }

  lemma RayThroughCentre(fov: real, tan: real -> real, normalize: Tuple -> Tuple)
    ensures RayForPixel(MakeCamera(201, 101, fov, None, tan), 100, 50, normalize)
            == Ok(Ray(Point(0.0, 0.0, 0.0), normalize(Vector(0.0, 0.0, -1.0))))
  {
    CentrePixel(100, 50, fov, None, tan);
    RayForPixelUntransformed(MakeCamera(201, 101, fov, None, tan), 100, 50, normalize);
  }
}
