/** The transformation builders: translation, scaling and the three axis rotations, each a
    4x4 matrix literal. The rotations take the cosine and sine of their angle as parameters,
    since the trigonometric functions are not part of this model. */
module Transformations {
  import opened Wrappers
  import opened Tuples
  import opened Matrices
  import opened MatrixLaws
  import opened InverseLaws

  /** `translation(x, y, z)`. */
  function Translation(x: real, y: real, z: real): (g: Grid)
    ensures IsMatrix(g, 4, 4) && KeepsW(g)
  {
    [[1.0, 0.0, 0.0, x],
     [0.0, 1.0, 0.0, y],
     [0.0, 0.0, 1.0, z],
     [0.0, 0.0, 0.0, 1.0]]
  }

  /** `scaling(x, y, z)`. */
  function Scaling(x: real, y: real, z: real): (g: Grid)
    ensures IsMatrix(g, 4, 4) && KeepsW(g)
  {
    [[x, 0.0, 0.0, 0.0],
     [0.0, y, 0.0, 0.0],
     [0.0, 0.0, z, 0.0],
     [0.0, 0.0, 0.0, 1.0]]
  }

  /** `rotationX(r)` with `c = cos r` and `s = sin r`. */
  function RotationX(c: real, s: real): (g: Grid)
    ensures IsMatrix(g, 4, 4) && KeepsW(g)
  {
    [[1.0, 0.0, 0.0, 0.0],
     [0.0, c, -s, 0.0],
     [0.0, s, c, 0.0],
     [0.0, 0.0, 0.0, 1.0]]
  }

  /** `rotationY(r)` with `c = cos r` and `s = sin r`. */
  function RotationY(c: real, s: real): (g: Grid)
    ensures IsMatrix(g, 4, 4) && KeepsW(g)
  {
    [[c, 0.0, s, 0.0],
     [0.0, 1.0, 0.0, 0.0],
     [-s, 0.0, c, 0.0],
     [0.0, 0.0, 0.0, 1.0]]
  }

  /** `rotationZ(r)` with `c = cos r` and `s = sin r`. */
  function RotationZ(c: real, s: real): (g: Grid)
    ensures IsMatrix(g, 4, 4) && KeepsW(g)
  {
    [[c, -s, 0.0, 0.0],
     [s, c, 0.0, 0.0],
     [0.0, 0.0, 1.0, 0.0],
     [0.0, 0.0, 0.0, 1.0]]
  }

  /** The bottom row is (0, 0, 0, 1). */
  predicate KeepsW(g: Grid)
    requires IsMatrix(g, 4, 4)
  {
    g[3][0] == 0.0 && g[3][1] == 0.0 && g[3][2] == 0.0 && g[3][3] == 1.0
  }

  /** A matrix with bottom row (0, 0, 0, 1) keeps w, so it maps points to points and vectors
      to vectors. */
  lemma KeepsWMapsKinds(g: Grid, t: Tuple)
    requires IsMatrix(g, 4, 4) && KeepsW(g)
    ensures MulTuple(g, t).w == t.w
    ensures IsPoint(t) ==> IsPoint(MulTuple(g, t))
    ensures IsVector(t) ==> IsVector(MulTuple(g, t))
  {
  }

  /** A translation adds its offset to a point and leaves a vector alone. */
  lemma TranslationMoves(x: real, y: real, z: real, t: Tuple)
    ensures IsPoint(t) ==> MulTuple(Translation(x, y, z), t) == Add(t, Vector(x, y, z))
    ensures IsVector(t) ==> MulTuple(Translation(x, y, z), t) == t
  {
  }

  /** The inverse of a translation is the opposite translation. */
  lemma TranslationInverse(x: real, y: real, z: real)
    ensures Det(Translation(x, y, z)) == 1.0
    ensures Inverse(Translation(x, y, z)) == Some(Translation(-x, -y, -z))
  {
    var g := Translation(x, y, z);
    var h := Translation(-x, -y, -z);
    CofactorsOf4(g);
    forall i, j | 0 <= i < 4 && 0 <= j < 4 ensures Mul(g, h)[i][j] == Identity()[i][j] {
      Mul4Entry(g, h, i, j);
    }
    GridExtensionality(Mul(g, h), Identity(), 4, 4);
    InverseUnique(g, h);
  }

  /** The inverse of a translation moves a point back by the offset. */
  lemma TranslationInverseMovesBack(x: real, y: real, z: real, p: Tuple)
    requires IsPoint(p)
    ensures Inverse(Translation(x, y, z)).Some?
    ensures MulTuple(Inverse(Translation(x, y, z)).value, p) == Add(p, Vector(-x, -y, -z))
  {
    TranslationInverse(x, y, z);
    TranslationMoves(-x, -y, -z, p);
  }

  /** The translation examples: (5, -3, 2) moves point (-3, 4, 5) to (2, 1, 7), its inverse
      moves it to (-8, 7, 3), and the vector (-3, 4, 5) is not moved. */
  lemma TranslationExamples()
    ensures MulTuple(Translation(5.0, -3.0, 2.0), Point(-3.0, 4.0, 5.0)) == Point(2.0, 1.0, 7.0)
    ensures Inverse(Translation(5.0, -3.0, 2.0)).Some?
    ensures MulTuple(Inverse(Translation(5.0, -3.0, 2.0)).value, Point(-3.0, 4.0, 5.0)) == Point(-8.0, 7.0, 3.0)
    ensures MulTuple(Translation(5.0, -3.0, 2.0), Vector(-3.0, 4.0, 5.0)) == Vector(-3.0, 4.0, 5.0)
  {
    TranslationInverseMovesBack(5.0, -3.0, 2.0, Point(-3.0, 4.0, 5.0));
  }

  /** Scaling multiplies x, y and z by the factors and keeps w. */
  lemma ScalingScales(x: real, y: real, z: real, t: Tuple)
    ensures MulTuple(Scaling(x, y, z), t) == Tuple(x * t.x, y * t.y, z * t.z, t.w)
  {
  }

  /** A scaling is invertible exactly when no factor is 0, and its inverse is then the
      scaling by the reciprocals. */
  lemma ScalingInverse(x: real, y: real, z: real)
    ensures Det(Scaling(x, y, z)) == x * y * z
    ensures Inverse(Scaling(x, y, z)).Some? <==> x != 0.0 && y != 0.0 && z != 0.0
    ensures x != 0.0 && y != 0.0 && z != 0.0 ==>
              Inverse(Scaling(x, y, z)) == Some(Scaling(1.0 / x, 1.0 / y, 1.0 / z))
  {
    var g := Scaling(x, y, z);
    CofactorsOf4(g);
    Inverse4Inverts(g);
    assert Det(g) == x * y * z;
    if x != 0.0 && y != 0.0 && z != 0.0 {
      var h := Scaling(1.0 / x, 1.0 / y, 1.0 / z);
      forall i, j | 0 <= i < 4 && 0 <= j < 4 ensures Mul(g, h)[i][j] == Identity()[i][j] {
        Mul4Entry(g, h, i, j);
      }
      GridExtensionality(Mul(g, h), Identity(), 4, 4);
      InverseUnique(g, h);
    }
  }

  /** The scaling examples: (2, 3, 4) takes (-4, 6, 8) to (-8, 18, 32) for points and
      vectors, and scaling by (-1, 1, 1) mirrors x. */
  lemma ScalingExamples()
    ensures MulTuple(Scaling(2.0, 3.0, 4.0), Point(-4.0, 6.0, 8.0)) == Point(-8.0, 18.0, 32.0)
    ensures MulTuple(Scaling(2.0, 3.0, 4.0), Vector(-4.0, 6.0, 8.0)) == Vector(-8.0, 18.0, 32.0)
    ensures MulTuple(Scaling(-1.0, 1.0, 1.0), Point(2.0, 3.0, 4.0)) == Point(-2.0, 3.0, 4.0)
  {
    ScalingScales(2.0, 3.0, 4.0, Point(-4.0, 6.0, 8.0));
    ScalingScales(2.0, 3.0, 4.0, Vector(-4.0, 6.0, 8.0));
    ScalingScales(-1.0, 1.0, 1.0, Point(2.0, 3.0, 4.0));
  }

  /** The inverse of the scaling by (2, 3, 4) takes the vector (-4, 6, 8) to (-2, 2, 2). */
  lemma ScalingInverseExample()
    ensures Inverse(Scaling(2.0, 3.0, 4.0)).Some?
    ensures MulTuple(Inverse(Scaling(2.0, 3.0, 4.0)).value, Vector(-4.0, 6.0, 8.0)) == Vector(-2.0, 2.0, 2.0)
  {
    ScalingInverse(2.0, 3.0, 4.0);
    var h := Scaling(1.0 / 2.0, 1.0 / 3.0, 1.0 / 4.0);
    assert Inverse(Scaling(2.0, 3.0, 4.0)).value == h;
    ScalingScales(1.0 / 2.0, 1.0 / 3.0, 1.0 / 4.0, Vector(-4.0, 6.0, 8.0));
  }

  /** Scaling by -1 along x mirrors the x component and nothing else. */
  lemma ReflectionIsScaling(t: Tuple)
    ensures MulTuple(Scaling(-1.0, 1.0, 1.0), t) == Tuple(-t.x, t.y, t.z, t.w)
  {
  }

  /** The rotation about x keeps x and w and turns (y, z) by (c, s). */
  lemma RotationXTurns(c: real, s: real, t: Tuple)
    ensures MulTuple(RotationX(c, s), t) == Tuple(t.x, c * t.y - s * t.z, s * t.y + c * t.z, t.w)
  {
  }

  /** The rotation about y keeps y and w and turns (z, x) by (c, s). */
  lemma RotationYTurns(c: real, s: real, t: Tuple)
    ensures MulTuple(RotationY(c, s), t) == Tuple(c * t.x + s * t.z, t.y, -s * t.x + c * t.z, t.w)
  {
  }

  /** The rotation about z keeps z and w and turns (x, y) by (c, s). */
  lemma RotationZTurns(c: real, s: real, t: Tuple)
    ensures MulTuple(RotationZ(c, s), t) == Tuple(c * t.x - s * t.y, s * t.x + c * t.y, t.z, t.w)
  {
  }

  /** For a proper angle (c² + s² = 1) the inverse of a rotation about x is the rotation by
      the opposite angle. */
  lemma RotationXInverse(c: real, s: real)
    requires c * c + s * s == 1.0
    ensures Inverse(RotationX(c, s)) == Some(RotationX(c, -s))
  {
    var g := RotationX(c, s);
    var h := RotationX(c, -s);
    CofactorsOf4(g);
    assert Det(g) == c * c + s * s;
    forall i, j | 0 <= i < 4 && 0 <= j < 4 ensures Mul(g, h)[i][j] == Identity()[i][j] {
      Mul4Entry(g, h, i, j);
    }
    GridExtensionality(Mul(g, h), Identity(), 4, 4);
    InverseUnique(g, h);
  }

  /** For a proper angle the inverse of a rotation about y is the rotation by the opposite
      angle. */
  lemma RotationYInverse(c: real, s: real)
    requires c * c + s * s == 1.0
    ensures Inverse(RotationY(c, s)) == Some(RotationY(c, -s))
  {
    var g := RotationY(c, s);
    var h := RotationY(c, -s);
    CofactorsOf4(g);
    assert Det(g) == c * c + s * s;
    forall i, j | 0 <= i < 4 && 0 <= j < 4 ensures Mul(g, h)[i][j] == Identity()[i][j] {
      Mul4Entry(g, h, i, j);
    }
    GridExtensionality(Mul(g, h), Identity(), 4, 4);
    InverseUnique(g, h);
  }

  /** For a proper angle the inverse of a rotation about z is the rotation by the opposite
      angle. */
  lemma RotationZInverse(c: real, s: real)
    requires c * c + s * s == 1.0
    ensures Inverse(RotationZ(c, s)) == Some(RotationZ(c, -s))
  {
    var g := RotationZ(c, s);
    var h := RotationZ(c, -s);
    CofactorsOf4(g);
    assert Det(g) == c * c + s * s;
    forall i, j | 0 <= i < 4 && 0 <= j < 4 ensures Mul(g, h)[i][j] == Identity()[i][j] {
      Mul4Entry(g, h, i, j);
    }
    GridExtensionality(Mul(g, h), Identity(), 4, 4);
    InverseUnique(g, h);
  }
}
