/** shape.js together with the subclasses that keep state in it: group.js and csg.js, and
    the per-kind `localIntersect`/`localNormalAt` rules of cube.js, cylinder.js, cone.js,
    triangle.js and smooth-triangle.js. One class stands for the whole hierarchy; its `kind`
    says which subclass an object is. */
module Shapes {
  import opened Wrappers
  import opened RtMath
  import opened Tuples
  import opened Colors
  import opened Matrices
  import InverseLaws
  import opened Intersections
  import opened Rays
  import Cubes
  import Cylinders
  import Cones
  import Triangles

  /** The fields of material.js `Material()` other than `pattern`. */
  datatype Material = Material(color: Tuple, ambient: real, diffuse: real, specular: real,
                               shininess: real, reflective: real)

  const DefaultMaterial: Material := Material(White, 0.1, 0.9, 0.9, 200.0, 0.0)

  /** Which subclass of `Shape` an object is, with the data its constructor stores. */
  datatype Kind =
    | Base                                        // `new Shape()`
    | Cube
    | Cylinder
    | Cone(limits: Cones.ConeLimits)
    | Triangle(tri: Triangles.TriangleData)
    | SmoothTriangle(st: Triangles.SmoothData)
    | Group
    | Csg(operation: string)

  /** What a caller may pass to the constructor; `Object.assign` overwrites all of it. */
  datatype Props = Props(transformation: Option<Grid>, material: Option<Material>)

  /** The helpers the shapes call, passed as parameters: `Math.sqrt`, tuple.js `normalize`,
      and `checkAxis`, `isZero` and `transform`, which cube.js, triangle.js and shape.js
      import from math.js and ray.js but which neither file defines. */
  datatype Externals = Externals(sqrt: real -> real,
                                 checkAxis: (real, real) -> (real, real),
                                 isZero: real -> bool,
                                 normalize: Tuple -> Tuple,
                                 transform: (Ray, Grid) -> Ray)

  /** `normalize` keeps vectors vectors. */
  ghost predicate KeepsVectors(normalize: Tuple -> Tuple)
  {
    forall t :: IsVector(t) ==> IsVector(normalize(t))
  }

  /** `inverse(m)` on a 4x4 matrix, which throws on a zero determinant. */
  function InverseOrFail(g: Grid): (r: Result<Grid>)
    requires IsMatrix(g, 4, 4)
    ensures r.Ok? <==> Det(g) != 0.0
    ensures r.Ok? ==> IsMatrix(r.value, 4, 4) && Some(r.value) == Inverse(g)
    ensures r.Err? ==> r.fault == NotInvertible
  {
    match Inverse(g)
    case None => Err(NotInvertible)
    case Some(inv) => Ok(inv)
  }

  class Shape {
    var transformation: Grid
    var material: Material
    var parent: Shape?
    var kind: Kind
    var shapes: seq<Shape>     // the children of a Group
    var left: Shape?           // the operands of a Csg
    var right: Shape?

    /** Every constructor ends with the identity, a default material and no parent, whatever
        `props` held, because the defaults are copied over the props. */
    constructor (k: Kind, props: Props)
      ensures transformation == Identity() && material == DefaultMaterial && parent == null
      ensures kind == k && shapes == [] && left == null && right == null
    {
      transformation := Identity();
      material := DefaultMaterial;
      parent := null;
      kind := k;
      shapes := [];
      left := null;
      right := null;
    }

    /** `getTransform()`: the shape's own transformation, as the last `setTransform` left it. */
    function GetTransform(): (g: Grid)
      reads this
      ensures g == transformation
    {
      transformation
    }

    /** `setTransform(t)` replaces the transformation and nothing else. */
    method SetTransform(t: Grid)
      modifies this
      ensures transformation == t && GetTransform() == t
      ensures material == old(material) && parent == old(parent) && kind == old(kind)
      ensures shapes == old(shapes) && left == old(left) && right == old(right)
    {
      transformation := t;
    }

    /** Group `addChild(shape)`: the child's parent becomes this group and the child is
        appended to the end of `shapes`. */
    method AddChild(child: Shape)
      requires kind.Group?
      modifies this, child
      ensures child.parent == this
      ensures shapes == old(shapes) + [child] && |shapes| == |old(shapes)| + 1
      ensures transformation == old(transformation) && material == old(material)
      ensures kind == old(kind) && left == old(left) && right == old(right)
      ensures child != this ==> parent == old(parent)
      ensures child != this ==> child.transformation == old(child.transformation)
                                && child.kind == old(child.kind) && child.shapes == old(child.shapes)
    {
      child.parent := this;
      shapes := shapes + [child];
    }

    /** The local normal of each kind, at a point in object space. The default of shape.js
        (also the one Csg inherits) is the point read as a vector. A smooth triangle needs
        the hit's u and v, which `normalAt` does not pass, so reading them throws; a group
        always throws. */
    function LocalNormalAt(p: Tuple, sqrt: real -> real): (n: Result<Tuple>)
      reads this
      ensures n.Err? <==> kind.Group? || kind.SmoothTriangle?
      ensures kind.Group? ==> n == Err(IllegalOperation)
      ensures (kind.Base? || kind.Csg?) ==> n == Ok(Vector(p.x, p.y, p.z))
      ensures n.Ok? && !kind.Triangle? ==> IsVector(n.value)
    {
      match kind
      case Base => Ok(Vector(p.x, p.y, p.z))
      case Cube => Ok(Cubes.LocalNormalAt(p))
      case Cylinder => Ok(Cylinders.LocalNormalAt(p))
      case Cone(c) => Ok(Cones.LocalNormalAt(c, p, sqrt))
      case Triangle(tri) => Ok(tri.normal)
      case SmoothTriangle(_) => Err(TypeError("Cannot read property 'u' of undefined"))
      case Group => Err(IllegalOperation)
      case Csg(_) => Ok(Vector(p.x, p.y, p.z))
    }

    /** `worldToObject(p)`: the parent's conversion first, then this shape's inverse
        transformation. `anc` lists the ancestors, nearest first. */
    function WorldToObject(p: Tuple, ghost anc: seq<Shape>): (q: Result<Tuple>)
      reads this, set a | a in anc
      requires IsChain(this, anc)
      ensures q.Ok? <==> ChainInvertible(this, anc)
      ensures q.Err? ==> q.fault == NotInvertible
      decreases |anc|
    {
      var above :- if parent != null then parent.WorldToObject(p, anc[1..]) else Ok(p);
      var inv :- InverseOrFail(transformation);
      Ok(MulTuple(inv, above))
    }

    /** `normalToWorld(n)`: through the transposed inverse, w forced to 0, normalised, then
        on through the parent. */
    function NormalToWorld(n: Tuple, normalize: Tuple -> Tuple, ghost anc: seq<Shape>): (m: Result<Tuple>)
      reads this, set a | a in anc
      requires IsChain(this, anc)
      ensures m.Ok? <==> ChainInvertible(this, anc)
      ensures m.Ok? && KeepsVectors(normalize) ==> IsVector(m.value)
      decreases |anc|
    {
      var inv :- InverseOrFail(transformation);
      var normal := MulTuple(Transpose(inv, 4), n).(w := 0.0);
      var unit := normalize(normal);
      if parent != null then parent.NormalToWorld(unit, normalize, anc[1..]) else Ok(unit)
    }

    /** `normalAt(p)`: to object space, the local normal there, back to world space. */
    function NormalAt(p: Tuple, ext: Externals, ghost anc: seq<Shape>): (n: Result<Tuple>)
      reads this, set a | a in anc
      requires IsChain(this, anc)
      ensures n.Ok? ==> ChainInvertible(this, anc)
      ensures kind.Group? || kind.SmoothTriangle? ==> n.Err?
      ensures n.Ok? && KeepsVectors(ext.normalize) ==> IsVector(n.value)
    {
      var local := WorldToObject(p, anc);
      WorldToObjectRoundTrip(this, p, anc);
      var localPoint :- local;
      var localNormal :- LocalNormalAt(localPoint, ext.sqrt);
      NormalToWorld(localNormal, ext.normalize, anc)
    }

    /** `intersect(ray)`: the ray is taken into object space through the inverse
        transformation and handed to `localIntersect`; a singular transformation throws.
        `fp` and `h` are the objects below this one and the height of the tree they form. */
    function Intersect(r: Ray, ext: Externals, ghost fp: set<Shape>, ghost h: nat)
      : (xs: Result<seq<Intersection<Shape>>>)
      reads fp
      requires IsTree(this, fp, h) && ext.isZero(0.0)
      ensures Det(transformation) == 0.0 ==> xs == Err(NotInvertible)
      ensures Det(transformation) != 0.0 ==>
                xs == LocalIntersect(ext.transform(r, Inverse(transformation).value), ext, fp, h)
      decreases h, 2
    {
      var inv :- InverseOrFail(transformation);
      LocalIntersect(ext.transform(r, inv), ext, fp, h)
    }

    /** Each kind's `localIntersect`. The base Shape and Csg have none, so calling it throws
        a TypeError. A group concatenates its children's `intersect` results in order and
        sorts them by t. */
    function LocalIntersect(r: Ray, ext: Externals, ghost fp: set<Shape>, ghost h: nat)
      : (xs: Result<seq<Intersection<Shape>>>)
      reads fp
      requires IsTree(this, fp, h) && ext.isZero(0.0)
      ensures xs.Err? && !kind.Group? ==> kind.Base? || kind.Csg?
      ensures kind.Group? ==>
                (xs.Ok? <==> ChildHits(shapes, r, ext, fp, h).Ok?)
                && (xs.Ok? ==> SortedByT(xs.value)
                               && multiset(xs.value) == multiset(ChildHits(shapes, r, ext, fp, h).value))
      ensures xs.Ok? && !kind.Group? ==> AllTagged(xs.value, this)
      decreases h, 1
    {
      match kind
      case Base => Err(TypeError("this.localIntersect is not a function"))
      case Csg(_) => Err(TypeError("this.localIntersect is not a function"))
      case Cube => Ok(Cubes.LocalIntersect(this, r, ext.checkAxis))
      case Cylinder => Ok(Cylinders.LocalIntersect(this, r, ext.sqrt))
      case Cone(c) => Ok(Cones.LocalIntersect(this, c, r, ext.sqrt))
      case Triangle(tri) => Ok(Triangles.LocalIntersect(this, tri, r, ext.isZero))
      case SmoothTriangle(st) => Ok(Triangles.SmoothLocalIntersect(this, st, r, ext.isZero))
      case Group =>
        var all :- ChildHits(shapes, r, ext, fp, h);
        SortByTPermutes(all);
        Ok(SortByT(all))
    }
  }

  /** The `reduce` of group.js: every child's `intersect` result, concatenated in child
      order; the first child that throws stops it. */
  function ChildHits(children: seq<Shape>, r: Ray, ext: Externals, ghost fp: set<Shape>, ghost h: nat)
    : (xs: Result<seq<Intersection<Shape>>>)
    reads fp
    requires h > 0 && ext.isZero(0.0) && forall c :: c in children ==> IsTree(c, fp, h - 1)
    ensures children == [] ==> xs == Ok([])
    ensures xs.Ok? <==> forall c :: c in children ==> c.Intersect(r, ext, fp, h - 1).Ok?
    decreases h, 0, |children|
  {
    if children == [] then Ok([])
    else
      assert children[0] in children;
      assert forall c :: c in children[1..] ==> c in children;
      var first :- children[0].Intersect(r, ext, fp, h - 1);
      var rest :- ChildHits(children[1..], r, ext, fp, h);
      assert forall c :: c in children ==> c == children[0] || c in children[1..];
      Ok(first + rest)
  }

  /** The objects in `fp` form a tree of height at most `h` below `s`, every transformation
      is 4x4, and every group's children are in `fp`. */
  ghost predicate IsTree(s: Shape, fp: set<Shape>, h: nat)
    reads fp
    decreases h
  {
    s in fp && IsMatrix(s.transformation, 4, 4)
    && (s.kind.Group? ==>
          h > 0 && forall c :: c in s.shapes ==> c in fp && IsTree(c, fp, h - 1))
  }

  /** `anc` is the chain of `s`'s ancestors, nearest first, and every transformation on
      the way is 4x4. */
  ghost predicate IsChain(s: Shape, anc: seq<Shape>)
    reads s, set a | a in anc
    decreases |anc|
  {
    IsMatrix(s.transformation, 4, 4)
    && (anc == [] <==> s.parent == null)
    && (anc != [] ==> s.parent == anc[0] && IsChain(anc[0], anc[1..]))
  }

  /** Every transformation from `s` up to the root is invertible. */
  ghost predicate ChainInvertible(s: Shape, anc: seq<Shape>)
    reads s, set a | a in anc
    requires IsChain(s, anc)
    decreases |anc|
  {
    Det(s.transformation) != 0.0 && (s.parent != null ==> ChainInvertible(s.parent, anc[1..]))
  }

  /** The reverse direction: from `s`'s object space up to world space, applying `s`'s
      transformation and then each ancestor's. */
  ghost function ObjectToWorld(s: Shape, q: Tuple, anc: seq<Shape>): Tuple
    reads s, set a | a in anc
    requires IsChain(s, anc)
    decreases |anc|
  {
    var p := MulTuple(s.transformation, q);
    if s.parent == null then p else ObjectToWorld(s.parent, p, anc[1..])
  }

  /** `worldToObject` succeeds exactly when every transformation on the chain is invertible,
      and then undoes the chain: mapping its result back up gives the original point. */
  lemma {:induction false} WorldToObjectRoundTrip(s: Shape, p: Tuple, anc: seq<Shape>)
    requires IsChain(s, anc)
    ensures s.WorldToObject(p, anc).Ok? <==> ChainInvertible(s, anc)
    ensures s.WorldToObject(p, anc).Ok? ==> ObjectToWorld(s, s.WorldToObject(p, anc).value, anc) == p
    decreases |anc|
  {
    var above := if s.parent != null then s.parent.WorldToObject(p, anc[1..]) else Ok(p);
    if s.parent != null {
      WorldToObjectRoundTrip(s.parent, p, anc[1..]);
    }
    if above.Ok? && Det(s.transformation) != 0.0 {
      InverseLaws.InverseMapsBack(s.transformation, above.value);
    }
  }

  /** Without a parent, `worldToObject(p)` is `inverse(T)·p`. */
  lemma WorldToObjectUnparented(s: Shape, p: Tuple)
    requires IsChain(s, []) && Det(s.transformation) != 0.0
    ensures Inverse(s.transformation).Some?
    ensures s.WorldToObject(p, []) == Ok(MulTuple(Inverse(s.transformation).value, p))
  {
  }

  /** With a parent, the parent's conversion comes first. */
  lemma WorldToObjectParentFirst(s: Shape, p: Tuple, anc: seq<Shape>)
    requires IsChain(s, anc) && anc != [] && Det(s.transformation) != 0.0
    requires s.parent.WorldToObject(p, anc[1..]).Ok?
    ensures s.WorldToObject(p, anc)
            == Ok(MulTuple(Inverse(s.transformation).value, s.parent.WorldToObject(p, anc[1..]).value))
  {
  }

  /** A triangle's normal ignores the point it is asked at. */
  lemma TriangleNormalIgnoresPoint(s: Shape, p: Tuple, q: Tuple, sqrt: real -> real)
    requires s.kind.Triangle?
    ensures s.LocalNormalAt(p, sqrt) == s.LocalNormalAt(q, sqrt) == Ok(s.kind.tri.normal)
  {
  }

  /** An empty group has no intersections, whatever the ray. */
  lemma EmptyGroupMisses(g: Shape, r: Ray, ext: Externals, fp: set<Shape>, h: nat)
    requires IsTree(g, fp, h) && ext.isZero(0.0) && g.kind.Group? && g.shapes == []
    ensures g.LocalIntersect(r, ext, fp, h) == Ok([])
  {
  }

  /** The Kind a cone gets from its constructor: open, from -∞ to +∞. */
  function ConeKind(): (k: Kind)
    ensures k.Cone? && k.limits.minimum == NegInf && k.limits.maximum == PosInf && !k.limits.closed
  {
    Cone(Cones.DefaultLimits)
  }

  /** `makeCsg(operation, left, right)`: a new Csg node that stores the operation and both
      operands and becomes the parent of each. */
  method MakeCsg(operation: string, l: Shape, r: Shape) returns (c: Shape)
    modifies l, r
    ensures fresh(c) && c.kind == Csg(operation) && c.left == l && c.right == r
    ensures l.parent == c && r.parent == c
    ensures c.parent == null && c.transformation == Identity() && c.material == DefaultMaterial
    ensures c.shapes == []
    ensures l.transformation == old(l.transformation) && l.kind == old(l.kind)
    ensures r.transformation == old(r.transformation) && r.kind == old(r.kind)
  {
    c := new Shape(Csg(operation), Props(None, None));
    c.left := l;
    c.right := r;
    l.parent := c;
    r.parent := c;
  }

  /** A new group has no shapes and the identity transformation; adding a child appends it
      and makes the group its parent. */
  method GroupExample() returns (g: Shape, s: Shape)
    ensures g.kind.Group? && g.shapes == [s] && s.parent == g
    ensures g.transformation == Identity()
  {
    g := new Shape(Group, Props(None, None));
    s := new Shape(Base, Props(None, None));
    g.AddChild(s);
  }
}
