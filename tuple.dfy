/** The four-component tuples of tuple.js: points have w = 1, vectors w = 0. */
module Tuples {
  import opened RtMath

  datatype Tuple = Tuple(x: real, y: real, z: real, w: real)

  function Point(x: real, y: real, z: real): (p: Tuple)
    ensures IsPoint(p) && p.x == x && p.y == y && p.z == z
  {
    Tuple(x, y, z, 1.0)
  }

  function Vector(x: real, y: real, z: real): (v: Tuple)
    ensures IsVector(v) && v.x == x && v.y == y && v.z == z
  {
    Tuple(x, y, z, 0.0)
  }

  predicate IsPoint(t: Tuple) { t.w == 1.0 }

  predicate IsVector(t: Tuple) { t.w == 0.0 }

  /** Componentwise sum: a point moved by a vector stays a point, and two vectors add up
      to a vector. */
  function Add(a: Tuple, b: Tuple): (r: Tuple)
    ensures IsPoint(a) && IsVector(b) ==> IsPoint(r)
    ensures IsVector(a) && IsPoint(b) ==> IsPoint(r)
    ensures IsVector(a) && IsVector(b) ==> IsVector(r)
  {
    Tuple(a.x + b.x, a.y + b.y, a.z + b.z, a.w + b.w)
  }

  /** Componentwise difference: zero for equal tuples; two points give a vector,
      a point minus a vector a point. */
  function Sub(a: Tuple, b: Tuple): (r: Tuple)
    ensures a == b ==> r == Tuple(0.0, 0.0, 0.0, 0.0)
    ensures IsPoint(a) && IsPoint(b) ==> IsVector(r)
    ensures IsPoint(a) && IsVector(b) ==> IsPoint(r)
  {
    Tuple(a.x - b.x, a.y - b.y, a.z - b.z, a.w - b.w)
  }

  /** x, y and z within EPSILON, w exactly. */
  predicate Equals(a: Tuple, b: Tuple): (eq: bool)
    ensures a == b ==> eq
    ensures eq ==> (IsPoint(a) <==> IsPoint(b)) && (IsVector(a) <==> IsVector(b))
  {
    FloatIsEqual(a.x, b.x) && FloatIsEqual(a.y, b.y) && FloatIsEqual(a.z, b.z) && a.w == b.w
  }

  /** The opposite tuple, w included: adding it to `t` gives zero. */
  function Negate(t: Tuple): (r: Tuple)
    ensures Add(t, r) == Tuple(0.0, 0.0, 0.0, 0.0)
    ensures IsVector(t) ==> IsVector(r)
    ensures IsPoint(t) ==> r.w == -1.0
  {
    Tuple(-t.x, -t.y, -t.z, -t.w)
  }

  /** Scaling all four components, w too: vectors stay vectors, while a point's w becomes
      the factor. */
  function Multiply(t: Tuple, s: real): (r: Tuple)
    ensures IsVector(t) ==> IsVector(r)
    ensures IsPoint(t) ==> r.w == s
  {
    Tuple(t.x * s, t.y * s, t.z * s, t.w * s)
  }

  /** Division by a non-zero scalar, undone by multiplying by it. */
  function Divide(t: Tuple, s: real): (r: Tuple)
    requires s != 0.0
    ensures Multiply(r, s) == t
    ensures IsVector(t) ==> IsVector(r)
  {
    ScaleBack(t.x, s);
    ScaleBack(t.y, s);
    ScaleBack(t.z, s);
    ScaleBack(t.w, s);
    Multiply(t, 1.0 / s)
  }

  /** The four-component dot product; the zero tuple is orthogonal to every tuple. */
  function Dot(a: Tuple, b: Tuple): (r: real)
    ensures a == Tuple(0.0, 0.0, 0.0, 0.0) || b == Tuple(0.0, 0.0, 0.0, 0.0) ==> r == 0.0
  {
    a.x * b.x + a.y * b.y + a.z * b.z + a.w * b.w
  }

  /** The cross product: a vector orthogonal to both operands. */
  function Cross(a: Tuple, b: Tuple): (r: Tuple)
    ensures IsVector(r) && Dot(r, a) == 0.0 && Dot(r, b) == 0.0
  {
    Vector(a.y * b.z - a.z * b.y, a.z * b.x - a.x * b.z, a.x * b.y - a.y * b.x)
  }

  /** `v - normal * 2 * (v . normal)` */
  function Reflect(v: Tuple, normal: Tuple): (r: Tuple)
    ensures Dot(v, normal) == 0.0 ==> r == v
    ensures IsVector(v) && IsVector(normal) ==> IsVector(r)
  {
    Sub(v, Multiply(Multiply(normal, 2.0), Dot(v, normal)))
  }

  lemma PointPlusVector(p: Tuple, v: Tuple)
    requires IsPoint(p) && IsVector(v)
    ensures Add(p, v) == Point(p.x + v.x, p.y + v.y, p.z + v.z)
    ensures Add(v, p) == Point(p.x + v.x, p.y + v.y, p.z + v.z)
  {
  }

  lemma VectorPlusVector(u: Tuple, v: Tuple)
    requires IsVector(u) && IsVector(v)
    ensures Add(u, v) == Vector(u.x + v.x, u.y + v.y, u.z + v.z)
  {
  }

  lemma PointMinusPoint(p: Tuple, q: Tuple)
    requires IsPoint(p) && IsPoint(q)
    ensures Sub(p, q) == Vector(p.x - q.x, p.y - q.y, p.z - q.z)
  {
  }

  lemma PointMinusVector(p: Tuple, v: Tuple)
    requires IsPoint(p) && IsVector(v)
    ensures Sub(p, v) == Point(p.x - v.x, p.y - v.y, p.z - v.z)
  {
  }

  /** Subtraction undoes addition, so `sub` and `add` are inverse to each other. */
  lemma SubUndoesAdd(a: Tuple, b: Tuple)
    ensures Sub(Add(a, b), b) == a && Add(Sub(a, b), b) == a
  {
  }

  /** Negation flips all four components, w included, and is an involution. */
  lemma NegateFlipsAll(t: Tuple)
    ensures Negate(t) == Multiply(t, -1.0)
    ensures Negate(Negate(t)) == t
    ensures Add(t, Negate(t)) == Tuple(0.0, 0.0, 0.0, 0.0)
    ensures IsPoint(t) ==> Negate(t).w == -1.0
  {
  }

  /** Dividing by a non-zero scalar is undone by multiplying by it. */
  lemma DivideThenMultiply(t: Tuple, s: real)
    requires s != 0.0
    ensures Multiply(Divide(t, s), s) == t
    ensures Divide(Multiply(t, s), s) == t
  {
    ScaleBack(t.x, s);
    ScaleBack(t.y, s);
    ScaleBack(t.z, s);
    ScaleBack(t.w, s);
  }

  /** Scaling by s and by 1/s, in either order, gives x back. */
  lemma ScaleBack(x: real, s: real)
    requires s != 0.0
    ensures (x * (1.0 / s)) * s == x && (x * s) * (1.0 / s) == x
  {
    assert (1.0 / s) * s == 1.0;
  }

  lemma EqualsIsEquivalenceLike(a: Tuple, b: Tuple)
    ensures Equals(a, a)
    ensures Equals(a, b) == Equals(b, a)
    ensures Equals(a, b) ==> (IsPoint(a) <==> IsPoint(b))
  {
  }

  lemma DotCommutes(a: Tuple, b: Tuple)
    ensures Dot(a, b) == Dot(b, a)
    ensures Dot(a, a) >= 0.0
  {
  }

  /** The cross product is a vector orthogonal to both operands and anti-commutative. */
  lemma CrossProperties(a: Tuple, b: Tuple)
    ensures IsVector(Cross(a, b))
    ensures Cross(b, a) == Negate(Cross(a, b))
    ensures Dot(Cross(a, b), a) == 0.0 && Dot(Cross(a, b), b) == 0.0
  {
  }

  /** Reflection keeps a vector parallel to the surface unchanged. */
  lemma ReflectParallel(v: Tuple, n: Tuple)
    requires Dot(v, n) == 0.0
    ensures Reflect(v, n) == v
  {
  }

  /** Reflection flips the normal component of `v`. */
  lemma ReflectFlipsNormalPart(v: Tuple, n: Tuple)
    requires Dot(n, n) == 1.0
    ensures Dot(Reflect(v, n), n) == -Dot(v, n)
  {
    var d := Dot(v, n);
    calc {
      Dot(Reflect(v, n), n);
      Dot(v, n) - 2.0 * d * Dot(n, n);
      d - 2.0 * d;
    }
  }

  /** About a unit normal, reflecting twice gives the original vector back. */
  lemma {:induction false} ReflectInvolution(v: Tuple, n: Tuple)
    requires Dot(n, n) == 1.0
    ensures Reflect(Reflect(v, n), n) == v
  {
    ReflectFlipsNormalPart(v, n);
    ReflectUndone(v, n);
  }

  /** When reflecting flips the normal component, a second reflection undoes the first. */
  lemma ReflectUndone(v: Tuple, n: Tuple)
    requires Dot(Reflect(v, n), n) == -Dot(v, n)
    ensures Reflect(Reflect(v, n), n) == v
  {
    var d := Dot(v, n);
    var r := Reflect(v, n);
    ReflectBy(v, n, d);
    assert Dot(r, n) == -d;
    ReflectBy(r, n, -d);
    StepBack(v, r, Reflect(r, n), n, d);
  }

  /** Subtracting 2k times n and then -2k times n leaves v unchanged. */
  lemma StepBack(v: Tuple, r: Tuple, s: Tuple, n: Tuple, k: real)
    requires r == Tuple(v.x - n.x * 2.0 * k, v.y - n.y * 2.0 * k, v.z - n.z * 2.0 * k, v.w - n.w * 2.0 * k)
    requires s == Tuple(r.x - n.x * 2.0 * -k, r.y - n.y * 2.0 * -k, r.z - n.z * 2.0 * -k, r.w - n.w * 2.0 * -k)
    ensures s == v
  {
    SubtractThenAdd(v.x, n.x * 2.0, k);
    SubtractThenAdd(v.y, n.y * 2.0, k);
    SubtractThenAdd(v.z, n.z * 2.0, k);
    SubtractThenAdd(v.w, n.w * 2.0, k);
  }

  lemma SubtractThenAdd(a: real, m: real, k: real)
    ensures (a - m * k) - m * -k == a
  {
  }

  /** Reflecting v whose normal component is k subtracts 2k times the normal. */
  lemma ReflectBy(v: Tuple, n: Tuple, k: real)
    requires Dot(v, n) == k
    ensures Reflect(v, n)
         == Tuple(v.x - n.x * 2.0 * k, v.y - n.y * 2.0 * k, v.z - n.z * 2.0 * k, v.w - n.w * 2.0 * k)
  {
    var m := Multiply(n, 2.0);
    assert m == Tuple(n.x * 2.0, n.y * 2.0, n.z * 2.0, n.w * 2.0);
    assert Multiply(m, k) == Tuple(n.x * 2.0 * k, n.y * 2.0 * k, n.z * 2.0 * k, n.w * 2.0 * k);
  }
}
