/** Scalar helpers of math.js, and the extended reals that JavaScript's infinities need. */
module RtMath {

  /** The tolerance of every approximate comparison. */
  const EPSILON: real := 0.00001

  function Abs(x: real): (r: real)
    ensures r >= 0.0 && (r == x || r == -x)
  {
    if x < 0.0 then -x else x
  }

  function Max(a: real, b: real): (r: real)
    ensures r >= a && r >= b && (r == a || r == b)
  {
    if a >= b then a else b
  }

  function Min(a: real, b: real): (r: real)
    ensures r <= a && r <= b && (r == a || r == b)
  {
    if a <= b then a else b
  }

  /** Two numbers are "equal" when they lie strictly less than EPSILON apart. */
  predicate FloatIsEqual(f1: real, f2: real): (eq: bool)
    ensures eq <==> f2 - EPSILON < f1 < f2 + EPSILON
    ensures eq <==> f1 - EPSILON < f2 < f1 + EPSILON
  {
    Abs(f1 - f2) < EPSILON
  }

  lemma FloatIsEqualInterval(f1: real, f2: real)
    ensures FloatIsEqual(f1, f2) <==> f2 - EPSILON < f1 < f2 + EPSILON
  {
  }

  lemma FloatIsEqualReflexive(f: real)
    ensures FloatIsEqual(f, f)
  {
  }

  lemma FloatIsEqualSymmetric(f1: real, f2: real)
    ensures FloatIsEqual(f1, f2) == FloatIsEqual(f2, f1)
  {
  }

  /** The comparison is strict: numbers exactly EPSILON apart are different. */
  lemma FloatIsEqualStrict(f: real)
    ensures !FloatIsEqual(f, f + EPSILON) && !FloatIsEqual(f + EPSILON, f)
  {
  }

  /** `d / 180 * Math.PI`, with pi given by the caller. */
  function DegreesToRadians(d: real, pi: real): (r: real)
    ensures d == 0.0 ==> r == 0.0
    ensures d == 180.0 ==> r == pi
    ensures d == 90.0 ==> r == pi / 2.0
    ensures pi > 0.0 ==> (r > 0.0 <==> d > 0.0)
  {
    d / 180.0 * pi
  }

  lemma DegreesToRadiansLinear(d1: real, d2: real, k: real, pi: real)
    ensures DegreesToRadians(d1 + d2, pi) == DegreesToRadians(d1, pi) + DegreesToRadians(d2, pi)
    ensures DegreesToRadians(k * d1, pi) == k * DegreesToRadians(d1, pi)
    ensures DegreesToRadians(180.0, pi) == pi
  {
  }

  /** A JavaScript number that may be one of the infinities (cone limits). */
  datatype ExtReal = NegInf | Fin(v: real) | PosInf

  /** `a < y` for an extended `a`. */
  predicate LessThan(a: ExtReal, y: real)
  {
    match a
    case NegInf => true
    case Fin(v) => v < y
    case PosInf => false
  }

  /** `y < a` for an extended `a`. */
  predicate GreaterThan(a: ExtReal, y: real)
  {
    match a
    case NegInf => false
    case Fin(v) => y < v
    case PosInf => true
  }

  /** `a <= y` for an extended `a`. */
  predicate AtMost(a: ExtReal, y: real)
  {
    !GreaterThan(a, y)
  }

  /** `y <= a` for an extended `a`. */
  predicate AtLeast(a: ExtReal, y: real)
  {
    !LessThan(a, y)
  }

  /** `-a`. */
  function ExtNeg(a: ExtReal): ExtReal
  {
    match a
    case NegInf => PosInf
    case Fin(v) => Fin(-v)
    case PosInf => NegInf
  }

  /** `Math.abs(a)`. */
  function ExtAbs(a: ExtReal): (r: ExtReal)
    ensures r.Fin? <==> a.Fin?
    ensures r.Fin? ==> r.v == Abs(a.v)
    ensures !r.NegInf?
  {
    match a
    case Fin(v) => Fin(Abs(v))
    case _ => PosInf
  }

  /** `Math.max(a, b)`. */
  function ExtMax(a: ExtReal, b: ExtReal): (r: ExtReal)
    ensures r == a || r == b
    ensures forall y :: AtMost(a, y) && AtMost(b, y) <==> AtMost(r, y)
  {
    match (a, b)
    case (PosInf, _) => PosInf
    case (_, PosInf) => PosInf
    case (NegInf, _) => b
    case (_, NegInf) => a
    case (Fin(x), Fin(y)) => Fin(Max(x, y))
  }

  /** What the model assumes of `Math.sqrt`: on non-negative arguments it gives the
      non-negative square root. */
  ghost predicate IsSqrt(sqrt: real -> real)
  {
    forall x :: x >= 0.0 ==> sqrt(x) >= 0.0 && sqrt(x) * sqrt(x) == x
  }
}
