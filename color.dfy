/** Colours of color.js: a colour is a point whose x, y, z are its red, green and blue. */
module Colors {
  import opened Tuples

  function Color(r: real, g: real, b: real): (c: Tuple)
    ensures IsPoint(c) && RedOf(c) == r && GreenOf(c) == g && BlueOf(c) == b
  {
    Point(r, g, b)
  }

  function RedOf(c: Tuple): real { c.x }
  function GreenOf(c: Tuple): real { c.y }
  function BlueOf(c: Tuple): real { c.z }

  const Black: Tuple := Color(0.0, 0.0, 0.0)
  const Red: Tuple := Color(1.0, 0.0, 0.0)
  const Green: Tuple := Color(0.0, 1.0, 0.0)
  const Blue: Tuple := Color(0.0, 0.0, 1.0)
  const White: Tuple := Color(1.0, 1.0, 1.0)

  function FromPoint(p: Tuple): Tuple
  {
    Color(p.x, p.y, p.z)
  }

  /** A colour whose channels, less those of `c2`, are those of `c1`. */
  function AddColor(c1: Tuple, c2: Tuple): (c: Tuple)
    ensures IsPoint(c) && SubtractColor(c, c2) == FromPoint(c1)
  {
    var c := Add(c1, c2);
    Color(c.x, c.y, c.z)
  }

  /** A colour that is black exactly when the two colours have the same channels. */
  function SubtractColor(c1: Tuple, c2: Tuple): (c: Tuple)
    ensures IsPoint(c) && (c == Black <==> FromPoint(c1) == FromPoint(c2))
  {
    var c := Sub(c1, c2);
    Color(c.x, c.y, c.z)
  }

  /** A colour: 1 keeps the channels, 0 gives black. */
  function MultiplyByScalar(c1: Tuple, s: real): (c: Tuple)
    ensures IsPoint(c)
    ensures s == 1.0 ==> c == FromPoint(c1)
    ensures s == 0.0 ==> c == Black
  {
    var c := Multiply(c1, s);
    Color(c.x, c.y, c.z)
  }

  /** A colour: white keeps the channels of `c1`, black absorbs. */
  function MultiplyColor(c1: Tuple, c2: Tuple): (c: Tuple)
    ensures IsPoint(c)
    ensures IsPoint(c2) && FromPoint(c2) == White ==> c == FromPoint(c1)
    ensures IsPoint(c2) && FromPoint(c2) == Black ==> c == Black
  {
    Color(RedOf(c1) * RedOf(c2), GreenOf(c1) * GreenOf(c2), BlueOf(c1) * BlueOf(c2))
  }

  /** Addition and subtraction work channel by channel and always give w = 1, even though
      adding two points' w gives 2. */
  lemma AddSubtractChannels(c1: Tuple, c2: Tuple)
    ensures AddColor(c1, c2) == Color(c1.x + c2.x, c1.y + c2.y, c1.z + c2.z)
    ensures SubtractColor(c1, c2) == Color(c1.x - c2.x, c1.y - c2.y, c1.z - c2.z)
    ensures IsPoint(c1) && IsPoint(c2) ==> Add(c1, c2).w == 2.0 && AddColor(c1, c2).w == 1.0
  {
  }

  /** Subtracting what was added restores the colour channels. */
  lemma SubtractUndoesAdd(c1: Tuple, c2: Tuple)
    ensures SubtractColor(AddColor(c1, c2), c2) == FromPoint(c1)
  {
  }

  /** Scaling rebuilds through `Color`, so w is reset to 1 whatever the factor. */
  lemma ScalarResetsW(c: Tuple, s: real)
    ensures MultiplyByScalar(c, s) == Color(c.x * s, c.y * s, c.z * s)
    ensures MultiplyByScalar(c, 0.0) == Black
  {
  }

  /** The Hadamard product commutes, White is its unit and Black absorbs. */
  lemma MultiplyColorLaws(c1: Tuple, c2: Tuple)
    ensures MultiplyColor(c1, c2) == MultiplyColor(c2, c1)
    ensures MultiplyColor(c1, White) == FromPoint(c1)
    ensures MultiplyColor(c1, Black) == Black
  {
  }

  lemma ConstantChannels()
    ensures Black == Point(0.0, 0.0, 0.0) && White == Point(1.0, 1.0, 1.0)
    ensures RedOf(Red) == 1.0 && GreenOf(Green) == 1.0 && BlueOf(Blue) == 1.0
    ensures GreenOf(Red) == 0.0 && BlueOf(Red) == 0.0
  {
  }
}
