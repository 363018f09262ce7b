/** The pieces of the plain PPM ("P3") text that color-canvas.js and canvas-utils.js both
    build, each of which defines them identically: the scaling of a channel to 0..255, the
    decimal text of a number, a pixel's "r g b" text, the header, and joining with spaces. */
module Ppm {
  import opened Tuples
  import opened Colors

  const PPM_MAX_COLOR_VALUE: int := 255

  /** `Math.round`: halves go up, towards +∞. */
  function Round(x: real): (n: int)
    ensures n as real - 0.5 <= x < n as real + 0.5
  {
    (x + 0.5).Floor
  }

  /** `scaleColorToPPM(val)`: round(val * 255), then 0 for a negative result and at most 255. */
  function ScaleColorToPPM(v: real): (n: nat)
    ensures n <= PPM_MAX_COLOR_VALUE
  {
    var r := Round(v * PPM_MAX_COLOR_VALUE as real);
    if r < 0 then 0 else if r < PPM_MAX_COLOR_VALUE then r else PPM_MAX_COLOR_VALUE
  }

  /** Within the range, the scaled channel is the nearest whole number to val * 255; below
      it is 0 and above it 255. */
  lemma ScaleColorToPPMRange(v: real)
    ensures 0.0 <= v <= 1.0 ==>
              ScaleColorToPPM(v) as real - 0.5 <= v * 255.0 < ScaleColorToPPM(v) as real + 0.5
    ensures v * 255.0 < -0.5 ==> ScaleColorToPPM(v) == 0
    ensures v >= 1.0 ==> ScaleColorToPPM(v) == 255
  {
  }

  /** A brighter channel never scales to a smaller number. */
  lemma ScaleColorToPPMMonotonic(v: real, w: real)
    requires v <= w
    ensures ScaleColorToPPM(v) <= ScaleColorToPPM(w)
  {
    assert Round(v * 255.0) <= Round(w * 255.0) by {
      assert v * 255.0 + 0.5 <= w * 255.0 + 0.5;
    }
  }

  /** The examples: 1.5 gives 255, 0.5 gives 128, -0.5 gives 0, and 1, 0.8 and 0.6 give
      255, 204 and 153. */
  lemma ScaleColorToPPMExamples()
    ensures ScaleColorToPPM(1.5) == 255 && ScaleColorToPPM(0.5) == 128
    ensures ScaleColorToPPM(-0.5) == 0 && ScaleColorToPPM(0.0) == 0
    ensures ScaleColorToPPM(1.0) == 255 && ScaleColorToPPM(0.8) == 204 && ScaleColorToPPM(0.6) == 153
  {
    assert Round(127.5) == 128;
    assert Round(-127.5) == -127;
    assert Round(204.0) == 204;
    assert Round(153.0) == 153;
  }

  function DigitChar(d: nat): char
    requires d < 10
  {
    "0123456789"[d]
  }

  function DigitValue(c: char): nat
  {
    if '0' <= c <= '9' then (c - '0') as nat else 0
  }

  predicate IsDigits(s: string)
  {
    forall i :: 0 <= i < |s| ==> '0' <= s[i] <= '9'
  }

  /** The decimal text of a whole number, as template literals print it. */
  function NatToString(n: nat): (s: string)
    ensures 1 <= |s| && IsDigits(s)
    ensures n < 10 ==> |s| == 1
    ensures n < 100 ==> |s| <= 2
    ensures n < 1000 ==> |s| <= 3
  {
    if n < 10 then [DigitChar(n)] else NatToString(n / 10) + [DigitChar(n % 10)]
  }

  /** Reading decimal digits back. */
  function DigitsValue(s: string): nat
  {
    if s == [] then 0 else DigitsValue(s[..|s| - 1]) * 10 + DigitValue(s[|s| - 1])
  }

  /** The text reads back as the number it was made from. */
  lemma {:induction false} NatToStringReadsBack(n: nat)
    ensures DigitsValue(NatToString(n)) == n
  {
    var s := NatToString(n);
    if n < 10 {
      assert DigitValue(DigitChar(n)) == n;
      assert s[..0] == [];
    } else {
      NatToStringReadsBack(n / 10);
      assert s[..|s| - 1] == NatToString(n / 10);
      assert DigitValue(DigitChar(n % 10)) == n % 10;
    }
  }

  lemma NatToStringExamples()
    ensures NatToString(0) == "0" && NatToString(5) == "5"
    ensures NatToString(128) == "128" && NatToString(255) == "255"
  {
  }

  /** `Array.prototype.join(sep)`. */
  function Join(parts: seq<string>, sep: string): (s: string)
  {
    if parts == [] then ""
    else if |parts| == 1 then parts[0]
    else parts[0] + sep + Join(parts[1..], sep)
  }

  /** `colorToPPM_RGB(c)`: the three scaled channels, separated by single spaces. */
  function ColorToPPM_RGB(c: Tuple): (s: string)
    ensures ShortRuns(s)
  {
    var r := NatToString(ScaleColorToPPM(RedOf(c)));
    var g := NatToString(ScaleColorToPPM(GreenOf(c)));
    var b := NatToString(ScaleColorToPPM(BlueOf(c)));
    ShortRunsAcrossSpace(r, g);
    ShortRunsAcrossSpace(r + " " + g, b);
    r + " " + g + " " + b
  }

  /** The three numbers of `colorToPPM_RGB` are the channels' scaled values. */
  lemma ColorToPPM_RGBChannels(c: Tuple)
    ensures exists r, g, b ::
              ColorToPPM_RGB(c) == r + " " + g + " " + b
              && DigitsValue(r) == ScaleColorToPPM(RedOf(c)) && IsDigits(r)
              && DigitsValue(g) == ScaleColorToPPM(GreenOf(c)) && IsDigits(g)
              && DigitsValue(b) == ScaleColorToPPM(BlueOf(c)) && IsDigits(b)
  {
    NatToStringReadsBack(ScaleColorToPPM(RedOf(c)));
    NatToStringReadsBack(ScaleColorToPPM(GreenOf(c)));
    NatToStringReadsBack(ScaleColorToPPM(BlueOf(c)));
    var r := NatToString(ScaleColorToPPM(RedOf(c)));
    var g := NatToString(ScaleColorToPPM(GreenOf(c)));
    var b := NatToString(ScaleColorToPPM(BlueOf(c)));
    assert ColorToPPM_RGB(c) == r + " " + g + " " + b;
  }

  /** No four characters in a row are all non-spaces: every number in the text has at most
      three digits. This is what lets the wrapping of color-canvas.js always find a space. */
  predicate ShortRuns(s: string)
  {
    forall i :: 0 <= i && i + 4 <= |s| ==>
      s[i] == ' ' || s[i + 1] == ' ' || s[i + 2] == ' ' || s[i + 3] == ' '
  }

  /** Joining two such texts with a space gives another: a window that crosses the join
      holds the space. */
  lemma ShortRunsAcrossSpace(a: string, b: string)
    requires ShortRuns(a) && ShortRuns(b)
    ensures ShortRuns(a + " " + b)
  {
    var s := a + " " + b;
    forall i | 0 <= i && i + 4 <= |s|
      ensures s[i] == ' ' || s[i + 1] == ' ' || s[i + 2] == ' ' || s[i + 3] == ' '
    {
      if i + 4 <= |a| {
        assert s[i..i + 4] == a[i..i + 4];
      } else if i > |a| {
        var k := i - |a| - 1;
        assert s[i] == b[k] && s[i + 1] == b[k + 1] && s[i + 2] == b[k + 2] && s[i + 3] == b[k + 3];
      } else {
        assert s[|a|] == ' ';
      }
    }
  }

  lemma {:induction false} JoinShortRuns(parts: seq<string>)
    requires forall k :: 0 <= k < |parts| ==> ShortRuns(parts[k])
    ensures ShortRuns(Join(parts, " "))
    decreases |parts|
  {
    if |parts| > 1 {
      JoinShortRuns(parts[1..]);
      ShortRunsAcrossSpace(parts[0], Join(parts[1..], " "));
    }
  }

  /** The header "P3", "<width> <height>", "255" on three lines, the middle one the
      decimal texts of the two dimensions around a space. */
  function Header(width: nat, height: nat): (h: string)
    ensures |h| == |NatToString(width)| + |NatToString(height)| + 8
    ensures h[..3] == "P3\n" && h[|h| - 4..] == "\n255"
    ensures var lw := |NatToString(width)|;
            h[3..3 + lw] == NatToString(width) && h[3 + lw] == ' '
            && h[4 + lw..|h| - 4] == NatToString(height)
  {
    var w, ht, m := NatToString(width), NatToString(height), NatToString(PPM_MAX_COLOR_VALUE);
    MaxColorText();
    var h := "P3\n" + w + " " + ht + "\n" + m;
    h
  }

  lemma MaxColorText()
    ensures NatToString(PPM_MAX_COLOR_VALUE) == "255"
  {
    NatToStringExamples();
  }

  lemma HeaderExample()
    ensures Header(5, 3) == "P3\n5 3\n255"
  {
  }
}
