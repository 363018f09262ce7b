/** color-canvas.js: a width by height buffer of colours stored row after row, its
    bounds-checked pixel access, and its plain PPM text with body lines wrapped at a space so
    that none is longer than 70 characters. */
module ColorCanvases {
  import opened Wrappers
  import opened Tuples
  import opened Ppm

  const LINE_LIMIT: int := 70

  /** Every pixel's "r g b" text, in buffer order: `data.map(colorToPPM_RGB)`. */
  function RgbValues(d: seq<Tuple>): (rgb: seq<string>)
    ensures |rgb| == |d| && forall k :: 0 <= k < |rgb| ==> rgb[k] == ColorToPPM_RGB(d[k])
  {
    seq(|d|, k requires 0 <= k < |d| => ColorToPPM_RGB(d[k]))
  }

  /** The space at which `findSafeLineEnd` cuts a line longer than 70: the last one at or
      before index 70. Numbers have at most three digits, so it is one of 67..70. */
  function SafeLineEnd(line: string): (i: int)
    requires |line| > LINE_LIMIT && ShortRuns(line)
    ensures LINE_LIMIT - 3 <= i <= LINE_LIMIT && line[i] == ' '
    ensures forall j :: i < j <= LINE_LIMIT ==> line[j] != ' '
  {
    assert line[67] == ' ' || line[68] == ' ' || line[69] == ' ' || line[70] == ' ';
    if line[70] == ' ' then 70
    else if line[69] == ' ' then 69
    else if line[68] == ' ' then 68
    else 67
  }

  /** `findSafeLineEnd(line)`: counts down from 70 to the first space. */
  method FindSafeLineEnd(line: string) returns (index: int)
    requires |line| > LINE_LIMIT && ShortRuns(line)
    ensures index == SafeLineEnd(line)
  {
    index := LINE_LIMIT;
    while line[index] != ' '
      invariant LINE_LIMIT - 3 <= index <= LINE_LIMIT
      invariant forall j :: index < j <= LINE_LIMIT ==> line[j] != ' '
      decreases index
    {
      index := index - 1;
    }
  }

  lemma ShortRunsSuffix(s: string, k: nat)
    requires ShortRuns(s) && k <= |s|
    ensures ShortRuns(s[k..])
  {
    forall i | 0 <= i && i + 4 <= |s[k..]|
      ensures s[k..][i] == ' ' || s[k..][i + 1] == ' ' || s[k..][i + 2] == ' ' || s[k..][i + 3] == ' '
    {
      assert s[k..][i] == s[k + i];
    }
  }

  /** The pieces the `while (line.length > 70)` loop cuts a row's line into: each at most 70
      characters, and put back together with the dropped spaces they are the line again. */
  function Wrap(line: string): (pieces: seq<string>)
    requires ShortRuns(line)
    ensures |pieces| >= 1
    ensures forall k :: 0 <= k < |pieces| ==> |pieces[k]| <= LINE_LIMIT
    ensures Join(pieces, " ") == line
    decreases |line|
  {
    if |line| <= LINE_LIMIT then [line]
    else
      var i := SafeLineEnd(line);
      ShortRunsSuffix(line, i + 1);
      var rest := Wrap(line[i + 1..]);
      JoinCons(line, i, rest);
      [line[..i]] + rest
  }

  /** Cutting the line at the space at index i: its head joined with the pieces of what
      follows the space is the line again. */
  lemma JoinCons(line: string, i: nat, rest: seq<string>)
    requires i < |line| && line[i] == ' ' && rest != [] && Join(rest, " ") == line[i + 1..]
    ensures Join([line[..i]] + rest, " ") == line
  {
    assert ([line[..i]] + rest)[1..] == rest;
    assert line == line[..i] + " " + line[i + 1..];
  }

  /** One step of the wrap: a long line's text is its first piece, a newline, and the text
      of the wrap of what follows the space it was cut at. */
  lemma WrapStep(line: string)
    requires |line| > LINE_LIMIT && ShortRuns(line)
    ensures var i := SafeLineEnd(line);
            ShortRuns(line[i + 1..])
            && Lines(Wrap(line)) == line[..i] + "\n" + Lines(Wrap(line[i + 1..]))
  {
    var i := SafeLineEnd(line);
    ShortRunsSuffix(line, i + 1);
    var w := Wrap(line);
    assert w == [line[..i]] + Wrap(line[i + 1..]);
    assert w[1..] == Wrap(line[i + 1..]);
  }

  /** The same step with text already written in front. */
  lemma AppendWrapStep(out: string, line: string)
    requires |line| > LINE_LIMIT && ShortRuns(line)
    ensures var i := SafeLineEnd(line);
            ShortRuns(line[i + 1..])
            && (out + line[..i] + "\n") + Lines(Wrap(line[i + 1..])) == out + Lines(Wrap(line))
  {
    WrapStep(line);
    var i := SafeLineEnd(line);
    LineBreakAssoc(out, line[..i], Lines(Wrap(line[i + 1..])));
  }

  lemma LineBreakAssoc(out: string, first: string, rest: string)
    ensures (out + first + "\n") + rest == out + (first + "\n" + rest)
  {
  }

  /** The text of lines each followed by "\n". */
  function Lines(pieces: seq<string>): string
  {
    if pieces == [] then "" else pieces[0] + "\n" + Lines(pieces[1..])
  }

  lemma {:induction false} LinesAppend(a: seq<string>, b: seq<string>)
    ensures Lines(a + b) == Lines(a) + Lines(b)
  {
    if a != [] {
      assert (a + b)[1..] == a[1..] + b;
      LinesAppend(a[1..], b);
    } else {
      assert a + b == b;
    }
  }

  /** Index bounds of the row-major buffer. */
  lemma RowBounds(j: int, i: int, width: nat, height: nat)
    requires 0 <= j <= width && 0 <= i < height
    ensures 0 <= width * i && width * i + j <= width * i + width <= width * height
  {
    assert width * i + width == width * (i + 1);
    assert width * (i + 1) <= width * height;
  }

  /** Row i's pixel texts joined with single spaces. */
  function RowLine(rgb: seq<string>, width: nat, i: nat): (line: string)
    requires width * i + width <= |rgb|
    requires forall k :: 0 <= k < |rgb| ==> ShortRuns(rgb[k])
    ensures ShortRuns(line)
  {
    var row := rgb[width * i .. width * i + width];
    JoinShortRuns(row);
    Join(row, " ")
  }

  /** The body lines of the first `rows` rows: each row's line, wrapped. */
  function BodyLines(rgb: seq<string>, width: nat, rows: nat): (lines: seq<string>)
    requires width * rows <= |rgb|
    requires forall k :: 0 <= k < |rgb| ==> ShortRuns(rgb[k])
    ensures forall k :: 0 <= k < |lines| ==> |lines[k]| <= LINE_LIMIT
  {
    if rows == 0 then []
    else
      assert width * (rows - 1) + width == width * rows;
      BodyLines(rgb, width, rows - 1) + Wrap(RowLine(rgb, width, rows - 1))
  }

  class ColorCanvas {
    var data: array<Tuple>
    var width: nat
    var height: nat

    ghost predicate Valid()
      reads this
    {
      data.Length == width * height
    }

    /** `new ColorCanvas(imgData, width, height)` keeps the caller's array, not a copy. */
    constructor (imgData: array<Tuple>, width: nat, height: nat)
      requires imgData.Length == width * height
      ensures data == imgData && this.width == width && this.height == height && Valid()
    {
      data := imgData;
      this.width := width;
      this.height := height;
    }

    /** Inside the canvas; the index `x + width * y` of such a pixel is in range. */
    predicate IsInBounds(x: int, y: int): (b: bool)
      reads this
      ensures b ==> 0 <= x + width * y < width * height
    {
      if 0 <= x < width && 0 <= y < height then
        RowBounds(x + 1, y, width, height);
        true
      else false
    }

    /** `safe_xyToIndex(x, y)`: x + width * y inside the canvas, and a throw outside it. */
    function SafeXyToIndex(x: int, y: int): (r: Result<nat>)
      reads this
      ensures r.Ok? <==> IsInBounds(x, y)
      ensures r.Ok? ==> r.value == x + width * y && r.value < width * height
      ensures r.Err? ==> r.fault == OutOfBounds
    {
      if !IsInBounds(x, y) then Err(OutOfBounds)
      else
        RowBounds(x + 1, y, width, height);
        Ok(x + width * y)
    }

    /** `indexToXY(i)`: the column i % width and the row i / width (rounded down). */
    function IndexToXY(i: nat): (xy: (int, int))
      reads this
      requires width > 0
      ensures 0 <= xy.0 < width && 0 <= xy.1 && xy.0 + width * xy.1 == i
    {
      (i % width, i / width)
    }

    /** `getPixel(x, y)`. */
    function GetPixel(x: int, y: int): (r: Result<Tuple>)
      reads this, data
      requires Valid()
      ensures r.Ok? <==> IsInBounds(x, y)
      ensures r.Ok? ==> x + width * y < data.Length && r.value == data[x + width * y]
    {
      var i :- SafeXyToIndex(x, y);
      Ok(data[i])
    }

    /** `writePixel(x, y, color)`: only that pixel changes, and reading it back gives the
        colour; outside the canvas it throws and nothing changes. */
    method WritePixel(x: int, y: int, color: Tuple) returns (r: Result<()>)
      requires Valid()
      modifies data
      ensures r.Ok? <==> IsInBounds(x, y)
      ensures r.Err? ==> r.fault == OutOfBounds && data[..] == old(data[..])
      ensures r.Ok? ==> x + width * y < data.Length && data[..] == old(data[..])[x + width * y := color]
      ensures r.Ok? ==> GetPixel(x, y) == Ok(color)
      ensures forall x2, y2 :: (x2 != x || y2 != y) ==> GetPixel(x2, y2) == old(GetPixel(x2, y2))
    {
      var i := SafeXyToIndex(x, y);
      if i.Err? {
        return Err(i.fault);
      }
      data[i.value] := color;
      forall x2, y2 | (x2 != x || y2 != y) && IsInBounds(x2, y2)
        ensures x2 + width * y2 != i.value
      {
        IndexUnique(x, y, x2, y2);
      }
      r := Ok(());
    }

    /** Two pixels of the canvas never share an index. */
    lemma IndexUnique(x: int, y: int, x2: int, y2: int)
      requires IsInBounds(x, y) && IsInBounds(x2, y2) && (x2 != x || y2 != y)
      ensures x + width * y != x2 + width * y2
    {
      if y == y2 {
      } else if y < y2 {
        assert width * y2 >= width * (y + 1) == width * y + width;
      } else {
        assert width * y >= width * (y2 + 1) == width * y2 + width;
      }
    }

    /** `saveToPPM()`: the header, then every row's pixel texts joined by spaces and cut at a
        space wherever longer than 70 characters, each piece on its own line. */
    method SaveToPPM() returns (ppm: string)
      requires Valid()
      ensures ppm == Header(width, height) + "\n" + Lines(BodyLines(RgbValues(data[..]), width, height))
    {
      var rgbValues := RgbValues(data[..]);
      var body := "";
      var i := 0;
      while i < height
        invariant 0 <= i <= height
        invariant body == Lines(BodyLines(rgbValues, width, i))
      {
        var rgbs := RowRgbs(rgbValues, i);
        var line := Join(rgbs, " ");
        assert line == RowLine(rgbValues, width, i);
        body := AppendWrapped(body, line);
        LinesAppend(BodyLines(rgbValues, width, i), Wrap(line));
        i := i + 1;
      }
      ppm := Header(width, height) + "\n" + body;
    }

    /** The inner `for` of `saveToPPM`: row i's texts, looked up pixel by pixel. */
    method RowRgbs(rgbValues: seq<string>, i: nat) returns (rgbs: seq<string>)
      requires |rgbValues| == width * height && i < height
      ensures width * i + width <= |rgbValues| && rgbs == rgbValues[width * i .. width * i + width]
    {
      rgbs := [];
      var j := 0;
      RowBounds(0, i, width, height);
      while j < width
        invariant 0 <= j <= width
        invariant rgbs == rgbValues[width * i .. width * i + j]
      {
        var index := SafeXyToIndex(j, i);
        RowBounds(j + 1, i, width, height);
        rgbs := rgbs + [rgbValues[index.value]];
        j := j + 1;
      }
    }
  }

  /** The `while (line.length > 70)` loop of `saveToPPM` and the line it ends with: the
      pieces of the row's line, each followed by "\n", are appended to the body. */
  method AppendWrapped(body: string, line: string) returns (out: string)
    requires ShortRuns(line)
    ensures out == body + Lines(Wrap(line))
  {
    out := body;
    var rest := line;
    while |rest| > LINE_LIMIT
      invariant ShortRuns(rest)
      invariant out + Lines(Wrap(rest)) == body + Lines(Wrap(line))
      decreases |rest|
    {
      var lineEndIndex := FindSafeLineEnd(rest);
      var splitLine1 := rest[..lineEndIndex];
      AppendWrapStep(out, rest);
      out := out + splitLine1 + "\n";
      rest := rest[lineEndIndex + 1..];
    }
    assert Wrap(rest) == [rest];
    out := out + rest + "\n";
  }

  /** `safe_xyToIndex` and `indexToXY` undo each other on the canvas. */
  lemma IndexRoundTrip(c: ColorCanvas, x: int, y: int)
    requires c.IsInBounds(x, y)
    ensures c.SafeXyToIndex(x, y).Ok? && c.IndexToXY(c.SafeXyToIndex(x, y).value) == (x, y)
  {
    DivModUnique(x, y, c.width);
  }

  lemma IndexToXYRoundTrip(c: ColorCanvas, i: nat)
    requires i < c.width * c.height
    ensures c.width > 0 && c.IsInBounds(c.IndexToXY(i).0, c.IndexToXY(i).1)
    ensures c.SafeXyToIndex(c.IndexToXY(i).0, c.IndexToXY(i).1) == Ok(i)
  {
    var w := c.width;
    assert w > 0;
    var x, y := i % w, i / w;
    assert i == x + w * y;
    MulCancelLess(w, y, c.height);
  }

  lemma MulCancelLess(w: nat, a: int, b: int)
    requires w > 0 && w * a < w * b
    ensures a < b
  {
    if a >= b {
      MulMono(w, b, a);
    }
  }

  lemma MulMono(w: nat, a: int, b: int)
    requires a <= b
    ensures w * a <= w * b
  {
    assert w * b - w * a == w * (b - a);
  }

  lemma DivModUnique(x: int, y: int, w: nat)
    requires 0 <= x < w && 0 <= y
    ensures (x + w * y) % w == x && (x + w * y) / w == y
  {
    var n := x + w * y;
    var q, r := n / w, n % w;
    assert n == w * q + r && 0 <= r < w;
    assert w * (q - y) == x - r;
    MulCancelLess(w, q - y, 1);
    MulCancelLess(w, -1, q - y);
  }
}
