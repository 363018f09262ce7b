/** canvas-utils.js: the closure `CanvasUtils({imgData, width, height})` over the caller's
    pixel array, with the same bounds-checked pixel access as color-canvas.js and a PPM text
    whose body has one line per row, never wrapped. The scaling, number and header texts are
    the shared ones of the Ppm module. */
module CanvasUtilities {
  import opened Wrappers
  import opened Tuples
  import opened Colors
  import opened Ppm
  import opened ColorCanvases

  /** The body lines `saveToPPM` builds: row k's pixel texts joined with single spaces, for
      the first `rows` rows, one line each. */
  function RowLines(rgb: seq<string>, width: nat, rows: nat): (lines: seq<string>)
    requires width * rows <= |rgb|
    requires forall k :: 0 <= k < |rgb| ==> ShortRuns(rgb[k])
    ensures |lines| == rows
  {
    if rows == 0 then []
    else
      assert width * (rows - 1) + width == width * rows;
      RowLines(rgb, width, rows - 1) + [RowLine(rgb, width, rows - 1)]
  }

  /** Each line is its row's pixel texts, and holds exactly `width` of them. */
  lemma {:induction false} RowLinesAreRows(rgb: seq<string>, width: nat, rows: nat, k: nat)
    requires width * rows <= |rgb|
    requires forall j :: 0 <= j < |rgb| ==> ShortRuns(rgb[j])
    requires k < rows
    ensures width * k + width <= |rgb|
    ensures RowLines(rgb, width, rows)[k] == Join(rgb[width * k .. width * k + width], " ")
    decreases rows
  {
    assert width * (rows - 1) + width == width * rows;
    if k < rows - 1 {
      RowLinesAreRows(rgb, width, rows - 1, k);
    }
  }

  /** When no row's line is longer than 70 characters, the body is exactly the one the
      wrapping `saveToPPM` of color-canvas.js writes. */
  lemma {:induction false} RowLinesMatchWrappedWhenShort(rgb: seq<string>, width: nat, rows: nat)
    requires width * rows <= |rgb|
    requires forall j :: 0 <= j < |rgb| ==> ShortRuns(rgb[j])
    requires forall k :: 0 <= k < rows ==> |RowLines(rgb, width, rows)[k]| <= LINE_LIMIT
    ensures RowLines(rgb, width, rows) == BodyLines(rgb, width, rows)
    decreases rows
  {
    if rows > 0 {
      assert width * (rows - 1) + width == width * rows;
      var lines := RowLines(rgb, width, rows);
      var prev := RowLines(rgb, width, rows - 1);
      assert lines[..rows - 1] == prev;
      forall k | 0 <= k < |prev|
        ensures |prev[k]| <= LINE_LIMIT
      {
        assert prev[k] == lines[k];
      }
      RowLinesMatchWrappedWhenShort(rgb, width, rows - 1);
      assert lines[rows - 1] == RowLine(rgb, width, rows - 1);
    }
  }

  /** A text of `n` pieces of length `len` joined with single spaces has n * len + n - 1
      characters. */
  lemma {:induction false} JoinLength(parts: seq<string>, len: nat)
    requires |parts| >= 1
    requires forall k :: 0 <= k < |parts| ==> |parts[k]| == len
    ensures |Join(parts, " ")| == |parts| * len + |parts| - 1
    decreases |parts|
  {
    if |parts| > 1 {
      JoinLength(parts[1..], len);
    }
  }

  /** The colour (1, 0.8, 0.6) is written "255 204 153". */
  lemma PaleOrangeText()
    ensures ColorToPPM_RGB(Color(1.0, 0.8, 0.6)) == "255 204 153"
  {
    ScaleColorToPPMExamples();
    NatToStringExamples();
    assert NatToString(204) == "204" by {
      assert NatToString(20) == "20";
    }
    assert NatToString(153) == "153" by {
      assert NatToString(15) == "15";
    }
  }

  /** The 10 by 2 canvas filled with (1, 0.8, 0.6) gets body lines of 119 characters: the
      first body line is not the 67-character line "255 204 153 ... 255 204" that the
      wrapping expected of this serialisation would give. */
  lemma LongRowNotWrapped(rgb: seq<string>)
    requires |rgb| == 20
    requires forall k :: 0 <= k < 20 ==> rgb[k] == ColorToPPM_RGB(Color(1.0, 0.8, 0.6))
    ensures forall j :: 0 <= j < |rgb| ==> ShortRuns(rgb[j])
    ensures |RowLines(rgb, 10, 2)[0]| == 119 > LINE_LIMIT
  {
    PaleOrangeText();
    forall j | 0 <= j < |rgb|
      ensures ShortRuns(rgb[j])
    {
      assert rgb[j] == ColorToPPM_RGB(Color(1.0, 0.8, 0.6));
    }
    RowLinesAreRows(rgb, 10, 2, 0);
    JoinLength(rgb[0..10], 11);
  }

  class CanvasUtils {
    var data: array<Tuple>
    const width: nat
    const height: nat

    ghost predicate Valid()
      reads this
    {
      data.Length == width * height
    }

    /** `CanvasUtils({imgData, width, height})` keeps the caller's array, not a copy. */
    constructor (imgData: array<Tuple>, width: nat, height: nat)
      requires imgData.Length == width * height
      ensures data == imgData && this.width == width && this.height == height && Valid()
    {
      data := imgData;
      this.width := width;
      this.height := height;
    }

    /** The bounds test inside `safe_xyToIndex`. */
    predicate InCanvas(x: int, y: int)
      reads this
    {
      0 <= x < width && 0 <= y < height
    }

    /** `safe_xyToIndex(x, y)`: x + width * y when 0 <= x < width and 0 <= y < height, and
        a throw otherwise. */
    function SafeXyToIndex(x: int, y: int): (r: Result<nat>)
      reads this
      ensures r.Ok? <==> InCanvas(x, y)
      ensures r.Ok? ==> r.value == x + width * y && r.value < width * height
      ensures r.Err? ==> r.fault == OutOfBounds
    {
      if !InCanvas(x, y) then Err(OutOfBounds)
      else
        RowBounds(x + 1, y, width, height);
        Ok(x + width * y)
    }

    /** `getPixel(x, y)`. */
    function GetPixel(x: int, y: int): (r: Result<Tuple>)
      reads this, data
      requires Valid()
      ensures r.Ok? <==> InCanvas(x, y)
      ensures r.Ok? ==> x + width * y < data.Length && r.value == data[x + width * y]
    {
      var i :- SafeXyToIndex(x, y);
      Ok(data[i])
    }

    /** `writePixel(x, y, color)`: only that pixel changes and reading it back gives the
        colour; outside the canvas it throws and nothing changes. */
    method WritePixel(x: int, y: int, color: Tuple) returns (r: Result<()>)
      requires Valid()
      modifies data
      ensures r.Ok? <==> InCanvas(x, y)
      ensures r.Err? ==> r.fault == OutOfBounds && data[..] == old(data[..])
      ensures r.Ok? ==> x + width * y < data.Length && data[..] == old(data[..])[x + width * y := color]
      ensures r.Ok? ==> GetPixel(x, y) == Ok(color)
      ensures forall x2, y2 :: (x2 != x || y2 != y) ==> GetPixel(x2, y2) == old(GetPixel(x2, y2))
    {
      var i := SafeXyToIndex(x, y);
      if i.Err? {
        return Err(i.fault);
      }
      data[i.value] := color;
      forall x2, y2 | (x2 != x || y2 != y) && InCanvas(x2, y2)
        ensures x2 + width * y2 != i.value
      {
        DistinctPixels(x, y, x2, y2);
      }
      r := Ok(());
    }

    /** Two pixels of the canvas never share an index. */
    lemma DistinctPixels(x: int, y: int, x2: int, y2: int)
      requires InCanvas(x, y) && InCanvas(x2, y2) && (x2 != x || y2 != y)
      ensures x + width * y != x2 + width * y2
    {
      if y < y2 {
        assert width * y2 >= width * (y + 1) == width * y + width;
      } else if y > y2 {
        assert width * y >= width * (y2 + 1) == width * y2 + width;
      }
    }

    /** `saveToPPM()`: the header, then one line per row of the pixels' texts joined by
        single spaces, however long. */
    method SaveToPPM() returns (ppm: string)
      requires Valid()
      ensures ppm == Header(width, height) + "\n" + Lines(RowLines(RgbValues(data[..]), width, height))
    {
      var rgbValues := RgbValues(data[..]);
      var body := "";
      var i := 0;
      while i < height
        invariant 0 <= i <= height
        invariant body == Lines(RowLines(rgbValues, width, i))
      {
        var line := RowTexts(rgbValues, i);
        assert Join(line, " ") == RowLine(rgbValues, width, i);
        LinesAppend(RowLines(rgbValues, width, i), [RowLine(rgbValues, width, i)]);
        body := body + Join(line, " ") + "\n";
        i := i + 1;
      }
      ppm := Header(width, height) + "\n" + body;
    }

    /** The inner `for` of `saveToPPM`: row i's texts, looked up pixel by pixel. */
    method RowTexts(rgbValues: seq<string>, i: nat) returns (line: seq<string>)
      requires |rgbValues| == width * height && i < height
      ensures width * i + width <= |rgbValues| && line == rgbValues[width * i .. width * i + width]
    {
      line := [];
      var j := 0;
      RowBounds(0, i, width, height);
      while j < width
        invariant 0 <= j <= width
        invariant line == rgbValues[width * i .. width * i + j]
      {
        var index := SafeXyToIndex(j, i);
        RowBounds(j + 1, i, width, height);
        line := line + [rgbValues[index.value]];
        j := j + 1;
      }
    }
  }
}
