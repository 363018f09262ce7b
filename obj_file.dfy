/** obj-file.js: a line-by-line reader of the `v`, `f` and `g` statements of Wavefront OBJ
    text into vertices and named groups of triangles. `Number` is not part of this model: the
    reader takes it as the parameter `number`. A triangle is recorded by its three corners;
    the rest of the `Triangle` object is `Triangles.MakeTriangle` of them. */
module ObjFiles {
  import opened Wrappers
  import opened Tuples
  import opened Ppm
  import Triangles

  /* ---------------- Text: `split` and `trim` ---------------- */

  /** `s.split(sep)` for a one-character separator: the pieces between separators, empty
      ones included, so there is always at least one. */
  function Split(s: string, sep: char): (parts: seq<string>)
    ensures |parts| >= 1
  {
    if s == [] then [""]
    else
      var rest := Split(s[1..], sep);
      if s[0] == sep then [""] + rest
      else [[s[0]] + rest[0]] + rest[1..]
  }

  /** No piece holds the separator. */
  lemma {:induction false} SplitPiecesLackSep(s: string, sep: char)
    ensures forall k :: 0 <= k < |Split(s, sep)| ==> sep !in Split(s, sep)[k]
  {
    if s != [] {
      SplitPiecesLackSep(s[1..], sep);
      var rest := Split(s[1..], sep);
      var parts := Split(s, sep);
      forall k | 0 <= k < |parts|
        ensures sep !in parts[k]
      {
        if k > 0 {
          assert parts[k] == rest[k - 1 + (if s[0] == sep then 0 else 1)];
        } else if s[0] != sep {
          assert parts[0] == [s[0]] + rest[0];
        }
      }
    }
  }

  /** Joining the pieces with the separator gives the text back. */
  lemma {:induction false} SplitJoin(s: string, sep: char)
    ensures Join(Split(s, sep), [sep]) == s
  {
    if s != [] {
      var rest := Split(s[1..], sep);
      SplitJoin(s[1..], sep);
      if s[0] == sep {
        assert ([""] + rest)[1..] == rest;
      } else if |rest| > 1 {
        assert ([[s[0]] + rest[0]] + rest[1..])[1..] == rest[1..];
        assert Join(rest, [sep]) == rest[0] + [sep] + Join(rest[1..], [sep]);
      }
    }
  }

  /** The characters `String.prototype.trim` removes: the white space and line terminators
      of ECMAScript, including every space separator of Unicode. */
  predicate IsJsSpace(c: char)
  {
    c == '\t' || c == '\n' || c == '\U{000B}' || c == '\U{000C}' || c == '\r' || c == ' '
    || c == '\U{00A0}' || c == '\U{1680}' || ('\U{2000}' <= c <= '\U{200A}')
    || c == '\U{2028}' || c == '\U{2029}' || c == '\U{202F}' || c == '\U{205F}' || c == '\U{3000}'
    || c == '\U{FEFF}'
  }

  /** Drops the leading white space. */
  function TrimStart(s: string): (t: string)
    ensures |t| <= |s|
  {
    if s != [] && IsJsSpace(s[0]) then TrimStart(s[1..]) else s
  }

  /** Drops the trailing white space. */
  function TrimEnd(s: string): (t: string)
    ensures |t| <= |s|
  {
    if s != [] && IsJsSpace(s[|s| - 1]) then TrimEnd(s[..|s| - 1]) else s
  }

  /** `s.trim()`. */
  function Trim(s: string): (t: string)
    ensures |t| <= |s|
  {
    TrimEnd(TrimStart(s))
  }

  /** `TrimStart` keeps a suffix that starts with a non-space, and drops only spaces. */
  lemma {:induction false} TrimStartCuts(s: string)
    ensures var t := TrimStart(s);
            t == s[|s| - |t|..] && (t == [] || !IsJsSpace(t[0]))
            && forall k :: 0 <= k < |s| - |t| ==> IsJsSpace(s[k])
  {
    if s != [] && IsJsSpace(s[0]) {
      TrimStartCuts(s[1..]);
      var t := TrimStart(s);
      forall k | 0 < k < |s| - |t|
        ensures IsJsSpace(s[k])
      {
        assert s[k] == s[1..][k - 1];
      }
    }
  }

  /** `TrimEnd` keeps a prefix that ends with a non-space, and drops only spaces. */
  lemma {:induction false} TrimEndCuts(s: string)
    ensures var t := TrimEnd(s);
            t == s[..|t|] && (t == [] || !IsJsSpace(t[|t| - 1]))
            && forall k :: |t| <= k < |s| ==> IsJsSpace(s[k])
  {
    if s != [] && IsJsSpace(s[|s| - 1]) {
      var u := s[..|s| - 1];
      TrimEndCuts(u);
      var t := TrimEnd(s);
      assert t == TrimEnd(u);
      forall k | |t| <= k < |s| - 1
        ensures IsJsSpace(s[k])
      {
        assert s[k] == u[k];
      }
      assert t == u[..|t|];
    }
  }

  /** What `trim` keeps has white space at neither end, and sits between runs of white
      space: it starts after the leading run, and everything after it is white space. */
  lemma TrimCutsSpace(s: string)
    ensures var t := Trim(s);
            t == [] || (!IsJsSpace(t[0]) && !IsJsSpace(t[|t| - 1]))
    ensures var i := |s| - |TrimStart(s)|;
            i + |Trim(s)| <= |s| && Trim(s) == s[i..i + |Trim(s)|]
            && (forall k :: 0 <= k < i ==> IsJsSpace(s[k]))
            && (forall k :: i + |Trim(s)| <= k < |s| ==> IsJsSpace(s[k]))
  {
    var u := TrimStart(s);
    TrimStartCuts(s);
    TrimEndCuts(u);
    var t := TrimEnd(u);
    var i := |s| - |u|;
    assert t != [] ==> t[0] == u[0];
    assert u == s[i..];
    assert t == u[..|t|];
    forall k | i + |t| <= k < |s|
      ensures IsJsSpace(s[k])
    {
      assert s[k] == u[k - i];
    }
  }

  /** Trimming twice is trimming once, so the second `trim` of `parseVertex` changes nothing. */
  lemma TrimIdempotent(s: string)
    ensures Trim(Trim(s)) == Trim(s)
  {
    var t := Trim(s);
    TrimCutsSpace(s);
    assert TrimStart(t) == t;
    assert TrimEnd(t) == t;
  }

  function DropNewlines(parts: seq<string>): (kept: seq<string>)
    ensures |kept| <= |parts|
  {
    if parts == [] then []
    else if parts[0] == "\n" then DropNewlines(parts[1..])
    else [parts[0]] + DropNewlines(parts[1..])
  }

  function TrimAll(parts: seq<string>): (trimmed: seq<string>)
    ensures |trimmed| == |parts|
  {
    seq(|parts|, k requires 0 <= k < |parts| => Trim(parts[k]))
  }

  /** The `parts` of `parseLine`: split at single spaces, lone "\n" pieces dropped, and each
      piece trimmed. */
  function Tokens(line: string): (parts: seq<string>)
    ensures forall k :: 0 <= k < |parts| ==> Trim(parts[k]) == parts[k]
  {
    var trimmed := TrimAll(DropNewlines(Split(line, ' ')));
    assert forall k :: 0 <= k < |trimmed| ==> Trim(trimmed[k]) == trimmed[k] by {
      forall k | 0 <= k < |trimmed|
        ensures Trim(trimmed[k]) == trimmed[k]
      {
        TrimIdempotent(DropNewlines(Split(line, ' '))[k]);
      }
    }
    trimmed
  }

  /* ---------------- Parser state ---------------- */

  /** The fields of a `Parser`, as values. The `groups` object is a map from names to the
      triangles added to that group, with `groupOrder` the order in which its keys were made;
      `activeGroup` is held by name, which is sound because a group, once made, is never
      replaced. Vertex 0 is the `null` placed first. */
  datatype ParseState = ParseState(
    ignoredLines: seq<string>,
    vertices: seq<Option<Tuple>>,
    lastInstruction: Option<string>,
    lastVertexGroupIndex: int,
    groups: map<string, seq<Face>>,
    groupOrder: seq<string>,
    activeGroup: string)

  const DEFAULT_GROUP: string := "default"

  /** The fields the constructor sets. */
  function Initial(): (s: ParseState)
    ensures WellFormed(s)
  {
    ParseState([], [None], None, 0, map[DEFAULT_GROUP := []], [DEFAULT_GROUP], DEFAULT_GROUP)
  }

  /** The shape every state reached by parsing has: vertex 0 is empty, the vertex block
      offset is inside the vertex list, the default and the active group exist, and the key
      order lists each key once. */
  ghost predicate WellFormed(s: ParseState)
  {
    HasActive(s) && |s.vertices| >= 1 && s.vertices[0] == None
    && 0 <= s.lastVertexGroupIndex < |s.vertices|
    && DEFAULT_GROUP in s.groups && s.activeGroup in s.groups
    && (forall n :: n in s.groups <==> n in s.groupOrder)
    && (forall i, j :: 0 <= i < j < |s.groupOrder| ==> s.groupOrder[i] != s.groupOrder[j])
  }

  /** The active group is one of the groups, so `activeGroup.addChild` has a target. */
  predicate HasActive(s: ParseState)
  {
    s.activeGroup in s.groups
  }

  /* ---------------- Vertices and faces ---------------- */

  /** `getVertexByIndex(idx)`: entry `lastVertexGroupIndex + idx` of `vertices`, if the index
      is a whole number inside the list; `undefined` (and `null` at 0) becomes None. */
  function VertexAt(vertices: seq<Option<Tuple>>, start: int, idx: real): (v: Option<Tuple>)
    ensures v.Some? ==> idx == idx.Floor as real
                        && 0 <= start + idx.Floor < |vertices| && vertices[start + idx.Floor] == v
    ensures idx == idx.Floor as real && 0 <= start + idx.Floor < |vertices| ==> v == vertices[start + idx.Floor]
  {
    var k := idx.Floor;
    if k as real == idx && 0 <= start + k < |vertices| then vertices[start + k] else None
  }

  /** `parseVertex(parts)`: the point of the numbers in parts 1 to 3; with fewer parts,
      `parts[k].trim()` throws. */
  function ParseVertex(parts: seq<string>, number: string -> real): (r: Result<Tuple>)
    ensures r.Ok? <==> |parts| >= 4
    ensures r.Ok? ==> IsPoint(r.value)
                      && r.value == Point(number(Trim(parts[1])), number(Trim(parts[2])), number(Trim(parts[3])))
  {
    if |parts| < 4 then Err(TypeError("parts[k] is undefined"))
    else Ok(Point(number(Trim(parts[1])), number(Trim(parts[2])), number(Trim(parts[3]))))
  }

  /** The corners a `new Triangle(p1, p2, p3)` is made from. */
  datatype Face = Face(p1: Tuple, p2: Tuple, p3: Tuple)

  /** The `Triangle` object of a face. */
  function FaceTriangle(f: Face, normalize: Tuple -> Tuple): (tri: Triangles.TriangleData)
    ensures tri.p1 == f.p1 && tri.p2 == f.p2 && tri.p3 == f.p3
  {
    Triangles.MakeTriangle(f.p1, f.p2, f.p3, normalize)
  }

  /** `new Triangle(p1, p2, p3)`: `sub` throws on a missing corner. */
  function NewTriangle(p1: Option<Tuple>, p2: Option<Tuple>, p3: Option<Tuple>): (r: Result<Face>)
    ensures r.Ok? <==> p1.Some? && p2.Some? && p3.Some?
    ensures r.Ok? ==> r.value.p1 == p1.value && r.value.p2 == p2.value && r.value.p3 == p3.value
    ensures r.Err? ==> r.fault == TypeError("vertex is undefined")
  {
    if p1.Some? && p2.Some? && p3.Some? then Ok(Face(p1.value, p2.value, p3.value))
    else Err(TypeError("vertex is undefined"))
  }

  /** `parseFace(parts)`: the triangle of the three vertices named by parts 1 to 3. */
  function ParseFace(s: ParseState, parts: seq<string>, number: string -> real): (r: Result<Face>)
    ensures r.Ok? ==> |parts| >= 4
    ensures r.Ok? ==> exists a, b, c ::
                        VertexAt(s.vertices, s.lastVertexGroupIndex, number(Trim(parts[1]))) == Some(a)
                        && VertexAt(s.vertices, s.lastVertexGroupIndex, number(Trim(parts[2]))) == Some(b)
                        && VertexAt(s.vertices, s.lastVertexGroupIndex, number(Trim(parts[3]))) == Some(c)
                        && r.value == Face(a, b, c)
  {
    var vs :- ParseVertex(parts, number);
    NewTriangle(VertexAt(s.vertices, s.lastVertexGroupIndex, vs.x),
                VertexAt(s.vertices, s.lastVertexGroupIndex, vs.y),
                VertexAt(s.vertices, s.lastVertexGroupIndex, vs.z))
  }

  /** The vertex part `i` names in `triangulatePolygon`; a missing part reads as `NaN`. */
  function Corner(s: ParseState, parts: seq<string>, i: nat, number: string -> real): Option<Tuple>
  {
    if i < |parts| then VertexAt(s.vertices, s.lastVertexGroupIndex, number(parts[i])) else None
  }

  /** The fan triangles (part 1, part i, part i + 1) for i from `index` up to the last but one. */
  function FanFrom(s: ParseState, parts: seq<string>, index: nat, number: string -> real): (r: Result<seq<Face>>)
    ensures index + 1 >= |parts| ==> r == Ok([])
    ensures r.Ok? ==> |r.value| == (if index + 1 >= |parts| then 0 else |parts| - 1 - index)
    decreases |parts| - index
  {
    if index + 1 >= |parts| then Ok([])
    else
      var t :- NewTriangle(Corner(s, parts, 1, number), Corner(s, parts, index, number),
                           Corner(s, parts, index + 1, number));
      var rest :- FanFrom(s, parts, index + 1, number);
      Ok([t] + rest)
  }

  /** What `triangulatePolygon(parts)` returns or throws. */
  function Triangulate(s: ParseState, parts: seq<string>, number: string -> real): (r: Result<seq<Face>>)
    ensures |parts| <= 3 ==> r == Ok([])
    ensures r.Ok? ==> |r.value| == (if |parts| <= 3 then 0 else |parts| - 3)
  {
    FanFrom(s, parts, 2, number)
  }

  /** Prepends finished triangles to a result. */
  function PrependOk(ts: seq<Face>, r: Result<seq<Face>>): Result<seq<Face>>
  {
    if r.Ok? then Ok(ts + r.value) else Err(r.fault)
  }

  lemma {:induction false} FanFromShape(s: ParseState, parts: seq<string>, index: nat,
                                        number: string -> real)
    requires 2 <= index
    ensures var r := FanFrom(s, parts, index, number);
            (r.Ok? <==> index + 1 >= |parts|
                        || (Corner(s, parts, 1, number).Some?
                            && forall i :: index <= i < |parts| ==> Corner(s, parts, i, number).Some?))
            && (r.Ok? ==> |r.value| == (if index + 1 >= |parts| then 0 else |parts| - 1 - index)
                          && forall k :: 0 <= k < |r.value| ==>
                               r.value[k] == Face(Corner(s, parts, 1, number).value,
                                                          Corner(s, parts, index + k, number).value,
                                                          Corner(s, parts, index + k + 1, number).value))
    decreases |parts| - index
  {
    if index + 1 < |parts| {
      FanFromShape(s, parts, index + 1, number);
      var r := FanFrom(s, parts, index, number);
      if r.Ok? {
        var rest := FanFrom(s, parts, index + 1, number).value;
        assert r.value == [r.value[0]] + rest;
        forall k | 0 < k < |r.value|
          ensures r.value[k] == rest[k - 1]
        {
        }
      }
    }
  }

  /** A polygon of n >= 3 vertex indices (parts 1 to n) becomes the n - 2 fan triangles
      (v1, vi, vi+1) in order, and it throws exactly when one of its indices names no vertex. */
  lemma TriangulateFan(s: ParseState, parts: seq<string>, number: string -> real)
    requires |parts| >= 4
    ensures var r := Triangulate(s, parts, number);
            (r.Ok? <==> forall i :: 1 <= i < |parts| ==> Corner(s, parts, i, number).Some?)
            && (r.Ok? ==> |r.value| == |parts| - 3
                          && forall k :: 0 <= k < |r.value| ==>
                               r.value[k] == Face(Corner(s, parts, 1, number).value,
                                                          Corner(s, parts, k + 2, number).value,
                                                          Corner(s, parts, k + 3, number).value))
  {
    FanFromShape(s, parts, 2, number);
  }

  /** A polygon of three indices is the one triangle `parseFace` would build, when the
      indices have no white space around them. */
  lemma TriangleAsPolygon(s: ParseState, parts: seq<string>, number: string -> real)
    requires |parts| == 4 && forall i :: 1 <= i < 4 ==> Trim(parts[i]) == parts[i]
    requires ParseFace(s, parts, number).Ok?
    ensures Triangulate(s, parts, number) == Ok([ParseFace(s, parts, number).value])
  {
    var vs := ParseVertex(parts, number).value;
    assert vs.x == number(parts[1]) && vs.y == number(parts[2]) && vs.z == number(parts[3]);
    var t := ParseFace(s, parts, number).value;
    assert NewTriangle(Corner(s, parts, 1, number), Corner(s, parts, 2, number), Corner(s, parts, 3, number)) == Ok(t);
    assert FanFrom(s, parts, 3, number) == Ok([]);
    assert [t] + [] == [t];
  }


  /* ---------------- Lines ---------------- */

  /** What a line did to the parser: whether it threw, and the fields afterwards. */
  datatype Outcome = Outcome(result: Result<()>, state: ParseState)

  /** The command word of a line: `parts[0]`, which is `undefined` when nothing is left. */
  function Command(parts: seq<string>): (c: Option<string>)
    ensures c.None? <==> parts == []
    ensures c.Some? ==> c.value == parts[0]
  {
    if |parts| > 0 then Some(parts[0]) else None
  }

  /** `g name` with no name looks up the key "undefined". */
  function GroupName(parts: seq<string>): (name: string)
    ensures |parts| > 1 ==> name == parts[1]
    ensures |parts| <= 1 ==> name == "undefined"
  {
    if |parts| > 1 then parts[1] else "undefined"
  }

  /** The `v` case: the offset moves to the last vertex unless the previous `v`/`f` statement
      was a `v`, and then the point is appended; with fewer than three numbers it throws
      after the offset has moved. */
  function VertexLine(s: ParseState, parts: seq<string>, number: string -> real): (o: Outcome)
    requires HasActive(s)
    ensures HasActive(o.state)
    ensures o.state.lastVertexGroupIndex
            == (if s.lastInstruction == Some("v") then s.lastVertexGroupIndex else |s.vertices| - 1)
    ensures o.result.Ok? <==> |parts| >= 4
    ensures o.result.Err? ==> o.result.fault.TypeError?
    ensures o.state.vertices
            == s.vertices + (if o.result.Ok? then [Some(ParseVertex(parts, number).value)] else [])
    ensures o.state.lastInstruction == (if o.result.Ok? then Some("v") else s.lastInstruction)
    ensures o.state.groups == s.groups && o.state.groupOrder == s.groupOrder
    ensures o.state.activeGroup == s.activeGroup && o.state.ignoredLines == s.ignoredLines
  {
    var s1 := if s.lastInstruction != Some("v") then s.(lastVertexGroupIndex := |s.vertices| - 1) else s;
    match ParseVertex(parts, number)
    case Err(e) => Outcome(Err(e), s1)
    case Ok(p) => Outcome(Ok(()), s1.(vertices := s1.vertices + [Some(p)], lastInstruction := Some("v")))
  }

  /** The triangles of an `f` line: the fan of a polygon with more than three indices, else
      the one triangle of `parseFace`. */
  function FaceTriangles(s: ParseState, parts: seq<string>, number: string -> real): Result<seq<Face>>
  {
    if |parts| > 4 then Triangulate(s, parts, number)
    else
      var t :- ParseFace(s, parts, number);
      Ok([t])
  }

  /** The `f` case: the triangles go to the end of the active group, which is the only
      group that changes; a throw changes nothing. */
  function FaceLine(s: ParseState, parts: seq<string>, number: string -> real): (o: Outcome)
    requires HasActive(s)
    ensures HasActive(o.state)
    ensures o.result.Ok? <==> FaceTriangles(s, parts, number).Ok?
    ensures o.result.Err? ==> o.state == s
    ensures o.result.Ok? ==>
              o.state == s.(groups := s.groups[s.activeGroup := s.groups[s.activeGroup]
                                                                 + FaceTriangles(s, parts, number).value],
                            lastInstruction := Some("f"))
  {
    match FaceTriangles(s, parts, number)
    case Err(e) => Outcome(Err(e), s)
    case Ok(ts) =>
      Outcome(Ok(()), s.(groups := s.groups[s.activeGroup := s.groups[s.activeGroup] + ts],
                         lastInstruction := Some("f")))
  }

  /** The `g` case: the named group becomes active, and is made, empty and last in key
      order, only when there is none of that name. */
  function GroupLine(s: ParseState, name: string): (o: Outcome)
    requires HasActive(s)
    ensures HasActive(o.state) && o.result.Ok? && o.state.activeGroup == name
    ensures name in s.groups ==> o.state == s.(activeGroup := name)
    ensures name !in s.groups ==>
              o.state == s.(groups := s.groups[name := []], groupOrder := s.groupOrder + [name], activeGroup := name)
  {
    if name in s.groups then Outcome(Ok(()), s.(activeGroup := name))
    else
      Outcome(Ok(()), s.(groups := s.groups[name := []], groupOrder := s.groupOrder + [name], activeGroup := name))
  }

  /** `parseLine(line)`: the case of the line's command word; any other line is kept
      verbatim in `ignoredLines`. */
  function StepLine(s: ParseState, line: string, number: string -> real): (o: Outcome)
    requires HasActive(s)
    ensures HasActive(o.state)
  {
    var parts := Tokens(line);
    var command := Command(parts);
    if command == Some("v") then VertexLine(s, parts, number)
    else if command == Some("f") then FaceLine(s, parts, number)
    else if command == Some("g") then GroupLine(s, GroupName(parts))
    else Outcome(Ok(()), s.(ignoredLines := s.ignoredLines + [line]))
  }

  /** `parseString(str)` on lines already split: each line in order, stopping at the first
      one that throws. */
  function RunLines(s: ParseState, lines: seq<string>, number: string -> real): (o: Outcome)
    requires HasActive(s)
    ensures HasActive(o.state)
    decreases |lines|
  {
    if lines == [] then Outcome(Ok(()), s)
    else
      var o1 := StepLine(s, lines[0], number);
      if o1.result.Err? then o1 else RunLines(o1.state, lines[1..], number)
  }

  /* ---------------- What parsing guarantees ---------------- */

  /** Each line keeps the parser well formed: in particular a `g` line for a new name adds
      that name once, last in key order, and every group is listed in key order. */
  lemma StepKeepsWellFormed(s: ParseState, line: string, number: string -> real)
    requires WellFormed(s)
    ensures WellFormed(StepLine(s, line, number).state)
  {
    var parts := Tokens(line);
    var t := StepLine(s, line, number).state;
    if Command(parts) == Some("g") && GroupName(parts) !in s.groups {
      var name := GroupName(parts);
      assert t.groupOrder == s.groupOrder + [name];
      forall n
        ensures n in t.groups <==> n in t.groupOrder
      {
        assert n in t.groupOrder <==> n in s.groupOrder || n == name;
      }
    } else if Command(parts) == Some("f") {
      assert StepLine(s, line, number) == FaceLine(s, parts, number);
    }
  }

  lemma {:induction false} RunKeepsWellFormed(s: ParseState, lines: seq<string>,
                                              number: string -> real)
    requires WellFormed(s)
    ensures WellFormed(RunLines(s, lines, number).state)
    decreases |lines|
  {
    if lines != [] {
      StepKeepsWellFormed(s, lines[0], number);
      var o1 := StepLine(s, lines[0], number);
      if o1.result.Ok? {
        RunKeepsWellFormed(o1.state, lines[1..], number);
      }
    }
  }

  /** The first word of the line is not `v`, `f` or `g`. */
  predicate IsOther(line: string)
  {
    var command := Command(Tokens(line));
    command != Some("v") && command != Some("f") && command != Some("g")
  }

  /** A line whose first word is not `v`, `f` or `g`, a blank line included, is kept verbatim
      and changes nothing else; `g` and such lines leave `lastInstruction` alone. */
  lemma OtherLinesOnlyIgnored(s: ParseState, line: string, number: string -> real)
    requires HasActive(s)
    ensures var o := StepLine(s, line, number);
            var command := Command(Tokens(line));
            (command != Some("v") && command != Some("f") && command != Some("g") ==>
               o == Outcome(Ok(()), s.(ignoredLines := s.ignoredLines + [line])))
            && (command != Some("v") && command != Some("f") ==>
                  o.state.lastInstruction == s.lastInstruction && o.state.vertices == s.vertices
                  && o.state.lastVertexGroupIndex == s.lastVertexGroupIndex)
  {
  }

  /** One line that is not a `v`, `f` or `g` statement is kept and nothing else changes. */
  lemma OtherLineStep(s: ParseState, line: string, number: string -> real)
    requires HasActive(s) && IsOther(line)
    ensures StepLine(s, line, number) == Outcome(Ok(()), s.(ignoredLines := s.ignoredLines + [line]))
  {
    OtherLinesOnlyIgnored(s, line, number);
  }

  /** Running lines that start with such a line runs the rest from the state it leaves. */
  lemma OtherLineRun(s: ParseState, lines: seq<string>, number: string -> real)
    requires HasActive(s) && lines != [] && IsOther(lines[0])
    ensures RunLines(s, lines, number)
            == RunLines(s.(ignoredLines := s.ignoredLines + [lines[0]]), lines[1..], number)
  {
    OtherLineStep(s, lines[0], number);
  }

  /** Lines none of which is a `v`, `f` or `g` statement are all kept, in order, and
      nothing else changes. */
  lemma {:induction false} OtherLinesKeptInOrder(s: ParseState, lines: seq<string>, number: string -> real)
    requires HasActive(s)
    requires forall line <- lines :: IsOther(line)
    ensures RunLines(s, lines, number) == Outcome(Ok(()), s.(ignoredLines := s.ignoredLines + lines))
    decreases |lines|
  {
    if lines != [] {
      var s1 := s.(ignoredLines := s.ignoredLines + [lines[0]]);
      OtherLinesTail(lines);
      OtherLinesKeptInOrder(s1, lines[1..], number);
      AppendHeadThenTail(s.ignoredLines, lines);
      OtherLineRun(s, lines, number);
    }
  }

  lemma OtherLinesTail(lines: seq<string>)
    requires lines != [] && forall line <- lines :: IsOther(line)
    ensures forall line <- lines[1..] :: IsOther(line)
  {
    assert forall line <- lines[1..] :: line in lines;
  }

  lemma AppendHeadThenTail(kept: seq<string>, lines: seq<string>)
    requires lines != []
    ensures (kept + [lines[0]]) + lines[1..] == kept + lines
  {
    assert lines == [lines[0]] + lines[1..];
  }

  /** A line with three vertex indices adds exactly one triangle, of the vertices it names, to
      the end of the active group. */
  lemma FaceAddsOneTriangle(s: ParseState, line: string, number: string -> real)
    requires HasActive(s)
    requires Command(Tokens(line)) == Some("f") && |Tokens(line)| == 4
    ensures var o := StepLine(s, line, number);
            (o.result.Ok? <==> ParseFace(s, Tokens(line), number).Ok?)
            && (o.result.Ok? ==>
                  o.state.groups[s.activeGroup]
                    == s.groups[s.activeGroup] + [ParseFace(s, Tokens(line), number).value]
                  && (forall n :: n in s.groups && n != s.activeGroup ==> o.state.groups[n] == s.groups[n])
                  && o.state.lastInstruction == Some("f"))
  {
    var parts := Tokens(line);
    assert StepLine(s, line, number) == FaceLine(s, parts, number);
  }

  /** A line with n > 3 vertex indices adds the n - 2 fan triangles, in order, to the end of
      the active group, and throws, changing nothing, when an index names no vertex. */
  lemma PolygonAddsFan(s: ParseState, line: string, number: string -> real)
    requires HasActive(s)
    requires Command(Tokens(line)) == Some("f") && |Tokens(line)| > 4
    ensures var o := StepLine(s, line, number);
            var parts := Tokens(line);
            (o.result.Ok? <==> forall i :: 1 <= i < |parts| ==> Corner(s, parts, i, number).Some?)
            && (o.result.Err? ==> o.state == s)
            && (o.result.Ok? ==>
                  exists ts: seq<Face> :: |ts| == |parts| - 3
                    && o.state.groups[s.activeGroup] == s.groups[s.activeGroup] + ts
                    && forall k :: 0 <= k < |ts| ==>
                         ts[k] == Face(Corner(s, parts, 1, number).value,
                                                         Corner(s, parts, k + 2, number).value,
                                                         Corner(s, parts, k + 3, number).value))
  {
    var parts := Tokens(line);
    assert StepLine(s, line, number) == FaceLine(s, parts, number);
    TriangulateFan(s, parts, number);
  }

  /** One line only ever adds: vertices, ignored lines and group keys stay, and every group's
      triangles stay at its front. */
  lemma StepOnlyAdds(s: ParseState, line: string, number: string -> real)
    requires HasActive(s)
    ensures var t := StepLine(s, line, number).state;
            s.vertices <= t.vertices && s.ignoredLines <= t.ignoredLines && s.groupOrder <= t.groupOrder
            && forall n :: n in s.groups ==> n in t.groups && s.groups[n] <= t.groups[n]
  {
    var parts := Tokens(line);
    var command := Command(parts);
    if command == Some("f") {
      var o := FaceLine(s, parts, number);
      assert StepLine(s, line, number) == o;
      if o.result.Ok? {
        forall n | n in s.groups
          ensures n in o.state.groups && s.groups[n] <= o.state.groups[n]
        {
          if n == s.activeGroup {
            assert o.state.groups[n] == s.groups[n] + FaceTriangles(s, parts, number).value;
          }
        }
      }
    }
  }

  /** Parsing only ever adds: every vertex, ignored line and group key stays, and every
      group's triangles stay at the front of that group. A group is never replaced. */
  lemma {:induction false} RunLinesOnlyAdds(s: ParseState, lines: seq<string>,
                                            number: string -> real)
    requires HasActive(s)
    ensures var t := RunLines(s, lines, number).state;
            s.vertices <= t.vertices && s.ignoredLines <= t.ignoredLines && s.groupOrder <= t.groupOrder
            && forall n :: n in s.groups ==> n in t.groups && s.groups[n] <= t.groups[n]
    decreases |lines|
  {
    if lines != [] {
      var o1 := StepLine(s, lines[0], number);
      StepOnlyAdds(s, lines[0], number);
      if o1.result.Ok? {
        RunLinesOnlyAdds(o1.state, lines[1..], number);
      }
    }
  }

  /** The `v` lines among some lines, in order. */
  function VLines(lines: seq<string>): (vs: seq<string>)
    ensures |vs| <= |lines|
  {
    if lines == [] then []
    else if Command(Tokens(lines[0])) == Some("v") then [lines[0]] + VLines(lines[1..])
    else VLines(lines[1..])
  }

  /** One line that does not throw appends the point of a `v` line, and only that. */
  lemma StepVertices(s: ParseState, line: string, number: string -> real)
    requires HasActive(s)
    requires StepLine(s, line, number).result.Ok?
    ensures Command(Tokens(line)) == Some("v") ==> |Tokens(line)| >= 4
    ensures StepLine(s, line, number).state.vertices
            == s.vertices + (if Command(Tokens(line)) == Some("v")
                             then [Some(ParseVertex(Tokens(line), number).value)] else [])
  {
    var parts := Tokens(line);
    if Command(parts) == Some("f") {
      assert StepLine(s, line, number) == FaceLine(s, parts, number);
    }
  }

  /** `after` is `before` followed by the points of the lines `vs`, in order. */
  ghost predicate AppendsPoints(before: seq<Option<Tuple>>, after: seq<Option<Tuple>>, vs: seq<string>,
                                number: string -> real)
  {
    |after| == |before| + |vs|
    && forall k :: 0 <= k < |vs| ==>
         |Tokens(vs[k])| >= 4 && after[|before| + k] == Some(ParseVertex(Tokens(vs[k]), number).value)
  }

  lemma AppendsPointsCons(before: seq<Option<Tuple>>, after: seq<Option<Tuple>>, line: string,
                          vs: seq<string>, number: string -> real)
    requires |Tokens(line)| >= 4
    requires AppendsPoints(before + [Some(ParseVertex(Tokens(line), number).value)], after, vs, number)
    requires before + [Some(ParseVertex(Tokens(line), number).value)] <= after
    ensures AppendsPoints(before, after, [line] + vs, number)
  {
    var all := [line] + vs;
    forall k | 0 <= k < |all|
      ensures |Tokens(all[k])| >= 4 && after[|before| + k] == Some(ParseVertex(Tokens(all[k]), number).value)
    {
      if k > 0 {
        assert all[k] == vs[k - 1];
        assert |before| + k == |before + [Some(ParseVertex(Tokens(line), number).value)]| + (k - 1);
      } else {
        assert after[|before|] == (before + [Some(ParseVertex(Tokens(line), number).value)])[|before|];
      }
    }
  }

  /** When nothing throws, vertex k is the point of the k-th `v` line: the `v` lines append
      their points in order and nothing else touches the list. */
  lemma {:induction false} VerticesFromVLines(s: ParseState, lines: seq<string>,
                                              number: string -> real)
    requires HasActive(s)
    requires RunLines(s, lines, number).result.Ok?
    ensures AppendsPoints(s.vertices, RunLines(s, lines, number).state.vertices, VLines(lines), number)
    decreases |lines|
  {
    if lines != [] {
      var o1 := StepLine(s, lines[0], number);
      StepVertices(s, lines[0], number);
      VerticesFromVLines(o1.state, lines[1..], number);
      var t := RunLines(s, lines, number).state;
      assert t == RunLines(o1.state, lines[1..], number).state;
      var rest := VLines(lines[1..]);
      if Command(Tokens(lines[0])) == Some("v") {
        assert VLines(lines) == [lines[0]] + rest;
        RunLinesOnlyAdds(o1.state, lines[1..], number);
        AppendsPointsCons(s.vertices, t.vertices, lines[0], rest, number);
      } else {
        assert VLines(lines) == rest;
        assert o1.state.vertices == s.vertices;
      }
    }
  }

  /** A run of `v` lines that all succeed leaves the offset where its first line put it. */
  lemma {:induction false} VBlockRun(s: ParseState, lines: seq<string>, number: string -> real, start: int)
    requires HasActive(s)
    requires s.lastInstruction != Some("v") ==> start == |s.vertices| - 1
    requires s.lastInstruction == Some("v") ==> start == s.lastVertexGroupIndex
    requires forall k :: 0 <= k < |lines| ==> Command(Tokens(lines[k])) == Some("v") && |Tokens(lines[k])| >= 4
    ensures var o := RunLines(s, lines, number);
            o.result.Ok? && (lines != [] ==> o.state.lastVertexGroupIndex == start)
    decreases |lines|
  {
    if lines != [] {
      var o1 := StepLine(s, lines[0], number);
      assert o1 == VertexLine(s, Tokens(lines[0]), number);
      VBlockRun(o1.state, lines[1..], number, start);
    }
  }

  lemma {:induction false} AllVLines(lines: seq<string>)
    requires forall k :: 0 <= k < |lines| ==> Command(Tokens(lines[k])) == Some("v")
    ensures VLines(lines) == lines
    decreases |lines|
  {
    if lines != [] {
      AllVLines(lines[1..]);
    }
  }

  /** Face indices count from the start of the latest run of `v` lines: after a statement
      that is not a `v`, a run of n `v` lines makes indices 1..n name its n points. */
  lemma VertexBlockIndexing(s: ParseState, lines: seq<string>, number: string -> real)
    requires HasActive(s) && s.lastInstruction != Some("v") && lines != []
    requires forall k :: 0 <= k < |lines| ==> Command(Tokens(lines[k])) == Some("v") && |Tokens(lines[k])| >= 4
    ensures var t := RunLines(s, lines, number).state;
            t.lastVertexGroupIndex == |s.vertices| - 1
            && forall k :: 0 <= k < |lines| ==>
                 VertexAt(t.vertices, t.lastVertexGroupIndex, (k + 1) as real)
                   == Some(ParseVertex(Tokens(lines[k]), number).value)
  {
    VBlockRun(s, lines, number, |s.vertices| - 1);
    var t := RunLines(s, lines, number).state;
    AllVLines(lines);
    VerticesFromVLines(s, lines, number);
    IndexingAfterAppend(s.vertices, t.vertices, lines, number);
  }

  lemma IndexingAfterAppend(before: seq<Option<Tuple>>, after: seq<Option<Tuple>>, lines: seq<string>,
                            number: string -> real)
    requires AppendsPoints(before, after, lines, number)
    ensures forall k :: 0 <= k < |lines| ==>
              VertexAt(after, |before| - 1, (k + 1) as real) == Some(ParseVertex(Tokens(lines[k]), number).value)
  {
    forall k | 0 <= k < |lines|
      ensures VertexAt(after, |before| - 1, (k + 1) as real) == Some(ParseVertex(Tokens(lines[k]), number).value)
    {
      var idx := (k + 1) as real;
      assert idx.Floor == k + 1;
      assert |before| - 1 + idx.Floor == |before| + k;
    }
  }



  /* ---------------- toGroup ---------------- */

  /** A group of the result of `toGroup`, with the name it is given. */
  datatype NamedGroup = NamedGroup(name: string, shapes: seq<Face>)

  /** `toGroup()` on the keys in `order`: the groups that hold at least one triangle, each
      named by its key, in key order. */
  function CollectGroups(order: seq<string>, groups: map<string, seq<Face>>): (res: seq<NamedGroup>)
    requires forall k :: 0 <= k < |order| ==> order[k] in groups
    ensures |res| <= |order|
    ensures forall g :: g in res ==> g.name in order && g.name in groups && groups[g.name] == g.shapes && g.shapes != []
  {
    if order == [] then []
    else
      var rest := CollectGroups(order[1..], groups);
      if groups[order[0]] != [] then [NamedGroup(order[0], groups[order[0]])] + rest else rest
  }

  /** Every key whose group is not empty is in the result. */
  lemma {:induction false} CollectGroupsComplete(order: seq<string>, groups: map<string, seq<Face>>)
    requires forall k :: 0 <= k < |order| ==> order[k] in groups
    ensures forall k :: 0 <= k < |order| && groups[order[k]] != [] ==>
              NamedGroup(order[k], groups[order[k]]) in CollectGroups(order, groups)
    decreases |order|
  {
    if order != [] {
      CollectGroupsComplete(order[1..], groups);
      forall k | 0 < k < |order|
        ensures order[k] == order[1..][k - 1]
      {
      }
    }
  }

  /** The groups `toGroup` adds are exactly the non-empty groups. */
  lemma ToGroupContents(s: ParseState, name: string, shapes: seq<Face>)
    requires WellFormed(s)
    ensures NamedGroup(name, shapes) in CollectGroups(s.groupOrder, s.groups)
            <==> name in s.groups && s.groups[name] == shapes && shapes != []
  {
    if name in s.groups && s.groups[name] == shapes && shapes != [] {
      assert name in s.groupOrder;
      var k :| 0 <= k < |s.groupOrder| && s.groupOrder[k] == name;
      CollectGroupsComplete(s.groupOrder, s.groups);
    }
  }

  /* ---------------- The parser object ---------------- */

  class Parser {
    var ignoredLines: seq<string>
    var vertices: seq<Option<Tuple>>
    var lastInstruction: Option<string>
    var lastVertexGroupIndex: int
    var groups: map<string, seq<Face>>
    var groupOrder: seq<string>
    var activeGroup: string

    function State(): ParseState
      reads this
    {
      ParseState(ignoredLines, vertices, lastInstruction, lastVertexGroupIndex, groups, groupOrder, activeGroup)
    }

    ghost predicate Valid()
      reads this
    {
      WellFormed(State())
    }

    /** `new Parser()`: no ignored lines, the `null` vertex 0, no last instruction, offset 0,
        and only the empty default group, which is active. */
    constructor ()
      ensures State() == Initial() && Valid()
    {
      ignoredLines := [];
      vertices := [None];
      lastInstruction := None;
      lastVertexGroupIndex := 0;
      groups := map[DEFAULT_GROUP := []];
      groupOrder := [DEFAULT_GROUP];
      activeGroup := DEFAULT_GROUP;
    }

    /** The default group's triangles: the group made under "default", which is never replaced. */
    function DefaultGroup(): (shapes: seq<Face>)
      reads this
      requires Valid()
      ensures shapes == groups[DEFAULT_GROUP]
    {
      groups[DEFAULT_GROUP]
    }

    /** `getGroupByName(name)`: the group under that key, or `undefined`. */
    function GetGroupByName(name: string): (g: Option<seq<Face>>)
      reads this
      ensures g.Some? <==> name in groups
      ensures g.Some? ==> g.value == groups[name]
    {
      if name in groups then Some(groups[name]) else None
    }

    /** `createGroup(name)`: a new empty group under the key; a new key goes last in the key
        order, an existing one keeps its place. */
    method CreateGroup(name: string)
      requires Valid()
      modifies this
      ensures Valid()
      ensures groups == old(groups)[name := []]
      ensures groupOrder == if name in old(groups) then old(groupOrder) else old(groupOrder) + [name]
      ensures vertices == old(vertices) && ignoredLines == old(ignoredLines) && activeGroup == old(activeGroup)
      ensures lastInstruction == old(lastInstruction) && lastVertexGroupIndex == old(lastVertexGroupIndex)
    {
      if name !in groups {
        groupOrder := groupOrder + [name];
      }
      groups := groups[name := []];
    }

    /** `getVertexByIndex(idx)`. */
    function GetVertexByIndex(idx: real): (v: Option<Tuple>)
      reads this
      ensures v.Some? ==> 0 <= lastVertexGroupIndex + idx.Floor < |vertices|
                          && idx == idx.Floor as real && vertices[lastVertexGroupIndex + idx.Floor] == v
    {
      VertexAt(vertices, lastVertexGroupIndex, idx)
    }

    /** `triangulatePolygon(parts)`: the loop over the fan, which throws at the first
        triangle with a missing corner. */
    method TriangulatePolygon(parts: seq<string>, number: string -> real)
      returns (r: Result<seq<Face>>)
      ensures r == Triangulate(State(), parts, number)
    {
      var v1 := if 1 < |parts| then GetVertexByIndex(number(parts[1])) else None;
      var triangles: seq<Face> := [];
      var index := 2;
      PrependNothing(FanFrom(State(), parts, 2, number));
      while index < |parts| - 1
        invariant 2 <= index
        invariant Triangulate(State(), parts, number)
                  == PrependOk(triangles, FanFrom(State(), parts, index, number))
        decreases |parts| - index
      {
        var v2 := GetVertexByIndex(number(parts[index]));
        var v3 := GetVertexByIndex(number(parts[index + 1]));
        var t := NewTriangle(v1, v2, v3);
        if t.Err? {
          return Err(t.fault);
        }
        PrependStep(triangles, t.value, FanFrom(State(), parts, index + 1, number));
        triangles := triangles + [t.value];
        index := index + 1;
      }
      assert FanFrom(State(), parts, index, number) == Ok([]);
      assert triangles + [] == triangles;
      r := Ok(triangles);
    }

    /** `parseLine(line)`. */
    method ParseLine(line: string, number: string -> real) returns (r: Result<()>)
      requires Valid()
      modifies this
      ensures Valid()
      ensures Outcome(r, State()) == StepLine(old(State()), line, number)
    {
      StepKeepsWellFormed(State(), line, number);
      var parts := Tokens(line);
      var command := Command(parts);
      if command == Some("v") {
        r := VertexCase(parts, number);
      } else if command == Some("f") {
        r := FaceCase(parts, number);
      } else if command == Some("g") {
        var groupName := GroupName(parts);
        if GetGroupByName(groupName).None? {
          CreateGroup(groupName);
        }
        activeGroup := groupName;
        r := Ok(());
      } else {
        ignoredLines := ignoredLines + [line];
        r := Ok(());
      }
    }

    /** The `v` case of `parseLine`: a new vertex block starts after any other instruction. */
    method VertexCase(parts: seq<string>, number: string -> real) returns (r: Result<()>)
      requires HasActive(State())
      modifies this
      ensures Outcome(r, State()) == VertexLine(old(State()), parts, number)
    {
      if lastInstruction != Some("v") {
        lastVertexGroupIndex := |vertices| - 1;
      }
      var p := ParseVertex(parts, number);
      if p.Err? {
        return Err(p.fault);
      }
      vertices := vertices + [Some(p.value)];
      lastInstruction := Some("v");
      r := Ok(());
    }

    /** The `f` case of `parseLine`: a polygon is fanned into triangles, three indices make
        one triangle; either way they join the active group. */
    method FaceCase(parts: seq<string>, number: string -> real) returns (r: Result<()>)
      requires HasActive(State())
      modifies this
      ensures Outcome(r, State()) == FaceLine(old(State()), parts, number)
    {
      if |parts| > 4 {
        var ts := TriangulatePolygon(parts, number);
        if ts.Err? {
          return Err(ts.fault);
        }
        groups := groups[activeGroup := groups[activeGroup] + ts.value];
      } else {
        var t := ParseFace(State(), parts, number);
        if t.Err? {
          return Err(t.fault);
        }
        groups := groups[activeGroup := groups[activeGroup] + [t.value]];
      }
      lastInstruction := Some("f");
      r := Ok(());
    }

    /** `parseString(str)`: the lines between "\n" characters, in order; the first line that
        throws ends the parse. */
    method ParseString(str: string, number: string -> real) returns (r: Result<()>)
      requires Valid()
      modifies this
      ensures Valid()
      ensures Outcome(r, State()) == RunLines(old(State()), Split(str, '\n'), number)
    {
      var lines := Split(str, '\n');
      var i := 0;
      while i < |lines|
        invariant 0 <= i <= |lines| && Valid()
        invariant RunLines(old(State()), lines, number) == RunLines(State(), lines[i..], number)
      {
        assert lines[i..][1..] == lines[i + 1..];
        r := ParseLine(lines[i], number);
        if r.Err? {
          return;
        }
        i := i + 1;
      }
      r := Ok(());
    }

    /** `toGroup()`, as values: the non-empty groups named by their keys, in key order. */
    function ToGroup(): (res: seq<NamedGroup>)
      reads this
      requires Valid()
      ensures forall g :: g in res ==> g.name in groups && groups[g.name] == g.shapes && g.shapes != []
      ensures forall n :: n in groups && groups[n] != [] ==> NamedGroup(n, groups[n]) in res
    {
      forall n | n in groups && groups[n] != []
        ensures NamedGroup(n, groups[n]) in CollectGroups(groupOrder, groups)
      {
        ToGroupContents(State(), n, groups[n]);
      }
      CollectGroups(groupOrder, groups)
    }
  }

  lemma PrependNothing(r: Result<seq<Face>>)
    ensures PrependOk([], r) == r
  {
    if r.Ok? {
      assert [] + r.value == r.value;
    }
  }

  lemma PrependStep(ts: seq<Face>, t: Face, rest: Result<seq<Face>>)
    ensures PrependOk(ts, PrependOk([t], rest)) == PrependOk(ts + [t], rest)
  {
    if rest.Ok? {
      assert ts + ([t] + rest.value) == ts + [t] + rest.value;
    }
  }

  /** `parseObjFile(input)`: a new parser fed the whole text. A throw leaves the caller with
      no parser, so the outcome is reported beside it. */
  method ParseObjFile(input: string, number: string -> real)
    returns (parser: Parser, r: Result<()>)
    ensures fresh(parser) && parser.Valid()
    ensures Outcome(r, parser.State()) == RunLines(Initial(), Split(input, '\n'), number)
  {
    parser := new Parser();
    r := parser.ParseString(input, number);
  }
}
