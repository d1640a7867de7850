/**
 * The line state machine of Mesh.FromSTL (Mesh.cs:232-270) on values: the
 * positions of the vertices read so far, the triangles as index triples and
 * the vertex cache of the current facet. Reading the file and parsing numbers
 * are outside the model: the lines are given, and `parse` stands for
 * splitting a "vertex" line and converting its three numbers to metres.
 */
module Stl {
  import opened Wrappers
  import opened Geometry
  import opened MeshLayout

  /**
   * char.IsWhiteSpace: the Unicode space separators (U+0020, U+00A0, U+1680,
   * U+2000 to U+200A, U+202F, U+205F, U+3000), the line and paragraph
   * separators (U+2028, U+2029), and U+0009 to U+000D and U+0085.
   */
  predicate IsWhiteSpace(ch: char)
  {
    || ('\U{0009}' <= ch <= '\U{000D}') || ch == ' ' || ch == '\U{0085}' || ch == '\U{00A0}'
    || ch == '\U{1680}' || ('\U{2000}' <= ch <= '\U{200A}') || ch == '\U{2028}' || ch == '\U{2029}'
    || ch == '\U{202F}' || ch == '\U{205F}' || ch == '\U{3000}'
  }

  /** How many white-space characters the line starts with. */
  function LeadingSpace(s: string): (k: nat)
    ensures k <= |s|
    ensures forall i :: 0 <= i < k ==> IsWhiteSpace(s[i])
    ensures k == |s| || !IsWhiteSpace(s[k])
  {
    if |s| > 0 && IsWhiteSpace(s[0]) then 1 + LeadingSpace(s[1..]) else 0
  }

  /** string.TrimStart(): the line without its leading white space. */
  function TrimStart(s: string): string
  {
    s[LeadingSpace(s)..]
  }

  /** string.StartsWith(prefix), compared character by character. */
  predicate StartsWith(s: string, prefix: string)
  {
    |prefix| <= |s| && s[..|prefix|] == prefix
  }

  /** vertexCache[k] past the end of the cache: ArgumentOutOfRangeException. */
  datatype StlError = CacheTooShort(count: nat)

  /**
   * The reader's state: the positions of the vertices added so far (vertex i
   * has index i), the triangles as index triples, and the indices of the
   * cached vertices.
   */
  datatype StlState = StlState(positions: seq<Vec3>, faces: seq<TriangleData>, cache: seq<nat>)

  const StlStart := StlState([], [], [])

  /** A trimmed line starting with "facet" empties the cache (Mesh.cs:246-249). */
  function FacetLine(st: StlState, l: string): StlState
  {
    if StartsWith(l, "facet") then st.(cache := []) else st
  }

  /**
   * A trimmed line starting with "vertex" adds a vertex, numbered with the
   * count so far, and caches it (Mesh.cs:251-260).
   */
  function VertexLine(st: StlState, l: string, parse: string -> Vec3): StlState
  {
    if StartsWith(l, "vertex") then Added(st, parse(l)) else st
  }

  /** The state after adding the vertex at `p`: numbered with the count so far, and cached. */
  function Added(st: StlState, p: Vec3): (r: StlState)
    ensures r.positions == st.positions + [p] && r.faces == st.faces
    ensures r.cache == st.cache + [|st.positions|]
  {
    StlState(st.positions + [p], st.faces, st.cache + [|st.positions|])
  }

  /**
   * A trimmed line starting with "endfacet" adds a triangle on the first three
   * cached vertices, or fails when fewer are cached (Mesh.cs:262-266).
   */
  function EndfacetLine(st: StlState, l: string): Result<StlState, StlError>
  {
    if !StartsWith(l, "endfacet") then Ok(st)
    else if |st.cache| < 3 then Failure(CacheTooShort(|st.cache|))
    else Ok(st.(faces := st.faces + [TriangleData(st.cache[0], st.cache[1], st.cache[2])]))
  }

  /** One line: trimmed, then the three tests in turn (Mesh.cs:244-266). */
  function StlLine(st: StlState, line: string, parse: string -> Vec3): Result<StlState, StlError>
  {
    var l := TrimStart(line);
    EndfacetLine(VertexLine(FacetLine(st, l), l, parse), l)
  }

  /**
   * What one line does, by the prefix of its trimmed text. The three prefixes
   * exclude each other, so at most one case applies.
   */
  lemma StlLineCases(st: StlState, line: string, parse: string -> Vec3)
    ensures StartsWith(TrimStart(line), "facet") ==> StlLine(st, line, parse) == Ok(st.(cache := []))
    ensures StartsWith(TrimStart(line), "vertex") ==>
      StlLine(st, line, parse) == Ok(Added(st, parse(TrimStart(line))))
    ensures StartsWith(TrimStart(line), "endfacet") ==>
      StlLine(st, line, parse) ==
        if |st.cache| < 3 then Failure(CacheTooShort(|st.cache|))
        else Ok(st.(faces := st.faces + [TriangleData(st.cache[0], st.cache[1], st.cache[2])]))
    ensures (!StartsWith(TrimStart(line), "facet") && !StartsWith(TrimStart(line), "vertex") &&
             !StartsWith(TrimStart(line), "endfacet")) ==> StlLine(st, line, parse) == Ok(st)
  {
    var l := TrimStart(line);
    if StartsWith(l, "facet") {
      FirstCharDiffers(l, "vertex");
      FirstCharDiffers(l, "endfacet");
    }
    if StartsWith(l, "vertex") {
      FirstCharDiffers(l, "facet");
      FirstCharDiffers(l, "endfacet");
    }
    if StartsWith(l, "endfacet") {
      FirstCharDiffers(l, "facet");
      FirstCharDiffers(l, "vertex");
    }
  }

  /** A line starting with a non-empty prefix starts with the prefix's first character. */
  lemma StartsWithFirst(l: string, p: string)
    requires |p| > 0
    ensures StartsWith(l, p) ==> l[0] == p[0]
  {
    if StartsWith(l, p) {
      assert l[..|p|][0] == l[0];
    }
  }

  /** Two prefixes with different first characters cannot both start a line. */
  lemma FirstCharDiffers(l: string, p: string)
    requires |p| > 0
    ensures StartsWith(l, p) ==> forall q :: |q| > 0 && q[0] != p[0] ==> !StartsWith(l, q)
  {
    StartsWithFirst(l, p);
    forall q | |q| > 0
      ensures StartsWith(l, q) ==> l[0] == q[0]
    {
      StartsWithFirst(l, q);
    }
  }

  /** The reader over a sequence of lines, stopping at the first exception. */
  function StlRun(st: StlState, lines: seq<string>, parse: string -> Vec3): Result<StlState, StlError>
    decreases |lines|
  {
    if lines == [] then Ok(st)
    else
      match StlLine(st, lines[0], parse)
      case Failure(e) => Failure(e)
      case Ok(next) => StlRun(next, lines[1..], parse)
  }

  /** Reading two blocks of lines is reading the first, then the second from where it left off. */
  lemma {:induction false} StlRunAppend(st: StlState, a: seq<string>, b: seq<string>, parse: string -> Vec3)
    ensures StlRun(st, a + b, parse) ==
      match StlRun(st, a, parse)
      case Failure(e) => Failure(e)
      case Ok(mid) => StlRun(mid, b, parse)
    decreases |a|
  {
    if a != [] {
      assert (a + b)[0] == a[0] && (a + b)[1..] == a[1..] + b;
      match StlLine(st, a[0], parse)
      case Failure(e) =>
        assert StlRun(st, a + b, parse) == Failure(e);
      case Ok(next) =>
        assert StlRun(st, a + b, parse) == StlRun(next, a[1..] + b, parse);
        StlRunAppend(next, a[1..], b, parse);
    } else {
      assert a + b == b;
    }
  }

  /** How many of the lines, once trimmed, start with `prefix`. */
  function CountStarting(lines: seq<string>, prefix: string): (n: nat)
    ensures n <= |lines|
  {
    if lines == [] then 0
    else (if StartsWith(TrimStart(lines[0]), prefix) then 1 else 0) + CountStarting(lines[1..], prefix)
  }

  /**
   * Every index the reader records, in a triangle or in the cache, names a
   * vertex read so far.
   */
  ghost predicate InRange(st: StlState)
  {
    && (forall k :: 0 <= k < |st.cache| ==> st.cache[k] < |st.positions|)
    && (forall k :: 0 <= k < |st.faces| ==>
          st.faces[k].a < |st.positions| && st.faces[k].b < |st.positions| && st.faces[k].c < |st.positions|)
    && (forall k :: 0 <= k < |st.faces| ==> 0 <= st.faces[k].a && 0 <= st.faces[k].b && 0 <= st.faces[k].c)
  }

  /**
   * Each "vertex" line adds exactly one vertex and each "endfacet" line exactly
   * one triangle; the other lines add neither. Every triangle refers to
   * vertices that exist.
   */
  lemma {:induction false} StlRunCounts(st: StlState, lines: seq<string>, parse: string -> Vec3)
    requires InRange(st)
    requires StlRun(st, lines, parse).Ok?
    ensures |StlRun(st, lines, parse).value.positions| == |st.positions| + CountStarting(lines, "vertex")
    ensures |StlRun(st, lines, parse).value.faces| == |st.faces| + CountStarting(lines, "endfacet")
    ensures InRange(StlRun(st, lines, parse).value)
    decreases |lines|
  {
    if lines != [] {
      var next := StlLine(st, lines[0], parse).value;
      StlLineInRange(st, lines[0], parse);
      StlRunCounts(next, lines[1..], parse);
    }
  }

  /**
   * Reading a whole file from the start: one vertex per "vertex" line, one
   * triangle per "endfacet" line, and every triangle on vertices read.
   */
  lemma StlReadCounts(lines: seq<string>, parse: string -> Vec3)
    requires StlRun(StlStart, lines, parse).Ok?
    ensures |StlRun(StlStart, lines, parse).value.positions| == CountStarting(lines, "vertex")
    ensures |StlRun(StlStart, lines, parse).value.faces| == CountStarting(lines, "endfacet")
    ensures InRange(StlRun(StlStart, lines, parse).value)
  {
    StlRunCounts(StlStart, lines, parse);
  }

  /** One line keeps InRange, and adds one vertex or one triangle exactly as its prefix says. */
  lemma StlLineInRange(st: StlState, line: string, parse: string -> Vec3)
    requires InRange(st)
    requires StlLine(st, line, parse).Ok?
    ensures InRange(StlLine(st, line, parse).value)
    ensures |StlLine(st, line, parse).value.positions| ==
      |st.positions| + (if StartsWith(TrimStart(line), "vertex") then 1 else 0)
    ensures |StlLine(st, line, parse).value.faces| ==
      |st.faces| + (if StartsWith(TrimStart(line), "endfacet") then 1 else 0)
  {
    var l := TrimStart(line);
    var st2 := VertexLine(FacetLine(st, l), l, parse);
    assert InRange(st2);
  }

  /** A line that starts, once trimmed, with none of the three keywords ("outer loop", "endloop", ...). */
  predicate Plain(line: string)
  {
    var l := TrimStart(line);
    !StartsWith(l, "facet") && !StartsWith(l, "vertex") && !StartsWith(l, "endfacet")
  }

  /** How the fixed lines of a facet block classify once trimmed. */
  lemma FacetLineKind()
    ensures StartsWith(TrimStart("facet normal 0 0 1"), "facet")
  {
    assert LeadingSpace("facet normal 0 0 1") == 0;
  }

  lemma OuterLoopKind()
    ensures !StartsWith(TrimStart("outer loop"), "facet") && !StartsWith(TrimStart("outer loop"), "vertex")
    ensures !StartsWith(TrimStart("outer loop"), "endfacet")
  {
    assert LeadingSpace("outer loop") == 0;
    StartsWithFirst("outer loop", "facet");
    StartsWithFirst("outer loop", "vertex");
    StartsWithFirst("outer loop", "endfacet");
  }

  lemma EndloopKind()
    ensures !StartsWith(TrimStart("endloop"), "facet") && !StartsWith(TrimStart("endloop"), "vertex")
    ensures !StartsWith(TrimStart("endloop"), "endfacet")
  {
    assert LeadingSpace("endloop") == 0;
    StartsWithFirst("endloop", "facet");
    StartsWithFirst("endloop", "vertex");
  }

  lemma EndfacetKind()
    ensures StartsWith(TrimStart("endfacet"), "endfacet")
  {
    assert LeadingSpace("endfacet") == 0;
  }

  /** A block whose first line succeeds continues, after that line, from the state it leaves. */
  lemma StlRunStep(st: StlState, line: string, rest: seq<string>, parse: string -> Vec3)
    requires StlLine(st, line, parse).Ok?
    ensures StlRun(st, [line] + rest, parse) == StlRun(StlLine(st, line, parse).value, rest, parse)
  {
    assert ([line] + rest)[0] == line && ([line] + rest)[1..] == rest;
  }

  /** From line k on, a "vertex" line adds and caches its vertex, then the rest runs. */
  lemma VertexRun(st: StlState, lines: seq<string>, k: nat, parse: string -> Vec3)
    requires k < |lines| && StartsWith(TrimStart(lines[k]), "vertex")
    ensures StlRun(st, lines[k..], parse) == StlRun(Added(st, parse(TrimStart(lines[k]))), lines[k + 1..], parse)
  {
    StlLineCases(st, lines[k], parse);
    assert lines[k..][0] == lines[k] && lines[k..][1..] == lines[k + 1..];
  }

  /** From line k on, a plain line changes nothing. */
  lemma PlainRun(st: StlState, lines: seq<string>, k: nat, parse: string -> Vec3)
    requires k < |lines| && Plain(lines[k])
    ensures StlRun(st, lines[k..], parse) == StlRun(st, lines[k + 1..], parse)
  {
    StlLineCases(st, lines[k], parse);
    assert lines[k..][0] == lines[k] && lines[k..][1..] == lines[k + 1..];
  }

  /** A plain line then a closing "endfacet" with three vertices cached adds the triangle on them. */
  lemma CloseFacet(st: StlState, lines: seq<string>, parse: string -> Vec3)
    requires |lines| == 2 && Plain(lines[0]) && StartsWith(TrimStart(lines[1]), "endfacet")
    requires |st.cache| >= 3
    ensures StlRun(st, lines, parse) ==
      Ok(st.(faces := st.faces + [TriangleData(st.cache[0], st.cache[1], st.cache[2])]))
  {
    StlLineCases(st, lines[1], parse);
    PlainRun(st, lines, 0, parse);
    assert lines[1..][0] == lines[1] && lines[1..][1..] == [];
  }

  /** Three "vertex" lines in a row add and cache their three vertices. */
  lemma ThreeVertices(st: StlState, lines: seq<string>, k: nat, parse: string -> Vec3)
    requires k + 3 <= |lines|
    requires StartsWith(TrimStart(lines[k]), "vertex")
    requires StartsWith(TrimStart(lines[k + 1]), "vertex")
    requires StartsWith(TrimStart(lines[k + 2]), "vertex")
    ensures StlRun(st, lines[k..], parse) ==
      StlRun(Added(Added(Added(st, parse(TrimStart(lines[k]))), parse(TrimStart(lines[k + 1]))), parse(TrimStart(lines[k + 2]))),
             lines[k + 3..], parse)
  {
    var s1 := Added(st, parse(TrimStart(lines[k])));
    var s2 := Added(s1, parse(TrimStart(lines[k + 1])));
    VertexRun(st, lines, k, parse);
    VertexRun(s1, lines, k + 1, parse);
    VertexRun(s2, lines, k + 2, parse);
  }

  /** Adding three vertices to a state with an empty cache leaves exactly those three cached. */
  lemma AddedThree(st: StlState, p0: Vec3, p1: Vec3, p2: Vec3)
    requires st.cache == []
    ensures var n := |st.positions|;
      Added(Added(Added(st, p0), p1), p2) == StlState(st.positions + [p0, p1, p2], st.faces, [n, n + 1, n + 2])
  {
    var s3 := Added(Added(Added(st, p0), p1), p2);
    assert s3.positions == st.positions + [p0, p1, p2];
  }

  /**
   * Three "vertex" lines, a plain line and an "endfacet" line, read with an
   * empty cache, add the three vertices and the triangle on them.
   */
  lemma FacetBody(st: StlState, lines: seq<string>, k: nat, parse: string -> Vec3)
    requires st.cache == [] && k + 5 == |lines|
    requires StartsWith(TrimStart(lines[k]), "vertex")
    requires StartsWith(TrimStart(lines[k + 1]), "vertex")
    requires StartsWith(TrimStart(lines[k + 2]), "vertex")
    requires Plain(lines[k + 3]) && StartsWith(TrimStart(lines[k + 4]), "endfacet")
    ensures StlRun(st, lines[k..], parse) ==
      Ok(StlState(st.positions + [parse(TrimStart(lines[k])), parse(TrimStart(lines[k + 1])), parse(TrimStart(lines[k + 2]))],
                  st.faces + [TriangleData(|st.positions|, |st.positions| + 1, |st.positions| + 2)],
                  [|st.positions|, |st.positions| + 1, |st.positions| + 2]))
  {
    var p0, p1, p2 := parse(TrimStart(lines[k])), parse(TrimStart(lines[k + 1])), parse(TrimStart(lines[k + 2]));
    ThreeVertices(st, lines, k, parse);
    AddedThree(st, p0, p1, p2);
    var s3 := Added(Added(Added(st, p0), p1), p2);
    assert lines[k + 3..][0] == lines[k + 3] && lines[k + 3..][1] == lines[k + 4];
    CloseFacet(s3, lines[k + 3..], parse);
  }

  /**
   * A complete facet block (a "facet" line, a plain line, three "vertex"
   * lines, a plain line, an "endfacet" line) adds its three vertices and one
   * triangle on them, numbered from the count so far, whatever was cached
   * before it.
   */
  lemma FacetAddsOneTriangle(st: StlState, lines: seq<string>, parse: string -> Vec3)
    requires |lines| == 7
    requires StartsWith(TrimStart(lines[0]), "facet") && Plain(lines[1])
    requires StartsWith(TrimStart(lines[2]), "vertex")
    requires StartsWith(TrimStart(lines[3]), "vertex")
    requires StartsWith(TrimStart(lines[4]), "vertex")
    requires Plain(lines[5]) && StartsWith(TrimStart(lines[6]), "endfacet")
    ensures StlRun(st, lines, parse).Ok?
    ensures StlRun(st, lines, parse).value.positions ==
      st.positions + [parse(TrimStart(lines[2])), parse(TrimStart(lines[3])), parse(TrimStart(lines[4]))]
    ensures StlRun(st, lines, parse).value.faces ==
      st.faces + [TriangleData(|st.positions|, |st.positions| + 1, |st.positions| + 2)]
  {
    var s0 := st.(cache := []);
    StlLineCases(st, lines[0], parse);
    PlainRun(s0, lines, 1, parse);
    FacetBody(s0, lines, 2, parse);
  }

  /** The fixed lines an STL exporter writes around a facet's vertices fit FacetAddsOneTriangle. */
  lemma ExporterFacetLines()
    ensures StartsWith(TrimStart("facet normal 0 0 1"), "facet")
    ensures Plain("outer loop") && Plain("endloop")
    ensures StartsWith(TrimStart("endfacet"), "endfacet")
  {
    FacetLineKind();
    OuterLoopKind();
    EndloopKind();
    EndfacetKind();
  }

  /** An "endfacet" right after "facet" is the index exception: the cache is empty. */
  lemma EmptyFacetFails(st: StlState, parse: string -> Vec3)
    ensures StlRun(st, ["facet normal 0 0 1", "endfacet"], parse) == Failure(CacheTooShort(0))
  {
    var lines := ["facet normal 0 0 1", "endfacet"];
    FacetLineKind();
    EndfacetKind();
    var s0 := st.(cache := []);
    StlLineCases(st, lines[0], parse);
    StlLineCases(s0, lines[1], parse);
    assert StlRun(st, lines, parse) == StlRun(s0, lines[1..], parse);
  }

  /** A line indented with a no-break space is still a "vertex" line once trimmed. */
  lemma NoBreakSpaceVertex(st: StlState, parse: string -> Vec3)
    ensures StlLine(st, "\U{00A0}vertex 1 2 3", parse) == Ok(Added(st, parse("vertex 1 2 3")))
  {
    assert LeadingSpace("vertex 1 2 3") == 0;
    assert TrimStart("\U{00A0}vertex 1 2 3") == "vertex 1 2 3";
    StlLineCases(st, "\U{00A0}vertex 1 2 3", parse);
  }
}
