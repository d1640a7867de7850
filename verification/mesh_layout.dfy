/**
 * The byte layout and bounds that Mesh.GetBuffers produces, stated over plain
 * vertex and triangle values. `Buffers` is the specification; the method
 * `BuildBuffers` is the source's loop, proved to compute it.
 */
module MeshLayout {
  import opened Bytes
  import opened Geometry
  import opened Wrappers

  /** What GetBuffers reads from one Vertex object. */
  datatype VertexData = VertexData(position: Vec3, normal: Vec3, color: Color, uv: UV, index: int)

  /** What GetBuffers reads from one Triangle: the Index of its three vertices, in order. */
  datatype TriangleData = TriangleData(a: int, b: int, c: int)

  /**
   * The fifteen out-parameters of GetBuffers, in the order the method declares
   * them (Mesh.cs:304-308): note `vMax` before `vMin` and `uvMin` before `uvMax`.
   */
  datatype MeshBuffers = MeshBuffers(
    vertexBuffer: seq<byte>, indexBuffer: seq<byte>, normalBuffer: seq<byte>,
    colorBuffer: seq<byte>, uvBuffer: seq<byte>,
    vMax: seq<real>, vMin: seq<real>, nMin: seq<real>, nMax: seq<real>,
    cMin: seq<real>, cMax: seq<real>, indexMin: nat, indexMax: nat,
    uvMin: seq<real>, uvMax: seq<real>)

  /** The exceptions GetBuffers can raise. */
  datatype BufferError =
    | NoVertices      // `_vertices[0]` on an empty list (Mesh.cs:318)
    | NoColorBounds   // `c_max[0]` on the empty array kept when vertex 0 is uncolored (Mesh.cs:386-393)

  function Vec3Bytes(p: Vec3): (r: seq<byte>)
    ensures |r| == 3 * FloatSize
  {
    F32(p.x) + F32(p.y) + F32(p.z)
  }

  function UVBytes(t: UV): (r: seq<byte>)
    ensures |r| == 2 * FloatSize
  {
    F32(t.u) + F32(t.v)
  }

  function RGB(c: Color): Vec3 { Vec3(c.red, c.green, c.blue) }

  /** `!v.Color.Equals(default(Color))`. */
  predicate Colored(v: VertexData) { v.color != DefaultColor }

  function PositionBytes(vs: seq<VertexData>): (r: seq<byte>)
    ensures |r| == 12 * |vs|
  {
    if vs == [] then [] else PositionBytes(vs[..|vs| - 1]) + Vec3Bytes(vs[|vs| - 1].position)
  }

  function NormalBytes(vs: seq<VertexData>): (r: seq<byte>)
    ensures |r| == 12 * |vs|
  {
    if vs == [] then [] else NormalBytes(vs[..|vs| - 1]) + Vec3Bytes(vs[|vs| - 1].normal)
  }

  function TexCoordBytes(vs: seq<VertexData>): (r: seq<byte>)
    ensures |r| == 8 * |vs|
  {
    if vs == [] then [] else TexCoordBytes(vs[..|vs| - 1]) + UVBytes(vs[|vs| - 1].uv)
  }

  /** The colors of the colored vertices, in order; uncolored vertices are skipped. */
  function ColoredRGB(vs: seq<VertexData>): (r: seq<Vec3>)
    ensures |r| <= |vs|
    ensures |vs| > 0 && Colored(vs[0]) ==> |r| > 0 && r[0] == RGB(vs[0].color)
  {
    if vs == [] then []
    else ColoredRGB(vs[..|vs| - 1]) + (if Colored(vs[|vs| - 1]) then [RGB(vs[|vs| - 1].color)] else [])
  }

  /** The color bytes written at the running offset `ci`: colored vertices only, packed. */
  function ColorRun(vs: seq<VertexData>): (r: seq<byte>)
    ensures |r| == 12 * |ColoredRGB(vs)|
  {
    if vs == [] then []
    else ColorRun(vs[..|vs| - 1]) + (if Colored(vs[|vs| - 1]) then Vec3Bytes(RGB(vs[|vs| - 1].color)) else [])
  }

  function TriangleBytes(t: TriangleData): (r: seq<byte>)
    ensures |r| == 3 * UshortSize
  {
    U16(t.a) + U16(t.b) + U16(t.c)
  }

  function IndexBytes(ts: seq<TriangleData>): (r: seq<byte>)
    ensures |r| == 6 * |ts|
  {
    if ts == [] then [] else IndexBytes(ts[..|ts| - 1]) + TriangleBytes(ts[|ts| - 1])
  }

  function Positions(vs: seq<VertexData>): (r: seq<Vec3>)
    ensures |r| == |vs|
  {
    if vs == [] then [] else Positions(vs[..|vs| - 1]) + [vs[|vs| - 1].position]
  }

  function Normals(vs: seq<VertexData>): (r: seq<Vec3>)
    ensures |r| == |vs|
  {
    if vs == [] then [] else Normals(vs[..|vs| - 1]) + [vs[|vs| - 1].normal]
  }

  function UCoords(vs: seq<VertexData>): (r: seq<real>)
    ensures |r| == |vs|
  {
    if vs == [] then [] else UCoords(vs[..|vs| - 1]) + [vs[|vs| - 1].uv.u]
  }

  function VCoords(vs: seq<VertexData>): (r: seq<real>)
    ensures |r| == |vs|
  {
    if vs == [] then [] else VCoords(vs[..|vs| - 1]) + [vs[|vs| - 1].uv.v]
  }

  /** The projections list the attributes of the vertices, in vertex order. */
  lemma {:induction false} ProjectionsAt(vs: seq<VertexData>)
    ensures forall i :: 0 <= i < |vs| ==> Positions(vs)[i] == vs[i].position && Normals(vs)[i] == vs[i].normal
    ensures forall i :: 0 <= i < |vs| ==> UCoords(vs)[i] == vs[i].uv.u && VCoords(vs)[i] == vs[i].uv.v
  {
    if vs != [] {
      var p := vs[..|vs| - 1];
      ProjectionsAt(p);
      assert forall i :: 0 <= i < |p| ==> p[i] == vs[i];
    }
  }

  /** index_min: Math.Min over `(ushort)v.Index`, starting from ushort.MaxValue. */
  function IndexMin(vs: seq<VertexData>): (m: nat)
    ensures m <= UshortMax
  {
    if vs == [] then UshortMax
    else var m := IndexMin(vs[..|vs| - 1]); var u := ToUshort(vs[|vs| - 1].index); if u < m then u else m
  }

  /** index_max: Math.Max over `(ushort)v.Index`, starting from ushort.MinValue. */
  function IndexMax(vs: seq<VertexData>): (m: nat)
    ensures m <= UshortMax
  {
    if vs == [] then 0
    else var m := IndexMax(vs[..|vs| - 1]); var u := ToUshort(vs[|vs| - 1].index); if u > m then u else m
  }

  /** Some vertex of `vs` is colored. */
  predicate AnyColored(vs: seq<VertexData>)
  {
    exists i :: 0 <= i < |vs| && Colored(vs[i])
  }

  /** colorBuffer: the packed colors and a zero tail when vertex 0 is colored, else empty. */
  function ColorBuffer(vs: seq<VertexData>): seq<byte>
    requires |vs| > 0
  {
    if Colored(vs[0]) then ColorRun(vs) + Zeros(12 * |vs| - |ColorRun(vs)|) else []
  }

  /** c_min: bounds of the colored vertices when vertex 0 is colored, else empty. */
  function ColorMin(vs: seq<VertexData>): seq<real>
    requires |vs| > 0
  {
    if Colored(vs[0]) then MinCorner(ColoredRGB(vs)) else []
  }

  function ColorMax(vs: seq<VertexData>): seq<real>
    requires |vs| > 0
  {
    if Colored(vs[0]) then MaxCorner(ColoredRGB(vs)) else []
  }

  function TexCoordMin(vs: seq<VertexData>): seq<real>
    requires |vs| > 0
  {
    [MinOf(UCoords(vs)), MinOf(VCoords(vs))]
  }

  function TexCoordMax(vs: seq<VertexData>): seq<real>
    requires |vs| > 0
  {
    [MaxOf(UCoords(vs)), MaxOf(VCoords(vs))]
  }

  /** Everything GetBuffers returns, or the exception it raises. */
  function Buffers(vs: seq<VertexData>, ts: seq<TriangleData>): Result<MeshBuffers, BufferError>
  {
    if |vs| == 0 then Failure(NoVertices)
    else if !Colored(vs[0]) && AnyColored(vs) then Failure(NoColorBounds)
    else
      Ok(MeshBuffers(
        PositionBytes(vs), IndexBytes(ts), NormalBytes(vs), ColorBuffer(vs), TexCoordBytes(vs),
        MaxCorner(Positions(vs)), MinCorner(Positions(vs)),
        MinCorner(Normals(vs)), MaxCorner(Normals(vs)),
        ColorMin(vs), ColorMax(vs), IndexMin(vs), IndexMax(vs),
        TexCoordMin(vs), TexCoordMax(vs)))
  }

  // ---------------------------------------------------------------------------
  // Properties of the layout
  // ---------------------------------------------------------------------------

  /**
   * GetBuffers fails exactly on an empty vertex list, or when vertex 0 is
   * uncolored but a later vertex is colored.
   */
  lemma BuffersFailure(vs: seq<VertexData>, ts: seq<TriangleData>)
    ensures Buffers(vs, ts).Failure? <==> |vs| == 0 || (!Colored(vs[0]) && AnyColored(vs))
  {
  }

  /** ColoredRGB has one entry per colored vertex, so the packed run fits the 12|V| color buffer. */
  lemma {:induction false} ColoredCountBound(vs: seq<VertexData>)
    ensures |ColorRun(vs)| <= 12 * |vs|
    ensures !AnyColored(vs) ==> ColoredRGB(vs) == []
  {
    if vs != [] {
      var p := vs[..|vs| - 1];
      ColoredCountBound(p);
      if !AnyColored(vs) {
        assert forall i :: 0 <= i < |p| ==> p[i] == vs[i];
        assert !AnyColored(p);
      }
    }
  }

  /**
   * Buffer sizes (Mesh.cs:313-316): positions and normals take 12 bytes per
   * vertex, UVs 8, indices 6 per triangle.
   */
  lemma BufferSizes(vs: seq<VertexData>, ts: seq<TriangleData>)
    requires Buffers(vs, ts).Ok?
    ensures var b := Buffers(vs, ts).value;
      && |b.vertexBuffer| == 12 * |vs| && |b.normalBuffer| == 12 * |vs|
      && |b.uvBuffer| == 8 * |vs| && |b.indexBuffer| == 6 * |ts|
  {
  }

  /**
   * The color buffer (Mesh.cs:318-329) has 12 bytes per vertex, and the color
   * bounds are the tight bounds of the colored vertices, iff vertex 0 is
   * colored; otherwise buffer and bounds are empty.
   */
  lemma ColorBufferShape(vs: seq<VertexData>, ts: seq<TriangleData>)
    requires Buffers(vs, ts).Ok?
    ensures var b := Buffers(vs, ts).value;
      && (Colored(vs[0]) <==> |b.colorBuffer| == 12 * |vs|)
      && (Colored(vs[0]) ==> b.cMin == MinCorner(ColoredRGB(vs)) && b.cMax == MaxCorner(ColoredRGB(vs)))
      && (!Colored(vs[0]) ==> b.colorBuffer == [] && b.cMin == [] && b.cMax == [])
  {
    ColoredCountBound(vs);
  }

  /** Vertex i's position occupies bytes 12i .. 12i+12 of the vertex buffer. */
  lemma {:induction false} PositionBytesAt(vs: seq<VertexData>, i: nat)
    requires i < |vs|
    ensures PositionBytes(vs)[12 * i .. 12 * i + 12] == Vec3Bytes(vs[i].position)
  {
    var p := vs[..|vs| - 1];
    if i < |vs| - 1 {
      PositionBytesAt(p, i);
      assert PositionBytes(vs)[..12 * |p|] == PositionBytes(p);
    }
  }

  /** Vertex i's normal is written at bytes 12i..12i+12 of the normal buffer (Mesh.cs:354-356). */
  lemma {:induction false} NormalBytesAt(vs: seq<VertexData>, i: nat)
    requires i < |vs|
    ensures NormalBytes(vs)[12 * i .. 12 * i + 12] == Vec3Bytes(vs[i].normal)
  {
    var p := vs[..|vs| - 1];
    if i < |vs| - 1 {
      NormalBytesAt(p, i);
      assert NormalBytes(vs)[..12 * |p|] == NormalBytes(p);
    }
  }

  /** Vertex i's uv is written at bytes 8i..8i+8 of the uv buffer (Mesh.cs:358-359). */
  lemma {:induction false} TexCoordBytesAt(vs: seq<VertexData>, i: nat)
    requires i < |vs|
    ensures TexCoordBytes(vs)[8 * i .. 8 * i + 8] == UVBytes(vs[i].uv)
  {
    var p := vs[..|vs| - 1];
    if i < |vs| - 1 {
      TexCoordBytesAt(p, i);
      assert TexCoordBytes(vs)[..8 * |p|] == TexCoordBytes(p);
    }
  }

  /**
   * Triangle t writes the ushort indices of its three vertices, in order, at
   * byte offsets 6t, 6t+2 and 6t+4 (Mesh.cs:402-410).
   */
  lemma {:induction false} IndexBytesAt(ts: seq<TriangleData>, t: nat)
    requires t < |ts|
    ensures IndexBytes(ts)[6 * t .. 6 * t + 2] == U16(ts[t].a)
    ensures IndexBytes(ts)[6 * t + 2 .. 6 * t + 4] == U16(ts[t].b)
    ensures IndexBytes(ts)[6 * t + 4 .. 6 * t + 6] == U16(ts[t].c)
  {
    var p := ts[..|ts| - 1];
    if t < |ts| - 1 {
      IndexBytesAt(p, t);
      assert IndexBytes(ts)[..6 * |p|] == IndexBytes(p);
    }
  }

  /** index_min and index_max bound every `(ushort)v.Index`. */
  lemma {:induction false} IndexBoundsEnclose(vs: seq<VertexData>)
    ensures forall i :: 0 <= i < |vs| ==> IndexMin(vs) <= ToUshort(vs[i].index) <= IndexMax(vs)
  {
    if vs != [] {
      var p := vs[..|vs| - 1];
      IndexBoundsEnclose(p);
      assert forall i :: 0 <= i < |p| ==> p[i] == vs[i];
    }
  }

  /** For a non-empty list, index_min and index_max are each the `(ushort)v.Index` of some vertex. */
  lemma {:induction false} IndexBoundsAttained(vs: seq<VertexData>)
    requires |vs| > 0
    ensures exists i :: 0 <= i < |vs| && ToUshort(vs[i].index) == IndexMin(vs)
    ensures exists i :: 0 <= i < |vs| && ToUshort(vs[i].index) == IndexMax(vs)
  {
    var n := |vs| - 1;
    var p := vs[..n];
    if n == 0 {
      assert ToUshort(vs[0].index) == IndexMin(vs) == IndexMax(vs);
    } else {
      IndexBoundsAttained(p);
      var i :| 0 <= i < n && ToUshort(p[i].index) == IndexMin(p);
      var j :| 0 <= j < n && ToUshort(p[j].index) == IndexMax(p);
      assert p[i] == vs[i] && p[j] == vs[j];
      if ToUshort(vs[n].index) < IndexMin(p) {
        assert ToUshort(vs[n].index) == IndexMin(vs);
      } else {
        assert ToUshort(vs[i].index) == IndexMin(vs);
      }
      if ToUshort(vs[n].index) > IndexMax(p) {
        assert ToUshort(vs[n].index) == IndexMax(vs);
      } else {
        assert ToUshort(vs[j].index) == IndexMax(vs);
      }
    }
  }

  /** Vertex i carries Index i. */
  ghost predicate Numbered(vs: seq<VertexData>)
  {
    forall i :: 0 <= i < |vs| ==> vs[i].index == i
  }

  /**
   * Under the invariant that vertex i has Index i, and with at most 65536
   * vertices, the index bounds are 0 and |V|-1.
   */
  lemma {:induction false} IndexBoundsOfNumbered(vs: seq<VertexData>)
    requires Numbered(vs) && 0 < |vs| <= UshortMax + 1
    ensures IndexMin(vs) == 0 && IndexMax(vs) == |vs| - 1
  {
    if |vs| > 1 {
      var p := vs[..|vs| - 1];
      assert forall i :: 0 <= i < |p| ==> p[i] == vs[i];
      IndexBoundsOfNumbered(p);
    }
  }

  /**
   * Beyond 65536 vertices the ushort cast wraps: vertex 65536 is written as
   * index 0, so index bytes no longer identify it.
   */
  lemma IndexWrapsPastUshort()
    ensures ToUshort(UshortMax + 1) == 0 && U16(UshortMax + 1) == U16(0)
  {
  }

  /**
   * v_min/v_max and n_min/n_max are the tight component-wise bounds of the
   * positions and normals (Mesh.cs:331-334, 364-376).
   */
  lemma VertexBoundsAreTight(vs: seq<VertexData>, ts: seq<TriangleData>)
    requires Buffers(vs, ts).Ok?
    ensures var b := Buffers(vs, ts).value;
      && (forall i :: 0 <= i < |vs| ==> InBox(vs[i].position, b.vMin, b.vMax))
      && (forall i :: 0 <= i < |vs| ==> InBox(vs[i].normal, b.nMin, b.nMax))
      && Attained(Positions(vs), b.vMin) && Attained(Positions(vs), b.vMax)
      && Attained(Normals(vs), b.nMin) && Attained(Normals(vs), b.nMax)
  {
    ProjectionsAt(vs);
    CornersAreTight(Positions(vs));
    CornersAreTight(Normals(vs));
  }

  /** uv_min/uv_max are the tight bounds of the texture coordinates (Mesh.cs:335-336, 378-381). */
  lemma TexCoordBoundsAreTight(vs: seq<VertexData>, ts: seq<TriangleData>)
    requires Buffers(vs, ts).Ok?
    ensures var b := Buffers(vs, ts).value;
      && (forall i :: 0 <= i < |vs| ==>
            b.uvMin[0] <= vs[i].uv.u <= b.uvMax[0] && b.uvMin[1] <= vs[i].uv.v <= b.uvMax[1])
      && (exists i :: 0 <= i < |vs| && vs[i].uv.u == b.uvMin[0])
      && (exists i :: 0 <= i < |vs| && vs[i].uv.u == b.uvMax[0])
      && (exists i :: 0 <= i < |vs| && vs[i].uv.v == b.uvMin[1])
      && (exists i :: 0 <= i < |vs| && vs[i].uv.v == b.uvMax[1])
  {
    ProjectionsAt(vs);
    MinOfIsMinimum(UCoords(vs)); MaxOfIsMaximum(UCoords(vs));
    MinOfIsMinimum(VCoords(vs)); MaxOfIsMaximum(VCoords(vs));
  }

  /**
   * Colors are packed, not placed per vertex: when vertex 0 is colored and
   * vertex 1 is not, vertex 2's color lands in the slot COLOR_0 assigns to
   * vertex 1.
   */
  lemma ColorsShiftPastUncolored(c0: Color, c2: Color, p: Vec3)
    requires c0 != DefaultColor && c2 != DefaultColor
    ensures var vs := [VertexData(p, Origin, c0, DefaultUV, 0),
                       VertexData(p, Origin, DefaultColor, DefaultUV, 1),
                       VertexData(p, Origin, c2, DefaultUV, 2)];
      Buffers(vs, []).Ok? && Buffers(vs, []).value.colorBuffer[12..24] == Vec3Bytes(RGB(c2))
  {
    var vs := [VertexData(p, Origin, c0, DefaultUV, 0),
               VertexData(p, Origin, DefaultColor, DefaultUV, 1),
               VertexData(p, Origin, c2, DefaultUV, 2)];
    assert vs[..1] == [vs[0]];
    assert vs[..2][..1] == [vs[0]];
    assert vs[..2] == [vs[0], vs[1]];
    assert ColorRun(vs[..1]) == Vec3Bytes(RGB(c0));
    assert ColorRun(vs[..2]) == Vec3Bytes(RGB(c0));
    assert ColorRun(vs) == Vec3Bytes(RGB(c0)) + Vec3Bytes(RGB(c2));
  }

  // ---------------------------------------------------------------------------
  // The loop of GetBuffers
  // ---------------------------------------------------------------------------

  /** Loop state of the vertex loop after `i` vertices. */
  ghost predicate VertexLoopState(vs: seq<VertexData>, i: nat,
                                  vmax: seq<real>, vmin: seq<real>, nmin: seq<real>, nmax: seq<real>,
                                  uvmin: seq<real>, uvmax: seq<real>)
    requires 0 < i <= |vs|
  {
    (vmax, vmin, nmin, nmax, uvmin, uvmax)
      == (MaxCorner(Positions(vs[..i])), MinCorner(Positions(vs[..i])),
          MinCorner(Normals(vs[..i])), MaxCorner(Normals(vs[..i])),
          TexCoordMin(vs[..i]), TexCoordMax(vs[..i]))
  }

  /** The running bounds after one more vertex. */
  lemma VertexLoopStep(vs: seq<VertexData>, i: nat,
                       vmax: seq<real>, vmin: seq<real>, nmin: seq<real>, nmax: seq<real>,
                       uvmin: seq<real>, uvmax: seq<real>)
    requires 0 < i < |vs|
    requires VertexLoopState(vs, i, vmax, vmin, nmin, nmax, uvmin, uvmax)
    ensures var v := vs[i];
      VertexLoopState(vs, i + 1, Max3(vmax, v.position), Min3(vmin, v.position),
                      Min3(nmin, v.normal), Max3(nmax, v.normal),
                      [if v.uv.u < uvmin[0] then v.uv.u else uvmin[0], if v.uv.v < uvmin[1] then v.uv.v else uvmin[1]],
                      [if v.uv.u > uvmax[0] then v.uv.u else uvmax[0], if v.uv.v > uvmax[1] then v.uv.v else uvmax[1]])
  {
    assert vs[..i + 1][..i] == vs[..i];
    assert Positions(vs[..i + 1])[..i] == Positions(vs[..i]);
    assert Normals(vs[..i + 1])[..i] == Normals(vs[..i]);
    assert UCoords(vs[..i + 1])[..i] == UCoords(vs[..i]);
    assert VCoords(vs[..i + 1])[..i] == VCoords(vs[..i]);
  }

  lemma VertexLoopFirst(vs: seq<VertexData>)
    requires 0 < |vs|
    ensures var v := vs[0];
      VertexLoopState(vs, 1, AsArray(v.position), AsArray(v.position), AsArray(v.normal), AsArray(v.normal),
                      [v.uv.u, v.uv.v], [v.uv.u, v.uv.v])
  {
    assert vs[..1] == [vs[0]];
  }

  /** A block written right after a known prefix extends the prefix. */
  lemma Extended(a: seq<byte>, at: nat, prefix: seq<byte>, w: seq<byte>)
    requires at + |w| <= |a| && a[..at] == prefix && a[at..at + |w|] == w
    ensures a[..at + |w|] == prefix + w
  {
    assert a[..at + |w|] == a[..at] + a[at..at + |w|];
  }

  /** The triangle loop of GetBuffers (Mesh.cs:402-410). */
  method WriteIndices(ts: seq<TriangleData>) returns (r: seq<byte>)
    ensures r == IndexBytes(ts)
  {
    var indexBuffer := NewBytes(|ts| * UshortSize * 3);
    var ii := 0;
    for i := 0 to |ts|
      invariant ii == 6 * i
      invariant indexBuffer[..ii] == IndexBytes(ts[..i])
    {
      ghost var before := indexBuffer[..];
      // Three BlockCopy calls of two bytes each, at ii, ii + 2 and ii + 4.
      BlockCopy(TriangleBytes(ts[i]), indexBuffer, ii);
      Extended(indexBuffer[..], ii, IndexBytes(ts[..i]), TriangleBytes(ts[i]));
      ii := ii + 3 * UshortSize;
      assert ts[..i + 1][..i] == ts[..i];
    }
    assert ts[..|ts|] == ts;
    assert indexBuffer[..] == indexBuffer[..ii];
    r := indexBuffer[..];
  }

  /** `new byte[n]`: C# zero-fills new arrays. */
  method NewBytes(n: nat) returns (a: array<byte>)
    ensures fresh(a) && a.Length == n && forall j :: 0 <= j < n ==> a[j] == 0
  {
    a := new byte[n](_ => 0);
  }

  /** Buffer contents of the vertex loop after `i` vertices: the written prefixes. */
  ghost predicate VertexBytesState(vs: seq<VertexData>, i: nat, vb: array<byte>, nb: array<byte>, uvb: array<byte>)
    requires i <= |vs|
    reads vb, nb, uvb
  {
    && (vb.Length, nb.Length, uvb.Length) == (12 * |vs|, 12 * |vs|, 8 * |vs|)
    && (vb[..12 * i], nb[..12 * i], uvb[..8 * i]) == (PositionBytes(vs[..i]), NormalBytes(vs[..i]), TexCoordBytes(vs[..i]))
  }

  /** Writes the position, normal and UV of vertex i at their running offsets vi and uvi. */
  method WriteVertex(vb: array<byte>, nb: array<byte>, uvb: array<byte>, vs: seq<VertexData>, i: nat)
    requires i < |vs| && vb != nb && vb != uvb && nb != uvb
    requires VertexBytesState(vs, i, vb, nb, uvb)
    modifies vb, nb, uvb
    ensures VertexBytesState(vs, i + 1, vb, nb, uvb)
  {
    var v := vs[i];
    assert vs[..i + 1][..i] == vs[..i];
    // Each of these stands for the source's consecutive BlockCopy calls, one per float.
    BlockCopy(Vec3Bytes(v.position), vb, 12 * i);
    Extended(vb[..], 12 * i, PositionBytes(vs[..i]), Vec3Bytes(v.position));
    BlockCopy(Vec3Bytes(v.normal), nb, 12 * i);
    Extended(nb[..], 12 * i, NormalBytes(vs[..i]), Vec3Bytes(v.normal));
    BlockCopy(UVBytes(v.uv), uvb, 8 * i);
    Extended(uvb[..], 8 * i, TexCoordBytes(vs[..i]), UVBytes(v.uv));
  }

  /** Running Math.Min/Math.Max of positions, normals and UVs over one more vertex (Mesh.cs:364-384). */
  method StepBounds(vs: seq<VertexData>, i: nat,
                    vmax: seq<real>, vmin: seq<real>, nmin: seq<real>, nmax: seq<real>,
                    uvmin: seq<real>, uvmax: seq<real>)
    returns (vmax': seq<real>, vmin': seq<real>, nmin': seq<real>, nmax': seq<real>,
             uvmin': seq<real>, uvmax': seq<real>)
    requires 0 < i < |vs|
    requires VertexLoopState(vs, i, vmax, vmin, nmin, nmax, uvmin, uvmax)
    ensures VertexLoopState(vs, i + 1, vmax', vmin', nmin', nmax', uvmin', uvmax')
  {
    var v := vs[i];
    VertexLoopStep(vs, i, vmax, vmin, nmin, nmax, uvmin, uvmax);
    vmax' := Max3(vmax, v.position);
    vmin' := Min3(vmin, v.position);
    nmax' := Max3(nmax, v.normal);
    nmin' := Min3(nmin, v.normal);
    uvmax' := [if v.uv.u > uvmax[0] then v.uv.u else uvmax[0], if v.uv.v > uvmax[1] then v.uv.v else uvmax[1]];
    uvmin' := [if v.uv.u < uvmin[0] then v.uv.u else uvmin[0], if v.uv.v < uvmin[1] then v.uv.v else uvmin[1]];
  }

  /** Running Math.Min/Math.Max of `(ushort)v.Index` over one more vertex (Mesh.cs:383-384). */
  method StepIndex(vs: seq<VertexData>, i: nat, imin: nat, imax: nat) returns (imin': nat, imax': nat)
    requires i < |vs| && imin == IndexMin(vs[..i]) && imax == IndexMax(vs[..i])
    ensures imin' == IndexMin(vs[..i + 1]) && imax' == IndexMax(vs[..i + 1])
  {
    var u := ToUshort(vs[i].index);
    imax' := if u > imax then u else imax;
    imin' := if u < imin then u else imin;
    assert vs[..i + 1][..i] == vs[..i];
  }

  /** No vertex before `i` is colored. */
  ghost predicate NoneColoredBefore(vs: seq<VertexData>, i: nat)
  {
    forall k :: 0 <= k < i && k < |vs| ==> !Colored(vs[k])
  }

  /** Color buffer and color bounds after `i` vertices, when vertex 0 is colored. */
  ghost predicate ColorState(vs: seq<VertexData>, i: nat, cb: array<byte>, ci: nat, cmin: seq<real>, cmax: seq<real>)
    requires 0 < |vs| && Colored(vs[0]) && i <= |vs|
    reads cb
  {
    && cb.Length == 12 * |vs| && ci == |ColorRun(vs[..i])| && ci <= 12 * i
    && cb[..ci] == ColorRun(vs[..i])
    && (forall j :: ci <= j < cb.Length ==> cb[j] == 0)
    && (i > 0 ==> cmin == MinCorner(ColoredRGB(vs[..i])) && cmax == MaxCorner(ColoredRGB(vs[..i])))
  }

  /** One vertex of the color pass: colored vertices update c_min/c_max and write their color at ci (Mesh.cs:386-399). */
  method StepColor(cb: array<byte>, vs: seq<VertexData>, i: nat, ci: nat, cmin: seq<real>, cmax: seq<real>)
    returns (ci': nat, cmin': seq<real>, cmax': seq<real>)
    requires i < |vs| && Colored(vs[0])
    requires ColorState(vs, i, cb, ci, cmin, cmax)
    modifies cb
    ensures ColorState(vs, i + 1, cb, ci', cmin', cmax')
  {
    if Colored(vs[i]) {
      ci', cmin', cmax' := StepColored(cb, vs, i, ci, cmin, cmax);
    } else {
      UncoloredKeeps(vs, i, cb, ci, cmin, cmax);
      ci', cmin', cmax' := ci, cmin, cmax;
    }
  }

  /** A colored vertex extends the color run by its 12 bytes and widens the color bounds. */
  method StepColored(cb: array<byte>, vs: seq<VertexData>, i: nat, ci: nat, cmin: seq<real>, cmax: seq<real>)
    returns (ci': nat, cmin': seq<real>, cmax': seq<real>)
    requires i < |vs| && Colored(vs[0]) && Colored(vs[i])
    requires ColorState(vs, i, cb, ci, cmin, cmax)
    modifies cb
    ensures ColorState(vs, i + 1, cb, ci', cmin', cmax')
  {
    var c := RGB(vs[i].color);
    ColoredGrows(vs, i, cmin, cmax);
    if i == 0 {
      cmax' := AsArray(c);
      cmin' := cmax';
    } else {
      cmax' := Max3(cmax, c);
      cmin' := Min3(cmin, c);
    }
    WriteColor(cb, ci, ColorRun(vs[..i]), c);
    ci' := ci + 3 * FloatSize;
  }

  /** A colored vertex appends its color to the collected colors and widens their bounds. */
  lemma ColoredGrows(vs: seq<VertexData>, i: nat, cmin: seq<real>, cmax: seq<real>)
    requires i < |vs| && Colored(vs[0]) && Colored(vs[i])
    requires i > 0 ==> cmin == MinCorner(ColoredRGB(vs[..i])) && cmax == MaxCorner(ColoredRGB(vs[..i]))
    ensures ColorRun(vs[..i + 1]) == ColorRun(vs[..i]) + Vec3Bytes(RGB(vs[i].color))
    ensures i == 0 ==> MinCorner(ColoredRGB(vs[..1])) == AsArray(RGB(vs[0].color)) == MaxCorner(ColoredRGB(vs[..1]))
    ensures i > 0 ==> && MinCorner(ColoredRGB(vs[..i + 1])) == Min3(cmin, RGB(vs[i].color))
                      && MaxCorner(ColoredRGB(vs[..i + 1])) == Max3(cmax, RGB(vs[i].color))
  {
    ColorsSnoc(vs, i);
    if i == 0 {
      assert vs[..1] == [vs[0]];
    } else {
      CornersSnoc(ColoredRGB(vs[..i]), RGB(vs[i].color));
    }
  }

  /** Writes one color at `at` of a buffer that holds `prefix` before `at` and zeros after it. */
  method WriteColor(cb: array<byte>, at: nat, ghost prefix: seq<byte>, c: Vec3)
    requires at + 3 * FloatSize <= cb.Length && cb[..at] == prefix
    requires forall j :: at <= j < cb.Length ==> cb[j] == 0
    modifies cb
    ensures cb[..at + 3 * FloatSize] == prefix + Vec3Bytes(c)
    ensures forall j :: at + 3 * FloatSize <= j < cb.Length ==> cb[j] == 0
  {
    BlockCopy(Vec3Bytes(c), cb, at);
    Extended(cb[..], at, prefix, Vec3Bytes(c));
  }

  /** An uncolored vertex leaves the color run and the color bounds as they were. */
  lemma UncoloredKeeps(vs: seq<VertexData>, i: nat, cb: array<byte>, ci: nat, cmin: seq<real>, cmax: seq<real>)
    requires i < |vs| && Colored(vs[0]) && !Colored(vs[i])
    requires ColorState(vs, i, cb, ci, cmin, cmax)
    ensures ColorState(vs, i + 1, cb, ci, cmin, cmax)
  {
    ColorsSnoc(vs, i);
    assert ColoredRGB(vs[..i + 1]) == ColoredRGB(vs[..i]) && ColorRun(vs[..i + 1]) == ColorRun(vs[..i]);
  }

  /** One more vertex extends the collected colors and their bytes by its own, if it is colored. */
  lemma ColorsSnoc(vs: seq<VertexData>, i: nat)
    requires i < |vs|
    ensures ColoredRGB(vs[..i + 1]) == ColoredRGB(vs[..i]) + (if Colored(vs[i]) then [RGB(vs[i].color)] else [])
    ensures ColorRun(vs[..i + 1]) == ColorRun(vs[..i]) + (if Colored(vs[i]) then Vec3Bytes(RGB(vs[i].color)) else [])
  {
    assert vs[..i + 1][..i] == vs[..i];
  }

  /** Everything the vertex loop keeps after `i` vertices. */
  ghost predicate PassState(vs: seq<VertexData>, i: nat,
                            vb: array<byte>, nb: array<byte>, uvb: array<byte>, cb: array<byte>, ci: nat,
                            vmax: seq<real>, vmin: seq<real>, nmin: seq<real>, nmax: seq<real>,
                            uvmin: seq<real>, uvmax: seq<real>, imin: nat, imax: nat, cmin: seq<real>, cmax: seq<real>)
    requires 0 < |vs| && i <= |vs|
    reads vb, nb, uvb, cb
  {
    && vb != nb && vb != uvb && nb != uvb && cb != vb && cb != nb && cb != uvb
    && VertexBytesState(vs, i, vb, nb, uvb)
    && VertexLoopState(vs, if i == 0 then 1 else i, vmax, vmin, nmin, nmax, uvmin, uvmax)
    && (imin, imax) == (IndexMin(vs[..i]), IndexMax(vs[..i]))
    && (Colored(vs[0]) ==> ColorState(vs, i, cb, ci, cmin, cmax))
    && (!Colored(vs[0]) ==> (cb.Length, cmin, cmax) == (0, [], []) && NoneColoredBefore(vs, i))
  }

  /** One iteration of the vertex loop, for a vertex that does not throw. */
  method VertexStep(vs: seq<VertexData>, i: nat,
                    vb: array<byte>, nb: array<byte>, uvb: array<byte>, cb: array<byte>, ci: nat,
                    vmax: seq<real>, vmin: seq<real>, nmin: seq<real>, nmax: seq<real>,
                    uvmin: seq<real>, uvmax: seq<real>, imin: nat, imax: nat, cmin: seq<real>, cmax: seq<real>)
    returns (ci': nat, vmax': seq<real>, vmin': seq<real>, nmin': seq<real>, nmax': seq<real>,
             uvmin': seq<real>, uvmax': seq<real>, imin': nat, imax': nat, cmin': seq<real>, cmax': seq<real>)
    requires i < |vs| && (Colored(vs[0]) || !Colored(vs[i]))
    requires PassState(vs, i, vb, nb, uvb, cb, ci, vmax, vmin, nmin, nmax, uvmin, uvmax, imin, imax, cmin, cmax)
    modifies vb, nb, uvb, cb
    ensures PassState(vs, i + 1, vb, nb, uvb, cb, ci', vmax', vmin', nmin', nmax', uvmin', uvmax', imin', imax', cmin', cmax')
  {
    WriteVertex(vb, nb, uvb, vs, i);
    if i > 0 {
      vmax', vmin', nmin', nmax', uvmin', uvmax' := StepBounds(vs, i, vmax, vmin, nmin, nmax, uvmin, uvmax);
    } else {
      vmax', vmin', nmin', nmax', uvmin', uvmax' := vmax, vmin, nmin, nmax, uvmin, uvmax;
    }
    imin', imax' := StepIndex(vs, i, imin, imax);
    if Colored(vs[0]) {
      ci', cmin', cmax' := StepColor(cb, vs, i, ci, cmin, cmax);
    } else {
      ci', cmin', cmax' := ci, cmin, cmax;
    }
  }

  /** After the last vertex, the three attribute buffers hold every vertex. */
  lemma PassCompleteBytes(vs: seq<VertexData>, vb: array<byte>, nb: array<byte>, uvb: array<byte>)
    requires 0 < |vs| && VertexBytesState(vs, |vs|, vb, nb, uvb)
    ensures vb[..] == PositionBytes(vs) && nb[..] == NormalBytes(vs) && uvb[..] == TexCoordBytes(vs)
  {
    assert vs[..|vs|] == vs;
    assert vb[..] == vb[..12 * |vs|] && nb[..] == nb[..12 * |vs|] && uvb[..] == uvb[..8 * |vs|];
  }

  /** After the last vertex, the running bounds are those of the whole list. */
  lemma PassCompleteBounds(vs: seq<VertexData>,
                           vmax: seq<real>, vmin: seq<real>, nmin: seq<real>, nmax: seq<real>,
                           uvmin: seq<real>, uvmax: seq<real>, imin: nat, imax: nat)
    requires 0 < |vs| && VertexLoopState(vs, |vs|, vmax, vmin, nmin, nmax, uvmin, uvmax)
    requires imin == IndexMin(vs[..|vs|]) && imax == IndexMax(vs[..|vs|])
    ensures vmax == MaxCorner(Positions(vs)) && vmin == MinCorner(Positions(vs))
    ensures nmin == MinCorner(Normals(vs)) && nmax == MaxCorner(Normals(vs))
    ensures uvmin == TexCoordMin(vs) && uvmax == TexCoordMax(vs)
    ensures imin == IndexMin(vs) && imax == IndexMax(vs)
  {
    assert vs[..|vs|] == vs;
  }

  /** After the last vertex, the color buffer and bounds are those of the whole list. */
  lemma PassCompleteColors(vs: seq<VertexData>, cb: array<byte>, ci: nat, cmin: seq<real>, cmax: seq<real>)
    requires 0 < |vs| && Colored(vs[0]) && ColorState(vs, |vs|, cb, ci, cmin, cmax)
    ensures cb[..] == ColorBuffer(vs) && cmin == ColorMin(vs) && cmax == ColorMax(vs)
  {
    assert vs[..|vs|] == vs;
    assert cb[ci..] == Zeros(12 * |vs| - ci);
    assert cb[..] == cb[..ci] + cb[ci..];
  }

  /**
   * The vertex loop of GetBuffers (Mesh.cs:331-400), writing into the buffers
   * allocated at Mesh.cs:313-329. `ok` is false exactly when the loop throws on
   * `c_max[0]`.
   */
  method VertexLoop(vs: seq<VertexData>, vb: array<byte>, nb: array<byte>, uvb: array<byte>, cb: array<byte>)
    returns (ok: bool, ci: nat, vmax: seq<real>, vmin: seq<real>, nmin: seq<real>, nmax: seq<real>,
             uvmin: seq<real>, uvmax: seq<real>, imin: nat, imax: nat, cmin: seq<real>, cmax: seq<real>)
    requires 0 < |vs|
    requires vb != nb && vb != uvb && nb != uvb && cb != vb && cb != nb && cb != uvb
    requires vb.Length == 12 * |vs| && nb.Length == 12 * |vs| && uvb.Length == 8 * |vs|
    requires cb.Length == (if Colored(vs[0]) then 12 * |vs| else 0)
    requires forall j :: 0 <= j < cb.Length ==> cb[j] == 0
    modifies vb, nb, uvb, cb
    ensures ok <==> Colored(vs[0]) || !AnyColored(vs)
    ensures ok ==> PassState(vs, |vs|, vb, nb, uvb, cb, ci, vmax, vmin, nmin, nmax, uvmin, uvmax, imin, imax, cmin, cmax)
  {
    var n := |vs|;
    var colorOn := Colored(vs[0]);
    cmin, cmax := [], [];
    var v0 := vs[0];
    vmax := AsArray(v0.position);
    vmin := vmax;
    nmin := AsArray(v0.normal);
    nmax := nmin;
    uvmax := [v0.uv.u, v0.uv.v];
    uvmin := uvmax;
    imax, imin := 0, UshortMax;
    ci := 0;
    VertexLoopFirst(vs);

    for i := 0 to n
      invariant PassState(vs, i, vb, nb, uvb, cb, ci, vmax, vmin, nmin, nmax, uvmin, uvmax, imin, imax, cmin, cmax)
    {
      if !colorOn && Colored(vs[i]) {
        // c_max is the empty array: `c_max[0]` throws, and the buffers are discarded.
        assert AnyColored(vs);
        return false, 0, [], [], [], [], [], [], 0, 0, [], [];
      }
      ci, vmax, vmin, nmin, nmax, uvmin, uvmax, imin, imax, cmin, cmax :=
        VertexStep(vs, i, vb, nb, uvb, cb, ci, vmax, vmin, nmin, nmax, uvmin, uvmax, imin, imax, cmin, cmax);
    }
    assert !colorOn ==> !AnyColored(vs);
    ok := true;
  }

  /**
   * The vertex part of GetBuffers (Mesh.cs:313-400) on a non-empty vertex
   * list: allocate the buffers, run the vertex loop, hand back the buffer
   * contents and the bounds.
   */
  method VertexPass(vs: seq<VertexData>)
    returns (ok: bool, positions: seq<byte>, normals: seq<byte>, colors: seq<byte>, texCoords: seq<byte>,
             vmax: seq<real>, vmin: seq<real>, nmin: seq<real>, nmax: seq<real>,
             cmin: seq<real>, cmax: seq<real>, imin: nat, imax: nat, uvmin: seq<real>, uvmax: seq<real>)
    requires |vs| > 0
    ensures ok <==> Colored(vs[0]) || !AnyColored(vs)
    ensures ok ==> positions == PositionBytes(vs) && normals == NormalBytes(vs) && texCoords == TexCoordBytes(vs)
    ensures ok ==> vmax == MaxCorner(Positions(vs)) && vmin == MinCorner(Positions(vs))
    ensures ok ==> nmin == MinCorner(Normals(vs)) && nmax == MaxCorner(Normals(vs))
    ensures ok ==> uvmin == TexCoordMin(vs) && uvmax == TexCoordMax(vs)
    ensures ok ==> imin == IndexMin(vs) && imax == IndexMax(vs)
    ensures ok ==> colors == ColorBuffer(vs) && cmin == ColorMin(vs) && cmax == ColorMax(vs)
  {
    var n := |vs|;
    var vertexBuffer := NewBytes(n * FloatSize * 3);
    var normalBuffer := NewBytes(n * FloatSize * 3);
    var uvBuffer := NewBytes(n * FloatSize * 2);
    var colorBuffer := NewBytes(if Colored(vs[0]) then n * FloatSize * 3 else 0);
    var ci;
    ok, ci, vmax, vmin, nmin, nmax, uvmin, uvmax, imin, imax, cmin, cmax :=
      VertexLoop(vs, vertexBuffer, normalBuffer, uvBuffer, colorBuffer);
    if ok {
      PassCompleteBytes(vs, vertexBuffer, normalBuffer, uvBuffer);
      PassCompleteBounds(vs, vmax, vmin, nmin, nmax, uvmin, uvmax, imin, imax);
      if Colored(vs[0]) {
        PassCompleteColors(vs, colorBuffer, ci, cmin, cmax);
      }
    }
    positions, normals, colors, texCoords := vertexBuffer[..], normalBuffer[..], colorBuffer[..], uvBuffer[..];
  }

  /**
   * Mesh.GetBuffers (Mesh.cs:304-411) over the vertex and triangle values: the
   * vertex pass, then the triangle pass writing indices.
   */
  method BuildBuffers(vs: seq<VertexData>, ts: seq<TriangleData>) returns (r: Result<MeshBuffers, BufferError>)
    ensures r == Buffers(vs, ts)
  {
    if |vs| == 0 {
      // `_vertices[0]` throws.
      return Failure(NoVertices);
    }
    var ok, positions, normals, colors, texCoords, vmax, vmin, nmin, nmax, cmin, cmax, imin, imax, uvmin, uvmax
      := VertexPass(vs);
    if !ok {
      return Failure(NoColorBounds);
    }
    var indexBuffer := WriteIndices(ts);
    r := Ok(MeshBuffers(positions, indexBuffer, normals, colors, texCoords,
                        vmax, vmin, nmin, nmax, cmin, cmax, imin, imax, uvmin, uvmax));
  }
}
