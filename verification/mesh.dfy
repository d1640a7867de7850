/**
 * The indexed triangle mesh: vertices numbered by insertion order, triangles
 * that register themselves with their vertices, the buffer export, the box
 * factory and the STL line reader.
 */
module Meshes {
  import opened Wrappers
  import opened Bytes
  import opened Geometry
  import opened MeshLayout
  import opened Stl

  /**
   * The list a vertex keeps of the triangles that contain it (the
   * `List<Triangle>` behind Vertex.Triangles, Mesh.cs:184), in registration
   * order.
   */
  class TriangleRefs {
    var items: seq<Triangle>

    constructor ()
      ensures items == []
    {
      items := [];
    }
  }

  /**
   * A mesh vertex. Its `index` is set by the mesh that adds it and its `uv`
   * right after construction. Position, normal and color are never reassigned
   * by the code modelled here (ComputeNormals, the only writer of the normal,
   * is not part of this model), so they are constants, as is the reference
   * to its list of triangles.
   */
  class Vertex {
    const position: Vec3
    const normal: Vec3
    const color: Color
    var index: int
    var uv: UV
    const triangles: TriangleRefs

    /**
     * new Vertex(position, normal, color) (Mesh.cs:192-197). The normal argument
     * is ignored: the vertex normal always starts at the origin.
     */
    constructor (position: Vec3, normal: Option<Vec3>, color: Color)
      ensures this.position == position && this.normal == Origin && this.color == color
      ensures index == 0 && uv == DefaultUV
      ensures fresh(triangles) && triangles.items == []
    {
      this.position := position;
      this.normal := Origin;
      this.color := color;
      index := 0;
      uv := DefaultUV;
      triangles := new TriangleRefs();
    }

    /** What GetBuffers reads from this vertex. */
    function Data(): VertexData
      reads this
    {
      VertexData(position, normal, color, uv, index)
    }
  }

  /** A mesh triangle: its three vertices, in order. */
  class Triangle {
    const a: Vertex
    const b: Vertex
    const c: Vertex

    function Vertices(): (r: seq<Vertex>)
      ensures |r| == 3
    {
      [a, b, c]
    }

    /**
     * new Triangle(a, b, c) (Mesh.cs:33-50): each vertex whose list does not
     * already hold the new triangle gets it appended, so a vertex passed twice
     * still lists the triangle once. The face normal is not modelled.
     */
    constructor (a: Vertex, b: Vertex, c: Vertex)
      modifies a.triangles, b.triangles, c.triangles
      ensures this.a == a && this.b == b && this.c == c
      ensures a.triangles.items == old(a.triangles.items) + [this]
      ensures b.triangles.items == old(b.triangles.items) + [this]
      ensures c.triangles.items == old(c.triangles.items) + [this]
    {
      this.a, this.b, this.c := a, b, c;
      new;
      if this !in a.triangles.items {
        a.triangles.items := a.triangles.items + [this];
      }
      if this !in b.triangles.items {
        b.triangles.items := b.triangles.items + [this];
      }
      if this !in c.triangles.items {
        c.triangles.items := c.triangles.items + [this];
      }
    }

    /**
     * The array constructor Triangle(Vertex[]) (Mesh.cs:62-85): the same
     * registration, done in a loop over the given vertices, which must be
     * exactly three.
     */
    constructor FromArray(vertices: seq<Vertex>)
      requires |vertices| == 3
      modifies Lists(vertices)
      ensures Vertices() == vertices
      ensures forall v :: v in vertices ==> v.triangles.items == old(v.triangles.items) + [this]
    {
      a, b, c := vertices[0], vertices[1], vertices[2];
      new;
      for k := 0 to 3
        invariant forall v :: v in vertices ==>
          v.triangles.items == old(v.triangles.items) + (if v.triangles in Lists(vertices[..k]) then [this] else [])
      {
        var v := vertices[k];
        assert vertices[..k + 1] == vertices[..k] + [v];
        if this !in v.triangles.items {
          v.triangles.items := v.triangles.items + [this];
        }
      }
      assert vertices[..3] == vertices;
    }
  }

  /** The triangle lists of some vertices. */
  function Lists(vs: seq<Vertex>): (r: set<TriangleRefs>)
    ensures forall v :: v in vs ==> v.triangles in r
  {
    set v | v in vs :: v.triangles
  }

  /** The exception of the array constructor. */
  datatype TriangleError = ArgumentException(message: string)

  /**
   * Deserializing a triangle from a vertex array (Mesh.cs:62-68): anything but
   * three vertices throws before any vertex is touched.
   */
  method TriangleFromArray(vertices: seq<Vertex>) returns (r: Result<Triangle, TriangleError>)
    modifies Lists(vertices)
    ensures r.Failure? <==> |vertices| != 3
    ensures r.Failure? ==> forall v :: v in vertices ==> v.triangles.items == old(v.triangles.items)
    ensures r.Ok? ==> fresh(r.value) && r.value.Vertices() == vertices
    ensures r.Ok? ==> forall v :: v in vertices ==> v.triangles.items == old(v.triangles.items) + [r.value]
  {
    if |vertices| != 3 {
      return Failure(ArgumentException("Triangles can only be created with three vertices."));
    }
    var t := new Triangle.FromArray(vertices);
    return Ok(t);
  }

  /** What GetBuffers reads from a list of vertices. */
  function VertexList(vs: seq<Vertex>): (r: seq<VertexData>)
    reads vs
    ensures |r| == |vs|
  {
    if vs == [] then [] else VertexList(vs[..|vs| - 1]) + [vs[|vs| - 1].Data()]
  }

  /** The vertex objects a list of triangles refers to. */
  function Corners(ts: seq<Triangle>): set<Vertex>
  {
    (set t | t in ts :: t.a) + (set t | t in ts :: t.b) + (set t | t in ts :: t.c)
  }

  /** The `Index` of each triangle's three vertices, as GetBuffers reads them. */
  function TriangleList(ts: seq<Triangle>): (r: seq<TriangleData>)
    reads Corners(ts)
    ensures |r| == |ts|
  {
    if ts == [] then []
    else
      var t := ts[|ts| - 1];
      assert Corners(ts[..|ts| - 1]) <= Corners(ts);
      TriangleList(ts[..|ts| - 1]) + [TriangleData(t.a.index, t.b.index, t.c.index)]
  }

  /** An indexed mesh. */
  class Mesh {
    var vertices: seq<Vertex>
    var triangles: seq<Triangle>

    /** new Mesh(): an empty mesh. */
    constructor ()
      ensures vertices == [] && triangles == []
    {
      vertices := [];
      triangles := [];
    }

    /** Vertex i carries Index i: the numbering AddVertex maintains. */
    ghost predicate Indexed()
      reads this, vertices
    {
      forall i :: 0 <= i < |vertices| ==> vertices[i].index == i
    }

    /** No vertex object appears twice in the vertex list. */
    ghost predicate DistinctVertices()
      reads this
    {
      forall i, j :: 0 <= i < j < |vertices| ==> vertices[i] != vertices[j]
    }

    /**
     * AddVertex(position, uv, normal, color) (Mesh.cs:444-451): a new vertex is
     * appended and numbered with the new count minus one.
     */
    method AddVertex(position: Vec3, uv: UV, normal: Vec3, color: Color) returns (v: Vertex)
      modifies this
      ensures fresh(v) && vertices == old(vertices) + [v] && triangles == old(triangles)
      ensures v.index == |vertices| - 1 && v.position == position && v.normal == Origin
      ensures v.color == color && v.uv == uv && fresh(v.triangles) && v.triangles.items == []
      ensures VertexList(vertices) == old(VertexList(vertices)) + [v.Data()]
      ensures TriangleList(triangles) == old(TriangleList(triangles))
      ensures old(Indexed()) ==> Indexed()
      ensures old(DistinctVertices()) ==> DistinctVertices()
    {
      ghost var before := vertices;
      assert forall u :: u in Corners(triangles) ==> allocated(u);
      v := new Vertex(position, Some(normal), color);
      v.uv := uv;
      vertices := vertices + [v];
      v.index := |vertices| - 1;
      assert vertices[..|before|] == before;
    }

    /**
     * AddVertex(v) (Mesh.cs:457-462): the given vertex is appended and
     * renumbered. If it was already in the list its earlier entry now carries
     * the new number too, so the numbering survives only for a new vertex.
     */
    method AddExistingVertex(v: Vertex) returns (r: Vertex)
      modifies this, v`index
      ensures r == v && vertices == old(vertices) + [v] && v.index == |vertices| - 1
      ensures triangles == old(triangles)
      ensures v !in old(vertices) && old(Indexed()) ==> Indexed()
      ensures v !in old(vertices) && old(DistinctVertices()) ==> DistinctVertices()
      ensures v in old(vertices) ==> !DistinctVertices()
      ensures v !in old(vertices) ==> VertexList(vertices) == old(VertexList(vertices)) + [v.Data()]
      ensures v !in Corners(triangles) ==> TriangleList(triangles) == old(TriangleList(triangles))
    {
      vertices := vertices + [v];
      v.index := |vertices| - 1;
      r := v;
      if v in old(vertices) {
        var k :| 0 <= k < |old(vertices)| && old(vertices)[k] == v;
        assert vertices[k] == vertices[|vertices| - 1];
      }
    }

    /**
     * AddTriangle(a, b, c) (Mesh.cs:419-424): a new triangle, registered with
     * its vertices, is appended; the vertex list is untouched.
     */
    method AddTriangle(a: Vertex, b: Vertex, c: Vertex) returns (t: Triangle)
      modifies this, a.triangles, b.triangles, c.triangles
      ensures fresh(t) && t.Vertices() == [a, b, c]
      ensures triangles == old(triangles) + [t] && vertices == old(vertices)
      ensures a.triangles.items == old(a.triangles.items) + [t]
      ensures b.triangles.items == old(b.triangles.items) + [t]
      ensures c.triangles.items == old(c.triangles.items) + [t]
      ensures VertexList(vertices) == old(VertexList(vertices))
      ensures TriangleList(triangles) == old(TriangleList(triangles)) + [TriangleData(a.index, b.index, c.index)]
    {
      assert forall u :: u in Corners(triangles) ==> allocated(u);
      t := new Triangle(a, b, c);
      triangles := triangles + [t];
    }

    /** AddTriangle(t) (Mesh.cs:430-434): the triangle is appended as is. */
    method AddExistingTriangle(t: Triangle) returns (r: Triangle)
      modifies this
      ensures r == t && triangles == old(triangles) + [t] && vertices == old(vertices)
      ensures TriangleList(triangles) == old(TriangleList(triangles)) + [TriangleData(t.a.index, t.b.index, t.c.index)]
    {
      assert forall u :: u in Corners(triangles) ==> allocated(u);
      triangles := triangles + [t];
      r := t;
    }

    /**
     * AddMesh(mesh) (Mesh.cs:494-505): all of the other mesh's vertices, then
     * all its triangles, are appended in order; each added vertex is
     * renumbered. When the other mesh's vertices are distinct, the j-th of them
     * ends up with index (old count + j). The source loops forever when a mesh
     * is added to itself, so that call is excluded. Each of the source's two
     * loops is the body of one helper, AppendVertices and AppendTriangles.
     */
    method AddMesh(other: Mesh)
      requires other != this
      modifies this, other.vertices`index
      ensures vertices == old(vertices) + old(other.vertices)
      ensures triangles == old(triangles) + old(other.triangles)
      ensures other.vertices == old(other.vertices) && other.triangles == old(other.triangles)
      ensures other.DistinctVertices() ==>
        forall j :: 0 <= j < |other.vertices| ==> other.vertices[j].index == old(|vertices|) + j
    {
      AppendVertices(other.vertices);
      AppendTriangles(other.triangles);
    }

    /** The first loop of AddMesh: AddVertex(v) for each given vertex, in order. */
    method AppendVertices(vs: seq<Vertex>)
      modifies this, vs`index
      ensures vertices == old(vertices) + vs && triangles == old(triangles)
      ensures (forall i, j :: 0 <= i < j < |vs| ==> vs[i] != vs[j]) ==>
        forall j :: 0 <= j < |vs| ==> vs[j].index == old(|vertices|) + j
    {
      ghost var n0 := |vertices|;
      for i := 0 to |vs|
        invariant vertices == old(vertices) + vs[..i] && triangles == old(triangles)
        invariant (forall i, j :: 0 <= i < j < |vs| ==> vs[i] != vs[j]) ==>
          forall j :: 0 <= j < i ==> vs[j].index == n0 + j
      {
        var v := AddExistingVertex(vs[i]);
        TakeOneMore(vs, i);
      }
      assert vs[..|vs|] == vs;
    }

    /** The second loop of AddMesh: AddTriangle(t) for each given triangle, in order. */
    method AppendTriangles(ts: seq<Triangle>)
      modifies this
      ensures triangles == old(triangles) + ts && vertices == old(vertices)
    {
      for i := 0 to |ts|
        invariant triangles == old(triangles) + ts[..i] && vertices == old(vertices)
      {
        var t := AddExistingTriangle(ts[i]);
        TakeOneMore(ts, i);
      }
      assert ts[..|ts|] == ts;
    }

    /**
     * GetBuffers (Mesh.cs:304-411): the buffers and bounds of the current
     * vertices and triangles, or the exception the source raises.
     */
    method GetBuffers() returns (r: Result<MeshBuffers, BufferError>)
      ensures r == Buffers(VertexList(vertices), TriangleList(triangles))
    {
      var vs := VertexList(vertices);
      var ts := TriangleList(triangles);
      assert forall v :: v in Corners(triangles) ==> allocated(v);
      assert forall v :: v in vertices ==> allocated(v);
      r := BuildBuffers(vs, ts);
    }

    /**
     * Mesh.Box(size) (Mesh.cs:468-493): the eight corners of a cube of edge
     * `size` centred on the origin, then twelve triangles on them. The source
     * spells out the eight AddVertex and twelve AddTriangle calls; here the
     * same calls, in the same order, are driven by the tables BoxCorners and
     * BoxFaces. Vertex normals are not modelled.
     */
    static method Box(size: real) returns (mesh: Mesh)
      ensures fresh(mesh)
      ensures VertexList(mesh.vertices) == NewVertices(BoxCorners(size))
      ensures TriangleList(mesh.triangles) == BoxFaces
    {
      mesh := new Mesh();
      var vs := AddCorners(mesh, BoxCorners(size));
      BoxFacesInRange();
      AddFaces(mesh, vs, BoxFaces);
    }

    /** Box's eight AddVertex calls: one new vertex per corner, in order. */
    static method AddCorners(mesh: Mesh, corners: seq<Vec3>) returns (vs: seq<Vertex>)
      requires mesh.vertices == [] && mesh.triangles == []
      modifies mesh
      ensures mesh.vertices == vs && mesh.triangles == []
      ensures forall j :: 0 <= j < |vs| ==> fresh(vs[j]) && fresh(vs[j].triangles) && vs[j].index == j
      ensures VertexList(vs) == NewVertices(corners)
    {
      vs := [];
      for k := 0 to |corners|
        invariant mesh.vertices == vs && mesh.triangles == [] && |vs| == k
        invariant forall j :: 0 <= j < |vs| ==> fresh(vs[j]) && fresh(vs[j].triangles)
        invariant VertexList(vs) == NewVertices(corners[..k])
      {
        var v := mesh.AddVertex(corners[k], DefaultUV, Origin, DefaultColor);
        assert corners[..k + 1][..k] == corners[..k];
        vs := vs + [v];
      }
      assert corners[..|corners|] == corners;
      NewVerticesIndexed(vs, corners);
    }

    /**
     * Box's twelve AddTriangle calls: one triangle per face, on the vertices the
     * face's indices name, appended in order.
     */
    static method AddFaces(mesh: Mesh, vs: seq<Vertex>, faces: seq<TriangleData>)
      requires mesh.vertices == vs && mesh.triangles == []
      requires forall j :: 0 <= j < |vs| ==> vs[j].index == j
      requires forall k :: 0 <= k < |faces| ==> 0 <= faces[k].a < |vs| && 0 <= faces[k].b < |vs| && 0 <= faces[k].c < |vs|
      modifies mesh, Lists(vs)
      ensures mesh.vertices == vs && VertexList(vs) == old(VertexList(vs))
      ensures TriangleList(mesh.triangles) == faces
    {
      for k := 0 to |faces|
        invariant mesh.vertices == vs && VertexList(vs) == old(VertexList(vs))
        invariant TriangleList(mesh.triangles) == faces[..k]
      {
        var f := faces[k];
        var t := mesh.AddTriangle(vs[f.a], vs[f.b], vs[f.c]);
        TakeOneMore(faces, k);
      }
      assert faces[..|faces|] == faces;
    }

    /**
     * One line of Mesh.FromSTL (Mesh.cs:244-266) applied to the mesh under
     * construction and the vertex cache, in step with StlLine.
     */
    static method ReadLine(mesh: Mesh, cache: seq<Vertex>, line: string, parse: string -> Vec3, ghost st: StlState)
      returns (r: Result<seq<Vertex>, StlError>)
      requires Reading(mesh, cache, st)
      modifies mesh, Lists(cache)
      ensures r.Failure? <==> StlLine(st, line, parse).Failure?
      ensures r.Failure? ==> StlLine(st, line, parse) == Failure(r.error)
      ensures r.Ok? ==> Reading(mesh, r.value, StlLine(st, line, parse).value)
      ensures r.Ok? ==> forall k :: 0 <= k < |r.value| ==> r.value[k] in cache || (fresh(r.value[k]) && fresh(r.value[k].triangles))
    {
      var l := TrimStart(line);
      var next := cache;
      if StartsWith(l, "facet") {
        next := [];
      }
      next := ReadVertex(mesh, next, l, parse, FacetLine(st, l));
      r := ReadEndfacet(mesh, next, l, VertexLine(FacetLine(st, l), l, parse));
    }

    /** The "vertex" test of FromSTL (Mesh.cs:251-260). */
    static method ReadVertex(mesh: Mesh, cache: seq<Vertex>, l: string, parse: string -> Vec3, ghost st: StlState)
      returns (next: seq<Vertex>)
      requires Reading(mesh, cache, st)
      modifies mesh
      ensures Reading(mesh, next, VertexLine(st, l, parse))
      ensures forall k :: 0 <= k < |next| ==> next[k] in cache || (fresh(next[k]) && fresh(next[k].triangles))
    {
      next := cache;
      if StartsWith(l, "vertex") {
        var p := parse(l);
        var v := AddParsedVertex(mesh, p);
        next := cache + [v];
        ReadingAdded(mesh, cache, st, p, v);
      }
    }

    /** `AddVertex(new Vertex(p))` in FromSTL (Mesh.cs:256-258): a fresh vertex numbered with the old count. */
    static method AddParsedVertex(mesh: Mesh, p: Vec3) returns (v: Vertex)
      modifies mesh
      ensures fresh(v) && fresh(v.triangles) && mesh.vertices == old(mesh.vertices) + [v]
      ensures v.index == |old(mesh.vertices)|
      ensures VertexList(mesh.vertices) == old(VertexList(mesh.vertices)) + [VertexData(p, Origin, DefaultColor, DefaultUV, |old(mesh.vertices)|)]
      ensures mesh.triangles == old(mesh.triangles) && TriangleList(mesh.triangles) == old(TriangleList(mesh.triangles))
    {
      assert forall u :: u in Corners(mesh.triangles) ==> allocated(u);
      assert forall u :: u in mesh.vertices ==> allocated(u);
      v := new Vertex(p, None, DefaultColor);
      v := mesh.AddExistingVertex(v);
    }

    /** The "endfacet" test of FromSTL (Mesh.cs:262-266). */
    static method ReadEndfacet(mesh: Mesh, cache: seq<Vertex>, l: string, ghost st: StlState)
      returns (r: Result<seq<Vertex>, StlError>)
      requires Reading(mesh, cache, st)
      modifies mesh, Lists(cache)
      ensures r.Failure? <==> EndfacetLine(st, l).Failure?
      ensures r.Failure? ==> EndfacetLine(st, l) == Failure(r.error)
      ensures r.Ok? ==> r.value == cache && Reading(mesh, cache, EndfacetLine(st, l).value)
    {
      if StartsWith(l, "endfacet") {
        if |cache| < 3 {
          return Failure(CacheTooShort(|cache|));
        }
        AddCachedTriangle(mesh, cache);
        ReadingFaced(mesh, cache, st);
      }
      return Ok(cache);
    }

    /** `AddTriangle(new Triangle(vertexCache[0], vertexCache[1], vertexCache[2]))` (Mesh.cs:264). */
    static method AddCachedTriangle(mesh: Mesh, cache: seq<Vertex>)
      requires |cache| >= 3
      modifies mesh, Lists(cache)
      ensures mesh.vertices == old(mesh.vertices) && VertexList(mesh.vertices) == old(VertexList(mesh.vertices))
      ensures TriangleList(mesh.triangles) == old(TriangleList(mesh.triangles)) + [TriangleData(cache[0].index, cache[1].index, cache[2].index)]
    {
      ghost var faces := TriangleList(mesh.triangles);
      assert forall u :: u in Corners(mesh.triangles) ==> allocated(u);
      var t := new Triangle(cache[0], cache[1], cache[2]);
      assert TriangleList(mesh.triangles) == faces;
      t := mesh.AddExistingTriangle(t);
    }

    /**
     * Mesh.FromSTL (Mesh.cs:232-270) over the lines of an ASCII STL file: the
     * mesh StlRun describes, or the exception of an "endfacet" line reached
     * with fewer than three cached vertices. The exceptions a malformed
     * "vertex" line raises while its numbers are split and parsed are not
     * modelled: `parse` is total.
     */
    static method FromSTL(lines: seq<string>, parse: string -> Vec3) returns (r: Result<Mesh, StlError>)
      ensures r.Ok? <==> StlRun(StlStart, lines, parse).Ok?
      ensures r.Failure? ==> StlRun(StlStart, lines, parse) == Failure(r.error)
      ensures r.Ok? ==> fresh(r.value)
      ensures r.Ok? ==> VertexList(r.value.vertices) == NewVertices(StlRun(StlStart, lines, parse).value.positions)
      ensures r.Ok? ==> TriangleList(r.value.triangles) == StlRun(StlStart, lines, parse).value.faces
    {
      var cache: seq<Vertex> := [];
      var mesh := new Mesh();
      ghost var st := StlStart;
      for i := 0 to |lines|
        invariant StlRun(StlStart, lines, parse) == StlRun(st, lines[i..], parse)
        invariant fresh(mesh) && forall k :: 0 <= k < |cache| ==> fresh(cache[k]) && fresh(cache[k].triangles)
        invariant Reading(mesh, cache, st)
      {
        assert lines[i..] == [lines[i]] + lines[i + 1..];
        var step := ReadLine(mesh, cache, lines[i], parse, st);
        if step.Failure? {
          return Failure(step.error);
        }
        cache := step.value;
        st := StlLine(st, lines[i], parse).value;
      }
      return Ok(mesh);
    }
  }

  /** The mesh and the vertex cache of FromSTL agree with the reader's state. */
  ghost predicate Reading(mesh: Mesh, cache: seq<Vertex>, st: StlState)
    reads mesh, mesh.vertices, Corners(mesh.triangles), cache
  {
    && VertexList(mesh.vertices) == NewVertices(st.positions)
    && TriangleList(mesh.triangles) == st.faces
    && |cache| == |st.cache|
    && forall k :: 0 <= k < |cache| ==> cache[k].index == st.cache[k]
  }

  /** Reading survives appending a vertex numbered with the vertex count to the mesh and the cache. */
  lemma ReadingAdded(mesh: Mesh, cache: seq<Vertex>, st: StlState, p: Vec3, v: Vertex)
    requires VertexList(mesh.vertices) == NewVertices(st.positions) + [VertexData(p, Origin, DefaultColor, DefaultUV, |st.positions|)]
    requires TriangleList(mesh.triangles) == st.faces && v.index == |st.positions|
    requires |cache| == |st.cache| && forall k :: 0 <= k < |cache| ==> cache[k].index == st.cache[k]
    ensures Reading(mesh, cache + [v], Added(st, p))
  {
    NewVerticesSnoc(st.positions, p);
  }

  /** Reading survives appending the triangle on the first three cached vertices. */
  lemma ReadingFaced(mesh: Mesh, cache: seq<Vertex>, st: StlState)
    requires |cache| >= 3 && |cache| == |st.cache| && forall k :: 0 <= k < |cache| ==> cache[k].index == st.cache[k]
    requires VertexList(mesh.vertices) == NewVertices(st.positions)
    requires TriangleList(mesh.triangles) == st.faces + [TriangleData(cache[0].index, cache[1].index, cache[2].index)]
    ensures Reading(mesh, cache, st.(faces := st.faces + [TriangleData(st.cache[0], st.cache[1], st.cache[2])]))
  {
  }

  lemma NewVerticesSnoc(ps: seq<Vec3>, p: Vec3)
    ensures NewVertices(ps + [p]) == NewVertices(ps) + [VertexData(p, Origin, DefaultColor, DefaultUV, |ps|)]
  {
    assert (ps + [p])[..|ps|] == ps;
  }

  lemma TakeOneMore<T>(s: seq<T>, k: nat)
    requires k < |s|
    ensures s[..k + 1] == s[..k] + [s[k]]
  {
  }

  lemma {:induction false} VertexListAt(vs: seq<Vertex>)
    ensures forall i :: 0 <= i < |vs| ==> VertexList(vs)[i] == vs[i].Data()
  {
    if vs != [] {
      VertexListAt(vs[..|vs| - 1]);
    }
  }

  lemma {:induction false} NewVerticesAt(ps: seq<Vec3>)
    ensures forall i :: 0 <= i < |ps| ==> NewVertices(ps)[i] == VertexData(ps[i], Origin, DefaultColor, DefaultUV, i)
  {
    if ps != [] {
      NewVerticesAt(ps[..|ps| - 1]);
    }
  }

  /** Vertices whose data are NewVertices(ps) carry the indices 0, 1, 2, ... */
  lemma NewVerticesIndexed(vs: seq<Vertex>, ps: seq<Vec3>)
    requires VertexList(vs) == NewVertices(ps)
    ensures forall j :: 0 <= j < |vs| ==> vs[j].index == j
  {
    NewVerticesAt(ps);
    VertexListAt(vs);
    forall j | 0 <= j < |vs|
      ensures vs[j].index == j
    {
      assert vs[j].Data() == VertexList(vs)[j];
    }
  }

  /** The data of vertices made by `new Vertex(p)` and numbered in order. */
  function NewVertices(ps: seq<Vec3>): (r: seq<VertexData>)
    ensures |r| == |ps|
  {
    if ps == [] then []
    else NewVertices(ps[..|ps| - 1]) + [VertexData(ps[|ps| - 1], Origin, DefaultColor, DefaultUV, |ps| - 1)]
  }

  /** Box(size)'s corners v1..v8. */
  function BoxCorners(size: real): (r: seq<Vec3>)
    ensures |r| == 8
  {
    var h := size / 2.0;
    [Vec3(h, h, -h), Vec3(-h, h, -h), Vec3(-h, -h, -h), Vec3(h, -h, -h),
     Vec3(h, h, h), Vec3(-h, h, h), Vec3(-h, -h, h), Vec3(h, -h, h)]
  }

  /** Box(size)'s twelve triangles, as indices of BoxCorners. */
  const BoxFaces: seq<TriangleData> := [
    TriangleData(0, 5, 4), TriangleData(0, 1, 5), TriangleData(1, 6, 5), TriangleData(1, 2, 6),
    TriangleData(2, 7, 6), TriangleData(2, 3, 7), TriangleData(3, 4, 7), TriangleData(3, 0, 4),
    TriangleData(0, 3, 2), TriangleData(0, 2, 1), TriangleData(4, 5, 6), TriangleData(4, 6, 7)]

  /** Every corner index of BoxFaces names one of the eight corners. */
  lemma BoxFacesInRange()
    ensures forall k :: 0 <= k < |BoxFaces| ==> BoxFaces[k].a < 8 && BoxFaces[k].b < 8 && BoxFaces[k].c < 8
    ensures forall k :: 0 <= k < |BoxFaces| ==> 0 <= BoxFaces[k].a && 0 <= BoxFaces[k].b && 0 <= BoxFaces[k].c
  {
  }

  /**
   * Vertices made by `new Vertex(p)` and numbered in order carry Index i, are
   * uncolored, and have the given positions.
   */
  lemma NewVerticesPlain(ps: seq<Vec3>)
    ensures Numbered(NewVertices(ps)) && !AnyColored(NewVertices(ps))
    ensures Positions(NewVertices(ps)) == ps
  {
    NewVerticesAt(ps);
    ProjectionsAt(NewVertices(ps));
  }

  /**
   * GetBuffers on such vertices, the state Box and FromSTL leave, succeeds
   * iff there is at least one, writes no color buffer, and, up to 65536 of
   * them, reports the index bounds 0 and |V|-1.
   */
  lemma NewVerticesExport(ps: seq<Vec3>, ts: seq<TriangleData>)
    ensures Buffers(NewVertices(ps), ts).Ok? <==> |ps| > 0
    ensures 0 < |ps| <= UshortMax + 1 ==>
      var b := Buffers(NewVertices(ps), ts).value;
      && b.indexMin == 0 && b.indexMax == |ps| - 1
      && b.colorBuffer == [] && b.cMin == [] && b.cMax == []
  {
    var vs := NewVertices(ps);
    NewVerticesPlain(ps);
    BuffersFailure(vs, ts);
    if 0 < |ps| <= UshortMax + 1 {
      IndexBoundsOfNumbered(vs);
      ColorBufferShape(vs, ts);
    }
  }

  /**
   * The bounds GetBuffers computes for a box of edge `size` >= 0 (the tight
   * corners of its vertex positions, see VertexBoundsAreTight and
   * NewVerticesPlain) are (-size/2, -size/2, -size/2) and (size/2, size/2, size/2).
   */
  lemma BoxBounds(size: real)
    requires size >= 0.0
    ensures var h := size / 2.0;
      MinCorner(BoxCorners(size)) == [-h, -h, -h] && MaxCorner(BoxCorners(size)) == [h, h, h]
  {
    var ps := BoxCorners(size);
    BoxCornersWithin(size);
    CornersAreTight(ps);
    CubeCorners(ps, size / 2.0, MinCorner(ps), MaxCorner(ps));
  }

  /** Each box corner lies within [-size/2, size/2] on every axis; corners 2 and 4 are opposite. */
  lemma BoxCornersWithin(size: real)
    requires size >= 0.0
    ensures var h := size / 2.0; var ps := BoxCorners(size);
      && Vec3(-h, -h, -h) in ps && Vec3(h, h, h) in ps
      && forall i :: 0 <= i < |ps| ==> -h <= ps[i].x <= h && -h <= ps[i].y <= h && -h <= ps[i].z <= h
  {
  }

  /** Box's eight vertices are indexed 0..7 and its twelve triangles take 72 index bytes. */
  lemma BoxIndices(size: real)
    ensures var b := Buffers(NewVertices(BoxCorners(size)), BoxFaces);
      b.Ok? && b.value.indexMin == 0 && b.value.indexMax == 7 && |b.value.indexBuffer| == 72
  {
    NewVerticesExport(BoxCorners(size), BoxFaces);
    BufferSizes(NewVertices(BoxCorners(size)), BoxFaces);
  }
}
