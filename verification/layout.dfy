/**
 * What the record appenders and primitive encoders of GltfExtensions.cs add
 * to the document, as functions of the lengths before the call: the bytes
 * appended to the binary buffer, the buffer views, the accessors, the mesh and
 * the node. The methods of GltfBuilder.Builder are proved to append exactly
 * these; the lemmas here state what the layout guarantees.
 */
module GltfLayout {
  import opened Wrappers
  import opened Bytes
  import opened Geometry
  import opened GltfSchema

  // ---------------------------------------------------------------------------
  // AddNode (GltfExtensions.cs:352-374)
  // ---------------------------------------------------------------------------

  /** A valid parent for AddNode: an existing node, or the node being added. */
  predicate ParentOk(nodes: seq<Node>, parent: Option<nat>)
  {
    parent.Some? ==> parent.value <= |nodes|
  }

  /**
   * The node list after AddNode(n, parent): `n` appended with id |nodes|, and
   * that id appended to the parent's children.
   */
  function WithNode(nodes: seq<Node>, n: Node, parent: Option<nat>): (r: seq<Node>)
    requires ParentOk(nodes, parent)
    ensures |r| == |nodes| + 1
    ensures forall j :: 0 <= j < |nodes| && Some(j) != parent ==> r[j] == nodes[j]
    ensures parent != Some(|nodes|) ==> r[|nodes|] == n
    ensures parent.Some? ==>
      var p := parent.value;
      var before := (nodes + [n])[p];
      r[p] == before.(children := before.children + [|nodes|])
  {
    var all := nodes + [n];
    if parent.None? then all
    else all[parent.value := all[parent.value].(children := all[parent.value].children + [|nodes|])]
  }

  /**
   * The new node is a child of its parent exactly once more than before, the
   * parent keeps its earlier children in order, and nothing but the parent's
   * children changes.
   */
  lemma WithNodeChildren(nodes: seq<Node>, n: Node, p: nat)
    requires p < |nodes|
    ensures var r := WithNode(nodes, n, Some(p));
      && r[p].children[..|nodes[p].children|] == nodes[p].children
      && r[p].children[|nodes[p].children|] == |nodes|
      && r[p] == nodes[p].(children := r[p].children)
      && r[|nodes|] == n
  {
  }

  /**
   * The node list after adding each of `ns`, in order, as a new child of the
   * root (the loops of AddInstanceMesh and AddLights).
   */
  function WithRootChildren(nodes: seq<Node>, ns: seq<Node>): (r: seq<Node>)
    requires |nodes| > 0
    ensures |r| == |nodes| + |ns|
    decreases |ns|
  {
    if ns == [] then nodes
    else WithNode(WithRootChildren(nodes, ns[..|ns| - 1]), ns[|ns| - 1], Some(0))
  }

  /**
   * Adding nodes under the root appends them in order with consecutive ids,
   * appends exactly those ids to the root's children, and leaves every other
   * node untouched.
   */
  lemma {:induction false} RootChildren(nodes: seq<Node>, ns: seq<Node>)
    requires |nodes| > 0
    ensures var r := WithRootChildren(nodes, ns);
      && (forall j :: 0 < j < |nodes| ==> r[j] == nodes[j])
      && (forall k :: 0 <= k < |ns| ==> r[|nodes| + k] == ns[k])
      && r[0] == nodes[0].(children := nodes[0].children + Range(|nodes|, |ns|))
  {
    RootChildrenKeep(nodes, ns);
    RootChildrenAppended(nodes, ns);
    RootChildrenRoot(nodes, ns);
  }

  /** Nodes other than the root are untouched. */
  lemma {:induction false} RootChildrenKeep(nodes: seq<Node>, ns: seq<Node>)
    requires |nodes| > 0
    ensures forall j :: 0 < j < |nodes| ==> WithRootChildren(nodes, ns)[j] == nodes[j]
    decreases |ns|
  {
    if ns != [] {
      RootChildrenKeep(nodes, ns[..|ns| - 1]);
    }
  }

  /** The added nodes follow the old ones, in order. */
  lemma {:induction false} RootChildrenAppended(nodes: seq<Node>, ns: seq<Node>)
    requires |nodes| > 0
    ensures forall k :: 0 <= k < |ns| ==> WithRootChildren(nodes, ns)[|nodes| + k] == ns[k]
    decreases |ns|
  {
    if ns != [] {
      var m := |ns| - 1;
      RootChildrenAppended(nodes, ns[..m]);
      var prefix := WithRootChildren(nodes, ns[..m]);
      forall k | 0 <= k < m
        ensures WithRootChildren(nodes, ns)[|nodes| + k] == ns[k]
      {
        assert ns[..m][k] == ns[k];
        assert WithRootChildren(nodes, ns)[|nodes| + k] == prefix[|nodes| + k];
      }
    }
  }

  /** The root gains the ids of the added nodes as children, in order. */
  lemma {:induction false} RootChildrenRoot(nodes: seq<Node>, ns: seq<Node>)
    requires |nodes| > 0
    ensures WithRootChildren(nodes, ns)[0] == nodes[0].(children := nodes[0].children + Range(|nodes|, |ns|))
    decreases |ns|
  {
    if ns != [] {
      var m := |ns| - 1;
      RootChildrenRoot(nodes, ns[..m]);
      RangeSnoc(|nodes|, m);
    }
  }

  lemma RangeSnoc(start: nat, m: nat)
    ensures Range(start, m + 1) == Range(start, m) + [start + m]
  {
    assert Range(start, m + 1) == Range(start, m) + [start + m];
  }

  /** The node AddInstanceMesh adds for one mesh: the shared matrix and the mesh id. */
  function InstanceNode(meshId: int, t: Transform): (n: Node)
    ensures n.mesh == Some(meshId) && n.matrix == Some(t) && n.children == []
  {
    Node(None, Some(t), Some(meshId), [], None)
  }

  /** The nodes AddInstanceMesh adds, one per mesh id, in order. */
  function InstanceNodeList(meshIds: seq<int>, t: Transform): (r: seq<Node>)
    ensures |r| == |meshIds|
    ensures forall k :: 0 <= k < |meshIds| ==> r[k] == InstanceNode(meshIds[k], t)
  {
    seq(|meshIds|, k requires 0 <= k < |meshIds| => InstanceNode(meshIds[k], t))
  }

  // ---------------------------------------------------------------------------
  // AddLights (GltfExtensions.cs:237-278)
  // ---------------------------------------------------------------------------

  /** A DirectionalLight of the model: color, intensity, name (possibly null) and placement. */
  datatype LightInput = LightInput(color: Color, intensity: real, name: Option<string>, transform: Transform)

  /** The entry of the "lights" array for a light: its RGB color, type "directional", its intensity and its name or "". */
  function LightRecord(l: LightInput): (r: Light)
    ensures r.color == Vec3(l.color.red, l.color.green, l.color.blue) && r.kind == Directional && r.intensity == l.intensity
    ensures r.name == (if l.name.Some? then l.name.value else "")
  {
    Light(Vec3(l.color.red, l.color.green, l.color.blue), Directional, l.intensity, if l.name.Some? then l.name.value else "")
  }

  /** The "lights" array for a list of lights, in order. */
  function LightRecords(ls: seq<LightInput>): (r: seq<Light>)
    ensures |r| == |ls| && forall k :: 0 <= k < |ls| ==> r[k] == LightRecord(ls[k])
  {
    seq(|ls|, k requires 0 <= k < |ls| => LightRecord(ls[k]))
  }

  /** The node of the k-th light: the light's placement and a reference to light k. */
  function LightNode(l: LightInput, k: nat): (n: Node)
    ensures n.matrix == Some(l.transform) && n.light == Some(k) && n.mesh.None? && n.children == []
  {
    Node(None, Some(l.transform), None, [], Some(k))
  }

  /** The nodes AddLights adds, the k-th referring to light k. */
  function LightNodeList(ls: seq<LightInput>): (r: seq<Node>)
    ensures |r| == |ls| && forall k :: 0 <= k < |ls| ==> r[k] == LightNode(ls[k], k)
  {
    seq(|ls|, k requires 0 <= k < |ls| => LightNode(ls[k], k))
  }

  /** The ids start, start + 1, ..., start + count - 1. */
  function Range(start: nat, count: nat): (r: seq<nat>)
    ensures |r| == count
    ensures forall k :: 0 <= k < count ==> r[k] == start + k
  {
    seq(count, k => start + k)
  }

  // ---------------------------------------------------------------------------
  // Padding: `while (buffer.Count % 4 != 0) buffer.Add(0)`
  // ---------------------------------------------------------------------------

  /** The buffer after the padding loop. */
  function Padded(buffer: seq<byte>): (r: seq<byte>)
    ensures |buffer| <= |r| < |buffer| + 4
    ensures |r| % 4 == 0
    ensures r[..|buffer|] == buffer
    ensures forall j :: |buffer| <= j < |r| ==> r[j] == 0
  {
    buffer + Zeros(PadLength(|buffer|))
  }

  /** Padding adds the fewest zero bytes that reach a multiple of 4, and none to an aligned buffer. */
  lemma PaddedIsShortest(buffer: seq<byte>, j: nat)
    requires (|buffer| + j) % 4 == 0
    ensures |Padded(buffer)| <= |buffer| + j
    ensures |buffer| % 4 == 0 ==> Padded(buffer) == buffer
  {
    PadLengthIsLeast(|buffer|, j);
  }

  // ---------------------------------------------------------------------------
  // AddTriangleMesh (GltfExtensions.cs:402-482)
  // ---------------------------------------------------------------------------

  /**
   * The arguments of AddTriangleMesh. The parent index it takes is never read
   * and is left out; the bounds are the arrays it indexes.
   */
  datatype TriangleMeshArgs = TriangleMeshArgs(
    name: MeshName, vertices: seq<byte>, normals: seq<byte>, indices: seq<byte>,
    colors: seq<byte>, uvs: seq<byte>,
    vMin: seq<real>, vMax: seq<real>, nMin: seq<real>, nMax: seq<real>,
    iMin: nat, iMax: nat, uvMin: seq<real>, uvMax: seq<real>,
    materialId: int, cMin: seq<real>, cMax: seq<real>)

  /**
   * AddTriangleMesh reads vMin[0..2], vMax[0..2], nMin[0..2], nMax[0..2],
   * and uvMin[0..1], uvMax[0..1] when there are texture coordinates; shorter
   * arrays throw IndexOutOfRangeException before anything else is read.
   */
  predicate TriangleBoundsOk(a: TriangleMeshArgs)
  {
    && |a.vMin| >= 3 && |a.vMax| >= 3 && |a.nMin| >= 3 && |a.nMax| >= 3
    && (|a.uvs| > 0 ==> |a.uvMin| >= 2 && |a.uvMax| >= 2)
  }

  /** The offset of the texture-coordinate view: after the padding that follows the index bytes. */
  function AfterPad(start: nat, a: TriangleMeshArgs): nat
  {
    var end := start + |a.vertices| + |a.normals| + |a.indices|;
    end + PadLength(end)
  }

  /** The bytes AddTriangleMesh appends to a buffer of length `start`. */
  function TriangleMeshBytes(start: nat, a: TriangleMeshArgs): (r: seq<byte>)
    ensures start + |r| == AfterPad(start, a) + |a.uvs| + |a.colors|
  {
    var end := start + |a.vertices| + |a.normals| + |a.indices|;
    a.vertices + a.normals + a.indices + Zeros(PadLength(end)) + a.uvs + a.colors
  }

  /** The buffer views AddTriangleMesh appends, for a buffer of length `start`. */
  function TriangleMeshViews(start: nat, a: TriangleMeshArgs): (r: seq<BufferView>)
    ensures |r| == 3 + (if |a.uvs| > 0 then 1 else 0) + (if |a.colors| > 0 then 1 else 0)
  {
    var p := AfterPad(start, a);
    [BufferView(0, start, |a.vertices|),
     BufferView(0, start + |a.vertices|, |a.normals|),
     BufferView(0, start + |a.vertices| + |a.normals|, |a.indices|)]
    + (if |a.uvs| > 0 then [BufferView(0, p, |a.uvs|)] else [])
    + (if |a.colors| > 0 then [BufferView(0, p + |a.uvs|, |a.colors|)] else [])
  }

  /** Index, among the appended views and accessors, of the color entry. */
  function ColorSlot(a: TriangleMeshArgs): nat
  {
    if |a.uvs| > 0 then 4 else 3
  }

  /**
   * The accessors AddTriangleMesh appends when `views` buffer views exist
   * before the call: positions, normals and indices, then texture coordinates
   * and colors when present. Counts are byte lengths divided by the element
   * size, truncating.
   */
  function TriangleMeshAccessors(views: nat, a: TriangleMeshArgs): (r: seq<Accessor>)
    requires TriangleBoundsOk(a)
    ensures |r| == |TriangleMeshViews(0, a)|
  {
    [Accessor(views, 0, Float, |a.vertices| / FloatSize / 3, a.vMin[..3], a.vMax[..3], Vec3Type),
     Accessor(views + 1, 0, Float, |a.normals| / FloatSize / 3, a.nMin[..3], a.nMax[..3], Vec3Type),
     Accessor(views + 2, 0, UnsignedShort, |a.indices| / UshortSize, [a.iMin as real], [a.iMax as real], Scalar)]
    + (if |a.uvs| > 0
       then [Accessor(views + 3, 0, Float, |a.uvs| / FloatSize / 2, a.uvMin[..2], a.uvMax[..2], Vec2)]
       else [])
    + (if |a.colors| > 0
       then [Accessor(views + ColorSlot(a), 0, Float, |a.colors| / FloatSize / 3, a.cMin, a.cMax, Vec3Type)]
       else [])
  }

  /** The attribute map of the primitive, when `acc` accessors exist before the call. */
  function TriangleAttributes(acc: nat, a: TriangleMeshArgs): map<string, nat>
  {
    var base := map["NORMAL" := acc + 1, "POSITION" := acc];
    var withUV := if |a.uvs| > 0 then base["TEXCOORD_0" := acc + 3] else base;
    if |a.colors| > 0 then withUV["COLOR_0" := acc + ColorSlot(a)] else withUV
  }

  /** The mesh AddTriangleMesh appends: one TRIANGLES primitive. */
  function TriangleMeshRecord(acc: nat, a: TriangleMeshArgs): Mesh
  {
    Mesh(a.name, [Primitive(acc + 2, a.materialId, Triangles, TriangleAttributes(acc, a))])
  }

  /**
   * The three fixed views start at the old buffer length L, at L + |vertices|
   * and at L + |vertices| + |normals|; the accessor counts are |vertices|/12,
   * |normals|/12 and |indices|/2.
   */
  lemma TriangleMeshOffsets(start: nat, views: nat, a: TriangleMeshArgs)
    requires TriangleBoundsOk(a)
    ensures var v := TriangleMeshViews(start, a);
      v[0].byteOffset == start && v[1].byteOffset == start + |a.vertices| &&
      v[2].byteOffset == start + |a.vertices| + |a.normals|
    ensures var c := TriangleMeshAccessors(views, a);
      c[0].count == |a.vertices| / 12 && c[1].count == |a.normals| / 12 && c[2].count == |a.indices| / 2
    ensures var c := TriangleMeshAccessors(views, a);
      forall k :: 0 <= k < |c| ==> c[k].bufferView == views + k
    ensures var v := TriangleMeshViews(start, a);
      && (forall k :: 0 <= k < |v| ==> v[k].buffer == 0)
      && v[0].byteLength == |a.vertices| && v[1].byteLength == |a.normals| && v[2].byteLength == |a.indices|
      && (|a.uvs| > 0 ==> v[3] == BufferView(0, AfterPad(start, a), |a.uvs|))
      && (|a.colors| > 0 ==> v[ColorSlot(a)] == BufferView(0, AfterPad(start, a) + |a.uvs|, |a.colors|))
  {
  }

  /**
   * Every view AddTriangleMesh appends lies in buffer 0 inside the bytes it
   * appends, and every accessor it appends names one of those views.
   */
  lemma TriangleMeshInside(start: nat, views: nat, a: TriangleMeshArgs)
    requires TriangleBoundsOk(a)
    ensures var v := TriangleMeshViews(start, a);
      forall k :: 0 <= k < |v| ==>
        v[k].buffer == 0 && start <= v[k].byteOffset && v[k].byteOffset + v[k].byteLength <= start + |TriangleMeshBytes(start, a)|
    ensures var c := TriangleMeshAccessors(views, a);
      forall k :: 0 <= k < |c| ==> views <= c[k].bufferView < views + |TriangleMeshViews(start, a)|
  {
    TriangleMeshOffsets(start, views, a);
  }

  /**
   * Alignment: when the buffer starts aligned and the position, normal,
   * texture-coordinate and color payloads are multiples of 4 bytes, every
   * view starts on a 4-byte boundary; the padding after the index bytes makes
   * this hold whatever the index payload's length.
   */
  lemma TriangleMeshAligned(start: nat, a: TriangleMeshArgs)
    requires start % 4 == 0
    requires |a.vertices| % 4 == 0 && |a.normals| % 4 == 0 && |a.uvs| % 4 == 0 && |a.colors| % 4 == 0
    ensures var v := TriangleMeshViews(start, a);
      forall k :: 0 <= k < |v| ==> v[k].byteOffset % 4 == 0
  {
  }

  /**
   * The appended bytes are the payloads at the offsets the views give them:
   * positions, normals and indices back to back, then the padding, then
   * texture coordinates and colors.
   */
  lemma TriangleMeshBytesLayout(start: nat, a: TriangleMeshArgs)
    ensures var b := TriangleMeshBytes(start, a);
      var p0 := |a.vertices|;
      var p1 := p0 + |a.normals|;
      var p2 := p1 + |a.indices|;
      var q := AfterPad(start, a) - start;
      && p2 <= q <= |b|
      && b[..p0] == a.vertices && b[p0..p1] == a.normals && b[p1..p2] == a.indices
      && (forall j :: p2 <= j < q ==> b[j] == 0)
      && b[q..q + |a.uvs|] == a.uvs && b[q + |a.uvs|..] == a.colors
  {
    var end := start + |a.vertices| + |a.normals| + |a.indices|;
    var head := a.vertices + a.normals + a.indices;
    var extras := a.uvs + a.colors;
    var tail := Zeros(PadLength(end)) + extras;
    var b := TriangleMeshBytes(start, a);
    assert b == head + tail;
    SplitAt(head, tail);
    SplitAt(a.vertices + a.normals, a.indices);
    SplitAt(a.vertices, a.normals);
    SplitAt(Zeros(PadLength(end)), extras);
    SplitAt(a.uvs, a.colors);
    var p0 := |a.vertices|;
    var p1 := p0 + |a.normals|;
    assert b[..p0] == head[..p0];
    assert b[p0..p1] == head[p0..p1];
    assert b[p1..|head|] == head[p1..];
    assert b[|head| + PadLength(end)..] == extras;
  }

  /** Both halves of a concatenation are recovered by slicing. */
  lemma SplitAt(x: seq<byte>, y: seq<byte>)
    ensures (x + y)[..|x|] == x && (x + y)[|x|..] == y
  {
  }

  /**
   * The primitive always has NORMAL and POSITION and mode TRIANGLES;
   * TEXCOORD_0 exactly when there are texture-coordinate bytes and COLOR_0
   * exactly when there are color bytes; each attribute names the accessor of
   * its own payload, and the index accessor is the third one.
   */
  lemma TriangleMeshAttributes(acc: nat, a: TriangleMeshArgs)
    ensures var m := TriangleMeshRecord(acc, a);
      var attrs := m.primitives[0].attributes;
      && |m.primitives| == 1 && m.primitives[0].mode == Triangles && m.primitives[0].indices == acc + 2
      && m.primitives[0].material == a.materialId
      && "POSITION" in attrs && attrs["POSITION"] == acc
      && "NORMAL" in attrs && attrs["NORMAL"] == acc + 1
      && ("TEXCOORD_0" in attrs <==> |a.uvs| > 0)
      && ("COLOR_0" in attrs <==> |a.colors| > 0)
      && ("TEXCOORD_0" in attrs ==> attrs["TEXCOORD_0"] == acc + 3)
      && ("COLOR_0" in attrs ==> attrs["COLOR_0"] == acc + ColorSlot(a))
      && attrs.Keys <= {"POSITION", "NORMAL", "TEXCOORD_0", "COLOR_0"}
  {
  }

  // ---------------------------------------------------------------------------
  // AddLineLoop (GltfExtensions.cs:493-546)
  // ---------------------------------------------------------------------------

  /** The bytes AddLineLoop appends to a buffer of length `start`: vertices, indices, padding. */
  function LineLoopBytes(start: nat, vertices: seq<byte>, indices: seq<byte>): (r: seq<byte>)
    ensures (start + |r|) % 4 == 0
  {
    vertices + indices + Zeros(PadLength(start + |vertices| + |indices|))
  }

  /** The two views AddLineLoop appends: vertices at the old length, indices right after. */
  function LineLoopViews(start: nat, vertices: seq<byte>, indices: seq<byte>): seq<BufferView>
  {
    [BufferView(0, start, |vertices|), BufferView(0, start + |vertices|, |indices|)]
  }

  /** The two accessors AddLineLoop appends when `views` views exist before the call. */
  function LineLoopAccessors(views: nat, vertices: seq<byte>, indices: seq<byte>,
                             vMin: seq<real>, vMax: seq<real>, iMin: nat, iMax: nat): seq<Accessor>
    requires |vMin| >= 3 && |vMax| >= 3
  {
    [Accessor(views, 0, Float, |vertices| / FloatSize / 3, vMin[..3], vMax[..3], Vec3Type),
     Accessor(views + 1, 0, UnsignedShort, |indices| / UshortSize, [iMin as real], [iMax as real], Scalar)]
  }

  /** The mesh AddLineLoop appends: one primitive with POSITION only, in the given mode. */
  function LineLoopRecord(acc: nat, name: MeshName, materialId: int, mode: Mode): Mesh
  {
    Mesh(name, [Primitive(acc + 1, materialId, mode, map["POSITION" := acc])])
  }

  /**
   * Both views AddLineLoop appends lie in buffer 0 inside the bytes it
   * appends, and its two accessors name those two views in order.
   */
  lemma LineLoopInside(start: nat, views: nat, vertices: seq<byte>, indices: seq<byte>,
                       vMin: seq<real>, vMax: seq<real>, iMin: nat, iMax: nat)
    requires |vMin| >= 3 && |vMax| >= 3
    ensures var v := LineLoopViews(start, vertices, indices);
      forall k :: 0 <= k < |v| ==>
        v[k].buffer == 0 && start <= v[k].byteOffset &&
        v[k].byteOffset + v[k].byteLength <= start + |LineLoopBytes(start, vertices, indices)|
    ensures var c := LineLoopAccessors(views, vertices, indices, vMin, vMax, iMin, iMax);
      |c| == 2 && c[0].bufferView == views && c[1].bufferView == views + 1
  {
  }

  /**
   * The index view starts right after the vertex bytes, both views hold their
   * payloads, and the primitive has POSITION as its only attribute.
   */
  lemma LineLoopLayout(start: nat, views: nat, acc: nat, vertices: seq<byte>, indices: seq<byte>,
                       name: MeshName, materialId: int, mode: Mode)
    ensures var v := LineLoopViews(start, vertices, indices);
      var b := LineLoopBytes(start, vertices, indices);
      && v[0].byteOffset == start && v[1].byteOffset == start + |vertices|
      && b[..|vertices|] == vertices && b[|vertices|..|vertices| + |indices|] == indices
    ensures var m := LineLoopRecord(acc, name, materialId, mode);
      m.primitives[0].attributes.Keys == {"POSITION"} && m.primitives[0].mode == mode
  {
    var b := LineLoopBytes(start, vertices, indices);
    assert b[..|vertices|] == vertices;
    assert b[|vertices|..|vertices| + |indices|] == indices;
  }
}
