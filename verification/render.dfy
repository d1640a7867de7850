/**
 * GetRenderDataForElement and InitializeGlTF (GltfExtensions.cs:690-1245) on
 * values: the whole state the serializer threads through its helpers, what
 * each element does to it, the line groups, and the finished document. The
 * methods of GltfScene are proved to compute exactly these functions.
 */
module RenderSpec {
  import opened Wrappers
  import opened Bytes
  import opened Geometry
  import opened GltfSchema
  import opened GltfLayout
  import opened LineEncoding
  import opened MeshLayout
  import opened Materials
  import opened SceneInput

  /**
   * The serializer's working state: the document's lists, the id counter,
   * meshElementMap, nodeElementMap, meshTransformMap, the buffers of merged
   * glb files (allBuffers after its first entry) and the current line group.
   */
  datatype DocState = DocState(
    buffer: seq<byte>, views: seq<BufferView>, accessors: seq<Accessor>, nodes: seq<Node>, meshes: seq<Mesh>,
    lastId: int,
    meshElementMap: map<ElementId, seq<int>>, nodeElementMap: map<ElementId, nat>,
    meshTransformMap: map<ElementId, Transform>, merged: seq<seq<byte>>, lines: seq<Vec3>)

  // ---------------------------------------------------------------------------
  // The record appenders, on the state
  // ---------------------------------------------------------------------------

  function WithTriangleMesh(st: DocState, a: TriangleMeshArgs): DocState
    requires TriangleBoundsOk(a)
  {
    st.(buffer := st.buffer + TriangleMeshBytes(|st.buffer|, a),
        views := st.views + TriangleMeshViews(|st.buffer|, a),
        accessors := st.accessors + TriangleMeshAccessors(|st.views|, a),
        meshes := st.meshes + [TriangleMeshRecord(|st.accessors|, a)])
  }

  function WithLineLoop(st: DocState, name: MeshName, vertices: seq<byte>, indices: seq<byte>,
                        vMin: seq<real>, vMax: seq<real>, iMin: nat, iMax: nat,
                        materialId: int, mode: Mode, parentId: nat): DocState
    requires |vMin| >= 3 && |vMax| >= 3 && parentId <= |st.nodes|
  {
    st.(buffer := st.buffer + LineLoopBytes(|st.buffer|, vertices, indices),
        views := st.views + LineLoopViews(|st.buffer|, vertices, indices),
        accessors := st.accessors + LineLoopAccessors(|st.views|, vertices, indices, vMin, vMax, iMin, iMax),
        meshes := st.meshes + [LineLoopRecord(|st.accessors|, name, materialId, mode)],
        nodes := WithNode(st.nodes, MeshNode(|st.meshes|), Some(parentId)))
  }

  /** AddLines after GetNextId: the counter advances and its new value names the curve. */
  function WithLines(st: DocState, vertices: seq<Vec3>, materialId: int, lineLoop: bool, parentId: nat): DocState
    requires parentId <= |st.nodes|
  {
    var id := st.lastId + 1;
    WithLineLoop(st.(lastId := id), Curve(id), PointBytes(vertices), LineIndexBytes(|vertices|, lineLoop),
                 BoxMin(vertices), BoxMax(vertices), 0, ToUshort(|vertices| - 1), materialId, Lines, parentId)
  }

  /** AddPoints after GetNextId. */
  function WithPoints(st: DocState, vertices: seq<Vec3>, materialId: int, parentId: nat): DocState
    requires parentId <= |st.nodes|
  {
    var id := st.lastId + 1;
    WithLineLoop(st.(lastId := id), Curve(id), PointBytes(vertices), PointIndexBytes(|vertices|),
                 BoxMin(vertices), BoxMax(vertices), 0, ToUshort(|vertices| - 1), materialId, Points, parentId)
  }

  /**
   * After a triangle mesh for element `id`: its index is appended to the
   * element's entry of meshElementMap and, unless the element is a
   * definition, a node for it is added under the element's node.
   */
  function WithElementMesh(st: DocState, id: ElementId, meshId: int, isDefinition: bool, parentId: nat): DocState
    requires parentId <= |st.nodes|
  {
    var list := if id in st.meshElementMap then st.meshElementMap[id] else [];
    var st2 := st.(meshElementMap := st.meshElementMap[id := list + [meshId]]);
    if isDefinition then st2 else st2.(nodes := WithNode(st2.nodes, MeshNode(meshId), Some(parentId)))
  }

  // ---------------------------------------------------------------------------
  // One element
  // ---------------------------------------------------------------------------

  /**
   * ProcessGeometricRepresentation and ProcessSolidsAsCSG
   * (GltfExtensions.cs:1114-1245): nothing for an Opening or an element
   * without representation; nothing when the tessellation has no vertices
   * (the -1 mesh id); otherwise one triangle mesh.
   */
  function ProcessGeometric(st: DocState, id: ElementId, materialName: string, isOpening: bool, isDefinition: bool,
                            representation: Option<CsgOutput>, parentId: nat, dict: map<string, nat>): Result<DocState, SceneError>
    requires parentId <= |st.nodes|
  {
    if isOpening || representation.None? then Ok(st)
    else
      var c := representation.value;
      if |c.vertexBuffer| == 0 then Ok(st)
      else if materialName !in dict then Failure(MissingMaterial(materialName))
      else
        var a := CsgArgs(id, c, dict[materialName]);
        if !TriangleBoundsOk(a) then Failure(MissingBounds(id))
        else Ok(WithElementMesh(WithTriangleMesh(st, a), id, |st.meshes|, isDefinition, parentId))
  }

  /** A ModelCurve: AddLines with lineLoop set, under the element's node (GltfExtensions.cs:917-922). */
  function RenderCurve(st: DocState, materialName: string, vertices: seq<Vec3>, parentId: nat, dict: map<string, nat>): Result<DocState, SceneError>
    requires parentId <= |st.nodes|
  {
    if materialName !in dict then Failure(MissingMaterial(materialName))
    else Ok(WithLines(st, vertices, dict[materialName], true, parentId))
  }

  /** A ModelPoints: AddPoints when it has locations (GltfExtensions.cs:924-932). */
  function RenderPoints(st: DocState, materialName: string, locations: seq<Vec3>, parentId: nat, dict: map<string, nat>): Result<DocState, SceneError>
    requires parentId <= |st.nodes|
  {
    if |locations| == 0 then Ok(st)
    else if materialName !in dict then Failure(MissingMaterial(materialName))
    else Ok(WithPoints(st, locations, dict[materialName], parentId))
  }

  /**
   * An ITessellate element (GltfExtensions.cs:934-1009): nothing for a null
   * mesh; otherwise its GetBuffers result as one triangle mesh with the
   * default material.
   */
  function RenderTessellated(st: DocState, id: ElementId, isDefinition: bool, mesh: Option<MeshData>, parentId: nat,
                             dict: map<string, nat>, env: Env): Result<DocState, SceneError>
    requires parentId <= |st.nodes|
  {
    if mesh.None? then Ok(st)
    else
      var buffers := Buffers(mesh.value.vertices, mesh.value.triangles);
      if buffers.Failure? then Failure(MeshFailure(buffers.error))
      else if env.defaultMaterial !in dict then Failure(MissingMaterial(env.defaultMaterial))
      else
        var a := TessellationArgs(id, buffers.value, dict[env.defaultMaterial]);
        if !TriangleBoundsOk(a) then Failure(MissingBounds(id))
        else Ok(WithElementMesh(WithTriangleMesh(st, a), id, |st.meshes|, isDefinition, parentId))
  }

  /**
   * A ContentElement whose glb file exists (GltfExtensions.cs:1017-1051): the
   * glb's meshes and buffer are merged in and recorded for the element unless
   * it already has meshes; a placed element gets a mesh node whose mesh id is
   * still the initial -1, a definition stores its scaled transform for its
   * instances unless one is stored already.
   */
  function RenderMerged(st: DocState, id: ElementId, transform: Transform, isDefinition: bool, scale: real,
                        m: MergeResult, parentId: nat): (r: DocState)
    requires parentId <= |st.nodes|
    ensures r.meshes == st.meshes + m.meshes && r.merged == st.merged + [m.buffer]
    ensures id in r.meshElementMap
  {
    var indices := Range(|st.meshes|, |m.meshes|);
    var st2 := st.(meshes := st.meshes + m.meshes, merged := st.merged + [m.buffer]);
    var st3 := if id in st2.meshElementMap then st2 else st2.(meshElementMap := st2.meshElementMap[id := indices]);
    if !isDefinition then st3.(nodes := WithNode(st3.nodes, MeshNode(-1), Some(parentId)))
    else if id in st3.meshTransformMap then st3
    else st3.(meshTransformMap := st3.meshTransformMap[id := Scaled(transform, scale)])
  }

  /** A non-instance element after its transform node `parentId` has been added. */
  function RenderPlaced(st: DocState, e: Element, parentId: nat, dict: map<string, nat>, env: Env): Result<DocState, SceneError>
    requires parentId <= |st.nodes| && !e.kind.InstanceOf?
  {
    match e.kind
    case CurveElement(_, materialName, vertices) => RenderCurve(st, materialName, vertices, parentId, dict)
    case PointsElement(_, materialName, locations) => RenderPoints(st, materialName, locations, parentId, dict)
    case TessellatedElement(_, isDefinition, mesh) => RenderTessellated(st, e.id, isDefinition, mesh, parentId, dict, env)
    case ContentElement(transform, isDefinition, location, scale, representation) =>
      if env.files.present(location) then Ok(RenderMerged(st, e.id, transform, isDefinition, scale, env.merge(location), parentId))
      else ProcessGeometric(st, e.id, env.defaultMaterial, false, isDefinition, representation, parentId, dict)
    case GeometricElement(_, isDefinition, isOpening, materialName, representation) =>
      ProcessGeometric(st, e.id, materialName, isOpening, isDefinition, representation, parentId, dict)
  }

  /** The placement of an instance: the content base's stored transform, if any, then its own. */
  function InstanceTransform(st: DocState, baseId: ElementId, baseIsContent: bool, t: Transform): Transform
  {
    var base := if baseIsContent && baseId in st.meshTransformMap then Concat(Identity, st.meshTransformMap[baseId])
                else Identity;
    Concat(base, t)
  }

  /** GetRenderDataForElement (GltfExtensions.cs:852-1094). */
  function RenderElement(st: DocState, e: Element, dict: map<string, nat>, env: Env): Result<DocState, SceneError>
    requires |st.nodes| > 0
  {
    match e.kind
    case InstanceOf(baseId, baseIsContent, t, edgePoints) =>
      if baseId !in st.meshElementMap then Failure(MissingDefinition(baseId))
      else
        var tr := InstanceTransform(st, baseId, baseIsContent, t);
        Ok(st.(nodes := WithRootChildren(st.nodes, InstanceNodeList(st.meshElementMap[baseId], tr)),
               lines := if env.drawEdges then st.lines + edgePoints else st.lines))
    case _ =>
      var parentId := |st.nodes|;
      var st1 := st.(nodes := WithNode(st.nodes, TransformNode(e.kind.transform), Some(0)));
      if e.id in st1.nodeElementMap then Failure(DuplicateElement(e.id))
      else RenderPlaced(st1.(nodeElementMap := st1.nodeElementMap[e.id := parentId]), e, parentId, dict, env)
  }

  // ---------------------------------------------------------------------------
  // What every step keeps
  // ---------------------------------------------------------------------------

  /** Every child index is a later node: the nodes form a forest whose edges point forward. */
  ghost predicate TreeShaped(nodes: seq<Node>)
  {
    forall i, k :: 0 <= i < |nodes| && 0 <= k < |nodes[i].children| ==> i < nodes[i].children[k] < |nodes|
  }

  /** Every mesh a node names exists, except the -1 of a placed content element. */
  ghost predicate MeshRefsOk(nodes: seq<Node>, meshCount: nat)
  {
    forall i :: 0 <= i < |nodes| && nodes[i].mesh.Some? ==> -1 <= nodes[i].mesh.value < meshCount
  }

  /** Every view lies inside buffer 0; every accessor names an existing view. */
  ghost predicate ViewsOk(st: DocState)
  {
    && ViewsInside(st.views, st.buffer)
    && (forall j :: 0 <= j < |st.accessors| ==> st.accessors[j].bufferView < |st.views|)
  }

  /** meshElementMap names existing meshes; nodeElementMap names existing nodes. */
  ghost predicate MapsOk(st: DocState)
  {
    && (forall id, k :: id in st.meshElementMap && 0 <= k < |st.meshElementMap[id]| ==>
          0 <= st.meshElementMap[id][k] < |st.meshes|)
    && (forall id :: id in st.nodeElementMap ==> st.nodeElementMap[id] < |st.nodes|)
  }

  ghost predicate DocWf(st: DocState)
  {
    |st.nodes| > 0 && TreeShaped(st.nodes) && MeshRefsOk(st.nodes, |st.meshes|) && ViewsOk(st) && MapsOk(st)
  }

  /** Adding a childless node under an existing parent keeps the forest shape and the mesh references. */
  lemma WithNodeKeepsTree(nodes: seq<Node>, n: Node, p: nat, meshCount: nat)
    requires TreeShaped(nodes) && MeshRefsOk(nodes, meshCount) && p < |nodes| && n.children == []
    requires n.mesh.Some? ==> -1 <= n.mesh.value < meshCount
    ensures TreeShaped(WithNode(nodes, n, Some(p))) && MeshRefsOk(WithNode(nodes, n, Some(p)), meshCount)
  {
    var r := WithNode(nodes, n, Some(p));
    forall i, k | 0 <= i < |r| && 0 <= k < |r[i].children|
      ensures i < r[i].children[k] < |r|
    {
      if i == p {
        WithNodeChildren(nodes, n, p);
        if k < |nodes[p].children| {
          assert r[p].children[k] == nodes[p].children[k];
        }
      }
    }
  }

  /** Adding childless nodes under the root keeps the forest shape and the mesh references. */
  lemma {:induction false} RootChildrenKeepTree(nodes: seq<Node>, ns: seq<Node>, meshCount: nat)
    requires |nodes| > 0 && TreeShaped(nodes) && MeshRefsOk(nodes, meshCount)
    requires forall k :: 0 <= k < |ns| ==> ns[k].children == [] && (ns[k].mesh.Some? ==> -1 <= ns[k].mesh.value < meshCount)
    ensures TreeShaped(WithRootChildren(nodes, ns)) && MeshRefsOk(WithRootChildren(nodes, ns), meshCount)
    decreases |ns|
  {
    if ns != [] {
      var m := |ns| - 1;
      RootChildrenKeepTree(nodes, ns[..m], meshCount);
      WithNodeKeepsTree(WithRootChildren(nodes, ns[..m]), ns[m], 0, meshCount);
    }
  }

  lemma MeshRefsGrow(nodes: seq<Node>, m: nat, n: nat)
    requires MeshRefsOk(nodes, m) && m <= n
    ensures MeshRefsOk(nodes, n)
  {
  }

  /**
   * A step from `st` to `r` that keeps the document well formed, only adds
   * nodes, leaves the root alone and adds no line points.
   */
  ghost predicate Extends(st: DocState, r: DocState)
  {
    DocWf(r) && |st.nodes| > 0 && |st.nodes| <= |r.nodes| && r.nodes[0] == st.nodes[0] && r.lines == st.lines
  }

  lemma TriangleMeshKeepsWf(st: DocState, a: TriangleMeshArgs)
    requires DocWf(st) && TriangleBoundsOk(a)
    ensures Extends(st, WithTriangleMesh(st, a))
    ensures |WithTriangleMesh(st, a).meshes| == |st.meshes| + 1 && WithTriangleMesh(st, a).nodes == st.nodes
  {
    var r := WithTriangleMesh(st, a);
    TriangleMeshInside(|st.buffer|, |st.views|, a);
    MeshRefsGrow(st.nodes, |st.meshes|, |r.meshes|);
    forall j | 0 <= j < |r.views|
      ensures r.views[j].buffer == 0 && r.views[j].byteOffset + r.views[j].byteLength <= |r.buffer|
    {
      if j >= |st.views| {
        assert r.views[j] == TriangleMeshViews(|st.buffer|, a)[j - |st.views|];
      }
    }
    forall j | 0 <= j < |r.accessors|
      ensures r.accessors[j].bufferView < |r.views|
    {
      if j >= |st.accessors| {
        assert r.accessors[j] == TriangleMeshAccessors(|st.views|, a)[j - |st.accessors|];
      }
    }
  }

  lemma LineLoopKeepsWf(st: DocState, name: MeshName, vertices: seq<byte>, indices: seq<byte>,
                        vMin: seq<real>, vMax: seq<real>, iMin: nat, iMax: nat,
                        materialId: int, mode: Mode, parentId: nat)
    requires DocWf(st) && |vMin| >= 3 && |vMax| >= 3 && 0 < parentId < |st.nodes|
    ensures Extends(st, WithLineLoop(st, name, vertices, indices, vMin, vMax, iMin, iMax, materialId, mode, parentId))
  {
    var r := WithLineLoop(st, name, vertices, indices, vMin, vMax, iMin, iMax, materialId, mode, parentId);
    LineLoopInside(|st.buffer|, |st.views|, vertices, indices, vMin, vMax, iMin, iMax);
    MeshRefsGrow(st.nodes, |st.meshes|, |r.meshes|);
    WithNodeKeepsTree(st.nodes, MeshNode(|st.meshes|), parentId, |r.meshes|);
    forall j | 0 <= j < |r.views|
      ensures r.views[j].buffer == 0 && r.views[j].byteOffset + r.views[j].byteLength <= |r.buffer|
    {
      if j >= |st.views| {
        assert r.views[j] == LineLoopViews(|st.buffer|, vertices, indices)[j - |st.views|];
      }
    }
    forall j | 0 <= j < |r.accessors|
      ensures r.accessors[j].bufferView < |r.views|
    {
      if j >= |st.accessors| {
        assert r.accessors[j] == LineLoopAccessors(|st.views|, vertices, indices, vMin, vMax, iMin, iMax)[j - |st.accessors|];
      }
    }
  }

  lemma ElementMeshKeepsWf(st: DocState, id: ElementId, meshId: int, isDefinition: bool, parentId: nat)
    requires DocWf(st) && 0 < parentId < |st.nodes| && 0 <= meshId < |st.meshes|
    ensures Extends(st, WithElementMesh(st, id, meshId, isDefinition, parentId))
  {
    if !isDefinition {
      WithNodeKeepsTree(st.nodes, MeshNode(meshId), parentId, |st.meshes|);
    }
  }

  lemma ProcessGeometricKeepsWf(st: DocState, id: ElementId, materialName: string, isOpening: bool, isDefinition: bool,
                                representation: Option<CsgOutput>, parentId: nat, dict: map<string, nat>)
    requires DocWf(st) && 0 < parentId < |st.nodes|
    ensures var r := ProcessGeometric(st, id, materialName, isOpening, isDefinition, representation, parentId, dict);
      r.Ok? ==> Extends(st, r.value)
  {
    if !isOpening && representation.Some? && |representation.value.vertexBuffer| > 0 && materialName in dict {
      var a := CsgArgs(id, representation.value, dict[materialName]);
      if TriangleBoundsOk(a) {
        TriangleMeshKeepsWf(st, a);
        ElementMeshKeepsWf(WithTriangleMesh(st, a), id, |st.meshes|, isDefinition, parentId);
      }
    }
  }

  lemma LinesKeepWf(st: DocState, vertices: seq<Vec3>, materialId: int, lineLoop: bool, parentId: nat)
    requires DocWf(st) && 0 < parentId < |st.nodes|
    ensures Extends(st, WithLines(st, vertices, materialId, lineLoop, parentId))
  {
    var s1 := st.(lastId := st.lastId + 1);
    LineLoopKeepsWf(s1, Curve(s1.lastId), PointBytes(vertices), LineIndexBytes(|vertices|, lineLoop),
                    BoxMin(vertices), BoxMax(vertices), 0, ToUshort(|vertices| - 1), materialId, Lines, parentId);
  }

  lemma PointsKeepWf(st: DocState, vertices: seq<Vec3>, materialId: int, parentId: nat)
    requires DocWf(st) && 0 < parentId < |st.nodes|
    ensures Extends(st, WithPoints(st, vertices, materialId, parentId))
  {
    var s1 := st.(lastId := st.lastId + 1);
    LineLoopKeepsWf(s1, Curve(s1.lastId), PointBytes(vertices), PointIndexBytes(|vertices|),
                    BoxMin(vertices), BoxMax(vertices), 0, ToUshort(|vertices| - 1), materialId, Points, parentId);
  }

  lemma TessellatedKeepsWf(st: DocState, id: ElementId, isDefinition: bool, mesh: Option<MeshData>, parentId: nat,
                           dict: map<string, nat>, env: Env)
    requires DocWf(st) && 0 < parentId < |st.nodes|
    ensures var r := RenderTessellated(st, id, isDefinition, mesh, parentId, dict, env);
      r.Ok? ==> Extends(st, r.value)
  {
    if mesh.Some? && Buffers(mesh.value.vertices, mesh.value.triangles).Ok? && env.defaultMaterial in dict {
      var a := TessellationArgs(id, Buffers(mesh.value.vertices, mesh.value.triangles).value, dict[env.defaultMaterial]);
      if TriangleBoundsOk(a) {
        TriangleMeshKeepsWf(st, a);
        ElementMeshKeepsWf(WithTriangleMesh(st, a), id, |st.meshes|, isDefinition, parentId);
      }
    }
  }

  lemma MergedKeepsWf(st: DocState, id: ElementId, transform: Transform, isDefinition: bool, scale: real,
                      m: MergeResult, parentId: nat)
    requires DocWf(st) && 0 < parentId < |st.nodes|
    ensures Extends(st, RenderMerged(st, id, transform, isDefinition, scale, m, parentId))
  {
    var st2 := st.(meshes := st.meshes + m.meshes, merged := st.merged + [m.buffer]);
    MeshRefsGrow(st.nodes, |st.meshes|, |st2.meshes|);
    assert DocWf(st2);
    var st3 := if id in st2.meshElementMap then st2
               else st2.(meshElementMap := st2.meshElementMap[id := Range(|st.meshes|, |m.meshes|)]);
    assert DocWf(st3);
    if !isDefinition {
      WithNodeKeepsTree(st3.nodes, MeshNode(-1), parentId, |st3.meshes|);
    }
  }

  lemma RenderPlacedKeepsWf(st: DocState, e: Element, parentId: nat, dict: map<string, nat>, env: Env)
    requires DocWf(st) && 0 < parentId < |st.nodes| && !e.kind.InstanceOf?
    ensures var r := RenderPlaced(st, e, parentId, dict, env);
      r.Ok? ==> Extends(st, r.value)
  {
    match e.kind
    case CurveElement(_, materialName, vertices) =>
      if materialName in dict {
        LinesKeepWf(st, vertices, dict[materialName], true, parentId);
      }
    case PointsElement(_, materialName, locations) =>
      if |locations| > 0 && materialName in dict {
        PointsKeepWf(st, locations, dict[materialName], parentId);
      }
    case TessellatedElement(_, isDefinition, mesh) =>
      TessellatedKeepsWf(st, e.id, isDefinition, mesh, parentId, dict, env);
    case ContentElement(transform, isDefinition, location, scale, representation) =>
      if env.files.present(location) {
        MergedKeepsWf(st, e.id, transform, isDefinition, scale, env.merge(location), parentId);
      } else {
        ProcessGeometricKeepsWf(st, e.id, env.defaultMaterial, false, isDefinition, representation, parentId, dict);
      }
    case GeometricElement(_, isDefinition, isOpening, materialName, representation) =>
      ProcessGeometricKeepsWf(st, e.id, materialName, isOpening, isDefinition, representation, parentId, dict);
  }

  /** The transform node of a non-instance element keeps the document well formed. */
  lemma TransformNodeKeepsWf(st: DocState, e: Element)
    requires DocWf(st) && e.id !in st.nodeElementMap
    ensures var st1 := st.(nodes := WithNode(st.nodes, TransformNode(e.kind.transform), Some(0)));
      DocWf(st1.(nodeElementMap := st1.nodeElementMap[e.id := |st.nodes|])) && st1.nodes[0].matrix == st.nodes[0].matrix
  {
    WithNodeKeepsTree(st.nodes, TransformNode(e.kind.transform), 0, |st.meshes|);
  }

  /**
   * Every element keeps the document well formed: the nodes stay a forest
   * rooted in node 0 whose child links point forward, node mesh references
   * stay in range (or -1), every view stays inside the buffer with every
   * accessor naming a view, and the element maps name existing meshes and
   * nodes.
   */
  lemma RenderElementKeepsWf(st: DocState, e: Element, dict: map<string, nat>, env: Env)
    requires DocWf(st)
    ensures var r := RenderElement(st, e, dict, env);
      r.Ok? ==> DocWf(r.value) && |st.nodes| <= |r.value.nodes| && r.value.nodes[0].matrix == st.nodes[0].matrix
  {
    if e.kind.InstanceOf? {
      if e.kind.baseId in st.meshElementMap {
        var tr := InstanceTransform(st, e.kind.baseId, e.kind.baseIsContent, e.kind.transform);
        var ns := InstanceNodeList(st.meshElementMap[e.kind.baseId], tr);
        RootChildrenKeepTree(st.nodes, ns, |st.meshes|);
        RootChildren(st.nodes, ns);
      }
    } else if e.id !in st.nodeElementMap {
      TransformNodeKeepsWf(st, e);
      var st1 := st.(nodes := WithNode(st.nodes, TransformNode(e.kind.transform), Some(0)));
      RenderPlacedKeepsWf(st1.(nodeElementMap := st1.nodeElementMap[e.id := |st.nodes|]), e, |st.nodes|, dict, env);
    }
  }

  // ---------------------------------------------------------------------------
  // Line groups and the element loop
  // ---------------------------------------------------------------------------

  /**
   * Before each element: when the current group's index count would pass
   * ushort.MaxValue, a new empty group is started (GltfExtensions.cs:775-779).
   */
  function NextGroup(groups: seq<seq<Vec3>>): (r: seq<seq<Vec3>>)
    requires |groups| > 0
    ensures |r| > 0
  {
    if |groups[|groups| - 1]| * 2 > UshortMax then groups + [[]] else groups
  }

  /** All points of all groups, in order. */
  function Flatten(groups: seq<seq<Vec3>>): seq<Vec3>
    decreases |groups|
  {
    if groups == [] then [] else Flatten(groups[..|groups| - 1]) + groups[|groups| - 1]
  }

  /** Starting a new group loses and reorders no point, and only ever closes a full group. */
  lemma NextGroupKeepsPoints(groups: seq<seq<Vec3>>)
    requires |groups| > 0
    ensures Flatten(NextGroup(groups)) == Flatten(groups)
    ensures |NextGroup(groups)| > |groups| ==> |groups[|groups| - 1]| * 2 > UshortMax
    ensures NextGroup(groups)[..|groups|] == groups
  {
    var r := NextGroup(groups);
    if |r| > |groups| {
      assert r[..|r| - 1] == groups;
    }
  }

  /** The state of the element loop: the working state and the line groups, the last being current. */
  datatype LoopState = LoopState(st: DocState, groups: seq<seq<Vec3>>)

  /** One iteration: maybe a new group, then the element renders into the current group. */
  function LoopStep(ls: LoopState, e: Element, dict: map<string, nat>, env: Env): Result<LoopState, SceneError>
    requires |ls.st.nodes| > 0 && |ls.groups| > 0
  {
    var groups := NextGroup(ls.groups);
    var cur := |groups| - 1;
    match RenderElement(ls.st.(lines := groups[cur]), e, dict, env)
    case Failure(err) => Failure(err)
    case Ok(st) => Ok(LoopState(st.(lines := []), groups[cur := st.lines]))
  }

  /** A step of the element loop keeps the document well formed and the root's transform. */
  lemma LoopStepKeepsWf(ls: LoopState, e: Element, dict: map<string, nat>, env: Env)
    requires DocWf(ls.st) && |ls.groups| > 0
    ensures var r := LoopStep(ls, e, dict, env);
      r.Ok? ==> DocWf(r.value.st) && |r.value.groups| > 0 && r.value.st.nodes[0].matrix == ls.st.nodes[0].matrix
  {
    var groups := NextGroup(ls.groups);
    var st := ls.st.(lines := groups[|groups| - 1]);
    assert DocWf(st);
    RenderElementKeepsWf(st, e, dict, env);
    var r := RenderElement(st, e, dict, env);
    if r.Ok? {
      assert DocWf(r.value.(lines := []));
    }
  }

  /** The element loop over a prefix of the elements, stopping at the first exception. */
  function RenderAll(ls: LoopState, es: seq<Element>, dict: map<string, nat>, env: Env): (r: Result<LoopState, SceneError>)
    requires DocWf(ls.st) && |ls.groups| > 0
    ensures r.Ok? ==> DocWf(r.value.st) && |r.value.groups| > 0 && r.value.st.nodes[0].matrix == ls.st.nodes[0].matrix
    decreases |es|
  {
    if es == [] then Ok(ls)
    else
      match RenderAll(ls, es[..|es| - 1], dict, env)
      case Failure(err) => Failure(err)
      case Ok(mid) =>
        LoopStepKeepsWf(mid, es[|es| - 1], dict, env);
        LoopStep(mid, es[|es| - 1], dict, env)
  }

  /** The points an element adds to the current line group. */
  function EdgePointsOf(e: Element, env: Env): seq<Vec3>
  {
    if e.kind.InstanceOf? && env.drawEdges then e.kind.edgePoints else []
  }

  /** The points all elements add, in order. */
  function AllEdgePoints(es: seq<Element>, env: Env): seq<Vec3>
    decreases |es|
  {
    if es == [] then [] else AllEdgePoints(es[..|es| - 1], env) + EdgePointsOf(es[|es| - 1], env)
  }

  /** An element adds exactly its edge points to the current group. */
  lemma RenderElementLines(st: DocState, e: Element, dict: map<string, nat>, env: Env)
    requires DocWf(st)
    ensures var r := RenderElement(st, e, dict, env);
      r.Ok? ==> r.value.lines == st.lines + EdgePointsOf(e, env)
  {
    if !e.kind.InstanceOf? && e.id !in st.nodeElementMap {
      TransformNodeKeepsWf(st, e);
      var st1 := st.(nodes := WithNode(st.nodes, TransformNode(e.kind.transform), Some(0)));
      RenderPlacedKeepsWf(st1.(nodeElementMap := st1.nodeElementMap[e.id := |st.nodes|]), e, |st.nodes|, dict, env);
    }
  }

  /** Every group but the last was closed only once it held more than ushort.MaxValue / 2 points. */
  predicate ClosedGroupsFull(groups: seq<seq<Vec3>>)
  {
    forall k :: 0 <= k < |groups| - 1 ==> |groups[k]| * 2 > UshortMax
  }

  /** One iteration appends the element's edge points to the flattened groups and closes only full groups. */
  lemma LoopStepLines(ls: LoopState, e: Element, dict: map<string, nat>, env: Env)
    requires DocWf(ls.st) && |ls.groups| > 0 && ClosedGroupsFull(ls.groups)
    ensures var r := LoopStep(ls, e, dict, env);
      r.Ok? ==>
        && Flatten(r.value.groups) == Flatten(ls.groups) + EdgePointsOf(e, env)
        && ClosedGroupsFull(r.value.groups) && r.value.st.lines == []
  {
    var groups := NextGroup(ls.groups);
    var cur := |groups| - 1;
    NextGroupKeepsPoints(ls.groups);
    var st := ls.st.(lines := groups[cur]);
    RenderElementLines(st, e, dict, env);
    var r := RenderElement(st, e, dict, env);
    if r.Ok? {
      GrowLastGroup(groups, EdgePointsOf(e, env));
    }
  }

  /** Extending the current group keeps the closed groups and adds the points to the flattening. */
  lemma GrowLastGroup(groups: seq<seq<Vec3>>, added: seq<Vec3>)
    requires |groups| > 0
    ensures var g := groups[|groups| - 1 := groups[|groups| - 1] + added];
      && Flatten(g) == Flatten(groups) + added
      && (ClosedGroupsFull(groups) ==> ClosedGroupsFull(g))
  {
    var last := groups[|groups| - 1] + added;
    FlattenLast(groups, last);
    assert last[|groups[|groups| - 1]|..] == added;
  }

  /**
   * The line groups hold exactly the edge points of all elements, in order;
   * every group but the last was closed only once it held more than
   * ushort.MaxValue / 2 points.
   */
  lemma {:induction false} RenderAllLines(ls: LoopState, es: seq<Element>, dict: map<string, nat>, env: Env)
    requires DocWf(ls.st) && |ls.groups| > 0 && ClosedGroupsFull(ls.groups)
    ensures var r := RenderAll(ls, es, dict, env);
      r.Ok? ==>
        && Flatten(r.value.groups) == Flatten(ls.groups) + AllEdgePoints(es, env)
        && ClosedGroupsFull(r.value.groups)
    decreases |es|
  {
    if es != [] {
      var p := es[..|es| - 1];
      var e := es[|es| - 1];
      RenderAllLines(ls, p, dict, env);
      var rp := RenderAll(ls, p, dict, env);
      if rp.Ok? {
        LinesStep(ls.groups, rp.value, e, AllEdgePoints(p, env), dict, env);
      }
    }
  }

  /** One more element extends the points collected so far by its edge points. */
  lemma LinesStep(groups0: seq<seq<Vec3>>, mid: LoopState, e: Element, prior: seq<Vec3>, dict: map<string, nat>, env: Env)
    requires DocWf(mid.st) && |mid.groups| > 0 && ClosedGroupsFull(mid.groups)
    requires Flatten(mid.groups) == Flatten(groups0) + prior
    ensures var r := LoopStep(mid, e, dict, env);
      r.Ok? ==>
        && Flatten(r.value.groups) == Flatten(groups0) + (prior + EdgePointsOf(e, env))
        && ClosedGroupsFull(r.value.groups)
  {
    LoopStepLines(mid, e, dict, env);
  }

  /** Replacing the last group by an extension of it extends the flattening the same way. */
  lemma FlattenLast(groups: seq<seq<Vec3>>, last: seq<Vec3>)
    requires |groups| > 0 && |groups[|groups| - 1]| <= |last|
    requires last[..|groups[|groups| - 1]|] == groups[|groups| - 1]
    ensures Flatten(groups[|groups| - 1 := last]) == Flatten(groups) + last[|groups[|groups| - 1]|..]
  {
    var g := groups[|groups| - 1 := last];
    assert g[..|g| - 1] == groups[..|groups| - 1];
    assert last == groups[|groups| - 1] + last[|groups[|groups| - 1]|..];
  }
}
