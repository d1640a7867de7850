/**
 * The element walk of GltfExtensions.cs as methods over one Builder:
 * GetRenderDataForElement, ProcessGeometricRepresentation,
 * ProcessSolidsAsCSG, InitializeGlTF and the fallback decision of ToGlTF.
 * Each is proved to leave the builder in the state the RenderSpec and
 * DocumentSpec functions describe, or to raise the exception they name.
 */
module GltfScene {
  import opened Wrappers
  import opened Bytes
  import opened Geometry
  import opened GltfSchema
  import opened GltfLayout
  import opened LineEncoding
  import opened MeshLayout
  import opened Materials
  import opened SceneInput
  import opened RenderSpec
  import opened DocumentSpec
  import opened GltfBuilder

  /** The builder's fields, as the state the specification functions work on. */
  function Snapshot(b: Builder): DocState
    reads b
  {
    DocState(b.buffer, b.bufferViews, b.accessors, b.nodes, b.meshes, b.lastId,
             b.meshElementMap, b.nodeElementMap, b.meshTransformMap, b.merged, b.lines)
  }

  /**
   * A step that can throw ends as its specification says: normally, in the
   * state it gives, or with the exception it names (the builder's state after
   * an exception is not specified: serialization is abandoned).
   */
  ghost predicate Follows(r: Result<(), SceneError>, spec: Result<DocState, SceneError>, st: DocState)
  {
    match spec
    case Ok(s) => r.Ok? && st == s
    case Failure(err) => r == Failure(err)
  }

  /** `AddLines(GetNextId(), ...)`: the counter advances and names the curve. */
  method DrawLines(b: Builder, vertices: seq<Vec3>, materialId: int, lineLoop: bool, parentId: nat)
    requires parentId <= |b.nodes|
    modifies b`lastId, b`buffer, b`bufferViews, b`accessors, b`meshes, b`nodes
    ensures Snapshot(b) == WithLines(old(Snapshot(b)), vertices, materialId, lineLoop, parentId)
  {
    ghost var st := Snapshot(b);
    var id := b.GetNextId();
    b.AddLines(id, vertices, materialId, lineLoop, parentId);
    assert Snapshot(b) == WithLineLoop(st.(lastId := id), Curve(id), PointBytes(vertices), LineIndexBytes(|vertices|, lineLoop),
                                       BoxMin(vertices), BoxMax(vertices), 0, ToUshort(|vertices| - 1), materialId, Lines, parentId);
  }

  /** `AddPoints(GetNextId(), ...)`. */
  method DrawPoints(b: Builder, vertices: seq<Vec3>, materialId: int, parentId: nat)
    requires parentId <= |b.nodes|
    modifies b`lastId, b`buffer, b`bufferViews, b`accessors, b`meshes, b`nodes
    ensures Snapshot(b) == WithPoints(old(Snapshot(b)), vertices, materialId, parentId)
  {
    ghost var st := Snapshot(b);
    var id := b.GetNextId();
    assert Snapshot(b) == st.(lastId := id);
    b.AddPoints(id, vertices, materialId, parentId);
    assert Snapshot(b) == WithLineLoop(st.(lastId := id), Curve(id), PointBytes(vertices), PointIndexBytes(|vertices|),
                                       BoxMin(vertices), BoxMax(vertices), 0, ToUshort(|vertices| - 1), materialId, Points, parentId);
  }

  /**
   * After a triangle mesh: its id appended to the element's meshElementMap
   * entry, and a mesh node under the element's node unless the element is a
   * definition (GltfExtensions.cs:997-1007, 1160-1170).
   */
  method RecordElementMesh(b: Builder, id: ElementId, meshId: int, isDefinition: bool, parentId: nat)
    requires parentId <= |b.nodes|
    modifies b`meshElementMap, b`nodes
    ensures Snapshot(b) == WithElementMesh(old(Snapshot(b)), id, meshId, isDefinition, parentId)
  {
    if id !in b.meshElementMap {
      b.meshElementMap := b.meshElementMap[id := []];
    }
    b.meshElementMap := b.meshElementMap[id := b.meshElementMap[id] + [meshId]];
    if !isDefinition {
      var _ := b.CreateNodeForMesh(meshId, parentId);
    }
  }

  /**
   * ProcessSolidsAsCSG after tessellation (GltfExtensions.cs:1237-1244): -1
   * for an empty vertex buffer, otherwise the index of the new triangle mesh.
   */
  method ProcessSolidsAsCSG(b: Builder, id: ElementId, materialName: string, c: CsgOutput, dict: map<string, nat>)
    returns (r: Result<int, SceneError>)
    modifies b`buffer, b`bufferViews, b`accessors, b`meshes
    ensures |c.vertexBuffer| == 0 ==> r == Ok(-1) && Snapshot(b) == old(Snapshot(b))
    ensures |c.vertexBuffer| > 0 && materialName !in dict ==> r == Failure(MissingMaterial(materialName))
    ensures |c.vertexBuffer| > 0 && materialName in dict ==>
      var a := CsgArgs(id, c, dict[materialName]);
      if TriangleBoundsOk(a) then r == Ok(|old(b.meshes)|) && Snapshot(b) == WithTriangleMesh(old(Snapshot(b)), a)
      else r == Failure(MissingBounds(id))
  {
    if |c.vertexBuffer| == 0 {
      return Ok(-1);
    }
    if materialName !in dict {
      return Failure(MissingMaterial(materialName));
    }
    var a := CsgArgs(id, c, dict[materialName]);
    if !TriangleBoundsOk(a) {
      return Failure(MissingBounds(id));
    }
    var meshId := b.AddTriangleMesh(a);
    r := Ok(meshId);
  }

  /** ProcessGeometricRepresentation (GltfExtensions.cs:1114-1173). */
  method ProcessGeometricRepresentation(b: Builder, id: ElementId, materialName: string, isOpening: bool,
                                        isDefinition: bool, representation: Option<CsgOutput>, parentId: nat,
                                        dict: map<string, nat>)
    returns (r: Result<(), SceneError>)
    requires parentId <= |b.nodes|
    modifies b`buffer, b`bufferViews, b`accessors, b`meshes, b`meshElementMap, b`nodes
    ensures Follows(r, ProcessGeometric(old(Snapshot(b)), id, materialName, isOpening, isDefinition, representation, parentId, dict),
                    Snapshot(b))
  {
    if isOpening || representation.None? {
      return Ok(());
    }
    var meshId := ProcessSolidsAsCSG(b, id, materialName, representation.value, dict);
    if meshId.Failure? {
      return Failure(meshId.error);
    }
    if meshId.value == -1 {
      return Ok(());
    }
    RecordElementMesh(b, id, meshId.value, isDefinition, parentId);
    r := Ok(());
  }

  /** The ITessellate branch of GetRenderDataForElement (GltfExtensions.cs:934-1009). */
  method RenderTessellatedElement(b: Builder, id: ElementId, isDefinition: bool, mesh: Option<MeshData>, parentId: nat,
                                  dict: map<string, nat>, env: Env)
    returns (r: Result<(), SceneError>)
    requires parentId <= |b.nodes|
    modifies b`buffer, b`bufferViews, b`accessors, b`meshes, b`meshElementMap, b`nodes
    ensures Follows(r, RenderTessellated(old(Snapshot(b)), id, isDefinition, mesh, parentId, dict, env), Snapshot(b))
  {
    if mesh.None? {
      return Ok(());
    }
    var buffers := BuildBuffers(mesh.value.vertices, mesh.value.triangles);
    if buffers.Failure? {
      return Failure(MeshFailure(buffers.error));
    }
    if env.defaultMaterial !in dict {
      return Failure(MissingMaterial(env.defaultMaterial));
    }
    var a := TessellationArgs(id, buffers.value, dict[env.defaultMaterial]);
    if !TriangleBoundsOk(a) {
      return Failure(MissingBounds(id));
    }
    var meshId := b.AddTriangleMesh(a);
    RecordElementMesh(b, id, meshId, isDefinition, parentId);
    r := Ok(());
  }

  /**
   * The ContentElement branch when its glb file exists (GltfExtensions.cs:
   * 1017-1051). GltfMergingUtils.AddAllMeshesFromFromGlb is represented by
   * its result `m`: the glb's meshes are appended and its buffer joins the
   * list of buffers; the indices of the appended meshes are returned.
   */
  method RenderMergedContent(b: Builder, id: ElementId, transform: Transform, isDefinition: bool, scale: real,
                             m: MergeResult, parentId: nat)
    requires parentId <= |b.nodes|
    modifies b`meshes, b`merged, b`meshElementMap, b`meshTransformMap, b`nodes
    ensures Snapshot(b) == RenderMerged(old(Snapshot(b)), id, transform, isDefinition, scale, m, parentId)
  {
    var first := |b.meshes|;
    b.meshes := b.meshes + m.meshes;
    b.merged := b.merged + [m.buffer];
    var meshIndices: seq<int> := [];
    for k := 0 to |m.meshes|
      invariant meshIndices == Range(first, k)
    {
      meshIndices := meshIndices + [first + k];
    }
    if id !in b.meshElementMap {
      b.meshElementMap := b.meshElementMap[id := meshIndices];
    }
    var meshId := -1;
    if !isDefinition {
      // The scaled transform is computed here in the source and then unused.
      var _ := b.CreateNodeForMesh(meshId, parentId);
    } else if id !in b.meshTransformMap {
      b.meshTransformMap := b.meshTransformMap[id := Scaled(transform, scale)];
    }
  }

  /** GetRenderDataForElement after the element's transform node has been added. */
  method RenderPlacedElement(b: Builder, e: Element, parentId: nat, dict: map<string, nat>, env: Env)
    returns (r: Result<(), SceneError>)
    requires parentId <= |b.nodes| && !e.kind.InstanceOf?
    modifies b`buffer, b`bufferViews, b`accessors, b`nodes, b`meshes, b`lastId,
             b`meshElementMap, b`nodeElementMap, b`meshTransformMap, b`merged, b`lines
    ensures Follows(r, RenderPlaced(old(Snapshot(b)), e, parentId, dict, env), Snapshot(b))
  {
    match e.kind
    case CurveElement(_, materialName, vertices) =>
      if materialName !in dict {
        return Failure(MissingMaterial(materialName));
      }
      DrawLines(b, vertices, dict[materialName], true, parentId);
      r := Ok(());
    case PointsElement(_, materialName, locations) =>
      if |locations| != 0 {
        if materialName !in dict {
          return Failure(MissingMaterial(materialName));
        }
        DrawPoints(b, locations, dict[materialName], parentId);
      }
      r := Ok(());
    case TessellatedElement(_, isDefinition, mesh) =>
      r := RenderTessellatedElement(b, e.id, isDefinition, mesh, parentId, dict, env);
    case ContentElement(transform, isDefinition, location, scale, representation) =>
      if env.files.present(location) {
        RenderMergedContent(b, e.id, transform, isDefinition, scale, env.merge(location), parentId);
        r := Ok(());
      } else {
        r := ProcessGeometricRepresentation(b, e.id, env.defaultMaterial, false, isDefinition, representation, parentId, dict);
      }
    case GeometricElement(_, isDefinition, isOpening, materialName, representation) =>
      r := ProcessGeometricRepresentation(b, e.id, materialName, isOpening, isDefinition, representation, parentId, dict);
  }

  /** GetRenderDataForElement (GltfExtensions.cs:852-1094). */
  method GetRenderDataForElement(b: Builder, e: Element, dict: map<string, nat>, env: Env)
    returns (r: Result<(), SceneError>)
    requires |b.nodes| > 0
    modifies b`buffer, b`bufferViews, b`accessors, b`nodes, b`meshes, b`lastId,
             b`meshElementMap, b`nodeElementMap, b`meshTransformMap, b`merged, b`lines
    ensures Follows(r, RenderElement(old(Snapshot(b)), e, dict, env), Snapshot(b))
  {
    if e.kind.InstanceOf? {
      var baseId := e.kind.baseId;
      var transform := Identity;
      if e.kind.baseIsContent && baseId in b.meshTransformMap {
        transform := Concat(transform, b.meshTransformMap[baseId]);
      }
      transform := Concat(transform, e.kind.transform);
      if baseId !in b.meshElementMap {
        return Failure(MissingDefinition(baseId));
      }
      b.AddInstanceMesh(b.meshElementMap[baseId], transform);
      if env.drawEdges {
        b.lines := b.lines + e.kind.edgePoints;
      }
      return Ok(());
    }
    var parentId := b.CreateNodeForTransform(e.kind.transform);
    if e.id in b.nodeElementMap {
      return Failure(DuplicateElement(e.id));
    }
    b.nodeElementMap := b.nodeElementMap[e.id := parentId];
    r := RenderPlacedElement(b, e, parentId, dict, env);
  }

  /** allBuffers.Sum(b => b.Count()). */
  method SumLengths(buffers: seq<seq<byte>>) returns (n: nat)
    ensures n == TotalLength(buffers)
  {
    n := 0;
    for k := 0 to |buffers|
      invariant n == TotalLength(buffers[..k])
    {
      assert buffers[..k + 1][..k] == buffers[..k];
      n := n + |buffers[k]|;
    }
    assert buffers[..|buffers|] == buffers;
  }

  /**
   * The materials of InitializeGlTF (GltfExtensions.cs:736-741): the
   * model's materials, then BuiltInMaterials.Edges when edges are drawn.
   */
  method StartMaterials(b: Builder, model: Model, env: Env) returns (dict: map<string, nat>)
    requires b.buffer == [] && b.bufferViews == []
    requires b.materials == [] && b.textures == [] && b.images == [] && b.samplers == []
    modifies b`buffer, b`bufferViews, b`materials, b`textures, b`images, b`samplers
    ensures var mat := MaterialsOf(model, env);
      && b.buffer == mat.buffer && b.bufferViews == mat.views
      && dict == mat.dict && b.materials == mat.materials && b.textures == mat.textures
      && b.images == mat.images && b.samplers == mat.samplers
  {
    var materialsToAdd := model.materials;
    if env.drawEdges {
      materialsToAdd := materialsToAdd + [env.edges];
    }
    assert materialsToAdd == MaterialsToAdd(model, env);
    dict := b.AddMaterials(materialsToAdd, env.files);
  }

  /**
   * The start of InitializeGlTF (GltfExtensions.cs:692-752): a document
   * holding only the root node, the materials (with BuiltInMaterials.Edges
   * when edges are drawn) and, when there are any, the lights.
   */
  method StartDocument(model: Model, env: Env, lastId: int) returns (b: Builder, dict: map<string, nat>)
    ensures fresh(b)
    ensures Snapshot(b) == StartState(model, env, lastId)
    ensures var mat := MaterialsOf(model, env);
      && dict == mat.dict && b.materials == mat.materials && b.textures == mat.textures
      && b.images == mat.images && b.samplers == mat.samplers
    ensures b.lights == LightRecords(model.lights)
  {
    b := new Builder(RootNode(model), lastId);
    ghost var s0 := Snapshot(b);
    assert s0 == DocState([], [], [], [RootNode(model)], [], lastId, map[], map[], map[], [], []);
    dict := StartMaterials(b, model, env);
    ghost var mat := MaterialsOf(model, env);
    ghost var s1 := Snapshot(b);
    assert s1 == s0.(buffer := mat.buffer, views := mat.views);
    if |model.lights| > 0 {
      b.AddLights(model.lights);
      assert Snapshot(b) == s1.(nodes := StartNodes(model));
    }
  }

  /**
   * One pass of the element loop (GltfExtensions.cs:773-799): a full line
   * group is closed and a new one started, then the element is rendered with
   * its edge points going to the current group.
   */
  method WalkStep(b: Builder, closed: seq<seq<Vec3>>, e: Element, dict: map<string, nat>, env: Env, ghost mid: LoopState)
    returns (closed': seq<seq<Vec3>>, r: Result<(), SceneError>)
    requires |b.nodes| > 0 && mid == LoopState(Snapshot(b).(lines := []), closed + [b.lines])
    modifies b`buffer, b`bufferViews, b`accessors, b`nodes, b`meshes, b`lastId,
             b`meshElementMap, b`nodeElementMap, b`meshTransformMap, b`merged, b`lines
    ensures match LoopStep(mid, e, dict, env)
      case Failure(err) => r == Failure(err)
      case Ok(next) => r.Ok? && next == LoopState(Snapshot(b).(lines := []), closed' + [b.lines])
  {
    closed' := closed;
    if |b.lines| * 2 > UshortMax {
      closed' := closed + [b.lines];
      b.lines := [];
    }
    ghost var groups := closed' + [b.lines];
    assert groups == NextGroup(mid.groups);
    assert Snapshot(b) == mid.st.(lines := groups[|groups| - 1]);
    r := GetRenderDataForElement(b, e, dict, env);
    if r.Ok? {
      assert groups[|groups| - 1 := b.lines] == closed' + [b.lines];
    }
  }

  /** Element `i` of the walk: either the walk over `es` fails with its error, or the walk over `es[..i + 1]` is where `b` now stands. */
  method WalkOne(b: Builder, closed: seq<seq<Vec3>>, es: seq<Element>, i: nat, dict: map<string, nat>, env: Env, ghost start: DocState)
    returns (closed': seq<seq<Vec3>>, r: Result<(), SceneError>)
    requires DocWf(start) && |b.nodes| > 0 && i < |es|
    requires RenderAll(LoopState(start, [[]]), es[..i], dict, env) == Ok(LoopState(Snapshot(b).(lines := []), closed + [b.lines]))
    modifies b`buffer, b`bufferViews, b`accessors, b`nodes, b`meshes, b`lastId,
             b`meshElementMap, b`nodeElementMap, b`meshTransformMap, b`merged, b`lines
    ensures r.Failure? ==> RenderAll(LoopState(start, [[]]), es, dict, env) == Failure(r.error)
    ensures r.Ok? ==> |b.nodes| > 0 && RenderAll(LoopState(start, [[]]), es[..i + 1], dict, env) == Ok(LoopState(Snapshot(b).(lines := []), closed' + [b.lines]))
  {
    ghost var mid := LoopState(Snapshot(b).(lines := []), closed + [b.lines]);
    WalkAdvance(LoopState(start, [[]]), es, i, dict, env, mid);
    closed', r := WalkStep(b, closed, es[i], dict, env, mid);
  }

  /**
   * The element loop of InitializeGlTF (GltfExtensions.cs:771-800): before
   * each element a new line group is started when the current one is full;
   * the element's edge points go to the current group (b.lines, currLines);
   * the groups are returned, the last one being the current one.
   */
  method WalkElements(b: Builder, es: seq<Element>, dict: map<string, nat>, env: Env)
    returns (r: Result<seq<seq<Vec3>>, SceneError>)
    requires DocWf(Snapshot(b)) && b.lines == []
    modifies b`buffer, b`bufferViews, b`accessors, b`nodes, b`meshes, b`lastId,
             b`meshElementMap, b`nodeElementMap, b`meshTransformMap, b`merged, b`lines
    ensures match RenderAll(LoopState(old(Snapshot(b)), [[]]), es, dict, env)
      case Failure(err) => r == Failure(err)
      case Ok(ls) => r == Ok(ls.groups) && Snapshot(b) == ls.st
  {
    ghost var start := Snapshot(b);
    var closed: seq<seq<Vec3>> := [];
    assert es[..0] == [] && closed + [b.lines] == [[]] && Snapshot(b).(lines := []) == start;
    for i := 0 to |es|
      invariant |b.nodes| > 0
      invariant RenderAll(LoopState(start, [[]]), es[..i], dict, env) == Ok(LoopState(Snapshot(b).(lines := []), closed + [b.lines]))
    {
      var res;
      closed, res := WalkOne(b, closed, es, i, dict, env, start);
      if res.Failure? {
        return Failure(res.error);
      }
    }
    assert es[..|es|] == es;
    r := Ok(closed + [b.lines]);
    b.lines := [];
  }

  /**
   * The edge meshes (GltfExtensions.cs:808-819): for every non-empty group,
   * a transform node under the root and an unclosed line mesh under it with
   * the Edges material `edgesId`.
   */
  method DrawEdgeGroups(b: Builder, groups: seq<seq<Vec3>>, edgesId: nat, ghost dict: map<string, nat>, ghost env: Env)
    requires DocWf(Snapshot(b)) && env.edges.name in dict && dict[env.edges.name] == edgesId
    modifies b`buffer, b`bufferViews, b`accessors, b`nodes, b`meshes, b`lastId
    ensures EdgeGroups(old(Snapshot(b)), groups, dict, env) == Ok(Snapshot(b))
  {
    for k := 0 to |groups|
      invariant |b.nodes| > 0
      invariant EdgeGroups(old(Snapshot(b)), groups[..k], dict, env) == Ok(Snapshot(b))
    {
      assert groups[..k + 1][..k] == groups[..k];
      DrawEdgeGroup(b, groups[k], edgesId, dict, env);
    }
    assert groups[..|groups|] == groups;
  }

  /** One edge group: nothing for an empty group, otherwise a transform node under the root and the line mesh under it. */
  method DrawEdgeGroup(b: Builder, group: seq<Vec3>, edgesId: nat, ghost dict: map<string, nat>, ghost env: Env)
    requires |b.nodes| > 0 && env.edges.name in dict && dict[env.edges.name] == edgesId
    modifies b`buffer, b`bufferViews, b`accessors, b`nodes, b`meshes, b`lastId
    ensures EdgeGroup(old(Snapshot(b)), group, dict, env) == Ok(Snapshot(b)) && |b.nodes| > 0
  {
    if |group| == 0 {
      return;
    }
    var parentId := b.CreateNodeForTransform(Identity);
    DrawLines(b, group, edgesId, false, parentId);
  }

  /**
   * InitializeGlTF (GltfExtensions.cs:690-850): materials, lights, the
   * element walk with its line groups, the empty check, the edge meshes and
   * the finished document. The id counter is passed in and handed back.
   */
  method InitializeGlTF(model: Model, env: Env, lastId: int) returns (r: Result<Output, SceneError>)
    ensures r == InitSpec(model, env, lastId)
  {
    var b, dict := StartDocument(model, env, lastId);
    var materials, textures, images, samplers, lights := b.materials, b.textures, b.images, b.samplers, b.lights;
    StartStateWf(model, env, lastId);
    var walked := WalkElements(b, model.elements, dict, env);
    if walked.Failure? {
      return Failure(walked.error);
    }
    var groups := walked.value;

    var total := SumLengths(b.merged);
    if total + |b.buffer| == 0 && |model.lights| == 0 {
      return Ok(Output(None, b.lastId));
    }

    if env.drawEdges {
      EdgesMaterialFound(model, env);
      DrawEdgeGroups(b, groups, dict[env.edges.name], dict, env);
    }

    var extensionsUsed := ExtensionsUsed(|model.lights| > 0);
    var bufferLength := if |b.buffer| > 0 then Some(|b.buffer|) else None;
    var d := Document(extensionsUsed, [b.buffer] + b.merged, bufferLength, b.bufferViews, b.accessors, b.nodes, b.meshes,
                      materials, textures, images, samplers, lights, [0]);
    ghost var st := Snapshot(b);
    assert d == Finish(st, MaterialsOf(model, env), LightRecords(model.lights));
    InitSpecFinished(model, env, lastId, groups, st);
    r := Ok(Output(Some(d), b.lastId));
  }

  /** How InitSpec ends when the walk succeeds, there is something to draw and the edges are drawn. */
  lemma InitSpecFinished(model: Model, env: Env, lastId: int, groups: seq<seq<Vec3>>, st: DocState)
    requires DocWf(StartState(model, env, lastId))
    requires var walked := RenderAll(LoopState(StartState(model, env, lastId), [[]]), model.elements, MaterialsOf(model, env).dict, env);
      && walked.Ok? && walked.value.groups == groups
      && !(TotalLength(walked.value.st.merged) + |walked.value.st.buffer| == 0 && |model.lights| == 0)
      && (if env.drawEdges then EdgeGroups(walked.value.st, groups, MaterialsOf(model, env).dict, env) == Ok(st)
          else st == walked.value.st)
    ensures InitSpec(model, env, lastId) == Ok(Output(Some(Finish(st, MaterialsOf(model, env), LightRecords(model.lights))), st.lastId))
  {
  }

  /** One more element: the walk over `es[..i + 1]` is one LoopStep after the walk over `es[..i]`. */
  lemma RenderAllStep(ls: LoopState, es: seq<Element>, i: nat, dict: map<string, nat>, env: Env)
    requires DocWf(ls.st) && |ls.groups| > 0 && i < |es|
    requires RenderAll(ls, es[..i], dict, env).Ok?
    ensures var mid := RenderAll(ls, es[..i], dict, env).value;
      RenderAll(ls, es[..i + 1], dict, env) == LoopStep(mid, es[i], dict, env)
  {
    var p := es[..i + 1];
    assert p[..|p| - 1] == es[..i] && p[|p| - 1] == es[i];
  }

  /** What the loop of WalkElements needs about one more element: the walk advances by one LoopStep, and an exception ends it. */
  lemma WalkAdvance(ls: LoopState, es: seq<Element>, i: nat, dict: map<string, nat>, env: Env, mid: LoopState)
    requires DocWf(ls.st) && |ls.groups| > 0 && i < |es|
    requires RenderAll(ls, es[..i], dict, env) == Ok(mid)
    ensures RenderAll(ls, es[..i + 1], dict, env) == LoopStep(mid, es[i], dict, env)
    ensures LoopStep(mid, es[i], dict, env).Failure? ==> RenderAll(ls, es, dict, env) == LoopStep(mid, es[i], dict, env)
  {
    RenderAllStep(ls, es, i, dict, env);
    if LoopStep(mid, es[i], dict, env).Failure? {
      RenderAllStops(ls, es, i + 1, dict, env);
    }
  }

  /** An exception in the element walk ends it: the whole walk fails as its prefix did. */
  lemma {:induction false} RenderAllStops(ls: LoopState, es: seq<Element>, i: nat, dict: map<string, nat>, env: Env)
    requires DocWf(ls.st) && |ls.groups| > 0 && i <= |es|
    requires RenderAll(ls, es[..i], dict, env).Failure?
    ensures RenderAll(ls, es, dict, env) == RenderAll(ls, es[..i], dict, env)
    decreases |es|
  {
    if i < |es| {
      var p := es[..|es| - 1];
      assert p[..i] == es[..i];
      RenderAllStops(ls, p, i, dict, env);
    } else {
      assert es[..i] == es;
    }
  }

  /**
   * ToGlTF's choice of what to write (GltfExtensions.cs:49-73): the
   * document when the model has elements and InitializeGlTF produces one,
   * otherwise the one-node "empty" document.
   */
  method ToGlTF(model: Model, env: Env, lastId: int) returns (r: Result<Output, SceneError>)
    ensures r == ToGltfSpec(model, env, lastId)
  {
    if model.elementCount > 0 {
      var init := InitializeGlTF(model, env, lastId);
      if init.Failure? {
        return Failure(init.error);
      }
      if init.value.document.Some? {
        return init;
      }
      return Ok(Output(Some(EmptyDocument), init.value.lastId));
    }
    r := Ok(Output(Some(EmptyDocument), lastId));
  }
}
