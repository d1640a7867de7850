/**
 * InitializeGlTF and the fallback decision of ToGlTF (GltfExtensions.cs:49-73,
 * 690-850) on values: the start state, the element loop, the empty check,
 * the edge meshes and the finished document.
 */
module DocumentSpec {
  import opened Wrappers
  import opened Bytes
  import opened Geometry
  import opened GltfSchema
  import opened GltfLayout
  import opened Materials
  import opened SceneInput
  import opened RenderSpec

  /** What InitializeGlTF returns (null becomes None), and the id counter afterwards. */
  datatype Output = Output(document: Option<Document>, lastId: int)

  /** The root node: the model's transform rotated for +Z up (GltfExtensions.cs:703-716). */
  function RootNode(model: Model): (n: Node)
    ensures n.matrix == Some(UpRotation(model.transform)) && n.children == [] && n.mesh.None? && n.light.None?
  {
    TransformNode(UpRotation(model.transform))
  }

  /** The model's materials, then BuiltInMaterials.Edges when edges are drawn (GltfExtensions.cs:736-741). */
  function MaterialsToAdd(model: Model, env: Env): (r: seq<MaterialInput>)
    ensures |r| == |model.materials| + (if env.drawEdges then 1 else 0) && r[..|model.materials|] == model.materials
    ensures env.drawEdges ==> r[|r| - 1] == env.edges
  {
    model.materials + (if env.drawEdges then [env.edges] else [])
  }

  /** extensionsUsed (GltfExtensions.cs:726-732). */
  function ExtensionsUsed(hasLights: bool): (r: seq<string>)
    ensures PbrSpecularGlossiness in r && MaterialsUnlit in r
    ensures LightsPunctual in r <==> hasLights
  {
    if hasLights then [PbrSpecularGlossiness, MaterialsUnlit, LightsPunctual]
    else [PbrSpecularGlossiness, MaterialsUnlit]
  }

  /** The materials loop over an empty buffer and no views. */
  function MaterialsOf(model: Model, env: Env): MatState
  {
    MaterialsFold(MatStart([], []), MaterialsToAdd(model, env), env.files)
  }

  /** The root, then one root child per light. */
  function StartNodes(model: Model): (r: seq<Node>)
    ensures |r| > 0
  {
    if |model.lights| > 0 then WithRootChildren([RootNode(model)], LightNodeList(model.lights))
    else [RootNode(model)]
  }

  /** The state before the element loop. */
  function StartState(model: Model, env: Env, lastId: int): DocState
  {
    var mat := MaterialsOf(model, env);
    DocState(mat.buffer, mat.views, [], StartNodes(model), [], lastId, map[], map[], map[], [], [])
  }

  lemma StartStateWf(model: Model, env: Env, lastId: int)
    ensures DocWf(StartState(model, env, lastId))
    ensures StartState(model, env, lastId).nodes[0].matrix == Some(UpRotation(model.transform))
  {
    var mat := MaterialsOf(model, env);
    FoldViewsInside(MatStart([], []), MaterialsToAdd(model, env), env.files);
    var nodes := StartNodes(model);
    if |model.lights| > 0 {
      var ns := LightNodeList(model.lights);
      forall k | 0 <= k < |ns|
        ensures ns[k].children == [] && ns[k].mesh.None?
      {
        assert ns[k] == LightNode(model.lights[k], k);
      }
      RootChildrenKeepTree([RootNode(model)], ns, 0);
      RootChildren([RootNode(model)], ns);
    }
  }

  /**
   * The edge meshes of one line group (GltfExtensions.cs:808-819): nothing
   * for an empty group; otherwise an identity transform node under the root
   * and an unclosed line mesh with the Edges material under it.
   */
  function EdgeGroup(st: DocState, group: seq<Vec3>, dict: map<string, nat>, env: Env): Result<DocState, SceneError>
    requires |st.nodes| > 0
  {
    if |group| == 0 then Ok(st)
    else
      var parentId := |st.nodes|;
      var st1 := st.(nodes := WithNode(st.nodes, TransformNode(Identity), Some(0)));
      if env.edges.name !in dict then Failure(MissingMaterial(env.edges.name))
      else Ok(WithLines(st1, group, dict[env.edges.name], false, parentId))
  }

  /** The number of non-empty groups. */
  function NonEmpty(groups: seq<seq<Vec3>>): nat
    decreases |groups|
  {
    if groups == [] then 0
    else NonEmpty(groups[..|groups| - 1]) + (if |groups[|groups| - 1]| > 0 then 1 else 0)
  }

  /** The edge meshes of all groups, in order. */
  function EdgeGroups(st: DocState, groups: seq<seq<Vec3>>, dict: map<string, nat>, env: Env): (r: Result<DocState, SceneError>)
    requires DocWf(st)
    ensures r.Ok? ==> DocWf(r.value) && r.value.nodes[0].matrix == st.nodes[0].matrix
    decreases |groups|
  {
    if groups == [] then Ok(st)
    else
      match EdgeGroups(st, groups[..|groups| - 1], dict, env)
      case Failure(err) => Failure(err)
      case Ok(mid) =>
        EdgeGroupKeepsWf(mid, groups[|groups| - 1], dict, env);
        EdgeGroup(mid, groups[|groups| - 1], dict, env)
  }

  lemma EdgeGroupKeepsWf(st: DocState, group: seq<Vec3>, dict: map<string, nat>, env: Env)
    requires DocWf(st)
    ensures var r := EdgeGroup(st, group, dict, env);
      r.Ok? ==> DocWf(r.value) && r.value.nodes[0].matrix == st.nodes[0].matrix
  {
    if |group| > 0 && env.edges.name in dict {
      var st1 := st.(nodes := WithNode(st.nodes, TransformNode(Identity), Some(0)));
      WithNodeKeepsTree(st.nodes, TransformNode(Identity), 0, |st.meshes|);
      assert DocWf(st1);
      LinesKeepWf(st1, group, dict[env.edges.name], false, |st.nodes|);
    }
  }

  /**
   * Empty groups emit nothing; every non-empty group adds exactly two nodes
   * (its transform node and its mesh node) and one mesh.
   */
  lemma {:induction false} EdgeGroupsCounts(st: DocState, groups: seq<seq<Vec3>>, dict: map<string, nat>, env: Env)
    requires DocWf(st)
    ensures var r := EdgeGroups(st, groups, dict, env);
      r.Ok? ==>
        && |r.value.meshes| == |st.meshes| + NonEmpty(groups)
        && |r.value.nodes| == |st.nodes| + 2 * NonEmpty(groups)
        && r.value.meshes[..|st.meshes|] == st.meshes
    decreases |groups|
  {
    if groups != [] {
      EdgeGroupsCounts(st, groups[..|groups| - 1], dict, env);
      var rp := EdgeGroups(st, groups[..|groups| - 1], dict, env);
      if rp.Ok? {
        var mid := rp.value;
        var r := EdgeGroup(mid, groups[|groups| - 1], dict, env);
        if r.Ok? && |groups[|groups| - 1]| > 0 {
          assert r.value.meshes[..|mid.meshes|] == mid.meshes;
          assert r.value.meshes[..|st.meshes|] == mid.meshes[..|st.meshes|];
        }
      }
    }
  }

  /** The total number of bytes in a list of buffers (allBuffers.Sum(b => b.Count())). */
  function TotalLength(buffers: seq<seq<byte>>): nat
    decreases |buffers|
  {
    if buffers == [] then 0 else TotalLength(buffers[..|buffers| - 1]) + |buffers[|buffers| - 1]|
  }

  lemma {:induction false} TotalLengthZero(buffers: seq<seq<byte>>)
    ensures TotalLength(buffers) == 0 <==> forall k :: 0 <= k < |buffers| ==> |buffers[k]| == 0
    decreases |buffers|
  {
    if buffers != [] {
      TotalLengthZero(buffers[..|buffers| - 1]);
      var p := buffers[..|buffers| - 1];
      assert forall k :: 0 <= k < |p| ==> p[k] == buffers[k];
    }
  }

  /** The finished document from the final state (GltfExtensions.cs:821-849). */
  function Finish(st: DocState, mat: MatState, lights: seq<Light>): (d: Document)
    ensures d.nodes == st.nodes && d.meshes == st.meshes && d.bufferViews == st.views && d.accessors == st.accessors
    ensures |d.buffers| > 0 && d.buffers[0] == st.buffer && d.buffers[1..] == st.merged
    ensures d.bufferLength.Some? <==> |st.buffer| > 0
    ensures d.bufferLength.Some? ==> d.bufferLength.value == |st.buffer|
    ensures d.sceneNodes == [0] && d.lights == lights
    ensures LightsPunctual in d.extensionsUsed <==> |lights| > 0
  {
    Document(ExtensionsUsed(|lights| > 0), [st.buffer] + st.merged,
             if |st.buffer| > 0 then Some(|st.buffer|) else None,
             st.views, st.accessors, st.nodes, st.meshes,
             mat.materials, mat.textures, mat.images, mat.samplers, lights, [0])
  }

  /** InitializeGlTF: the document, or None (null) when nothing produced bytes and there are no lights. */
  function InitSpec(model: Model, env: Env, lastId: int): Result<Output, SceneError>
  {
    var mat := MaterialsOf(model, env);
    var st0 := StartState(model, env, lastId);
    StartStateWf(model, env, lastId);
    match RenderAll(LoopState(st0, [[]]), model.elements, mat.dict, env)
    case Failure(err) => Failure(err)
    case Ok(ls) =>
      if TotalLength(ls.st.merged) + |ls.st.buffer| == 0 && |model.lights| == 0 then Ok(Output(None, ls.st.lastId))
      else
        var edged := if env.drawEdges then EdgeGroups(ls.st, ls.groups, mat.dict, env) else Ok(ls.st);
        match edged
        case Failure(err) => Failure(err)
        case Ok(st) => Ok(Output(Some(Finish(st, mat, LightRecords(model.lights))), st.lastId))
  }

  /** ToGlTF: the document written, the one-node "empty" document when there is nothing to save. */
  function ToGltfSpec(model: Model, env: Env, lastId: int): Result<Output, SceneError>
  {
    if model.elementCount == 0 then Ok(Output(Some(EmptyDocument), lastId))
    else
      match InitSpec(model, env, lastId)
      case Failure(err) => Failure(err)
      case Ok(out) => Ok(Output(Some(if out.document.None? then EmptyDocument else out.document.value), out.lastId))
  }

  // ---------------------------------------------------------------------------
  // What the finished document guarantees
  // ---------------------------------------------------------------------------

  /**
   * A produced document is well formed: every child and scene index names a
   * node, the root carries the model's rotated transform, every node's mesh
   * exists (but for the -1 of placed content elements), every view lies
   * inside buffer 0, every accessor names a view, and the lights block and
   * KHR_lights_punctual appear exactly when the model has lights.
   */
  lemma InitDocumentWf(model: Model, env: Env, lastId: int)
    ensures var r := InitSpec(model, env, lastId);
      r.Ok? && r.value.document.Some? ==>
        var d := r.value.document.value;
        && NodesResolve(d)
        && d.nodes[0].matrix == Some(UpRotation(model.transform))
        && (forall i :: 0 <= i < |d.nodes| && d.nodes[i].mesh.Some? ==> -1 <= d.nodes[i].mesh.value < |d.meshes|)
        && ViewsInside(d.bufferViews, d.buffers[0])
        && (forall j :: 0 <= j < |d.accessors| ==> d.accessors[j].bufferView < |d.bufferViews|)
        && (LightsPunctual in d.extensionsUsed <==> |model.lights| > 0)
        && |d.lights| == |model.lights|
  {
    StartStateWf(model, env, lastId);
    var r := InitSpec(model, env, lastId);
    if r.Ok? && r.value.document.Some? {
      var mat := MaterialsOf(model, env);
      var ls := RenderAll(LoopState(StartState(model, env, lastId), [[]]), model.elements, mat.dict, env).value;
      var st := if env.drawEdges then EdgeGroups(ls.st, ls.groups, mat.dict, env).value else ls.st;
      assert DocWf(st) && st.nodes[0].matrix == Some(UpRotation(model.transform));
      assert r.value.document.value == Finish(st, mat, LightRecords(model.lights));
      FinishWf(st, mat, LightRecords(model.lights));
    }
  }

  /** A well-formed final state gives a document whose indices all resolve. */
  lemma FinishWf(st: DocState, mat: MatState, lights: seq<Light>)
    requires DocWf(st)
    ensures var d := Finish(st, mat, lights);
      && NodesResolve(d)
      && (forall i :: 0 <= i < |d.nodes| && d.nodes[i].mesh.Some? ==> -1 <= d.nodes[i].mesh.value < |d.meshes|)
      && ViewsInside(d.bufferViews, d.buffers[0])
      && (forall j :: 0 <= j < |d.accessors| ==> d.accessors[j].bufferView < |d.bufferViews|)
  {
  }

  /**
   * The null test of InitializeGlTF (GltfExtensions.cs:801-804): a document
   * it returns always holds bytes in some buffer or a light, and it returns
   * null only for a model without lights.
   */
  lemma InitNullExactly(model: Model, env: Env, lastId: int)
    ensures var r := InitSpec(model, env, lastId);
      r.Ok? && r.value.document.Some? ==>
        TotalLength(r.value.document.value.buffers) > 0 || |r.value.document.value.lights| > 0
    ensures var r := InitSpec(model, env, lastId);
      r.Ok? && r.value.document.None? ==> |model.lights| == 0
  {
    var r := InitSpec(model, env, lastId);
    if r.Ok? && r.value.document.Some? {
      var d := r.value.document.value;
      if |model.lights| == 0 {
        var mat := MaterialsOf(model, env);
        StartStateWf(model, env, lastId);
        var ls := RenderAll(LoopState(StartState(model, env, lastId), [[]]), model.elements, mat.dict, env).value;
        var st := if env.drawEdges then EdgeGroups(ls.st, ls.groups, mat.dict, env).value else ls.st;
        EdgeGroupsGrow(ls.st, ls.groups, mat.dict, env);
        TotalLengthZero(ls.st.merged);
        TotalLengthZero(d.buffers);
        assert TotalLength(ls.st.merged) + |ls.st.buffer| > 0;
        if |ls.st.buffer| > 0 {
          assert d.buffers[0] == st.buffer;
          assert |d.buffers[0]| > 0;
        } else {
          var k :| 0 <= k < |ls.st.merged| && |ls.st.merged[k]| > 0;
          assert d.buffers[k + 1] == ls.st.merged[k];
        }
      }
    }
  }

  /** Edge meshes only append to the buffer and never touch the merged buffers. */
  lemma {:induction false} EdgeGroupsGrow(st: DocState, groups: seq<seq<Vec3>>, dict: map<string, nat>, env: Env)
    requires DocWf(st)
    ensures var r := EdgeGroups(st, groups, dict, env);
      r.Ok? ==> r.value.merged == st.merged && |st.buffer| <= |r.value.buffer|
    decreases |groups|
  {
    if groups != [] {
      EdgeGroupsGrow(st, groups[..|groups| - 1], dict, env);
    }
  }

  /**
   * A model with no elements, no lights and no texture file to load
   * serializes to null.
   */
  lemma NothingToDraw(model: Model, env: Env, lastId: int)
    requires model.elements == [] && model.lights == []
    requires forall i :: 0 <= i < |MaterialsToAdd(model, env)| ==> !HasTexture(MaterialsToAdd(model, env)[i], env.files)
    ensures InitSpec(model, env, lastId) == Ok(Output(None, lastId))
  {
    FoldWithoutTextures(MatStart([], []), MaterialsToAdd(model, env), env.files);
    StartStateWf(model, env, lastId);
  }

  /** When edges are drawn, the Edges material is always found: drawing the edge groups cannot fail. */
  lemma EdgesMaterialFound(model: Model, env: Env)
    requires env.drawEdges
    ensures env.edges.name in MaterialsOf(model, env).dict
  {
    var ms := MaterialsToAdd(model, env);
    FoldNames(MatStart([], []), ms, env.files, env.edges.name);
    assert ms[|ms| - 1].name == env.edges.name;
  }

  /**
   * ToGlTF writes the one-node "empty" document exactly when the model has
   * no elements or InitializeGlTF returns null: a produced document never
   * looks like the empty one, since its root carries a matrix.
   */
  lemma EmptyFallbackExactly(model: Model, env: Env, lastId: int)
    ensures var r := ToGltfSpec(model, env, lastId);
      r.Ok? ==>
        (r.value.document == Some(EmptyDocument) <==>
          model.elementCount == 0 || InitSpec(model, env, lastId).value.document.None?)
  {
    if model.elementCount > 0 {
      InitDocumentWf(model, env, lastId);
    }
  }
}
