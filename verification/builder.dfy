/**
 * The document under construction. GltfExtensions.cs threads the same lists
 * (the byte buffer, the buffer views, the accessors, the nodes, the meshes)
 * through every helper as arguments and mutates them in place; here they are
 * the fields of one Builder, and each helper is a method that changes only
 * the fields it is given. Each method is proved to append exactly what the
 * GltfLayout functions describe.
 */
module GltfBuilder {
  import opened Wrappers
  import opened Bytes
  import opened Geometry
  import opened GltfSchema
  import opened GltfLayout
  import opened LineEncoding
  import opened Materials

  class Builder {
    /** The binary buffer of this document (`buffers` in InitializeGlTF). */
    var buffer: seq<byte>
    var bufferViews: seq<BufferView>
    var accessors: seq<Accessor>
    var nodes: seq<Node>
    var meshes: seq<Mesh>
    /** gltf.Materials, gltf.Textures, gltf.Images, gltf.Samplers as AddMaterials leaves them. */
    var materials: seq<Material>
    var textures: seq<Texture>
    var images: seq<Image>
    var samplers: seq<Sampler>
    /** The top-level KHR_lights_punctual "lights" array; empty when the block is absent. */
    var lights: seq<Light>
    /** The process-wide `_currentId` counter that GetNextId advances. */
    var lastId: int
    /**
     * The bookkeeping InitializeGlTF keeps beside the document while it walks
     * the elements: meshElementMap, nodeElementMap, meshTransformMap, the
     * binary buffers of merged glb files (allBuffers after its first entry)
     * and the current line group (currLines).
     */
    var meshElementMap: map<ElementId, seq<int>>
    var nodeElementMap: map<ElementId, nat>
    var meshTransformMap: map<ElementId, Transform>
    var merged: seq<seq<byte>>
    var lines: seq<Vec3>

    /** A document holding only its root node; `lastId` is the counter's current value. */
    constructor(root: Node, lastId: int)
      ensures buffer == [] && bufferViews == [] && accessors == [] && meshes == []
      ensures nodes == [root]
      ensures materials == [] && textures == [] && images == [] && samplers == [] && lights == []
      ensures this.lastId == lastId
      ensures meshElementMap == map[] && nodeElementMap == map[] && meshTransformMap == map[]
      ensures merged == [] && lines == []
    {
      buffer := [];
      bufferViews := [];
      accessors := [];
      nodes := [root];
      meshes := [];
      materials := [];
      textures := [];
      images := [];
      samplers := [];
      lights := [];
      this.lastId := lastId;
      meshElementMap := map[];
      nodeElementMap := map[];
      meshTransformMap := map[];
      merged := [];
      lines := [];
    }

    /** GetNextId: advance the counter and return its new value. */
    method GetNextId() returns (id: int)
      modifies this`lastId
      ensures lastId == old(lastId) + 1 && id == lastId
    {
      lastId := lastId + 1;
      id := lastId;
    }

    /** AddBufferView: append a view and return its index. */
    method AddBufferView(bufferIndex: nat, byteOffset: nat, byteLength: nat) returns (id: nat)
      modifies this`bufferViews
      ensures bufferViews == old(bufferViews) + [BufferView(bufferIndex, byteOffset, byteLength)]
      ensures id == |old(bufferViews)|
    {
      bufferViews := bufferViews + [BufferView(bufferIndex, byteOffset, byteLength)];
      id := |bufferViews| - 1;
    }

    /** AddAccessor: append an accessor and return its index. */
    method AddAccessor(bufferView: nat, byteOffset: nat, componentType: ComponentType, count: nat,
                       min: seq<real>, max: seq<real>, accessorType: AccessorType) returns (id: nat)
      modifies this`accessors
      ensures accessors == old(accessors) + [Accessor(bufferView, byteOffset, componentType, count, min, max, accessorType)]
      ensures id == |old(accessors)|
    {
      accessors := accessors + [Accessor(bufferView, byteOffset, componentType, count, min, max, accessorType)];
      id := |accessors| - 1;
    }

    /**
     * AddNode: append `n` and, when a parent is given, append the new id to
     * the parent's children. An index past the end of the list throws in the
     * source, so the parent must exist (or be the new node itself).
     */
    method AddNode(n: Node, parent: Option<nat>) returns (id: nat)
      requires ParentOk(nodes, parent)
      modifies this`nodes
      ensures nodes == WithNode(old(nodes), n, parent)
      ensures id == |old(nodes)|
    {
      nodes := nodes + [n];
      id := |nodes| - 1;
      if parent.Some? {
        var p := parent.value;
        nodes := nodes[p := nodes[p].(children := nodes[p].children + [id])];
      }
    }

    /** The padding loop: append zero bytes until the length is a multiple of 4. */
    method Pad()
      modifies this`buffer
      ensures buffer == Padded(old(buffer))
    {
      ghost var k := 0;
      while |buffer| % 4 != 0
        invariant k <= PadLength(|old(buffer)|)
        invariant buffer == old(buffer) + Zeros(k)
        decreases PadLength(|old(buffer)|) - k
      {
        buffer := buffer + [0];
        k := k + 1;
        assert Zeros(k) == Zeros(k - 1) + [0];
      }
      PadLengthIsLeast(|old(buffer)|, k);
    }

    /** CreateNodeForTransform: a node holding only `t`, as a new child of the root. */
    method CreateNodeForTransform(t: Transform) returns (id: nat)
      requires |nodes| > 0
      modifies this`nodes
      ensures nodes == WithNode(old(nodes), TransformNode(t), Some(0))
      ensures id == |old(nodes)|
    {
      id := AddNode(TransformNode(t), Some(0));
    }

    /** CreateNodeForMesh: a node holding only the mesh id, as a new child of `parentId`. */
    method CreateNodeForMesh(meshId: int, parentId: nat) returns (id: nat)
      requires parentId <= |nodes|
      modifies this`nodes
      ensures nodes == WithNode(old(nodes), MeshNode(meshId), Some(parentId))
      ensures id == |old(nodes)|
    {
      id := AddNode(MeshNode(meshId), Some(parentId));
    }

    /** AddInstanceMesh: one root child per mesh id, all with the matrix of `t`. */
    method AddInstanceMesh(meshIds: seq<int>, t: Transform)
      requires |nodes| > 0
      modifies this`nodes
      ensures nodes == WithRootChildren(old(nodes), InstanceNodeList(meshIds, t))
    {
      ghost var ns := InstanceNodeList(meshIds, t);
      for k := 0 to |meshIds|
        invariant nodes == WithRootChildren(old(nodes), ns[..k])
      {
        assert ns[..k + 1] == ns[..k] + [InstanceNode(meshIds[k], t)];
        AddRootChild(InstanceNode(meshIds[k], t), old(nodes), ns[..k]);
      }
      assert ns[..|meshIds|] == ns;
    }

    /** One iteration of the root-child loops: AddNode under the root, extending the list added so far. */
    method AddRootChild(n: Node, ghost start: seq<Node>, ghost added: seq<Node>)
      requires |start| > 0 && nodes == WithRootChildren(start, added)
      modifies this`nodes
      ensures nodes == WithRootChildren(start, added + [n])
    {
      assert (added + [n])[..|added|] == added;
      var _ := AddNode(n, Some(0));
    }

    /**
     * AddLights: replace the document's extensions; one "lights" entry and one
     * root-child node per light, the k-th node referring to light k; the block
     * is stored only when there is at least one light.
     */
    method AddLights(ls: seq<LightInput>)
      requires |nodes| > 0
      modifies this`nodes, this`lights
      ensures nodes == WithRootChildren(old(nodes), LightNodeList(ls))
      ensures lights == LightRecords(ls)
    {
      var lightCount := 0;
      var lightsArr: seq<Light> := [];
      ghost var records := LightRecords(ls);
      ghost var ns := LightNodeList(ls);
      for k := 0 to |ls|
        invariant lightCount == k && lightsArr == records[..k]
        invariant nodes == WithRootChildren(old(nodes), ns[..k])
      {
        LightsSnoc(ls, k);
        lightsArr := lightsArr + [LightRecord(ls[k])];
        AddRootChild(LightNode(ls[k], lightCount), old(nodes), ns[..k]);
        lightCount := lightCount + 1;
      }
      assert ns[..|ls|] == ns && records[..|ls|] == records;
      // The extensions dictionary is replaced; the lights block is added only when non-empty.
      lights := [];
      if |lightsArr| > 0 {
        lights := lightsArr;
      }
    }

    /** Light k extends the first k light records and light nodes by its own. */
    static lemma LightsSnoc(ls: seq<LightInput>, k: nat)
      requires k < |ls|
      ensures LightRecords(ls)[..k + 1] == LightRecords(ls)[..k] + [LightRecord(ls[k])]
      ensures LightNodeList(ls)[..k + 1] == LightNodeList(ls)[..k] + [LightNode(ls[k], k)]
    {
      assert LightRecords(ls)[..k + 1] == LightRecords(ls)[..k] + [LightRecord(ls[k])];
      assert LightNodeList(ls)[..k + 1] == LightNodeList(ls)[..k] + [LightNode(ls[k], k)];
    }

    /** Append `bytes` at the end of the buffer, with a view covering them. */
    method AddBytesView(bytes: seq<byte>) returns (id: nat)
      modifies this`buffer, this`bufferViews
      ensures bufferViews == old(bufferViews) + [BufferView(0, |old(buffer)|, |bytes|)]
      ensures buffer == old(buffer) + bytes
      ensures id == |old(bufferViews)|
    {
      id := AddBufferView(0, |buffer|, |bytes|);
      buffer := buffer + bytes;
    }

    /**
     * AddTriangleMesh: views for positions, normals and indices, padding, then
     * views for texture coordinates and colors when present; an accessor per
     * view; one TRIANGLES mesh. Returns the mesh's index.
     */
    method AddTriangleMesh(a: TriangleMeshArgs) returns (id: nat)
      requires TriangleBoundsOk(a)
      modifies this`buffer, this`bufferViews, this`accessors, this`meshes
      ensures buffer == old(buffer) + TriangleMeshBytes(|old(buffer)|, a)
      ensures bufferViews == old(bufferViews) + TriangleMeshViews(|old(buffer)|, a)
      ensures accessors == old(accessors) + TriangleMeshAccessors(|old(bufferViews)|, a)
      ensures meshes == old(meshes) + [TriangleMeshRecord(|old(accessors)|, a)]
      ensures id == |old(meshes)|
    {
      ghost var start, views0, acc0 := |buffer|, |bufferViews|, |accessors|;
      var vBuff, nBuff, iBuff := AddTriangleViews(a);

      var vAccess := AddAccessor(vBuff, 0, Float, |a.vertices| / FloatSize / 3, a.vMin[..3], a.vMax[..3], Vec3Type);
      var nAccess := AddAccessor(nBuff, 0, Float, |a.normals| / FloatSize / 3, a.nMin[..3], a.nMax[..3], Vec3Type);
      var iAccess := AddAccessor(iBuff, 0, UnsignedShort, |a.indices| / UshortSize, [a.iMin as real], [a.iMax as real], Scalar);
      var attributes := map["NORMAL" := nAccess, "POSITION" := vAccess];
      assert accessors == old(accessors) + TriangleMeshAccessors(views0, a)[..3];

      attributes := AddTriangleExtras(a, start, views0, acc0, attributes);

      meshes := meshes + [Mesh(a.name, [Primitive(iAccess, a.materialId, Triangles, attributes)])];
      id := |meshes| - 1;
      assert TriangleMeshViews(start, a)[..3] + TriangleMeshViews(start, a)[3..] == TriangleMeshViews(start, a);
      assert TriangleMeshAccessors(views0, a)[..3] + TriangleMeshAccessors(views0, a)[3..] == TriangleMeshAccessors(views0, a);
    }

    /**
     * The second part of AddTriangleMesh: when there are texture coordinates,
     * a view right after the padding, its accessor and the TEXCOORD_0
     * attribute; then, when there are colors, the same for COLOR_0.
     */
    method AddTriangleExtras(a: TriangleMeshArgs, ghost start: nat, ghost views0: nat, ghost acc0: nat, attributes: map<string, nat>)
      returns (attrs: map<string, nat>)
      requires TriangleBoundsOk(a)
      requires |buffer| == AfterPad(start, a) && |bufferViews| == views0 + 3 && |accessors| == acc0 + 3
      requires attributes == map["NORMAL" := acc0 + 1, "POSITION" := acc0]
      modifies this`buffer, this`bufferViews, this`accessors
      ensures buffer == old(buffer) + a.uvs + a.colors
      ensures bufferViews == old(bufferViews) + TriangleMeshViews(start, a)[3..]
      ensures accessors == old(accessors) + TriangleMeshAccessors(views0, a)[3..]
      ensures attrs == TriangleAttributes(acc0, a)
    {
      attrs := attributes;
      if |a.uvs| > 0 {
        var uvBuff := AddBytesView(a.uvs);
        var uvAccess := AddAccessor(uvBuff, 0, Float, |a.uvs| / FloatSize / 2, a.uvMin[..2], a.uvMax[..2], Vec2);
        attrs := attrs["TEXCOORD_0" := uvAccess];
      }
      if |a.colors| > 0 {
        var cBuff := AddBytesView(a.colors);
        var cAccess := AddAccessor(cBuff, 0, Float, |a.colors| / FloatSize / 3, a.cMin, a.cMax, Vec3Type);
        attrs := attrs["COLOR_0" := cAccess];
      }
    }

    /**
     * The first part of AddTriangleMesh: a view each for the position, normal
     * and index bytes, in that order, then padding.
     */
    method AddTriangleViews(a: TriangleMeshArgs) returns (vBuff: nat, nBuff: nat, iBuff: nat)
      modifies this`buffer, this`bufferViews
      ensures buffer == old(buffer) + (a.vertices + a.normals + a.indices + Zeros(PadLength(|old(buffer)| + |a.vertices| + |a.normals| + |a.indices|)))
      ensures |buffer| == AfterPad(|old(buffer)|, a)
      ensures bufferViews == old(bufferViews) + TriangleMeshViews(|old(buffer)|, a)[..3]
      ensures vBuff == |old(bufferViews)| && nBuff == vBuff + 1 && iBuff == vBuff + 2
    {
      vBuff := AddBytesView(a.vertices);
      nBuff := AddBytesView(a.normals);
      iBuff := AddBytesView(a.indices);
      Pad();
    }

    /**
     * AddLineLoop: a view for the vertices and one right after it for the
     * indices, padding, an accessor each, a mesh with one primitive in the
     * given mode, and a node for the mesh under `parentId`. Returns the mesh's
     * index.
     */
    method AddLineLoop(name: MeshName, vertices: seq<byte>, indices: seq<byte>,
                       vMin: seq<real>, vMax: seq<real>, iMin: nat, iMax: nat,
                       materialId: int, mode: Mode, parentId: nat) returns (id: nat)
      requires |vMin| >= 3 && |vMax| >= 3
      requires parentId <= |nodes|
      modifies this`buffer, this`bufferViews, this`accessors, this`meshes, this`nodes
      ensures buffer == old(buffer) + LineLoopBytes(|old(buffer)|, vertices, indices)
      ensures bufferViews == old(bufferViews) + LineLoopViews(|old(buffer)|, vertices, indices)
      ensures accessors == old(accessors) + LineLoopAccessors(|old(bufferViews)|, vertices, indices, vMin, vMax, iMin, iMax)
      ensures meshes == old(meshes) + [LineLoopRecord(|old(accessors)|, name, materialId, mode)]
      ensures nodes == WithNode(old(nodes), MeshNode(|old(meshes)|), Some(parentId))
      ensures id == |old(meshes)|
    {
      var vBuff := AddBufferView(0, |buffer|, |vertices|);
      var iBuff := AddBufferView(0, |buffer| + |vertices|, |indices|);
      buffer := buffer + vertices;
      buffer := buffer + indices;
      ghost var unpadded := buffer;
      Pad();
      assert buffer == old(buffer) + (vertices + indices + Zeros(PadLength(|unpadded|)));

      var vAccess := AddAccessor(vBuff, 0, Float, |vertices| / FloatSize / 3, vMin[..3], vMax[..3], Vec3Type);
      var iAccess := AddAccessor(iBuff, 0, UnsignedShort, |indices| / UshortSize, [iMin as real], [iMax as real], Scalar);

      meshes := meshes + [Mesh(name, [Primitive(iAccess, materialId, mode, map["POSITION" := vAccess])])];
      var _ := AddNode(MeshNode(|meshes| - 1), Some(parentId));
      id := |meshes| - 1;
    }

    /**
     * AddLines: encode the vertices and their segment indices (consecutive
     * pairs for a loop, disjoint pairs otherwise), then AddLineLoop with the
     * bounding box, index range 0 to (ushort)(n - 1), mode LINES and the name
     * "<id>_curve".
     */
    method AddLines(id: int, vertices: seq<Vec3>, material: int, lineLoop: bool, parentId: nat)
      requires parentId <= |nodes|
      modifies this`buffer, this`bufferViews, this`accessors, this`meshes, this`nodes
      ensures var v := PointBytes(vertices);
        var i := LineIndexBytes(|vertices|, lineLoop);
        && buffer == old(buffer) + LineLoopBytes(|old(buffer)|, v, i)
        && bufferViews == old(bufferViews) + LineLoopViews(|old(buffer)|, v, i)
        && accessors == old(accessors) + LineLoopAccessors(|old(bufferViews)|, v, i,
             BoxMin(vertices), BoxMax(vertices), 0, ToUshort(|vertices| - 1))
        && meshes == old(meshes) + [LineLoopRecord(|old(accessors)|, Curve(id), material, Lines)]
        && nodes == WithNode(old(nodes), MeshNode(|old(meshes)|), Some(parentId))
    {
      var vBuff, indices := EncodeLines(vertices, lineLoop);
      var _ := AddLineLoop(Curve(id), vBuff, indices, BoxMin(vertices), BoxMax(vertices),
                           0, ToUshort(|vertices| - 1), material, Lines, parentId);
    }

    /** AddPoints: as AddLines, with one index per vertex and mode POINTS. */
    method AddPoints(id: int, vertices: seq<Vec3>, material: int, parentId: nat)
      requires parentId <= |nodes|
      modifies this`buffer, this`bufferViews, this`accessors, this`meshes, this`nodes
      ensures var v := PointBytes(vertices);
        var i := PointIndexBytes(|vertices|);
        && buffer == old(buffer) + LineLoopBytes(|old(buffer)|, v, i)
        && bufferViews == old(bufferViews) + LineLoopViews(|old(buffer)|, v, i)
        && accessors == old(accessors) + LineLoopAccessors(|old(bufferViews)|, v, i,
             BoxMin(vertices), BoxMax(vertices), 0, ToUshort(|vertices| - 1))
        && meshes == old(meshes) + [LineLoopRecord(|old(accessors)|, Curve(id), material, Points)]
        && nodes == WithNode(old(nodes), MeshNode(|old(meshes)|), Some(parentId))
    {
      var vBuff, indices := EncodePoints(vertices);
      var _ := AddLineLoop(Curve(id), vBuff, indices, BoxMin(vertices), BoxMax(vertices),
                           0, ToUshort(|vertices| - 1), material, Points, parentId);
    }

    /** The image branch of AddMaterials: the PNG bytes in a new view, then padding. */
    method AddImageBytes(bytes: seq<byte>) returns (view: nat)
      modifies this`buffer, this`bufferViews
      ensures bufferViews == old(bufferViews) + [BufferView(0, |old(buffer)|, |bytes|)]
      ensures buffer == Padded(old(buffer) + bytes)
      ensures view == |old(bufferViews)|
    {
      view := AddBytesView(bytes);
      Pad();
    }

    /**
     * AddMaterials, with the unlit-texture exception corrected: the buffer and
     * views grow by the texture images, the materials, textures, images and
     * samplers are stored when there are any, and the name-to-index dictionary
     * is returned; all as MaterialsFold computes them.
     */
    method AddMaterials(ms: seq<MaterialInput>, files: Files) returns (dict: map<string, nat>)
      modifies this`buffer, this`bufferViews, this`materials, this`textures, this`images, this`samplers
      ensures var r := MaterialsFold(MatStart(old(buffer), old(bufferViews)), ms, files);
        && dict == r.dict && buffer == r.buffer && bufferViews == r.views
        && materials == (if |ms| > 0 then r.materials else old(materials))
        && textures == (if |r.textures| > 0 then r.textures else old(textures))
        && images == (if |r.images| > 0 then r.images else old(images))
        && samplers == (if |r.samplers| > 0 then r.samplers else old(samplers))
    {
      dict := map[];
      var newMaterials: seq<Material> := [];
      var texDict: map<string, nat> := map[];
      var texs: seq<Texture> := [];
      var imgs: seq<Image> := [];
      var samps: seq<Sampler> := [];
      var matId, texId, imageId, samplerId := 0, 0, 0, 0;
      ghost var start := MatStart(buffer, bufferViews);

      for i := 0 to |ms|
        invariant MatState(dict, newMaterials, texDict, texs, imgs, samps, buffer, bufferViews)
                  == MaterialsFold(start, ms[..i], files)
        invariant matId == |newMaterials| && texId == |texs| && imageId == |imgs| && samplerId == |samps|
        modifies this`buffer, this`bufferViews
      {
        assert ms[..i + 1][..i] == ms[..i];
        ghost var before := MatState(dict, newMaterials, texDict, texs, imgs, samps, buffer, bufferViews);
        var m := ms[i];
        if m.name !in dict {
          var tex: Option<TextureInfo> := None;
          if m.texture.Some? && files.present(m.texture.value) {
            var path := m.texture.value;
            if path in texDict {
              tex := Some(TextureInfo(texDict[path], 0));
            } else {
              tex := Some(TextureInfo(texId, 0));
              var view := AddImageBytes(files.png(path));
              imgs := imgs + [Image(view)];
              samps := samps + [LinearRepeat];
              texs := texs + [Texture(imageId, samplerId)];
              texDict := texDict[path := texId];
              texId, imageId, samplerId := texId + 1, imageId + 1, samplerId + 1;
            }
          }
          newMaterials := newMaterials + [Translate(m, tex)];
          dict := dict[m.name := matId];
          matId := matId + 1;
        }
        assert MatState(dict, newMaterials, texDict, texs, imgs, samps, buffer, bufferViews)
               == MaterialStep(before, m, files);
      }
      assert ms[..|ms|] == ms;

      if |ms| > 0 {
        materials := newMaterials;
      }
      if |texs| > 0 {
        textures := texs;
      }
      if |imgs| > 0 {
        images := imgs;
      }
      if |samps| > 0 {
        samplers := samps;
      }
    }
  }
}
