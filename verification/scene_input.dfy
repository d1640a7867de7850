/**
 * The input of InitializeGlTF (GltfExtensions.cs:690-850): the model's
 * elements as the serializer tells them apart, and the parts of the outside
 * world it consults (the file system, the glb merger, the built-in materials).
 * Geometry kernels (tessellation, CSG, edge extraction) are represented by
 * their results.
 */
module SceneInput {
  import opened Wrappers
  import opened Bytes
  import opened Geometry
  import opened GltfSchema
  import opened GltfLayout
  import opened MeshLayout
  import opened Materials

  /**
   * The values the caller's variables hold after
   * `csg.Tessellate(out vertexBuffer, out indexBuffer, out normalBuffer,
   * out colorBuffer, out uvBuffer, out vmax, out vmin, out nmin, out nmax,
   * out cmin, out cmax, out imin, out imax, out uvmax, out uvmin)`
   * (GltfExtensions.cs:1233-1235). Csg.Solid.Tessellate is not part of this
   * model, so the fields are named after the variables that receive them.
   */
  datatype CsgOutput = CsgOutput(
    vertexBuffer: seq<byte>, indexBuffer: seq<byte>, normalBuffer: seq<byte>,
    colorBuffer: seq<byte>, uvBuffer: seq<byte>,
    vmax: seq<real>, vmin: seq<real>, nmin: seq<real>, nmax: seq<real>,
    cmin: seq<real>, cmax: seq<real>, imin: nat, imax: nat,
    uvmax: seq<real>, uvmin: seq<real>)

  /** What ITessellate.Tessellate puts in the mesh: its vertices and triangles as GetBuffers reads them. */
  datatype MeshData = MeshData(vertices: seq<VertexData>, triangles: seq<TriangleData>)

  /**
   * The kinds of element GetRenderDataForElement tells apart, in the order it
   * tests them. `transform` is the element's Transform.
   */
  datatype ElementKind =
      /**
       * An ElementInstance of a base definition. `edgePoints` are the end
       * points of the edges of the base's solids, placed by the instance
       * transform, in the order the source visits them.
       */
    | InstanceOf(baseId: ElementId, baseIsContent: bool, transform: Transform, edgePoints: seq<Vec3>)
      /** A ModelCurve and the render vertices of its curve. */
    | CurveElement(transform: Transform, materialName: string, vertices: seq<Vec3>)
      /** A ModelPoints and its locations. */
    | PointsElement(transform: Transform, materialName: string, locations: seq<Vec3>)
      /** An ITessellate element; `mesh` is None when Tessellate leaves the mesh null. */
    | TessellatedElement(transform: Transform, isDefinition: bool, mesh: Option<MeshData>)
      /**
       * A ContentElement: its glb location and scale to meters, and, for the
       * case where the glb file is missing, its representation.
       */
    | ContentElement(transform: Transform, isDefinition: bool, gltfLocation: string, scaleToMeters: real,
                     representation: Option<CsgOutput>)
      /**
       * Any other GeometricElement: whether it is an Opening, its material's
       * name and, when it has a representation, the tessellation of its CSG
       * after UpdateRepresentations.
       */
    | GeometricElement(transform: Transform, isDefinition: bool, isOpening: bool, materialName: string,
                       representation: Option<CsgOutput>)

  datatype Element = Element(id: ElementId, kind: ElementKind)

  /**
   * What GltfMergingUtils.AddAllMeshesFromFromGlb contributes for a glb file:
   * its meshes, appended to the document's meshes, and its binary buffer,
   * appended to the list of buffers.
   */
  datatype MergeResult = MergeResult(meshes: seq<Mesh>, buffer: seq<byte>)

  /**
   * The world outside the serializer: the file system, the glb merger, the
   * name of BuiltInMaterials.Default, BuiltInMaterials.Edges, and the
   * drawEdges flag.
   */
  datatype Env = Env(files: Files, merge: string -> MergeResult, defaultMaterial: string,
                     edges: MaterialInput, drawEdges: bool)

  /**
   * A model, as the serializer reads it: its transform, the number of entries
   * in model.Elements (of any type), its materials and directional lights, and
   * its geometric elements and element instances in dictionary order.
   */
  datatype Model = Model(transform: Transform, elementCount: nat, materials: seq<MaterialInput>,
                         lights: seq<LightInput>, elements: seq<Element>)

  /** The exceptions that abort serialization. */
  datatype SceneError =
    | MissingMaterial(name: string)          // materialIndexMap[name]: KeyNotFoundException
    | MissingDefinition(baseId: ElementId)   // meshElementMap[i.BaseDefinition.Id]: KeyNotFoundException
    | DuplicateElement(id: ElementId)        // nodeElementMap.Add: ArgumentException
    | MeshFailure(error: BufferError)        // an exception inside Mesh.GetBuffers
    | MissingBounds(id: ElementId)           // vMin[0] and the like on a short array: IndexOutOfRangeException

  /**
   * The AddTriangleMesh arguments of the ITessellate branch
   * (GltfExtensions.cs:956-1000). GetBuffers declares `uvMin` before `uvMax`
   * while the caller passes `out uvmax, out uvmin`, and the caller then hands
   * `uvmax, uvmin` to the uvMin, uvMax parameters: the two swaps cancel.
   */
  function TessellationArgs(id: ElementId, b: MeshBuffers, materialId: int): (a: TriangleMeshArgs)
    ensures a.uvMin == b.uvMin && a.uvMax == b.uvMax && a.vMin == b.vMin && a.vMax == b.vMax
  {
    var vmax, vmin, nmin, nmax, cmin, cmax := b.vMax, b.vMin, b.nMin, b.nMax, b.cMin, b.cMax;
    var imin, imax := b.indexMin, b.indexMax;
    var uvmax, uvmin := b.uvMin, b.uvMax;
    TriangleMeshArgs(ElementMesh(id), b.vertexBuffer, b.normalBuffer, b.indexBuffer, b.colorBuffer, b.uvBuffer,
                     vmin, vmax, nmin, nmax, imin, imax, uvmax, uvmin, materialId, cmin, cmax)
  }

  /** The AddTriangleMesh arguments of ProcessSolidsAsCSG (GltfExtensions.cs:1242-1244). */
  function CsgArgs(id: ElementId, c: CsgOutput, materialId: int): (a: TriangleMeshArgs)
    ensures a.vertices == c.vertexBuffer && a.uvMin == c.uvmin && a.uvMax == c.uvmax
  {
    TriangleMeshArgs(ElementMesh(id), c.vertexBuffer, c.normalBuffer, c.indexBuffer, c.colorBuffer, c.uvBuffer,
                     c.vmin, c.vmax, c.nmin, c.nmax, c.imin, c.imax, c.uvmin, c.uvmax, materialId, c.cmin, c.cmax)
  }

  /**
   * The mesh of an ITessellate element always satisfies AddTriangleMesh's
   * bounds, and its accessors' bounds are the true ones: every position lies
   * in [vMin, vMax] and every texture coordinate in [uvMin, uvMax], each
   * bound attained by some vertex.
   */
  lemma TessellationBoundsHold(id: ElementId, vs: seq<VertexData>, ts: seq<TriangleData>, materialId: int)
    requires Buffers(vs, ts).Ok?
    ensures var a := TessellationArgs(id, Buffers(vs, ts).value, materialId);
      && TriangleBoundsOk(a)
      && (forall i :: 0 <= i < |vs| ==> InBox(vs[i].position, a.vMin, a.vMax))
      && (forall i :: 0 <= i < |vs| ==>
            a.uvMin[0] <= vs[i].uv.u <= a.uvMax[0] && a.uvMin[1] <= vs[i].uv.v <= a.uvMax[1])
      && Attained(Positions(vs), a.vMin) && Attained(Positions(vs), a.vMax)
  {
    VertexBoundsAreTight(vs, ts);
    TexCoordBoundsAreTight(vs, ts);
  }
}
