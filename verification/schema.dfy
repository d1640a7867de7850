/**
 * The glTF 2.0 records the serializer emits (the glTFLoader.Schema classes it
 * fills in), reduced to the fields it sets. A C# `null` array is the empty
 * sequence here: the serializer never stores an empty array where it could
 * store null, so the two are never told apart.
 */
module GltfSchema {
  import opened Wrappers
  import opened Bytes
  import opened Geometry

  /** Guid of an element of the input model. */
  type ElementId = nat

  /**
   * A buffer view. Every view the serializer creates lies in buffer 0, with
   * neither a target nor a byte stride.
   */
  datatype BufferView = BufferView(buffer: nat, byteOffset: nat, byteLength: nat)

  datatype ComponentType = Float | UnsignedShort

  datatype AccessorType = Scalar | Vec2 | Vec3Type

  datatype Accessor = Accessor(
    bufferView: nat, byteOffset: nat, componentType: ComponentType, count: nat,
    min: seq<real>, max: seq<real>, accessorType: AccessorType)

  /**
   * A node. `mesh` is an `int` because the serializer can write a mesh id of
   * -1 (the content-element branch); `light` is the index held by the node's
   * KHR_lights_punctual extension.
   */
  datatype Node = Node(
    name: Option<string>, matrix: Option<Transform>, mesh: Option<int>,
    children: seq<nat>, light: Option<nat>)

  /** A node with only a placement, as CreateNodeForTransform builds it. */
  function TransformNode(t: Transform): (n: Node)
    ensures n.matrix == Some(t) && n.mesh.None? && n.children == [] && n.light.None?
  {
    Node(None, Some(t), None, [], None)
  }

  /** A node with only a mesh, as CreateNodeForMesh and AddLineLoop build it. */
  function MeshNode(meshId: int): (n: Node)
    ensures n.mesh == Some(meshId) && n.matrix.None? && n.children == [] && n.light.None?
  {
    Node(None, None, Some(meshId), [], None)
  }

  datatype Mode = Points | Lines | Triangles

  /** A primitive: its index accessor, material, mode and attribute accessors by semantic. */
  datatype Primitive = Primitive(indices: nat, material: int, mode: Mode, attributes: map<string, nat>)

  /**
   * Mesh names: `"<element id>_mesh"` for element meshes, `"<id>_curve"` for
   * line and point meshes, and whatever a merged glb carries.
   */
  datatype MeshName = ElementMesh(element: ElementId) | Curve(id: int) | Named(text: string)

  datatype Mesh = Mesh(name: MeshName, primitives: seq<Primitive>)

  datatype AlphaMode = Opaque | Blend

  /** A TextureInfo: the texture index and texture coordinate set 0. */
  datatype TextureInfo = TextureInfo(index: nat, texCoord: nat)

  /**
   * The one material extension the serializer writes: KHR_materials_unlit, or
   * KHR_materials_pbrSpecularGlossiness with its factors and optional diffuse
   * texture.
   */
  datatype MaterialExtension =
    | Unlit
    | SpecularGlossiness(diffuse: Color, specular: real, glossiness: real, diffuseTexture: Option<TextureInfo>)

  datatype Material = Material(
    name: string, baseColor: Color, metallic: real, doubleSided: bool,
    baseColorTexture: Option<TextureInfo>, extension: MaterialExtension, alphaMode: AlphaMode)

  /** A texture: its image and sampler. */
  datatype Texture = Texture(source: nat, sampler: nat)

  /** An image stored in a buffer view, always with MIME type image/png. */
  datatype Image = Image(bufferView: nat)

  /** The one sampler the serializer writes: LINEAR filters, REPEAT wrapping. */
  datatype Sampler = LinearRepeat

  /** One entry of the top-level KHR_lights_punctual "lights" array: always directional. */
  datatype Light = Light(color: Vec3, kind: string, intensity: real, name: string)

  /** The "type" of every light the serializer writes. */
  const Directional := "directional"

  const PbrSpecularGlossiness := "KHR_materials_pbrSpecularGlossiness"
  const MaterialsUnlit := "KHR_materials_unlit"
  const LightsPunctual := "KHR_lights_punctual"

  /**
   * A finished document. `buffers` are the binary buffers (buffer 0 is the
   * serializer's own, later ones come from merged glb files); `lights` empty
   * means no top-level KHR_lights_punctual block. The scene is always scene 0
   * with the single root node 0.
   */
  datatype Document = Document(
    extensionsUsed: seq<string>, buffers: seq<seq<byte>>, bufferLength: Option<nat>,
    bufferViews: seq<BufferView>, accessors: seq<Accessor>, nodes: seq<Node>, meshes: seq<Mesh>,
    materials: seq<Material>, textures: seq<Texture>, images: seq<Image>, samplers: seq<Sampler>,
    lights: seq<Light>, sceneNodes: seq<nat>)

  /** The document ToGlTF writes when nothing produced geometry: one node named "empty". */
  const EmptyDocument := Document([], [], None, [], [], [Node(Some("empty"), None, None, [], None)],
                                  [], [], [], [], [], [], [0])

  /** Every node index the scene and the nodes' children name is a node of the document. */
  ghost predicate NodesResolve(d: Document)
  {
    && (forall k :: 0 <= k < |d.sceneNodes| ==> d.sceneNodes[k] < |d.nodes|)
    && (forall i, k :: 0 <= i < |d.nodes| && 0 <= k < |d.nodes[i].children| ==> d.nodes[i].children[k] < |d.nodes|)
  }

  /** The empty document is a one-node scene that refers to nothing else. */
  lemma EmptyDocumentShape()
    ensures NodesResolve(EmptyDocument)
    ensures |EmptyDocument.nodes| == 1 && EmptyDocument.nodes[0].name == Some("empty")
    ensures EmptyDocument.meshes == [] && EmptyDocument.buffers == [] && EmptyDocument.sceneNodes == [0]
  {
  }
}
