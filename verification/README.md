# A verified model of the Elements glTF serializer and indexed mesh

This project models, in Dafny, two parts of the Elements library:

- the glTF 2.0 document builder `GltfExtensions`;
- the indexed triangle `Mesh` that feeds it byte buffers.

It also proves properties of both.

**The builder.** It is a single-pass, append-only accumulator. `GltfBuilder.Builder` is a class whose fields are:

- the shared byte buffer;
- the lists of buffer views, accessors, nodes, meshes, materials, textures, images, samplers and lights;
- the element-to-mesh, element-to-node and element-to-transform dictionaries;
- the merged glb buffers;
- the current line group;
- the id counter.

Its methods append records and return their indices, just as the source helpers do:

- `AddBufferView`, `AddAccessor`, `AddNode`;
- the padding loop;
- the primitive encoders `AddTriangleMesh`, `AddLineLoop`, `AddLines`, `AddPoints`;
- `AddMaterials`, `AddLights`.

On top of the builder, module `GltfScene` holds the imperative `InitializeGlTF`, `GetRenderDataForElement`, `ProcessGeometricRepresentation`, the empty branch of `ProcessSolidsAsCSG`, and the choice that `ToGlTF` makes. Each method is proved against a pure specification in modules `RenderSpec` and `DocumentSpec`:

- `RenderElement` for one element;
- `RenderAll` for the element loop with its line groups;
- `EdgeGroups` for the edge meshes;
- `InitSpec` for the whole document;
- `ToGltfSpec` for the choice between a document and the one-node "empty" document.

The byte layouts of the encoders are spelled out as functions in `GltfLayout`, `LineEncoding` and `MeshLayout`. Lemmas prove the properties the serializer relies on:

- view offsets;
- accessor counts;
- 4-byte alignment, as section 3.6.2.4 of the glTF 2.0 specification requires;
- index patterns;
- tight bounds;
- material deduplication;
- line grouping;
- a well-formed document: every node, mesh, view and accessor index resolves.

**The mesh.** `Meshes.Vertex`, `Meshes.Triangle` and `Meshes.Mesh` are classes.

- Vertices get their `Index` from insertion order.
- Triangles register themselves in their vertices' triangle lists.
- `GetBuffers` is proved equal to the pure `MeshLayout.Buffers` of the mesh's vertex and triangle data. Its loops, `MeshLayout.BuildBuffers` and `MeshLayout.VertexLoop`, write into byte arrays with running offsets.
- `FromSTL` is proved to follow the line state machine `Stl.StlRun`.

**Outside the model.** The outside world enters as values:

- `Files`: whether a texture file exists, and its PNG bytes;
- `Env.merge`: what the glb merger contributes;
- `CsgOutput`: what CSG tessellation yields;
- `MeshData`: the mesh an `ITessellate` element produces;
- a `parse` function for the numbers of an STL `vertex` line.

Floats become an opaque four-byte encoder `Bytes.F32`, and transforms stay symbolic. An exception becomes the `Failure` of a `Result`.

## Model

| member | source | states |
|---|---|---|
| Bytes.ToUshort | Elements/src/Serialization/glTF/GltfExtensions.cs:1326-1327 | an unchecked `(ushort)` cast yields a value in 0..65535, and is the identity on that range |
| Bytes.U16RoundTrip | Elements/src/Serialization/glTF/GltfExtensions.cs:1326-1327 | the two little-endian bytes written for an index decode back to the index cast to ushort |
| Bytes.PadLength | Elements/src/Serialization/glTF/GltfExtensions.cs:438-442 | the padding loop adds fewer than 4 bytes, reaches a multiple of 4, and adds none to an aligned buffer |
| Bytes.PadLengthIsLeast | Elements/src/Serialization/glTF/GltfExtensions.cs:438-442 | no shorter padding reaches a multiple of 4 |
| Bytes.BlockCopy | Elements/src/Serialization/glTF/GltfExtensions.cs:1318-1320 | Buffer.BlockCopy overwrites exactly the target range and leaves the bytes before and after it unchanged |
| Geometry.MinOfIsMinimum | src/Elements/Geometry/Mesh.cs:367-369 | the running Math.Min is a lower bound of the sequence and is attained by some element |
| Geometry.MaxOfIsMaximum | src/Elements/Geometry/Mesh.cs:364-366 | the running Math.Max is an upper bound of the sequence and is attained by some element |
| Geometry.CornersAreTight | src/Elements/Geometry/Mesh.cs:364-369 | the component-wise min and max corners enclose every point, and each coordinate of each corner is attained by some point |
| Geometry.BoxMin | Elements/src/Serialization/glTF/GltfExtensions.cs:1332-1334 | the bounding-box minimum passed to AddLineLoop has three coordinates |
| Geometry.CubeCorners | src/Elements/Geometry/Mesh.cs:471-478 | tight bounds of points inside [-h, h]^3 that include both opposite corners are exactly (-h,-h,-h) and (h,h,h) |
| GltfSchema.EmptyDocumentShape | Elements/src/Serialization/glTF/GltfExtensions.cs:34-39 | the empty fallback document has one node named "empty", a scene listing node 0, no meshes and no buffers, and all its indices resolve |
| GltfLayout.WithNode | Elements/src/Serialization/glTF/GltfExtensions.cs:352-374 | AddNode appends one node, appends its id to the parent's children when a parent is given, and leaves every other node unchanged |
| GltfLayout.WithNodeChildren | Elements/src/Serialization/glTF/GltfExtensions.cs:357-371 | the parent keeps its earlier children in order, gains the new id at the end, and changes in nothing else |
| GltfLayout.RootChildren | Elements/src/Serialization/glTF/GltfExtensions.cs:393-399 | adding nodes under the root appends them in order with consecutive ids, appends exactly those ids to the root's children, and changes no other node |
| GltfLayout.RootChildrenKeep | Elements/src/Serialization/glTF/GltfExtensions.cs:393-399 | nodes other than the root are not changed by adding root children |
| GltfLayout.RootChildrenAppended | Elements/src/Serialization/glTF/GltfExtensions.cs:393-399 | the added nodes follow the old ones in order |
| GltfLayout.RootChildrenRoot | Elements/src/Serialization/glTF/GltfExtensions.cs:393-399 | the root's children gain exactly the consecutive ids of the added nodes |
| GltfLayout.Padded | Elements/src/Serialization/glTF/GltfExtensions.cs:438-442 | padding keeps the buffer as a prefix, appends fewer than 4 zero bytes, and ends on a multiple of 4 |
| GltfLayout.PaddedIsShortest | Elements/src/Serialization/glTF/GltfExtensions.cs:438-442 | padding is the shortest zero extension that reaches alignment, and an aligned buffer is left alone |
| GltfLayout.TriangleMeshBytes | Elements/src/Serialization/glTF/GltfExtensions.cs:429-474 | the bytes AddTriangleMesh appends end at the padded end of the position, normal and index payloads plus the texture-coordinate and color lengths |
| GltfLayout.TriangleMeshViews | Elements/src/Serialization/glTF/GltfExtensions.cs:429-471 | AddTriangleMesh adds three views, plus one for texture coordinates when there are any, plus one for colors when there are any |
| GltfLayout.TriangleMeshAccessors | Elements/src/Serialization/glTF/GltfExtensions.cs:444-472 | AddTriangleMesh adds one accessor per view it adds |
| GltfLayout.TriangleMeshOffsets | Elements/src/Serialization/glTF/GltfExtensions.cs:429-446 | the views start at L, L+\|v\| and L+\|v\|+\|n\| for an old buffer length L; the accessor counts are \|v\|/12, \|n\|/12 and \|i\|/2; each accessor names its own view |
| GltfLayout.TriangleMeshInside | Elements/src/Serialization/glTF/GltfExtensions.cs:429-474 | every view AddTriangleMesh adds lies in buffer 0 within the bytes it appends, and every accessor names one of the views it adds |
| GltfLayout.TriangleMeshAligned | Elements/src/Serialization/glTF/GltfExtensions.cs:429-474 | on an aligned buffer whose four payload lengths are multiples of 4, every view AddTriangleMesh adds starts 4-aligned |
| GltfLayout.TriangleMeshBytesLayout | Elements/src/Serialization/glTF/GltfExtensions.cs:429-471 | the appended bytes are the positions, normals and indices, zero padding, then texture coordinates and colors, each at the offset its view gives |
| GltfLayout.TriangleMeshAttributes | Elements/src/Serialization/glTF/GltfExtensions.cs:448-476 | one TRIANGLES primitive with the material, POSITION and NORMAL always present, TEXCOORD_0 iff there are texture coordinates, COLOR_0 iff there are colors |
| GltfLayout.LineLoopBytes | Elements/src/Serialization/glTF/GltfExtensions.cs:515-522 | AddLineLoop leaves the buffer 4-aligned |
| GltfLayout.LineLoopInside | Elements/src/Serialization/glTF/GltfExtensions.cs:512-525 | both line views lie in buffer 0 within the appended bytes, and the two accessors name the two views, in order |
| GltfLayout.LineLoopLayout | Elements/src/Serialization/glTF/GltfExtensions.cs:512-533 | the index view starts right after the vertex bytes, both payloads sit where their views say, and the primitive has POSITION as its only attribute, with the given mode |
| LineEncoding.PointBytes | Elements/src/Serialization/glTF/GltfExtensions.cs:1310 | the vertex array holds 12 bytes per point |
| LineEncoding.LineIndexBytes | Elements/src/Serialization/glTF/GltfExtensions.cs:1311 | the index array of AddLines is 4n bytes long, whatever the mode |
| LineEncoding.PointIndexBytes | Elements/src/Serialization/glTF/GltfExtensions.cs:1351 | the index array of AddPoints is 2n bytes long |
| LineEncoding.WrittenCount | Elements/src/Serialization/glTF/GltfExtensions.cs:1323 | the first i iterations write min(i, n-1) pairs in loop mode, and half that many, rounded up, in segment mode |
| LineEncoding.PairAt | Elements/src/Serialization/glTF/GltfExtensions.cs:1323-1329 | a written pair (i, i+1) sits in the index array at the slot counted by the pairs written before it |
| LineEncoding.LoopIndices | Elements/src/Serialization/glTF/GltfExtensions.cs:1323-1329 | in loop mode, pair k is (k, k+1) for every k < n-1, and the last four bytes stay zero |
| LineEncoding.LoopIsNotClosed | Elements/src/Serialization/glTF/GltfExtensions.cs:1323 | for 2 to 65536 vertices, a line loop has no closing pair (n-1, 0) |
| LineEncoding.SegmentIndices | Elements/src/Serialization/glTF/GltfExtensions.cs:1323-1329 | in segment mode, the pair (i, i+1) for each even i < n-1 is packed at byte 2i; n/2 pairs in all, and the rest of the 4n bytes stay zero |
| LineEncoding.PointIndexAt | Elements/src/Serialization/glTF/GltfExtensions.cs:1363-1364 | AddPoints writes index i at slot i |
| LineEncoding.PointBytesAt | Elements/src/Serialization/glTF/GltfExtensions.cs:1318-1321 | point i's three floats sit at byte 12i |
| LineEncoding.WritePoint | Elements/src/Serialization/glTF/GltfExtensions.cs:1317-1321 | one iteration extends the written vertex prefix by exactly the next point's bytes |
| LineEncoding.WritePair | Elements/src/Serialization/glTF/GltfExtensions.cs:1324-1329 | one writing iteration extends the written index prefix by the next pair and leaves the tail zero |
| LineEncoding.EncodeLines | Elements/src/Serialization/glTF/GltfExtensions.cs:1308-1330 | the arrays that AddLines' loop fills are exactly PointBytes and LineIndexBytes of the vertices |
| LineEncoding.LineArrayDone | Elements/src/Serialization/glTF/GltfExtensions.cs:1311-1330 | after the loop, the index array is the written pairs followed by the untouched zeros |
| LineEncoding.EncodePoints | Elements/src/Serialization/glTF/GltfExtensions.cs:1348-1365 | the arrays that AddPoints' loop fills are exactly PointBytes and PointIndexBytes of the locations |
| MeshLayout.ColoredRGB | src/Elements/Geometry/Mesh.cs:386-399 | at most one color per vertex, and the first is vertex 0's when vertex 0 is colored |
| MeshLayout.BuffersFailure | src/Elements/Geometry/Mesh.cs:318-393 | GetBuffers throws exactly when there are no vertices, or when vertex 0 is uncolored but some vertex is colored |
| MeshLayout.ColoredCountBound | src/Elements/Geometry/Mesh.cs:386-399 | the packed color bytes fit the 12-bytes-per-vertex color buffer, and no colors are collected when no vertex is colored |
| MeshLayout.BufferSizes | src/Elements/Geometry/Mesh.cs:313-316 | vertex and normal buffers take 12 bytes per vertex, the UV buffer 8, and the index buffer 6 per triangle |
| MeshLayout.ColorBufferShape | src/Elements/Geometry/Mesh.cs:318-329 | the color buffer is 12 bytes per vertex iff vertex 0 is colored, with the tight bounds of the colors; otherwise the buffer and bounds are empty |
| MeshLayout.PositionBytesAt | src/Elements/Geometry/Mesh.cs:350-352 | vertex i's position occupies bytes 12i to 12i+12 of the vertex buffer |
| MeshLayout.NormalBytesAt | src/Elements/Geometry/Mesh.cs:354-356 | vertex i's normal occupies bytes 12i to 12i+12 of the normal buffer |
| MeshLayout.TexCoordBytesAt | src/Elements/Geometry/Mesh.cs:358-359 | vertex i's texture coordinate occupies bytes 8i to 8i+8 of the uv buffer |
| MeshLayout.IndexBytesAt | src/Elements/Geometry/Mesh.cs:402-410 | triangle t writes its three vertex indices, in order, as ushorts at 6t, 6t+2 and 6t+4 |
| MeshLayout.IndexBoundsEnclose | src/Elements/Geometry/Mesh.cs:383-384 | every vertex index, cast to ushort, lies between index_min and index_max |
| MeshLayout.IndexBoundsAttained | src/Elements/Geometry/Mesh.cs:383-384 | index_min and index_max are each the ushort index of some vertex |
| MeshLayout.IndexBoundsOfNumbered | src/Elements/Geometry/Mesh.cs:383-384 | when vertex i has Index i and there are at most 65536 vertices, the index bounds are 0 and \|V\|-1 |
| MeshLayout.IndexWrapsPastUshort | src/Elements/Geometry/Mesh.cs:406-408 | vertex 65536 is written as index 0: the cast wraps |
| MeshLayout.VertexBoundsAreTight | src/Elements/Geometry/Mesh.cs:331-376 | v_min/v_max and n_min/n_max enclose every position and normal, and every bound is attained |
| MeshLayout.TexCoordBoundsAreTight | src/Elements/Geometry/Mesh.cs:335-381 | uv_min/uv_max enclose every texture coordinate, and each bound is attained |
| MeshLayout.ColorsShiftPastUncolored | src/Elements/Geometry/Mesh.cs:386-399 | colors are packed: when vertex 1 is uncolored, vertex 2's color is written at bytes 12..24, where vertex 1's slot would be |
| MeshLayout.VertexLoopStep | src/Elements/Geometry/Mesh.cs:364-381 | one more Math.Min/Math.Max step keeps the running bounds equal to the bounds of the vertices seen so far |
| MeshLayout.WriteIndices | src/Elements/Geometry/Mesh.cs:402-410 | the triangle loop fills the index buffer with exactly IndexBytes of the triangles |
| MeshLayout.NewBytes | src/Elements/Geometry/Mesh.cs:313-316 | a new byte array of length n is all zeros |
| MeshLayout.WriteVertex | src/Elements/Geometry/Mesh.cs:348-362 | one iteration extends the position, normal and UV prefixes by vertex i's bytes |
| MeshLayout.StepBounds | src/Elements/Geometry/Mesh.cs:364-381 | one iteration's Math.Min/Math.Max updates keep the running bounds those of vertices 0..i |
| MeshLayout.StepIndex | src/Elements/Geometry/Mesh.cs:383-384 | one iteration keeps index_min/index_max those of vertices 0..i |
| MeshLayout.StepColor | src/Elements/Geometry/Mesh.cs:386-399 | one iteration keeps the packed color prefix, its offset and the color bounds those of vertices 0..i |
| MeshLayout.StepColored | src/Elements/Geometry/Mesh.cs:386-399 | a colored vertex appends its 12 color bytes at ci and widens c_min/c_max by its color, keeping the prefix, offset and bounds those of vertices 0..i |
| MeshLayout.ColoredGrows | src/Elements/Geometry/Mesh.cs:386-399 | a colored vertex extends the packed color bytes by its own and the color bounds by the component-wise min/max with its color (its own color for the first vertex) |
| MeshLayout.UncoloredKeeps | src/Elements/Geometry/Mesh.cs:386 | a vertex with the default color leaves the color bytes, offset and bounds unchanged |
| MeshLayout.WriteColor | src/Elements/Geometry/Mesh.cs:395-398 | the three floats land at ci..ci+12, bytes before ci are kept and those after stay zero |
| MeshLayout.VertexStep | src/Elements/Geometry/Mesh.cs:346-400 | one iteration of the vertex loop advances every running quantity to vertex i+1 |
| MeshLayout.PassCompleteBytes | src/Elements/Geometry/Mesh.cs:346-362 | after the loop, the position, normal and UV buffers hold every vertex |
| MeshLayout.PassCompleteBounds | src/Elements/Geometry/Mesh.cs:331-384 | after the loop, the running bounds are those of the whole vertex list |
| MeshLayout.PassCompleteColors | src/Elements/Geometry/Mesh.cs:386-399 | after the loop, the color buffer and bounds are those of the whole list |
| MeshLayout.VertexLoop | src/Elements/Geometry/Mesh.cs:341-400 | the vertex loop fills the preallocated arrays and bounds as Buffers specifies, or reports the throw that happens exactly when a later vertex is colored and vertex 0 is not |
| MeshLayout.VertexPass | src/Elements/Geometry/Mesh.cs:313-400 | allocation plus the vertex loop: ok iff the color check passes, and then every buffer and bound equals its specification |
| MeshLayout.BuildBuffers | src/Elements/Geometry/Mesh.cs:304-411 | GetBuffers over vertex and triangle values returns exactly Buffers, the specification the lemmas above describe |
| Materials.Translate | Elements/src/Serialization/glTF/GltfExtensions.cs:116-211 | the glTF material keeps the input's name, color and double-sidedness, has metallic factor 1, alpha from AlphaOf, the unlit extension iff Unlit, and the given texture as base color texture and, under the specular-glossiness extension, as diffuse texture |
| Materials.StepEffect | Elements/src/Serialization/glTF/GltfExtensions.cs:109-215 | a seen name changes nothing; a new one is appended and keyed at its position; a seen texture path reuses its texture; a new path adds one texture, image and sampler and its padded PNG; a missing file gives no texture |
| Materials.StepKeepsWf | Elements/src/Serialization/glTF/GltfExtensions.cs:109-215 | one iteration keeps the dictionary the inverse of the names, keeps textures, images and samplers in lockstep, and keeps every texture reference valid |
| Materials.FoldNames | Elements/src/Serialization/glTF/GltfExtensions.cs:109-214 | after the loop, a name is in the dictionary iff some input material has it |
| Materials.FoldWf | Elements/src/Serialization/glTF/GltfExtensions.cs:109-215 | the whole loop keeps the invariant of StepKeepsWf |
| Materials.FirstOccurrences | Elements/src/Serialization/glTF/GltfExtensions.cs:111-114 | the positions of the first material of each name are valid input positions |
| Materials.FoldFirstOccurrence | Elements/src/Serialization/glTF/GltfExtensions.cs:109-215 | first occurrence wins: the k-th output material is built from the k-th first-occurring input, and there are exactly as many outputs as distinct names |
| Materials.DictionaryOfNames | Elements/src/Serialization/glTF/GltfExtensions.cs:213-234 | the returned map sends every input name to the position of a material with that name, and holds no other names |
| Materials.FoldViewsInside | Elements/src/Serialization/glTF/GltfExtensions.cs:174-182 | the loop only appends to the buffer and views, and every view lies within the buffer |
| Materials.FoldWithoutTextures | Elements/src/Serialization/glTF/GltfExtensions.cs:142-202 | with no existing texture file, the loop adds no bytes, views, textures, images or samplers |
| Materials.AsWrittenAgrees | Elements/src/Serialization/glTF/GltfExtensions.cs:125-149 | when no unlit material has an existing texture, the loop as written and the corrected loop agree |
| Materials.UnlitTextureAsWritten | Elements/src/Serialization/glTF/GltfExtensions.cs:125-149 | one unlit material with an existing texture makes the loop as written throw KeyNotFound, while the corrected loop gives it a base color texture |
| Materials.UnlitTextureCorrected | Elements/src/Serialization/glTF/GltfExtensions.cs:125-149 | in the corrected loop, an unlit material with an existing texture keeps the unlit extension and gets its base color texture |
| SceneInput.TessellationArgs | Elements/src/Serialization/glTF/GltfExtensions.cs:956-995 | the swapped uv out-parameters and the swapped arguments cancel: AddTriangleMesh receives GetBuffers' true uv and vertex bounds |
| SceneInput.CsgArgs | Elements/src/Serialization/glTF/GltfExtensions.cs:1242-1244 | ProcessSolidsAsCSG passes the tessellation's vertex buffer and its uv bounds in their own order |
| SceneInput.TessellationBoundsHold | Elements/src/Serialization/glTF/GltfExtensions.cs:956-995 | an ITessellate mesh always meets AddTriangleMesh's bound arrays; the position bounds enclose and are attained, and the uv bounds enclose every texture coordinate |
| RenderSpec.RenderMerged | Elements/src/Serialization/glTF/GltfExtensions.cs:1016-1051 | a content element with an existing glb appends the glb's meshes and buffer and always ends with an entry in meshElementMap |
| RenderSpec.WithNodeKeepsTree | Elements/src/Serialization/glTF/GltfExtensions.cs:352-374 | adding a childless node under an existing parent keeps the nodes a forest under the root, and keeps every mesh reference valid |
| RenderSpec.RootChildrenKeepTree | Elements/src/Serialization/glTF/GltfExtensions.cs:393-399 | adding childless nodes under the root keeps the forest shape and the mesh references |
| RenderSpec.TriangleMeshKeepsWf | Elements/src/Serialization/glTF/GltfExtensions.cs:402-482 | AddTriangleMesh only appends, keeps the document well formed, adds one mesh and no node |
| RenderSpec.LineLoopKeepsWf | Elements/src/Serialization/glTF/GltfExtensions.cs:493-546 | AddLineLoop only appends and keeps the document well formed |
| RenderSpec.ElementMeshKeepsWf | Elements/src/Serialization/glTF/GltfExtensions.cs:997-1007 | recording an element's mesh, and its mesh node when not a definition, keeps the document well formed |
| RenderSpec.ProcessGeometricKeepsWf | Elements/src/Serialization/glTF/GltfExtensions.cs:1114-1173 | a successful ProcessGeometricRepresentation only appends and keeps the document well formed |
| RenderSpec.LinesKeepWf | Elements/src/Serialization/glTF/GltfExtensions.cs:1296-1335 | AddLines only appends and keeps the document well formed |
| RenderSpec.PointsKeepWf | Elements/src/Serialization/glTF/GltfExtensions.cs:1337-1370 | AddPoints only appends and keeps the document well formed |
| RenderSpec.TessellatedKeepsWf | Elements/src/Serialization/glTF/GltfExtensions.cs:934-1009 | a successful ITessellate branch only appends and keeps the document well formed |
| RenderSpec.MergedKeepsWf | Elements/src/Serialization/glTF/GltfExtensions.cs:1016-1051 | merging a glb only appends and keeps the document well formed, the -1 mesh node included |
| RenderSpec.RenderPlacedKeepsWf | Elements/src/Serialization/glTF/GltfExtensions.cs:917-1093 | every non-instance branch, when it succeeds, only appends and keeps the document well formed |
| RenderSpec.TransformNodeKeepsWf | Elements/src/Serialization/glTF/GltfExtensions.cs:914-915 | the element's transform node under the root, recorded in nodeElementMap, keeps the document well formed and the root's matrix |
| RenderSpec.RenderElementKeepsWf | Elements/src/Serialization/glTF/GltfExtensions.cs:852-1094 | every element, when it succeeds, keeps the document well formed, never removes nodes and keeps the root's matrix |
| RenderSpec.NextGroup | Elements/src/Serialization/glTF/GltfExtensions.cs:775-779 | there is always a current line group |
| RenderSpec.NextGroupKeepsPoints | Elements/src/Serialization/glTF/GltfExtensions.cs:775-779 | starting a new group loses and reorders no point, keeps the earlier groups, and happens only when the current group holds more than 32767 points |
| RenderSpec.LoopStepKeepsWf | Elements/src/Serialization/glTF/GltfExtensions.cs:770-800 | one pass of the element loop keeps the document well formed, keeps a current group, and keeps the root's matrix |
| RenderSpec.RenderAll | Elements/src/Serialization/glTF/GltfExtensions.cs:770-800 | the element loop, when no element throws, ends with a well-formed document, a current group and the root's matrix unchanged |
| RenderSpec.RenderElementLines | Elements/src/Serialization/glTF/GltfExtensions.cs:892-909 | an element adds exactly its edge points to the current line group: an instance's transformed edge ends when edges are drawn, nothing otherwise |
| RenderSpec.LoopStepLines | Elements/src/Serialization/glTF/GltfExtensions.cs:770-800 | one pass appends the element's edge points to the flattened groups and closes only full groups |
| RenderSpec.RenderAllLines | Elements/src/Serialization/glTF/GltfExtensions.cs:754-800 | the line groups hold exactly the edge points of all elements, in order, and every closed group was over the 16-bit capacity when it was closed |
| DocumentSpec.MaterialsToAdd | Elements/src/Serialization/glTF/GltfExtensions.cs:736-741 | the model's materials unchanged and in order as a prefix, then one more entry, the Edges material, exactly when edges are drawn |
| DocumentSpec.ExtensionsUsed | Elements/src/Serialization/glTF/GltfExtensions.cs:726-732 | both material extensions are always listed, and KHR_lights_punctual iff there are lights |
| DocumentSpec.StartStateWf | Elements/src/Serialization/glTF/GltfExtensions.cs:692-752 | the document before the element loop is well formed and its root carries the rotated model transform |
| DocumentSpec.EdgeGroups | Elements/src/Serialization/glTF/GltfExtensions.cs:808-819 | drawing the edge groups keeps the document well formed and the root's matrix |
| DocumentSpec.EdgeGroupKeepsWf | Elements/src/Serialization/glTF/GltfExtensions.cs:810-818 | one edge group keeps the document well formed and the root's matrix |
| DocumentSpec.EdgeGroupsCounts | Elements/src/Serialization/glTF/GltfExtensions.cs:808-819 | empty groups emit nothing, and each non-empty group adds exactly one mesh and two nodes; earlier meshes are kept |
| DocumentSpec.TotalLengthZero | Elements/src/Serialization/glTF/GltfExtensions.cs:801 | the summed length of the buffers is 0 iff every buffer is empty |
| DocumentSpec.Finish | Elements/src/Serialization/glTF/GltfExtensions.cs:821-849 | the document takes the builder's nodes, meshes, views and accessors; buffer 0 is the builder's buffer, followed by the merged ones; a byte length is set iff the buffer is non-empty; the scene is [0]; the lights are as built |
| DocumentSpec.InitDocumentWf | Elements/src/Serialization/glTF/GltfExtensions.cs:690-850 | a produced document is well formed: child and scene indices name nodes, mesh references are in range or the -1 sentinel, views lie in buffer 0, accessors name views, and the root carries the model transform |
| DocumentSpec.FinishWf | Elements/src/Serialization/glTF/GltfExtensions.cs:821-849 | a well-formed final state yields a document whose indices all resolve |
| DocumentSpec.InitNullExactly | Elements/src/Serialization/glTF/GltfExtensions.cs:801-804 | a returned document always holds a byte or a light, and null is returned only for a model without lights |
| DocumentSpec.EdgeGroupsGrow | Elements/src/Serialization/glTF/GltfExtensions.cs:808-819 | edge meshes only grow the buffer and never touch the merged buffers |
| DocumentSpec.NothingToDraw | Elements/src/Serialization/glTF/GltfExtensions.cs:801-804 | a model with no elements, no lights and no texture file serializes to null without touching the counter |
| DocumentSpec.EdgesMaterialFound | Elements/src/Serialization/glTF/GltfExtensions.cs:736-741 | when edges are drawn the Edges material is in the dictionary, so the lookup at line 817 cannot fail |
| DocumentSpec.EmptyFallbackExactly | Elements/src/Serialization/glTF/GltfExtensions.cs:49-73 | ToGlTF writes the one-node "empty" document iff the model has no elements or InitializeGlTF returns null |
| GltfBuilder.Builder.constructor | Elements/src/Serialization/glTF/GltfExtensions.cs:692-723 | a new document holds only the root node, with every list and dictionary empty and the counter at its current value |
| GltfBuilder.Builder.GetNextId | Elements/src/Serialization/glTF/GltfExtensions.cs:28-32 | the counter advances by one and its new value is returned |
| GltfBuilder.Builder.AddBufferView | Elements/src/Serialization/glTF/GltfExtensions.cs:338-350 | exactly one view is appended, and its index, the old count, is returned |
| GltfBuilder.Builder.AddAccessor | Elements/src/Serialization/glTF/GltfExtensions.cs:322-336 | exactly one accessor is appended, and its index, the old count, is returned |
| GltfBuilder.Builder.AddNode | Elements/src/Serialization/glTF/GltfExtensions.cs:352-374 | the node list becomes WithNode of the old one, and the old count is returned |
| GltfBuilder.Builder.Pad | Elements/src/Serialization/glTF/GltfExtensions.cs:438-442 | the padding loop leaves Padded of the old buffer |
| GltfBuilder.Builder.CreateNodeForTransform | Elements/src/Serialization/glTF/GltfExtensions.cs:1096-1112 | a transform-only node is appended as a child of the root, and its id is returned |
| GltfBuilder.Builder.CreateNodeForMesh | Elements/src/Serialization/glTF/GltfExtensions.cs:484-491 | a mesh-only node is appended as a child of the given parent, and its id is returned |
| GltfBuilder.Builder.AddInstanceMesh | Elements/src/Serialization/glTF/GltfExtensions.cs:376-400 | one root child per mesh id, in order, all with the instance matrix |
| GltfBuilder.Builder.AddLights | Elements/src/Serialization/glTF/GltfExtensions.cs:237-278 | one root-child light node per light, referring to its position, and the lights block built from all the lights, each of type "directional" |
| GltfBuilder.Builder.AddBytesView | Elements/src/Serialization/glTF/GltfExtensions.cs:429-430 | the bytes are appended with a view at the old buffer length covering them |
| GltfBuilder.Builder.AddTriangleMesh | Elements/src/Serialization/glTF/GltfExtensions.cs:402-482 | the buffer, views, accessors and meshes grow by exactly TriangleMeshBytes, Views, Accessors and one record, and the new mesh's index is returned |
| GltfBuilder.Builder.AddTriangleExtras | Elements/src/Serialization/glTF/GltfExtensions.cs:457-474 | the optional texture-coordinate and color payloads, views, accessors and attributes are appended after the padding, unpadded |
| GltfBuilder.Builder.AddTriangleViews | Elements/src/Serialization/glTF/GltfExtensions.cs:429-442 | positions, normals and indices are appended with one view each, in that order, then padded |
| GltfBuilder.Builder.AddLineLoop | Elements/src/Serialization/glTF/GltfExtensions.cs:493-546 | the buffer, views, accessors and meshes grow by exactly the line-loop layout, one node referring to the new mesh is added under the parent, and the mesh index is returned |
| GltfBuilder.Builder.AddLines | Elements/src/Serialization/glTF/GltfExtensions.cs:1296-1335 | AddLineLoop of PointBytes and LineIndexBytes of the vertices, with their bounding box, index bounds 0 and ushort(n-1), and mode LINES |
| GltfBuilder.Builder.AddPoints | Elements/src/Serialization/glTF/GltfExtensions.cs:1337-1370 | AddLineLoop of PointBytes and PointIndexBytes of the locations, with mode POINTS |
| GltfBuilder.Builder.AddImageBytes | Elements/src/Serialization/glTF/GltfExtensions.cs:174-182 | the PNG bytes are appended at the old length with a view covering them, then padded |
| GltfBuilder.Builder.AddMaterials | Elements/src/Serialization/glTF/GltfExtensions.cs:93-235 | the dictionary, buffer and views are those of the corrected MaterialsFold; the materials are replaced when there are input materials, and textures, images and samplers only when the loop produced some |
| GltfScene.DrawLines | Elements/src/Serialization/glTF/GltfExtensions.cs:920 | the builder's state, id counter included, becomes WithLines of the old one |
| GltfScene.DrawPoints | Elements/src/Serialization/glTF/GltfExtensions.cs:929 | the builder's state, id counter included, becomes WithPoints of the old one |
| GltfScene.RecordElementMesh | Elements/src/Serialization/glTF/GltfExtensions.cs:997-1007 | the mesh id is appended to the element's entry, created if missing, and a mesh node is added only for a non-definition |
| GltfScene.ProcessSolidsAsCSG | Elements/src/Serialization/glTF/GltfExtensions.cs:1237-1244 | an empty vertex buffer gives -1 and changes nothing; a missing material throws; otherwise one triangle mesh is added and its index returned |
| GltfScene.ProcessGeometricRepresentation | Elements/src/Serialization/glTF/GltfExtensions.cs:1114-1173 | the builder ends in the state, or with the exception, that ProcessGeometric specifies: nothing for an Opening, no representation or -1 |
| GltfScene.RenderTessellatedElement | Elements/src/Serialization/glTF/GltfExtensions.cs:934-1009 | the builder follows RenderTessellated: nothing for a null mesh, otherwise GetBuffers' mesh under the default material |
| GltfScene.RenderMergedContent | Elements/src/Serialization/glTF/GltfExtensions.cs:1016-1051 | the builder becomes RenderMerged of its old state |
| GltfScene.RenderPlacedElement | Elements/src/Serialization/glTF/GltfExtensions.cs:917-1093 | after the transform node, the builder follows RenderPlaced for curves, points, tessellated, content and other geometric elements |
| GltfScene.GetRenderDataForElement | Elements/src/Serialization/glTF/GltfExtensions.cs:852-1094 | the builder ends in the state, or with the exception, that RenderElement specifies |
| GltfScene.SumLengths | Elements/src/Serialization/glTF/GltfExtensions.cs:801 | the loop computes the total length of all buffers |
| GltfScene.StartMaterials | Elements/src/Serialization/glTF/GltfExtensions.cs:736-741 | the material state and dictionary are those MaterialsOf specifies, with the corrected fold, for the model's materials and the Edges material |
| GltfScene.StartDocument | Elements/src/Serialization/glTF/GltfExtensions.cs:692-752 | the builder holds StartState: the root, the materials and, when there are lights, the light nodes and lights block |
| GltfScene.WalkStep | Elements/src/Serialization/glTF/GltfExtensions.cs:772-799 | one pass of the loop, the group split included, does what LoopStep specifies, exception included |
| GltfScene.WalkOne | Elements/src/Serialization/glTF/GltfExtensions.cs:772-799 | after one element the walk either fails with the error RenderAll gives for the whole list, or stands where RenderAll over the first i+1 elements does |
| GltfScene.WalkElements | Elements/src/Serialization/glTF/GltfExtensions.cs:770-800 | the loop ends with the line groups and builder state of RenderAll, or with its first exception |
| GltfScene.DrawEdgeGroups | Elements/src/Serialization/glTF/GltfExtensions.cs:808-819 | the builder ends in the state EdgeGroups specifies |
| GltfScene.DrawEdgeGroup | Elements/src/Serialization/glTF/GltfExtensions.cs:812-817 | an empty group adds nothing; otherwise a transform node under the root and the unclosed Edges line mesh under it, as EdgeGroup specifies |
| GltfScene.InitializeGlTF | Elements/src/Serialization/glTF/GltfExtensions.cs:690-850 | the result is InitSpec, built on the corrected material fold: the document and counter, null, or a modelled exception, so every DocumentSpec lemma about InitSpec applies to it |
| GltfScene.InitSpecFinished | Elements/src/Serialization/glTF/GltfExtensions.cs:801-849 | once the walk succeeds, there is something to draw and the edges are drawn, InitSpec returns the finished document |
| GltfScene.RenderAllStops | Elements/src/Serialization/glTF/GltfExtensions.cs:770-800 | an exception in one element ends the whole walk with that exception |
| GltfScene.ToGlTF | Elements/src/Serialization/glTF/GltfExtensions.cs:49-73 | the result is ToGltfSpec, built on the corrected material fold: the document, or the empty one when there are no elements or nothing to draw |
| Meshes.TriangleRefs.constructor | src/Elements/Geometry/Mesh.cs:184 | a vertex's triangle list starts empty |
| Meshes.Vertex.constructor | src/Elements/Geometry/Mesh.cs:192-197 | the vertex keeps the position and color; its normal is the origin whatever is passed; its index is 0, its UV is the default, and its triangle list is new and empty |
| Meshes.Triangle.constructor | src/Elements/Geometry/Mesh.cs:33-50 | the triangle holds a, b, c and is appended once to each vertex's triangle list, other entries unchanged |
| Meshes.Triangle.FromArray | src/Elements/Geometry/Mesh.cs:63-77 | the array constructor keeps the three vertices and registers the triangle once with each |
| Meshes.TriangleFromArray | src/Elements/Geometry/Mesh.cs:63-77 | it throws exactly when not given three vertices, with no list changed; otherwise the triangle is registered once with each vertex |
| Meshes.Mesh.constructor | src/Elements/Geometry/Mesh.cs:221-224 | a new mesh has no vertices and no triangles |
| Meshes.Mesh.AddVertex | src/Elements/Geometry/Mesh.cs:444-451 | a fresh vertex is appended with Index = new count - 1, the given position, UV and color, and an origin normal; triangles unchanged; Vertices[i].Index == i is preserved |
| Meshes.Mesh.AddExistingVertex | src/Elements/Geometry/Mesh.cs:457-462 | the vertex is appended and renumbered to the new count - 1; a vertex not yet in the mesh preserves Vertices[i].Index == i; re-adding one breaks distinctness |
| Meshes.Mesh.AddTriangle | src/Elements/Geometry/Mesh.cs:419-424 | a fresh triangle on a, b, c is appended and registered with each vertex; the vertex list is unchanged |
| Meshes.Mesh.AddExistingTriangle | src/Elements/Geometry/Mesh.cs:430-434 | the triangle is appended as is; the vertex list is unchanged |
| Meshes.Mesh.AddMesh | src/Elements/Geometry/Mesh.cs:494-505 | the other mesh's vertices, then its triangles, are appended in order; its distinct vertices are renumbered from the old vertex count |
| Meshes.Mesh.AppendVertices | src/Elements/Geometry/Mesh.cs:496-499 | the first loop appends every given vertex in order and numbers distinct ones consecutively |
| Meshes.Mesh.AppendTriangles | src/Elements/Geometry/Mesh.cs:501-504 | the second loop appends every given triangle in order |
| Meshes.Mesh.GetBuffers | src/Elements/Geometry/Mesh.cs:304-411 | the result is exactly Buffers of the mesh's vertex and triangle data, so every MeshLayout lemma applies to it |
| Meshes.Mesh.Box | src/Elements/Geometry/Mesh.cs:468-493 | the box's vertex data are the eight corners as new uncolored vertices numbered 0..7, in order, and its triangles are the twelve faces on them |
| Meshes.Mesh.AddCorners | src/Elements/Geometry/Mesh.cs:471-478 | one fresh vertex per corner, in order, indexed 0..7 |
| Meshes.Mesh.AddFaces | src/Elements/Geometry/Mesh.cs:479-490 | one triangle per face on the vertices its indices name, appended in order |
| Meshes.Mesh.ReadLine | src/Elements/Geometry/Mesh.cs:244-266 | one line changes the mesh and cache as StlLine specifies, or fails exactly when StlLine does |
| Meshes.Mesh.ReadVertex | src/Elements/Geometry/Mesh.cs:251-260 | a "vertex" line adds and caches one new vertex, as VertexLine specifies |
| Meshes.Mesh.AddParsedVertex | src/Elements/Geometry/Mesh.cs:257-258 | one fresh vertex at the parsed point is appended, numbered with the old vertex count; the triangles are untouched |
| Meshes.ReadingAdded | src/Elements/Geometry/Mesh.cs:257-259 | appending that vertex to the mesh and the cache keeps mesh and cache in step with the reader state |
| Meshes.Mesh.ReadEndfacet | src/Elements/Geometry/Mesh.cs:262-266 | an "endfacet" line adds the triangle on the first three cached vertices, or fails exactly when fewer are cached |
| Meshes.Mesh.AddCachedTriangle | src/Elements/Geometry/Mesh.cs:264-265 | one triangle on the first three cached vertices is appended; the vertex list is untouched |
| Meshes.ReadingFaced | src/Elements/Geometry/Mesh.cs:264-265 | that triangle keeps mesh and cache in step with the reader state with the face added |
| Meshes.Mesh.FromSTL | src/Elements/Geometry/Mesh.cs:232-270 | it succeeds iff StlRun does, and then the mesh's vertices and triangles are those StlRun describes |
| Meshes.NewVertices | src/Elements/Geometry/Mesh.cs:257-258 | one vertex datum per created position |
| Meshes.BoxCorners | src/Elements/Geometry/Mesh.cs:471-478 | Box creates eight corners |
| Meshes.BoxFacesInRange | src/Elements/Geometry/Mesh.cs:479-490 | every face of Box names one of the eight corners |
| Meshes.NewVerticesPlain | src/Elements/Geometry/Mesh.cs:257-258 | vertices created and added in order carry Index i, are uncolored, and keep their positions |
| Meshes.NewVerticesExport | src/Elements/Geometry/Mesh.cs:313-384 | GetBuffers on such vertices succeeds iff there is one; for up to 65536 vertices, the index bounds are 0 and n-1, with no color |
| Meshes.BoxBounds | src/Elements/Geometry/Mesh.cs:468-478 | the tight position bounds of a box of edge size >= 0, which GetBuffers reports, are (-size/2, -size/2, -size/2) and (size/2, size/2, size/2) |
| Meshes.BoxCornersWithin | src/Elements/Geometry/Mesh.cs:471-478 | every corner lies in [-size/2, size/2]^3, and both extreme corners occur |
| Meshes.BoxIndices | src/Elements/Geometry/Mesh.cs:468-493 | the box's buffers have index bounds 0 and 7 and 72 index bytes: 12 triangles |
| Stl.LeadingSpace | src/Elements/Geometry/Mesh.cs:244 | TrimStart removes every leading char.IsWhiteSpace character, the Unicode separators included, and stops at the first other character |
| Stl.StlLineCases | src/Elements/Geometry/Mesh.cs:244-266 | "facet" clears the cache, "vertex" adds one vertex, "endfacet" adds the triangle on cache[0..2] or throws with fewer than three cached, and any other line changes nothing |
| Stl.NoBreakSpaceVertex | src/Elements/Geometry/Mesh.cs:244-258 | a "vertex" line indented with a no-break space still adds a vertex |
| Stl.StlRunAppend | src/Elements/Geometry/Mesh.cs:242-267 | reading two blocks of lines reads the first, then the second from where it stopped, and stops at the first exception |
| Stl.CountStarting | src/Elements/Geometry/Mesh.cs:251 | at most one counted line per line |
| Stl.StlRunCounts | src/Elements/Geometry/Mesh.cs:242-267 | each "vertex" line adds exactly one vertex and each "endfacet" line one triangle, and triangle indices stay in range |
| Stl.StlReadCounts | src/Elements/Geometry/Mesh.cs:232-267 | a whole file gives one vertex per "vertex" line and one triangle per "endfacet" line, all indices in range |
| Stl.StlLineInRange | src/Elements/Geometry/Mesh.cs:244-266 | one line keeps the cached indices and triangle indices in range, and adds one vertex or one triangle as its prefix says |
| Stl.StlRunStep | src/Elements/Geometry/Mesh.cs:242-267 | a successful first line is followed by the rest from the state it leaves |
| Stl.VertexRun | src/Elements/Geometry/Mesh.cs:251-260 | from a "vertex" line on, the vertex is added and cached, then the rest runs |
| Stl.PlainRun | src/Elements/Geometry/Mesh.cs:244-266 | a line with none of the three prefixes changes nothing |
| Stl.CloseFacet | src/Elements/Geometry/Mesh.cs:262-266 | a plain line then "endfacet" with three vertices cached adds the triangle on them |
| Stl.ThreeVertices | src/Elements/Geometry/Mesh.cs:251-260 | three "vertex" lines in a row add and cache their three vertices |
| Stl.AddedThree | src/Elements/Geometry/Mesh.cs:251-260 | from an empty cache, three added vertices are exactly the three cached |
| Stl.FacetBody | src/Elements/Geometry/Mesh.cs:251-266 | three vertex lines, a plain line and "endfacet", read with an empty cache, add three vertices and one triangle on them |
| Stl.FacetAddsOneTriangle | src/Elements/Geometry/Mesh.cs:246-266 | a complete facet block adds its three vertices and exactly one triangle on them |
| Stl.ExporterFacetLines | src/Elements/Geometry/Mesh.cs:246-266 | the fixed lines an STL exporter writes around a facet classify as FacetAddsOneTriangle needs |
| Stl.EmptyFacetFails | src/Elements/Geometry/Mesh.cs:262-264 | an "endfacet" right after "facet" throws: the cache is empty |

## Left out

- Floating point is not modelled. Coordinates, colors and bounds are exact `real`s, and `Bytes.F32` stands in for `BitConverter.GetBytes((float)x)`. Only its four-byte width is used: IEEE-754 rounding, and the `(float)` casts of matrices and colors, are not modelled.
- Transforms are symbolic values (`Identity`, `Concat`, `Scaled`, the +Z-up rotation). No matrix arithmetic is modelled, nor `Transform.Rotate`, `Invert` or `OfVector`.
- `GltfMergingUtils.AddAllMeshesFromFromGlb` is not part of this model. It is represented by `Env.merge`: the meshes and binary buffer it adds. The views, accessors, materials and textures it would also append are not modelled.
- CSG union, subtraction, transformation and tessellation (`Csg.Solid`), `Solid.Tessellate`, `UpdateRepresentations` and the solids' edge extraction are represented by their results: `CsgOutput`, `MeshData` and `InstanceOf.edgePoints`.
- Texture loading, the vertical flip and PNG encoding are represented by `Files.png`. `File.Exists` is represented by `Files.present`.
- `AddAnimations` and its call are not modelled; they do not compile as written.
- Left out because they are file or stream I/O or glue code: `ToBase64String`, `SaveGlb`, `SaveGltf`, `ToGlb`, `CombineBufferAndFixRefs`, `SaveBinaryModel`, and the `File.WriteAllText` of the fallback. `ToGlTF` is modelled up to the choice of document.
- `ProcessSolid` is not modelled: `InitializeGlTF` never reaches it.
- Meshes.Mesh.FromSTL: the `StreamReader`, `Split(' ')`, `double.Parse` and unit conversion are a `parse` function from the trimmed line to a point. `parse` is total, so the FormatException or IndexOutOfRangeException a malformed "vertex" line raises is not modelled. `StartsWith` is compared ordinally; the culture-sensitive comparison .NET uses by default is not modelled.
- `ComputeNormals`, the triangle normal and `Triangle.Area` are floating-point geometry and are not modelled. `Box` and `FromSTL` are modelled up to their final `ComputeNormals` call.
- The process-wide `_currentId` counter is the builder field `lastId`. Its value on entry is a parameter, and its value on exit is part of the result.
- After an exception the builder's state is not specified: the model only reports the exception. The source leaves its lists half-updated.
- GltfBuilder.Builder.AddMaterials: uses the corrected material loop. For an unlit material whose texture file exists, the source throws KeyNotFoundException at GltfExtensions.cs:149; the model does not (see "## Findings"). The two loops agree on every other input (`Materials.AsWrittenAgrees`).
- GltfScene.StartMaterials: uses the corrected material loop, so it does not throw the KeyNotFoundException of an unlit material with an existing texture.
- GltfScene.InitializeGlTF: uses the corrected material loop, so it does not report the KeyNotFoundException the source throws for an unlit material with an existing texture.
- GltfScene.ToGlTF: uses the corrected material loop, so it does not report the KeyNotFoundException the source throws for an unlit material with an existing texture.
- Geometry.BoxMin: `new BBox3(points)` is not part of this model. `Geometry.BoxMin` and `Geometry.BoxMax` are the component-wise bounds for a non-empty list, and the origin for an empty one; their contracts state only the width.
- MeshLayout.VertexLoop: the running bounds start from the first vertex rather than from `double.MaxValue` and `double.MinValue`. For finite coordinates the result is the same.
- MeshLayout.IndexMin: the index bounds are stated for `(ushort)v.Index`. Negative indices are not excluded: the cast is modelled as the source's wrap-around.
- The model follows the code where the general description of the serializer differs:
  - a line loop gets no closing edge (see `LineEncoding.LoopIsNotClosed`);
  - AddTriangleMesh pads only after the index bytes, so texture coordinates and colors follow unpadded.
- A content element that is not a definition is modelled as written: it gets a mesh node with mesh id -1, and the scaled transform computed just before is discarded. Document well-formedness allows -1 for that reason.
- The Vertex constructor is modelled as written: it ignores its normal argument and sets the normal to the origin.
- ITessellate elements are modelled as written: they always use the default material.

## Findings

| source | as written | input that shows it | evidently intended | confidence | as-written member | corrected member |
|---|---|---|---|---|---|---|
| Elements/src/Serialization/glTF/GltfExtensions.cs:125-149 | an unlit material gets only the `KHR_materials_unlit` extension, but a texture then looks up `m.Extensions["KHR_materials_pbrSpecularGlossiness"]`, which throws KeyNotFoundException | one material with `Unlit = true` whose `Texture` names an existing file | the unlit material keeps its base color texture and skips the specular-glossiness diffuse texture | not executed | Materials.UnlitTextureAsWritten | Materials.UnlitTextureCorrected |
