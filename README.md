# LearnMetal common framework — a Dafny model

LearnMetal ports the LearnOpenGL lessons to Metal. Its sample apps share a small framework, and
this project models that framework and proves properties of the model. The framework covers:

- procedural geometry: Model I/O shapes, a torus, lines, Bézier curves and tubes;
- meshes built from JSON files or Model I/O assets, with a texture cache;
- a typed GPU buffer;
- image-to-texture loaders for HDR images and cube maps;
- the bitmap copy those loaders use;
- a `Transform` scene graph;
- the `drawModel` routine, which turns a model description into render-encoder calls.

Three sample-specific pieces are modelled as well:

- the deferred-shading sample's `BackpackModel`;
- the frame-buffer sample's `PostProcess` effect selection;
- the text sample's glyph cache and text layout.

The GPU itself is not modelled. A render command encoder is an append-only log of the calls made
on it (`Encoder`). Textures, buffers, functions and heaps are opaque identities. Apple's frameworks
(Model I/O, MetalKit, CoreText, CoreGraphics) and files on disk are inputs. Floating-point values are
reals.

Each source file has one module:

| module | models |
|---|---|
| `Common` | optional values, throwing results, bytes |
| `Attributes` | vertex attribute names and formats, interleaved slot layout |
| `Encoder` | Metal object identities and the encoder call log |
| `GeometryMesh`, `GeometryTorus`, `GeometryLines` | `GeometryMesh.swift`, `GeometryMesh+Torus.swift`, `GeometryMesh+Lines.swift` |
| `MetalMesh` | `MetalMesh.swift` |
| `MetalBuffer` | `MetalBuffer.swift` |
| `RenderPipeline` | `RenderPipeline.swift` |
| `Transform` | `Transform.swift` |
| `JsonMesh`, `ModelIOMesh` | `JsonMesh.swift`, `ModelIOMesh.swift` |
| `ImageUtils` | `copyBitmap` of `ImageUtils.swift` |
| `HDRTextureLoader`, `TextureCubeLoader` | the two texture loaders |
| `BackpackModel` | `DeferredShading/BackpackModel.swift` |
| `PostProcess` | the `PostProcess` enum and `postProcessMethod` of `FrameBuffers/Renderer.swift` |
| `TextRenderer` | `Text/Renderer.swift` |

Some of the source's behaviour may look unintended, but the model keeps it as written:

- `copyBitmap` fills the extra alpha channel of 8-bit images with the byte 1, not 255.
- `setParent(_:notifyParent: true)` removes the node from the children of the new parent and
  appends it there again. It leaves the old parent's children list untouched.

## Model

| member | source | states |
|---|---|---|
| Attributes.Lookup | common/common/GeometryMesh+Torus.swift:72 | `attributesMap[j]` is present exactly when some entry has key j, and then it is that entry's name (keys are distinct, so the answer is unique) |
| Attributes.PointStride | common/common/GeometryMesh.swift:308-327 | a stride exists exactly for float, float2, float3 and float4 vertex formats: 4, 8, 16 and 16 bytes; every other format is the unsupported-format error |
| Attributes.PackedAtVertexSlot | common/common/GeometryMesh+Torus.swift:69-72 | flat slot `i·count + j` is attribute slot j of vertex i and lies at byte offset `i·16·count + j·16` |
| Attributes.PackVertices | common/common/GeometryMesh+Torus.swift:64-86 | the nested packing loop fills `vertexCount·count` slots, and every slot holds the value the builder provides for the attribute named by that slot's key (nothing when the key is absent or not one the builder writes) |
| GeometryMesh.CheckVertexDescriptor | common/common/GeometryMesh.swift:246-269 | the map is accepted exactly when it is non-empty and every name is one of the fifteen standard Model I/O attribute names |
| GeometryMesh.Generate | common/common/GeometryMesh.swift:22-24 | an invalid attribute map is rejected with the invalid-attributes error, and only then; a valid one yields the requested shape with every attribute name carried over |
| GeometryMesh.NewBox | common/common/GeometryMesh.swift:15-41 | a box is built from the given extent, segments and normal direction exactly when the attribute map is valid; otherwise the invalid-attributes error |
| GeometryMesh.NewPlane | common/common/GeometryMesh.swift:43-68 | a plane of the given size and segments exactly when the map is valid; the inward-normals argument is dropped, as in the source |
| GeometryMesh.NewIcosahedron | common/common/GeometryMesh.swift:70-93 | an icosahedron of the given radius exactly when the map is valid |
| GeometryMesh.NewCylinder | common/common/GeometryMesh.swift:95-125 | a cylinder with the given height, radii and segment counts exactly when the map is valid |
| GeometryMesh.NewEllipsoid | common/common/GeometryMesh.swift:127-156 | an ellipsoid with the given radii, segments and hemisphere flag exactly when the map is valid |
| GeometryMesh.NewSphere | common/common/GeometryMesh.swift:158-176 | a sphere is the ellipsoid whose three radii are the one radius |
| GeometryMesh.NewEllipticalCone | common/common/GeometryMesh.swift:178-209 | an elliptical cone with the given height, radii and segments exactly when the map is valid |
| GeometryMesh.NewCapsule | common/common/GeometryMesh.swift:211-244 | a capsule with the given height, radii and three segment counts exactly when the map is valid |
| GeometryMesh.FirstKeyNamed | common/common/GeometryMesh.swift:310-312 | `first(where:)` finds nothing exactly when no entry has the name, and otherwise returns the key of the first entry that has it |
| GeometryMesh.NewLines | common/common/GeometryMesh.swift:298-357 | a map that is not exactly one Position entry is rejected first; an unsupported position format is rejected next; a zero count then traps (`Trap`); otherwise the result is the line mesh of the first `count` points with `count·stride` bytes and the index list of consecutive segments |
| GeometryMesh.SetVertexBuffer | common/common/GeometryMesh.swift:271-275 | the encoder log gains one vertex-buffer bind per mesh vertex buffer, in order, all at the same index |
| GeometryMesh.Draw | common/common/GeometryMesh.swift:277-285 | the encoder log gains one indexed draw per submesh, in order, with that submesh's primitive, count, type and buffer |
| GeometryMesh.DrawInstanced | common/common/GeometryMesh.swift:287-296 | the same draws as `Draw`, each with the given instance count |
| GeometryTorus.FillGrid | common/common/GeometryMesh+Torus.swift:38-60 | the grid loop writes grid point `(s mod (T+1), s div (T+1))` and its texture coordinate at every one of the `(R+1)(T+1)` slots |
| GeometryTorus.GridUVsInUnitSquare | common/common/GeometryMesh+Torus.swift:56 | every texture coordinate the grid loop stores lies in the unit square |
| GeometryTorus.GridSlotOfPoint | common/common/GeometryMesh+Torus.swift:38-60 | grid point (i, j) is written at slot `j·(T+1) + i`, inside the vertex count, so the row-major fill reaches every point |
| GeometryTorus.TorusIndicesShape | common/common/GeometryMesh+Torus.swift:92-110 | the index list has `6·R·T` entries and each one names one of the `(R+1)(T+1)` vertices |
| GeometryTorus.TorusCellAt | common/common/GeometryMesh+Torus.swift:94-108 | cell (i, j) occupies entries `6((j-1)T + i - 1)` to `+5`, holding the triangles (a, b, d) and (b, c, d) of that cell |
| GeometryTorus.RowCellAt | common/common/GeometryMesh+Torus.swift:95-108 | within one row, cell i occupies entries `6(i-1)` to `+5` |
| GeometryTorus.WriteCell | common/common/GeometryMesh+Torus.swift:96-106 | the six assignments append cell (i, j) after the entries already written and leave the rest of the array alone |
| GeometryTorus.FillRow | common/common/GeometryMesh+Torus.swift:95-109 | the inner loop appends the T cells of row j after the given prefix |
| GeometryTorus.FillIndices | common/common/GeometryMesh+Torus.swift:92-110 | the index loop produces exactly the row-after-row cell list |
| GeometryTorus.NewTorus | common/common/GeometryMesh+Torus.swift:14-128 | any name other than Position, Normal or TextureCoordinate is rejected before anything is built; otherwise the mesh has `(R+1)(T+1)` vertices, the cell index list, the requested geometry type and every slot packed from the grid |
| GeometryLines.Reflect | common/common/GeometryMesh+Lines.swift:184 | the next curve's first control point `p1 - c1 + p1` is the mirror image of the previous control point through the shared end point |
| GeometryLines.QuadraticPoint | common/common/GeometryMesh+Lines.swift:547-563 | a quadratic Bézier point has the dimension of its control points (2D and 3D alike) |
| GeometryLines.CubicPoint | common/common/GeometryMesh+Lines.swift:565-583 | a cubic Bézier point has the dimension of its control points (2D and 3D alike) |
| GeometryLines.QuadraticEndpoints | common/common/GeometryMesh+Lines.swift:547-563 | the quadratic polynomial passes through p0 at t = 0 and p1 at t = 1 |
| GeometryLines.CubicEndpoints | common/common/GeometryMesh+Lines.swift:565-583 | the cubic polynomial passes through p0 at t = 0 and p1 at t = 1 |
| GeometryLines.QuadraticIsDeCasteljau | common/common/GeometryMesh+Lines.swift:547-563 | the Bernstein form the source evaluates equals de Casteljau's two rounds of linear interpolation, for every t |
| GeometryLines.CubicIsDeCasteljau | common/common/GeometryMesh+Lines.swift:565-583 | the cubic Bernstein form equals de Casteljau's three rounds of linear interpolation, for every t |
| GeometryLines.LinePairsShape | common/common/GeometryMesh+Lines.swift:238-242 | n points give `2(n-1)` indices and segment k joins point k to point k+1 |
| GeometryLines.LineIndices | common/common/GeometryMesh+Lines.swift:238-242 | the index loop produces exactly the consecutive pairs (0,1), (1,2), … |
| GeometryLines.NewLines | common/common/GeometryMesh+Lines.swift:207-261 | a map that is not a single Position entry is rejected; a format other than float, float2, float3 or float4 is rejected; a zero count then traps (`Trap`); otherwise the line mesh of the first `count` points |
| GeometryLines.LinesOfShape | common/common/GeometryMesh+Lines.swift:235-258 | a line mesh holds `count·stride` vertex bytes, `count` vertices (the first `count` points) and the `2(count-1)` segment indices |
| GeometryLines.CubicCurve | common/common/GeometryMesh+Lines.swift:170-187 | curve m of a cubic chain is well formed and of the input dimension |
| GeometryLines.QuadraticCurve | common/common/GeometryMesh+Lines.swift:460-475 | curve m of a quadratic chain is well formed and of the input dimension |
| GeometryLines.CubicSamples | common/common/GeometryMesh+Lines.swift:176-178 | one curve is sampled at `segments + 1` parameters |
| GeometryLines.QuadraticSamples | common/common/GeometryMesh+Lines.swift:465-467 | one curve is sampled at `segments + 1` parameters |
| GeometryLines.CubicChainLength | common/common/GeometryMesh+Lines.swift:176-194 | a chain of n cubic curves holds `n·(segments+1)` points |
| GeometryLines.CubicChainAt | common/common/GeometryMesh+Lines.swift:176-194 | point `m·(segments+1) + i` of the chain is curve m evaluated at `t = i / segments` |
| GeometryLines.QuadraticChainLength | common/common/GeometryMesh+Lines.swift:465-482 | a chain of n quadratic curves holds `n·(segments+1)` points |
| GeometryLines.QuadraticChainAt | common/common/GeometryMesh+Lines.swift:465-482 | point `m·(segments+1) + i` of the chain is curve m evaluated at `t = i / segments` |
| GeometryLines.CubicJoin | common/common/GeometryMesh+Lines.swift:183-187 | consecutive cubic curves share the end point, the tangent is continued (reflected control point), and the curve is continuous at the join |
| GeometryLines.QuadraticJoin | common/common/GeometryMesh+Lines.swift:472-475 | consecutive quadratic curves share the end point, the tangent is continued, and the curve is continuous at the join |
| GeometryLines.CubicBezierPoints | common/common/GeometryMesh+Lines.swift:312-340 | the sampling loops read only input points that exist and produce the chain of `CubicCurveCount(count)` curves |
| GeometryLines.QuadraticBezierPoints | common/common/GeometryMesh+Lines.swift:456-482 | the sampling loops read only input points that exist and produce the chain of `QuadraticCurveCount(count)` curves |
| GeometryLines.CubicCurveCountTight | common/common/GeometryMesh+Lines.swift:327-340 | the `while index < count - 2` loop stops at the last curve whose four points are among the first `count` (at most one point is left unused) |
| GeometryLines.QuadraticCurveCountTight | common/common/GeometryMesh+Lines.swift:470-482 | the `while index < count - 1` loop uses every one of the `count` input points |
| GeometryLines.Ring | common/common/GeometryMesh+Lines.swift:57-63 | every ring of the tube has `radialSegments` vertices |
| GeometryLines.TubeVerticesShape | common/common/GeometryMesh+Lines.swift:57-83 | n rings hold `n·R` vertices and vertex `k·R + i` is circle point i around centre point k |
| GeometryLines.RingJoinShape | common/common/GeometryMesh+Lines.swift:85-88 | appending a ring emits `6(n-1)` indices, all within the previous ring and the new one |
| GeometryLines.TubeStepShape | common/common/GeometryMesh+Lines.swift:76-92 | ring k adds `6R` indices, all naming vertices of ring k-1 or ring k |
| GeometryLines.QuadBelowCount | common/common/GeometryMesh+Lines.swift:85-88 | the quad emitted after circle point i of a ring is appended names only vertices from the previous ring's start up to the `prevStart + R + i + 1` vertices appended so far |
| GeometryLines.TubeIndicesShape | common/common/GeometryMesh+Lines.swift:65-93 | a tube of n rings has `6R(n-1)` indices and every one names one of the `n·R` vertices |
| GeometryLines.JoinRing | common/common/GeometryMesh+Lines.swift:76-89 | the inner loop appends the ring's vertices and the quads joining it to the previous ring; at every step each index emitted so far is at least the previous ring's start and below the number of vertices appended so far |
| GeometryLines.TubeGeometry | common/common/GeometryMesh+Lines.swift:33-93 | the ring loop produces exactly the tube's vertex list and index list |
| GeometryLines.New3DLines | common/common/GeometryMesh+Lines.swift:15-138 | any name other than Position or Normal is rejected before anything is built; otherwise `count·R` vertices, the tube indices, and every slot packed with the position or normal of its vertex |
| GeometryLines.CubicCurvePoints | common/common/GeometryMesh+Lines.swift:312-340 | the sampled points number `CubicCurveCount(count)·(segments+1)`, at least two |
| GeometryLines.QuadraticCurvePoints | common/common/GeometryMesh+Lines.swift:456-482 | the sampled points number `QuadraticCurveCount(count)·(segments+1)`, at least two |
| GeometryLines.CubicBezierCurveIn | common/common/GeometryMesh+Lines.swift:294-347 | the format check comes first, then the single-Position check; otherwise the line mesh of the sampled cubic chain |
| GeometryLines.QuadraticBezierCurveIn | common/common/GeometryMesh+Lines.swift:438-489 | the format check comes first, then the single-Position check; otherwise the line mesh of the sampled quadratic chain |
| GeometryLines.NewCubicBezierCurve | common/common/GeometryMesh+Lines.swift:263-292 | not a single Position entry: invalid attributes; a format other than float2 or float3: unsupported; otherwise the line mesh of the sampled chain with stride 8 or 16 |
| GeometryLines.NewQuadraticBezierCurve | common/common/GeometryMesh+Lines.swift:404-436 | not a single Position entry: invalid attributes; a format other than float2 or float3: unsupported; otherwise the line mesh of the sampled chain with stride 8 or 16 |
| GeometryLines.CheckFormats | common/common/GeometryMesh+Lines.swift:159-164 | the check passes exactly when every attribute's format is float3 |
| GeometryLines.NewCubicBezier3DCurve | common/common/GeometryMesh+Lines.swift:140-205 | the whitelist is checked, then every format must be float3; otherwise the tube mesh around the sampled cubic chain |
| Encoder.VertexBufferBindsAt | common/common/MetalMesh.swift:164-167 | the bind loop makes exactly one bind per vertex buffer, the k-th binding buffer k at its own offset plus the extra offset, all at the same index |
| Encoder.SubmeshDrawsAt | common/common/MetalMesh.swift:170-178 | the draw loop makes exactly one indexed draw per submesh, the k-th drawing submesh k with its primitive type, index count, index type and index buffer |
| MetalMesh.CheckVertexDescriptor | common/common/MetalMesh.swift:139-162 | the map is accepted exactly when it is non-empty and holds only the fifteen standard attribute names |
| MetalMesh.NewBox | common/common/MetalMesh.swift:26-52 | an invalid attribute map is the invalid-attributes error and only then; otherwise the box with the given extent, segments, geometry and normal direction |
| MetalMesh.NewPlane | common/common/MetalMesh.swift:54-79 | an invalid attribute map is the invalid-attributes error and only then; otherwise the plane, without the inward-normals argument |
| MetalMesh.NewIcosahedron | common/common/MetalMesh.swift:81-87 | always throws the not-implemented error |
| MetalMesh.NewCylinder | common/common/MetalMesh.swift:89-99 | always throws the not-implemented error |
| MetalMesh.NewEllipsoid | common/common/MetalMesh.swift:101-111 | always throws the not-implemented error |
| MetalMesh.NewEllipticalCone | common/common/MetalMesh.swift:113-124 | always throws the not-implemented error |
| MetalMesh.NewCapsule | common/common/MetalMesh.swift:126-137 | always throws the not-implemented error |
| MetalMesh.SetVertexBuffer | common/common/MetalMesh.swift:164-168 | the encoder log gains exactly the binds of every vertex buffer at the given index, and nothing else |
| MetalMesh.Draw | common/common/MetalMesh.swift:170-178 | the encoder log gains exactly one indexed draw per submesh, in order |
| MetalMesh.SetVertexMeshBuffer | common/common/MetalMesh.swift:183-187 | the encoder log gains one bind per vertex buffer at the given index, each at the extra offset plus the buffer's own |
| MetalMesh.DrawMesh | common/common/MetalMesh.swift:189-197 | the encoder log gains exactly one indexed draw per submesh, in order |
| MetalBuffer.MetalBuffer.Zeroed | common/common/MetalBuffer.swift:32-41 | a new buffer of `count` zero elements with the given binding index, label and options |
| MetalBuffer.MetalBuffer.FromArray | common/common/MetalBuffer.swift:44-52 | a new buffer holding the array's elements, `count` equal to the array's length, and shared storage whatever options were passed |
| MetalBuffer.MetalBuffer.Assign | common/common/MetalBuffer.swift:55-60 | element `at` becomes the value and every other element is unchanged; callable only on an element index (the corrected bounds check, see Findings) |
| MetalBuffer.MetalBuffer.AssignAll | common/common/MetalBuffer.swift:63-67 | an array with exactly the buffer's byte count replaces the whole contents |
| MetalBuffer.MetalBuffer.Get | common/common/MetalBuffer.swift:70-74 | the getter returns element `at`; callable only on an element index (the corrected bounds check, see Findings) |
| MetalBuffer.SameByteCountSameLength | common/common/MetalBuffer.swift:64-65 | the byte-count check of `assign(with:)` holds exactly when the array has `count` elements |
| MetalBuffer.ElementBytesInBuffer | common/common/MetalBuffer.swift:58 | the bytes an element write touches lie inside the buffer |
| MetalBuffer.ElementBytesDisjoint | common/common/MetalBuffer.swift:58 | the byte ranges of distinct elements do not overlap, so a write to one leaves the others alone |
| MetalBuffer.NegativeIndexPassesGuards | common/common/MetalBuffer.swift:56-72 | index -1 passes both bounds checks as written for every buffer, although it is no element index and addresses the bytes before the buffer |
| MetalBuffer.GuardsOnNonNegativeIndices | common/common/MetalBuffer.swift:56-72 | on non-negative indices each check as written is exactly the element-index test |
| MetalBuffer.NewTextureWithIndex | common/common/MetalBuffer.swift:156-158 | the same texture with the index replaced |
| MetalBuffer.FragmentTextureIndex | common/common/MetalBuffer.swift:123 | the explicit index wins, else the texture's own; there is none exactly when both are absent |
| MetalBuffer.SetVertexMetalBuffer | common/common/MetalBuffer.swift:86-88 | one vertex-buffer bind at the buffer's own index and the given offset |
| MetalBuffer.SetFragmentMetalBuffer | common/common/MetalBuffer.swift:90-92 | one fragment-buffer bind at the buffer's own index and the given offset |
| MetalBuffer.SetFragmentTexture | common/common/MetalBuffer.swift:122-129 | without any index the call throws and the encoder is untouched; otherwise one fragment-texture bind at the chosen index |
| MetalBuffer.SetVertexResource | common/common/MetalBuffer.swift:94-106 | a buffer is bound at offset 0 and its own index; a texture at its own index; a texture without one throws and the encoder is untouched |
| MetalBuffer.SetFragmentResource | common/common/MetalBuffer.swift:108-120 | the fragment-stage counterpart: buffer bind, texture bind, or the missing-index error with the encoder untouched |
| RenderPipeline.VertexResourceCalls | common/common/RenderPipeline.swift:55-72 | a vertex resource makes at most one call, always binding at the given index, and none exactly for a sub-mesh resource or a model that writes no vertex bytes |
| RenderPipeline.FragmentResourceCalls | common/common/RenderPipeline.swift:74-92 | a fragment resource throws exactly for the two mesh resources, and then without calling the encoder; otherwise at most one bind at the given index, none for a sub-mesh resource |
| RenderPipeline.SetVertexResource | common/common/RenderPipeline.swift:55-72 | the encoder log gains exactly the calls of that resource |
| RenderPipeline.SetFragmentResource | common/common/RenderPipeline.swift:74-92 | the encoder log gains exactly the calls of that resource and the outcome is its error, if any |
| RenderPipeline.PrimitiveOf | common/common/RenderPipeline.swift:126 | the model's primitive type, triangles when it has none |
| RenderPipeline.InstancesOf | common/common/RenderPipeline.swift:129 | the model's instance count, one when it has none |
| RenderPipeline.UseModelHeaps | common/common/RenderPipeline.swift:96-104 | no heaps or an empty list: no call; one heap: `useHeap`; several: one `useHeaps` |
| RenderPipeline.HeapCallsUseEveryHeap | common/common/RenderPipeline.swift:96-104 | at most one call is made and it makes exactly the model's heaps resident |
| RenderPipeline.UseResources | common/common/RenderPipeline.swift:106-111 | one `useResource` per (resource, usage) pair, in order, none when the model lists none |
| RenderPipeline.SetVertexInputs | common/common/RenderPipeline.swift:113-116 | the vertex-input loop makes each input's calls, in order |
| RenderPipeline.SetFragmentInputs | common/common/RenderPipeline.swift:118-121 | the fragment-input loop makes each input's calls in order and stops at the first throw, which it passes on |
| RenderPipeline.FragmentInputsStopAtThrow | common/common/RenderPipeline.swift:118-121 | once a prefix of the fragment inputs has thrown, the later inputs make no calls and the error is that prefix's |
| RenderPipeline.SetSubmeshVertexInputs | common/common/RenderPipeline.swift:133-138 | the per-submesh loop re-binds exactly the sub-mesh vertex inputs named like the submesh |
| RenderPipeline.SubmeshRebindsOnlyNamed | common/common/RenderPipeline.swift:133-138 | the per-submesh vertex calls are those of the vertex-input loop run over just the selected, unwrapped inputs |
| RenderPipeline.SelectedAreNamed | common/common/RenderPipeline.swift:134-135 | every selected input is a sub-mesh input carrying the submesh's name, with its own index and inner resource |
| RenderPipeline.SetSubmeshFragmentInputs | common/common/RenderPipeline.swift:141-147 | the per-submesh fragment loop binds the named sub-mesh inputs and stops at the first throw |
| RenderPipeline.SubmeshFragmentStopsAtThrow | common/common/RenderPipeline.swift:141-147 | after a throw, the remaining fragment inputs of the submesh make no calls |
| RenderPipeline.DrawOneSubmesh | common/common/RenderPipeline.swift:131-150 | one submesh: its vertex inputs, its fragment inputs, then its draw, unless a fragment input threw |
| RenderPipeline.OneSubmeshShape | common/common/RenderPipeline.swift:131-150 | a submesh is drawn exactly when none of its fragment inputs threw, and the error is theirs |
| RenderPipeline.DrawSubmeshes | common/common/RenderPipeline.swift:130-150 | the submeshes are handled in order and the loop stops at the first one that throws |
| RenderPipeline.SubmeshesStopAtThrow | common/common/RenderPipeline.swift:130-150 | the submeshes after one that throws make no calls |
| RenderPipeline.Draw | common/common/RenderPipeline.swift:123-185 | each draw command makes its one draw call with the model's primitive type (triangles by default) and instance count (one by default), or runs the submesh loop |
| RenderPipeline.BeginDraw | common/common/RenderPipeline.swift:95-116 | the debug group is pushed, then heaps, resources and vertex inputs are set, none of which can throw |
| RenderPipeline.DrawModel | common/common/RenderPipeline.swift:94-188 | the encoder log gains exactly the calls `drawModel` makes, and the outcome is the first error thrown |
| RenderPipeline.DrawModelShape | common/common/RenderPipeline.swift:94-188 | a fragment-input throw skips the draw and the pop; a draw throw skips the pop; otherwise setup, fragment inputs, draw and pop in that order |
| RenderPipeline.DrawModelBracketed | common/common/RenderPipeline.swift:95-187 | the run opens with the "Draw Model" debug group; a run that finishes closes it as its last call; a run that throws never pops |
| RenderPipeline.SetupNoPop | common/common/RenderPipeline.swift:95-116 | setup opens with the debug group and pops nothing |
| RenderPipeline.DrawNoPop | common/common/RenderPipeline.swift:123-185 | the draw commands pop nothing |
| RenderPipeline.NewRenderPipeline | common/common/RenderPipeline.swift:192-207 | the target loop produces the descriptor formats the target list determines |
| RenderPipeline.ColorAttachmentFromLastTarget | common/common/RenderPipeline.swift:196-202 | colour attachment i is set exactly when some colour target names i, and then to the format of the last such target |
| RenderPipeline.DepthAttachmentFromLastTarget | common/common/RenderPipeline.swift:203-204 | the depth format is set exactly when some depth target exists, and then to the last one's format |
| Transform.Recalc | common/common/Transform.swift:89-103 | recomputing n sets n's model matrix to its parent's model matrix times its own local matrix (the local matrix alone without a parent), never touches the node fields, and leaves every node not ranked below n alone |
| Transform.RecalcChildren | common/common/Transform.swift:100-102 | recomputing the children from the i-th on never touches the node fields nor any node ranked at or above the parent |
| Transform.RecalcChildrenStep | common/common/Transform.swift:100-102 | each child of a node ranks below it, and the children loop is the recomputation of child i followed by the loop from i + 1 |
| Transform.RecalcSetsWorld | common/common/Transform.swift:89-98 | after recomputing n, n's model matrix is its parent's (already final) model matrix times its local matrix |
| Transform.RecalcSettles | common/common/Transform.swift:89-103 | in a tree-consistent graph (each listed child's parent link points back at the node listing it), recomputing n leaves every node strictly below n with its parent's model matrix times its own local matrix; the position, quaternion and scale setters, whose new state is this recompute, inherit it |
| Transform.RecalcSettlesAt | common/common/Transform.swift:89-103 | the same fact for one node strictly below n |
| Transform.RecalcChildrenSettlesAt | common/common/Transform.swift:100-102 | after the `children.forEach` loop from child i on, every node below a child j ≥ i has its parent's model matrix times its local matrix |
| Transform.RecalcFrame | common/common/Transform.swift:89-103 | recomputing n changes no model matrix outside n's subtree |
| Transform.RecalcChildrenFrame | common/common/Transform.swift:100-102 | the children loop from child i on changes no model matrix outside those children's subtrees |
| Transform.BelowChild | common/common/Transform.swift:100-102 | a child of a node in n's subtree is in n's subtree |
| Transform.BelowLister | common/common/Transform.swift:100-102 | every node strictly below n is held by the children list of some node in n's subtree |
| Transform.WithoutCounts | common/common/Transform.swift:65 | `removeAll(where:)` keeps every other child as often as before and drops every occurrence of the removed one |
| Transform.WithoutOmits | common/common/Transform.swift:65 | the removed child is no longer listed, and removing an unlisted child changes nothing |
| Transform.WithoutIsSubsequence | common/common/Transform.swift:65 | removal introduces no new children |
| Transform.Relink | common/common/Transform.swift:80 | re-pointing the weak parent link changes only that node's parent and keeps the scene well formed |
| Transform.AppendChildValid | common/common/Transform.swift:52 | appending a child that ranks below its new parent keeps the scene well formed and ranked |
| Transform.AddChild | common/common/Transform.swift:50-60 | adding a child keeps the scene well formed and ranked and its set of nodes unchanged |
| Transform.RemoveChild | common/common/Transform.swift:63-72 | removing a child keeps the scene well formed and ranked and its set of nodes unchanged |
| Transform.SetParentOf | common/common/Transform.swift:75-86 | re-parenting keeps the scene well formed and ranked and its set of nodes unchanged |
| Transform.AddKeepsChildrenDistinct | common/common/Transform.swift:51-52 | the `contains` guard means a child is listed at most once after `add`, however often it is added |
| Transform.AddLinksParent | common/common/Transform.swift:50-60 | adding a new child with notification appends it, points its parent at the adder, and gives it the parent's model matrix times its own |
| Transform.RemoveDropsAll | common/common/Transform.swift:63-72 | removal drops every occurrence of the child from the parent's list and changes no other list; an unlisted child changes nothing at all; with notification the child's parent becomes nil |
| Transform.RemoveQuietNodes | common/common/Transform.swift:63-66 | a quiet removal only rewrites the parent's children list |
| Transform.AddQuietNodes | common/common/Transform.swift:50-53 | a quiet add of a new child only appends it to the parent's list |
| Transform.SetParentNodes | common/common/Transform.swift:75-86 | `setParent(p, notifyParent: true)` removes the node from p's list, appends it again and sets its parent link; the former parent's list is not touched |
| Transform.SetParentListsOnce | common/common/Transform.swift:75-86 | after a notifying `setParent(p)` the node is listed exactly once by p, points at p, and no other node's children list changed |
| Transform.Scene.constructor | common/common/Transform.swift:11-47 | an empty scene |
| Transform.Scene.NewNode | common/common/Transform.swift:13-47 | a new node has no children, no parent, position zero, the identity quaternion, unit scale and the identity model matrix |
| Transform.Scene.ForceCalculateModelMatrix | common/common/Transform.swift:89-103 | the new state is the recursive recomputation of the node and everything below it |
| Transform.Scene.UpdateOwnMatrix | common/common/Transform.swift:91-98 | only n's model matrix changes, to its parent's model matrix times its local matrix |
| Transform.Scene.RecalculateChildren | common/common/Transform.swift:100-102 | the new state is the recomputation of the children from the i-th on |
| Transform.Scene.Add | common/common/Transform.swift:50-60 | the new state is the one `AddChild` describes |
| Transform.Scene.Remove | common/common/Transform.swift:63-72 | the new state is the one `RemoveChild` describes |
| Transform.Scene.SetParent | common/common/Transform.swift:75-86 | the new state is the one `SetParentOf` describes |
| Transform.Scene.Link | common/common/Transform.swift:80 | the new state is the one `Relink` describes |
| Transform.Scene.SetPosition | common/common/Transform.swift:29-33 | the position is stored and the node's subtree is recomputed |
| Transform.Scene.SetQuaternion | common/common/Transform.swift:36-40 | the quaternion is stored and the node's subtree is recomputed |
| Transform.Scene.SetScale | common/common/Transform.swift:43-47 | the scale is stored and the node's subtree is recomputed |
| JsonMesh.VertexCount | common/common/JsonMesh.swift:51 | the vertex count is the number of whole position triples; a trailing partial triple is ignored |
| JsonMesh.IdentityIndices | common/common/JsonMesh.swift:92-93 | `n` indices, the k-th being k |
| JsonMesh.IdentityIndicesDrawEachVertexOnce | common/common/JsonMesh.swift:92-97 | the triangle list names every vertex exactly once |
| JsonMesh.New | common/common/JsonMesh.swift:21-110 | a failed texture load throws first, a name other than Position, Normal or TextureCoordinate throws next, and a named normal or texture-coordinate array too short for the vertex count traps (`Trap`); otherwise one triangle submesh named after the JSON path over the identity indices, the texture recorded under the JSON path, no specular textures, and every slot packed from the JSON arrays |
| JsonMesh.ShortArraysReadPastEnd | common/common/JsonMesh.swift:57-80 | the arrays are short exactly when some vertex below the vertex count reads `normals[3i+2]` or `uvs[2i+1]` out of range |
| JsonMesh.JsonSlotAt | common/common/JsonMesh.swift:57-86 | slot j of vertex i sits at byte offset `i·16·count + j·16` and holds the i-th position triple, normal triple or texture coordinate (v flipped), as its key names |
| JsonMesh.UVFlipRestores | common/common/JsonMesh.swift:78-80 | flipping the stored v coordinate back gives the JSON pair unchanged |
| ModelIOMesh.Cached | common/common/ModelIOMesh.swift:65-71 | a cached URL changes nothing; an uncached one is loaded once and cached; a failed load ends in the trap of the force-unwrap that follows; the texture dictionaries are not touched here |
| ModelIOMesh.FirstMesh | common/common/ModelIOMesh.swift:46-87 | the index of the first object that is a mesh, every earlier object being something else; none exactly when no object is a mesh |
| ModelIOMesh.ModelIOMesh.constructor | common/common/ModelIOMesh.swift:16-23 | no mesh yet, empty cache and dictionaries, no loads |
| ModelIOMesh.ModelIOMesh.CachedTexture | common/common/ModelIOMesh.swift:65-71 | the new texture state is the one `Cached` describes and the texture returned is the cached one |
| ModelIOMesh.ModelIOMesh.AddSubmeshTextures | common/common/ModelIOMesh.swift:63-82 | the base-colour and specular textures of one submesh are looked up through the cache and recorded under its name |
| ModelIOMesh.ModelIOMesh.AddAllSubmeshTextures | common/common/ModelIOMesh.swift:54-84 | the submesh loop's new texture state, or the trap |
| ModelIOMesh.New | common/common/ModelIOMesh.swift:26-95 | an asset without a mesh throws; otherwise the first mesh is kept and its submeshes' textures are loaded, or the run traps |
| ModelIOMesh.CachedKeepsLoadedOnce | common/common/ModelIOMesh.swift:65-69 | the cache never loads a URL twice, every loaded URL is cached, and existing entries are kept |
| ModelIOMesh.SubmeshTexturesFromCache | common/common/ModelIOMesh.swift:63-82 | a submesh's recorded textures are the cache's entries for its material URLs, and a material without a URL leaves that dictionary alone |
| ModelIOMesh.SubmeshesLoadedOnce | common/common/ModelIOMesh.swift:54-84 | over the whole submesh loop, no URL is loaded twice and no cache entry is replaced |
| ModelIOMesh.NewLoadsEachUrlOnce | common/common/ModelIOMesh.swift:26-95 | a successful load calls the texture loader at most once per URL |
| ModelIOMesh.SubmeshesStopAtBreak | common/common/ModelIOMesh.swift:55-61 | the submesh loop stops at the first entry that is not a submesh or has no material; later entries have no effect |
| ImageUtils.AlphaOne | common/common/ImageUtils.swift:51-76 | a fill value exists exactly for 1-, 2- and 4-byte components, and it is one component wide |
| ImageUtils.Spliced | common/common/ImageUtils.swift:59 | a `copyMemory` keeps the buffer's length |
| ImageUtils.SplicedAt | common/common/ImageUtils.swift:59 | after `copyMemory` the copied range holds the source bytes and every other byte is unchanged |
| ImageUtils.PixelWritten | common/common/ImageUtils.swift:57-77 | one pixel's write keeps the buffer's length |
| ImageUtils.PixelWrittenAt | common/common/ImageUtils.swift:57-77 | one pixel's write puts its colour at the pixel's offset and the fill right after it, and leaves every other byte alone |
| ImageUtils.CopiedIsCopiedByte | common/common/ImageUtils.swift:56-79 | the pixel-by-pixel result agrees byte for byte with a closed-form description of each destination byte |
| ImageUtils.CopiedColour | common/common/ImageUtils.swift:57-59 | byte b of pixel p's colour in the destination is byte b of pixel p in the source |
| ImageUtils.CopiedFill | common/common/ImageUtils.swift:60-73 | the fill is written right after each pixel's colour |
| ImageUtils.CopiedGap | common/common/ImageUtils.swift:57-79 | destination bytes of a pixel past its colour and fill keep their old contents |
| ImageUtils.CopiedBeyond | common/common/ImageUtils.swift:56 | bytes past the last pixel keep their old contents |
| ImageUtils.CopiedPixelByte | common/common/ImageUtils.swift:56-79 | every byte of destination pixel p is the source colour byte, the fill byte or the old byte, by its position in the pixel |
| ImageUtils.CopyMemory | common/common/ImageUtils.swift:59 | the destination becomes the splice of the bytes at the offset |
| ImageUtils.CopyFitsSpans | common/common/ImageUtils.swift:45-58 | under the caller's size requirements every pixel's source and destination span lies inside its buffer |
| ImageUtils.CopiedPixelsByte | common/common/ImageUtils.swift:40-82 | for the image's own layout, each destination byte is the source colour byte, the alpha fill byte or the old byte |
| ImageUtils.CopyPixels | common/common/ImageUtils.swift:56-79 | the loop throws exactly when a fill is needed for an unsupported component size and there is a pixel; it then stops after copying the first pixel's colour; otherwise every pixel is copied and filled |
| ImageUtils.CopiedStep | common/common/ImageUtils.swift:56-79 | copying p + 1 pixels is copying p pixels and then writing pixel p |
| ImageUtils.CopyOnePixel | common/common/ImageUtils.swift:57-77 | one pixel's colour is copied, then its fill; an unsupported component size throws after the colour copy |
| ImageUtils.SplicedNothing | common/common/ImageUtils.swift:59 | copying zero bytes changes nothing |
| ImageUtils.CopyBitmap | common/common/ImageUtils.swift:40-82 | `copyBitmap` throws exactly when the extra channel must be filled, the component size is not 1, 2 or 4 bytes, and the image has a pixel; the first pixel's colour is then already copied; otherwise every pixel is copied and filled |
| HDRTextureLoader.FormatFor | common/common/HDRTextureLoader.swift:27-40 | 4-byte components give RGBA32Float, 2-byte RGBA16Float, 1-byte RGBA8Unorm, and any other size is rejected; the rejected sizes are exactly those `copyBitmap` has no fill value for |
| HDRTextureLoader.BytesPerPixel | common/common/HDRTextureLoader.swift:28-37 | a pixel is four components wide on every path |
| HDRTextureLoader.Zeros | common/common/HDRTextureLoader.swift:56 | the staging buffer has `bytesPerImage` bytes, modelled as zeros |
| HDRTextureLoader.FloatPathFits | common/common/HDRTextureLoader.swift:42-61 | on the float paths the staging buffer is large enough for every pixel `copyBitmap` writes |
| HDRTextureLoader.Load | common/common/HDRTextureLoader.swift:19-82 | an unsupported component size throws and only that; otherwise a texture of the image's size in the chosen format, whose row pitch is four components times the width, whose level 0 is the drawn bitmap (8-bit) or the copied pixels (float), and which is mipmapped and gets its mipmaps generated exactly when a command queue is given |
| HDRTextureLoader.StageDrawn | common/common/HDRTextureLoader.swift:58-59 | the 8-bit path stages the bytes `drawRGBA8Bitmap` produced |
| HDRTextureLoader.StageFloat | common/common/HDRTextureLoader.swift:60-62 | the float path stages exactly the copied pixels |
| HDRTextureLoader.FloatFill | common/common/HDRTextureLoader.swift:61 | a three-channel float image gets the alpha value 1.0 appended to every pixel and then fills the whole four-component pixel; a four-channel image gets no fill |
| HDRTextureLoader.FloatPixelByte | common/common/HDRTextureLoader.swift:56-62 | each staged byte of a float pixel is the expected colour, alpha or untouched byte |
| HDRTextureLoader.FloatCopiedByte | common/common/HDRTextureLoader.swift:56-62 | byte b of staged pixel p is the source byte, the fill byte, or zero from the fresh buffer, by its position in the pixel |
| TextureCubeLoader.SliceWrite | common/common/TextureCubeLoader.swift:54-63 | slice k is replaced with face k's RGBA bytes, rows of four bytes per pixel times the cube size, and a face of that times the cube size |
| TextureCubeLoader.CubeOps | common/common/TextureCubeLoader.swift:43-72 | the six slice writes in slice order, then one mipmap generation |
| TextureCubeLoader.Load | common/common/TextureCubeLoader.swift:19-75 | anything but six names is the wrong-face-count error; six names with a face that is not cube-size square is the size-mismatch error; otherwise a mipmapped cube of the first image's width built by the six writes and the mipmap pass |
| TextureCubeLoader.CubeSlicesWrittenOnce | common/common/TextureCubeLoader.swift:43-72 | each slice is written exactly once, with its own face's bytes and the cube's row pitch, and mipmaps are generated only at the end |
| BackpackModel.UniformBytes | DeferredShading/DeferredShading/BackpackModel.swift:107-111 | the vertex bytes are the uniforms' four matrices one after another, starting with the model matrix |
| BackpackModel.SubmeshTextureInputs | DeferredShading/DeferredShading/BackpackModel.swift:83-91 | one fragment input per dictionary entry, at the given index, wrapping that submesh's texture in a sub-mesh resource of the same name |
| BackpackModel.WithoutIndex | DeferredShading/DeferredShading/BackpackModel.swift:96-98 | `removeAll` keeps exactly the inputs at other indices |
| BackpackModel.WithoutIndexAtIndex | DeferredShading/DeferredShading/BackpackModel.swift:96-98 | after removal nothing is left at the removed index and the inputs at every other index are unchanged, in order |
| BackpackModel.WithoutIndexIdempotent | DeferredShading/DeferredShading/BackpackModel.swift:95-99 | removing twice is removing once |
| BackpackModel.ReplacedLeavesOne | DeferredShading/DeferredShading/BackpackModel.swift:101-129 | after `addVertexMesh` or `resetUniforms` the appended input is the only one at its index and the last one, and repeating the call changes nothing |
| BackpackModel.InitFragmentInputsOnePerTexture | DeferredShading/DeferredShading/BackpackModel.swift:83-91 | for each base-colour (specular) texture, exactly one fragment input at the diffuse (specular) index names its submesh, the one at the texture's own position in its half of the list, and it carries that texture |
| BackpackModel.BackpackModel.constructor | DeferredShading/DeferredShading/BackpackModel.swift:35-93 | the model is named "Backpack", has identity uniforms, no instance count, primitive type, resources or heaps, draws the mesh's submeshes, binds the mesh at the position index, and has one diffuse input per base-colour texture followed by one specular input per specular texture |
| BackpackModel.BackpackModel.RemoveVertexMesh | DeferredShading/DeferredShading/BackpackModel.swift:95-99 | only the vertex inputs change: every one at the position index is removed |
| BackpackModel.BackpackModel.AddVertexMesh | DeferredShading/DeferredShading/BackpackModel.swift:101-105 | the inputs at the position index are replaced by one mesh input, appended last |
| BackpackModel.BackpackModel.ResetUniforms | DeferredShading/DeferredShading/BackpackModel.swift:117-130 | the uniforms become the given ones and the inputs at the uniforms index are replaced by one byte resource of this model, appended last |
| BackpackModel.BackpackModel.SetVertexBytesTo | DeferredShading/DeferredShading/BackpackModel.swift:107-111 | one `setVertexBytes` call with the uniforms' bytes at the given index |
| BackpackModel.BackpackModel.SetFragmentBytesTo | DeferredShading/DeferredShading/BackpackModel.swift:113-115 | the fragment byte setter writes nothing |
| PostProcess.FragmentFuncNamesDistinct | FrameBuffers/FrameBuffers/Renderer.swift:19-34 | the six effects draw with six different fragment functions: two effects share a shader name exactly when they are the same effect |
| PostProcess.AllCasesOnce | FrameBuffers/FrameBuffers/Renderer.swift:11-17 | `allCases` lists every effect, and lists each one once |
| PostProcess.SupportedPostProcesses | FrameBuffers/FrameBuffers/Renderer.swift:219-228 | the supported effects are all six cases in declaration order |
| PostProcess.NameTable | FrameBuffers/FrameBuffers/Renderer.swift:38-41 | the lazily built dictionary maps each case's name to that case, and holds no key that is not some case's name |
| PostProcess.CaseNamesDistinct | FrameBuffers/FrameBuffers/Renderer.swift:11-17 | the textual names of two cases are equal exactly when the cases are |
| PostProcess.Lookup.constructor | FrameBuffers/FrameBuffers/Renderer.swift:36 | the static lookup dictionary starts empty |
| PostProcess.Lookup.FromRawValue | FrameBuffers/FrameBuffers/Renderer.swift:38-49 | after any lookup the dictionary is the full name table (built on the first call, reused afterwards), and the answer is the case with that name or nil, whatever the cache held before |
| PostProcess.LookupName | FrameBuffers/FrameBuffers/Renderer.swift:43-48 | a string yields a case exactly when it is some case's name, and then the case whose name it is |
| PostProcess.LookupCaseName | FrameBuffers/FrameBuffers/Renderer.swift:38-49 | round trip: looking up the name of any case gives back that case |
| PostProcess.PostPipeline | FrameBuffers/FrameBuffers/Renderer.swift:77-85 | the post-process pipeline draws with the effect's fragment function into the colour texture's pixel format |
| PostProcess.Renderer.constructor | FrameBuffers/FrameBuffers/Renderer.swift:91-149 | a new renderer selects the None effect and keeps the view's colour pixel format |
| PostProcess.Renderer.SetPostProcessMethod | FrameBuffers/FrameBuffers/Renderer.swift:75-89 | selecting an effect records it and rebuilds the post-process pipeline from that effect's fragment function and the unchanged colour format |
| PostProcess.PipelineDeterminesEffect | FrameBuffers/FrameBuffers/Renderer.swift:75-89 | two rebuilt pipelines for the same colour format are equal exactly when the effects are |
| TextRenderer.BitmapSide | Text/Text/Renderer.swift:135-136 | `Int(side + 1)` is at least 1 and covers the glyph's extent with less than one pixel to spare |
| TextRenderer.BuildGlyph | Text/Text/Renderer.swift:135-197 | a freshly built glyph has a one-byte-per-pixel, unmipmapped texture whose sides cover its bounding rectangle, the rectangle's size, its left and top edges as bearing, CoreText's advance and glyph code, and the requested font size |
| TextRenderer.LoadGlyph | Text/Text/Renderer.swift:66-197 | a hit (key present, cached size at least the requested one) returns the stored glyph and leaves the cache alone; a miss builds the glyph and stores it under the key; either way the key then maps to the returned glyph at a sufficient size, and every other key is untouched |
| TextRenderer.ReloadHits | Text/Text/Renderer.swift:69-72 | loading a key again at the same or a smaller size is a hit that returns the same glyph and changes nothing |
| TextRenderer.VertexData | Text/Text/Renderer.swift:252-259 | the vertex bytes hold four floats per vertex (position then texture coordinate), vertex after vertex |
| TextRenderer.Quad | Text/Text/Renderer.swift:247-257 | a glyph's triangle strip visits the texture corners (0,0), (1,0), (0,1), (1,1), each at the glyph's top-left corner plus its size scaled by that texture coordinate |
| TextRenderer.GlyphCommands | Text/Text/Renderer.swift:241-262 | a glyph with code 0 draws nothing; any other glyph binds its quad at vertex index 0, its texture at fragment index 0 and draws one four-vertex triangle strip |
| TextRenderer.PenAfterAppend | Text/Text/Renderer.swift:239-265 | laying out two runs in turn moves the pen as far as laying out their concatenation |
| TextRenderer.DrawnAppend | Text/Text/Renderer.swift:239-265 | drawing a concatenation is drawing the first run and then the second from where the first left the pen |
| TextRenderer.DrawnAt | Text/Text/Renderer.swift:239-265 | glyph i is drawn at the origin moved right by the advances of the glyphs before it, after their calls and before those of the glyphs after it |
| TextRenderer.TextGlyphs | Text/Text/Renderer.swift:239-240 | one glyph is loaded per character of the text |
| TextRenderer.TextGlyphsAppend | Text/Text/Renderer.swift:223-228 | rendering two strings in turn with the cache (and the inout origin) the first leaves is rendering their concatenation |
| TextRenderer.TextGlyphsKeepHit | Text/Text/Renderer.swift:69-72 | a key cached at `FONT_SIZE` or more keeps its glyph through a whole run, and every character with that key is drawn with it |
| TextRenderer.TextGlyphsCached | Text/Text/Renderer.swift:66-197 | after a run every character is cached under (character, stroke mode) with the very glyph it was drawn with, at `FONT_SIZE` or more, and every key the text does not use is untouched |
| TextRenderer.RepeatIsHit | Text/Text/Renderer.swift:66-72 | a character met again in the text is a cache hit: the cache left by the characters before it (the one its load sees, by `TextGlyphsAppend`) holds its key at `FONT_SIZE` or more, so the load returns the stored glyph and changes nothing; each character is rasterised at most once per stroke mode |
| TextRenderer.TextGlyphsStep | Text/Text/Renderer.swift:239-240 | the glyphs of a suffix are the first character's glyph loaded through the current cache, then those of the rest with the cache that load leaves |
| TextRenderer.LayoutStep | Text/Text/Renderer.swift:241-264 | one more glyph appends its calls at the pen the earlier glyphs left and moves the pen right by its advance, never vertically |
| TextRenderer.Renderer.constructor | Text/Text/Renderer.swift:44 | the glyph cache starts empty |
| TextRenderer.Renderer.LoadGlyphs | Text/Text/Renderer.swift:66-198 | the cache and the returned glyph are those of the cache rule above |
| TextRenderer.Renderer.RenderText | Text/Text/Renderer.swift:237-266 | the cache ends as the glyph loads leave it, the encoder receives exactly the glyphs' draw calls in text order, and origin is returned moved right by every glyph's advance, code-0 glyphs included, with y unchanged |
| TextRenderer.Renderer.RenderCharacter | Text/Text/Renderer.swift:239-264 | one loop turn extends the drawn prefix by the next character's glyph, keeping the layout invariant |
| TextRenderer.DrawGlyph | Text/Text/Renderer.swift:241-262 | drawing one loaded glyph appends exactly its calls to the encoder |

## Left out

- I/O, GPU execution and presentation. These cover command buffers, `draw(in:)`, view resizing,
  projection and camera matrices, and everything the FrameBuffers and Text renderers draw besides
  the post-process pipeline selection and the text layout. They depend on the GPU and the window
  system, not on the framework's logic.
- Foreign generators and decoders. These are `MDLMesh`/`MTKMesh` shape generation, `MDLAsset` and
  JSON parsing, `MTKTextureLoader`, texture lookup by name, `NSImage`/`CGImage` decoding,
  `ImageUtils.drawRGBA8Bitmap` and CoreText/CoreGraphics glyph rasterisation. Their results are
  inputs to the model, such as a built mesh request, an `Asset`, a loader function, a decoded
  `BitmapImage`, its drawn bytes, or a `Font`.
- `try!` on framework calls, and force-unwraps of values those calls return. The model assumes the
  calls succeed. A force-unwrap that depends on the data it reads is kept as the `Trap` error,
  for example a material property whose texture URL fails to load in `ModelIOMesh`.
- Geometry computed with `sin`, `cos`, `acos`, `cross` and rotations. These are the torus positions
  and normals and the tube ring positions. A vertex is named by the grid point, or the input point
  and ring slot, it belongs to. Texture coordinates and Bézier points are exact reals.
- Floating-point rounding, NaN and infinity. Every `Float` is a real. For this reason the curve
  builders require `segments >= 1`: with zero segments the source divides by zero and gets NaN. The tube
  builders require `radialSegments >= 1` whenever the source would convert a negative value to
  `UInt32`, which traps.
- `GeometryLines.New3DLines` and `GeometryLines.NewCubicBezier3DCurve`: on the success path they
  require `count >= 1`, because the source's `1..<count` range traps for a count of zero. They also
  require at least two input points, because the first ring reads the second point through a raw
  pointer whatever the count. The only caller passes at least two points.
- `GeometryTorus.NewTorus`: on the success path it requires `radialSegments >= 1` and
  `tubularSegments >= 1`, because the source's `1...radialSegments` and `1...tubularSegments`
  ranges trap when either is zero.
- `JsonMesh.New`: requires that the vertex count fits in `UInt32`. A larger count traps in the
  source.
- `TextRenderer`: a glyph's bounding rectangle has non-negative sides, as CoreText's standardised
  rectangles do. The case where `Int(rect.width + 1)` traps or the bitmap allocation fails is not
  modelled.
- `TextRenderer`: a character's glyph is that of its first UTF-16 unit, as in the source. The font
  name and `FONT_SIZE` scaling of the bitmap are part of the `Font` input.
- Uninitialised memory. The staging buffers of both texture loaders come from `allocate` and are
  not initialised. They are modelled as zero-filled, so the bytes the copy never writes are zero.
- `ImageUtils.CopyBitmap`: requires the caller guarantees the source states only in its comments.
  The destination must hold every pixel, and the image's bytes must be tightly packed, with no
  padding at row ends.
- Uniform structs. `BackpackModel`'s uniforms are four matrices (model, view, projection, normal)
  supplied by the caller as sequences of reals. `setVertexBytes` is modelled as those values one
  after another, without the struct's padding. How the sample computes the matrices is not modelled.
- `Transform`: the model matrix is a word of uninterpreted factors. The source's weak `parent`
  reference and deallocation are not modelled. Recursion through the children lists is modelled
  under a ghost rank, which holds exactly when the graph has no cycle. The source would recurse
  forever on a cycle.
- `TextRenderer`: text is a sequence of single Unicode scalars (Dafny `char`). Swift iterates a
  `String` by `Character`, so a grapheme cluster of several scalars (a letter followed by a
  combining accent) is one glyph there and several here. Keys that Swift would compare equal by
  canonical equivalence are distinct keys here.
- `RenderPipeline`: a model's `vertexInputs`, `fragmentInputs` and `drawResource` are implicitly
  unwrapped optionals of the `Model` protocol in the source, supplied by each conforming type. The model makes them plain
  fields that always hold a value, so the trap when one is still nil at draw time is not modelled.
- Dictionary iteration order. This is the order of `attributesMap`, of a model's textures, and of a
  material's properties. The model takes it as an input, given as an entry list with distinct
  keys.
- RenderPipeline descriptors beyond what `RenderPipeline.init` copies from its render targets. The
  model keeps the colour attachment formats and the depth format. It does not keep blending state,
  functions, or vertex descriptors.
- `setVertexMesh(_:index:)` and `drawMesh(_:instanceCount:)`, which `RenderPipeline` calls, are
  defined outside the modelled files. Each call is recorded as one opaque encoder command
  (`SetVertexMesh`, `DrawSubmesh`). The encoder calls these helpers make, and the vertex data they
  refer to, are not modelled.
- `TextureCubeLoader.Load`: when it throws part way through, the slices already written stay
  written in a texture the caller never receives. The model returns only the error.
- `HDRTextureLoader.Load`: the mipmap generation blit is a flag on the result texture.
- `MetalBuffer.MetalBuffer.Assign`: requires `0 <= at < count`, the evidently intended guard,
  where the source's precondition also admits negative indices (see Findings).
- `MetalBuffer.MetalBuffer.Get`: requires `0 <= at < count` for the same reason.

## Findings

| source | as written | input that shows it | evidently intended | confidence | as-written member | corrected member |
|---|---|---|---|---|---|---|
| common/common/MetalBuffer.swift:56-72 | `assign(_:at:)` checks `index <= count - 1` and the subscript checks `stride * index <= buffer.length - stride`; neither rejects a negative index | index -1 on any buffer: both guards pass and the access lands one element before the buffer's memory | only element indices `0 <= index < count` are accepted | high for the guard logic; not executed | `MetalBuffer.NegativeIndexPassesGuards` | `MetalBuffer.MetalBuffer.Assign`, with `MetalBuffer.GuardsOnNonNegativeIndices` |
