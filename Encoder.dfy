/**
 * The Metal objects the framework hands around, by identity, and the render command encoder as an
 * append-only log of the calls made on it. Everything the GPU does with those calls is outside the
 * model; what is modelled is which calls are made, with which arguments, in which order.
 */
module Encoder {
  import opened Common

  /** Identities of Metal objects created by frameworks the model does not include. */
  type BufferId = int
  type TextureId = int
  type HeapId = int
  type ResourceId = int
  type MeshId = int

  /** `MTLPrimitiveType` */
  datatype PrimitiveType = Point | Line | LineStrip | Triangle | TriangleStrip

  /** `MTLIndexType` */
  datatype IndexType = UInt16 | UInt32

  /** `MTKMeshBuffer`: a buffer and the offset of the mesh data inside it. */
  datatype MeshBuffer = MeshBuffer(buffer: BufferId, offset: int)

  /** `MTKSubmesh`: a named range of indices drawn with one primitive type. */
  datatype Submesh = Submesh(
    name: string,
    primitiveType: PrimitiveType,
    indexCount: int,
    indexType: IndexType,
    indexBuffer: MeshBuffer)

  /** `MTKMesh`: vertex buffers plus submeshes. */
  datatype Mesh = Mesh(id: MeshId, vertexBuffers: seq<MeshBuffer>, submeshes: seq<Submesh>)

  /**
   * One call on an `MTLRenderCommandEncoder`. An absent `instanceCount` is the overload without
   * that argument. `DrawSubmesh` is the `drawMesh(_:instanceCount:)` helper, whose body is not part
   * of this model; `SetVertexMesh` likewise stands for `setVertexMesh(_:index:)`.
   */
  datatype Command =
    | PushDebugGroup(groupName: string)
    | PopDebugGroup
    | UseHeap(heap: HeapId)
    | UseHeaps(heaps: seq<HeapId>)
    | UseResource(resource: ResourceId, usage: int)
    | SetVertexBytes(data: seq<real>, index: int)
    | SetFragmentBytes(data: seq<real>, index: int)
    | SetVertexBuffer(buffer: BufferId, offset: int, index: int)
    | SetFragmentBuffer(buffer: BufferId, offset: int, index: int)
    | SetVertexTexture(texture: TextureId, index: int)
    | SetFragmentTexture(texture: TextureId, index: int)
    | SetVertexMesh(mesh: MeshId, index: int)
    | DrawPrimitives(primitive: PrimitiveType, vertexStart: int, vertexCount: int, instanceCount: Option<int>)
    | DrawPrimitivesIndirect(primitive: PrimitiveType, indirectBuffer: BufferId, indirectOffset: int)
    | DrawIndexedPrimitives(
        primitive: PrimitiveType, indexCount: int, indexType: IndexType,
        indexBuffer: BufferId, indexBufferOffset: int, instanceCount: Option<int>)
    | DrawIndexedIndirect(
        primitive: PrimitiveType, indexType: IndexType, indexBuffer: BufferId, indexBufferOffset: int,
        indirectBuffer: BufferId, indirectOffset: int)
    | DrawSubmesh(submesh: Submesh, instanceCount: Option<int>)

  /** The indexed draw of one submesh, with its own primitive type and index buffer. */
  function SubmeshDraw(s: Submesh, instanceCount: Option<int>): Command {
    DrawIndexedPrimitives(s.primitiveType, s.indexCount, s.indexType, s.indexBuffer.buffer,
                          s.indexBuffer.offset, instanceCount)
  }

  /**
   * The binds made by a loop over a mesh's vertex buffers, in order, all at `index` and each at
   * `offset` plus the buffer's own offset.
   */
  function VertexBufferBinds(buffers: seq<MeshBuffer>, offset: int, index: int): seq<Command> {
    if |buffers| == 0 then []
    else
      var last := buffers[|buffers| - 1];
      VertexBufferBinds(buffers[..|buffers| - 1], offset, index) + [SetVertexBuffer(last.buffer, offset + last.offset, index)]
  }

  /** The draws made by a loop over submeshes, in order, one indexed draw each. */
  function SubmeshDraws(submeshes: seq<Submesh>, instanceCount: Option<int>): seq<Command> {
    if |submeshes| == 0 then []
    else SubmeshDraws(submeshes[..|submeshes| - 1], instanceCount) + [SubmeshDraw(submeshes[|submeshes| - 1], instanceCount)]
  }

  /** One bind per vertex buffer, the k-th for buffer k, all at the same index. */
  lemma {:induction false} VertexBufferBindsAt(buffers: seq<MeshBuffer>, offset: int, index: int)
    ensures |VertexBufferBinds(buffers, offset, index)| == |buffers|
    ensures forall k :: 0 <= k < |buffers| ==>
      VertexBufferBinds(buffers, offset, index)[k]
        == SetVertexBuffer(buffers[k].buffer, offset + buffers[k].offset, index)
    decreases |buffers|
  {
    if |buffers| > 0 {
      VertexBufferBindsAt(buffers[..|buffers| - 1], offset, index);
    }
  }

  /** One indexed draw per submesh, the k-th for submesh k, each with the same instance count. */
  lemma {:induction false} SubmeshDrawsAt(submeshes: seq<Submesh>, instanceCount: Option<int>)
    ensures |SubmeshDraws(submeshes, instanceCount)| == |submeshes|
    ensures forall k :: 0 <= k < |submeshes| ==>
      SubmeshDraws(submeshes, instanceCount)[k] == SubmeshDraw(submeshes[k], instanceCount)
    decreases |submeshes|
  {
    if |submeshes| > 0 {
      SubmeshDrawsAt(submeshes[..|submeshes| - 1], instanceCount);
    }
  }

  /** The render command encoder; `log` is every call made on it so far, oldest first. */
  class RenderCommandEncoder {
    var log: seq<Command>

    constructor()
      ensures log == []
    {
      log := [];
    }

    /** Records one call. */
    method Emit(c: Command)
      modifies this
      ensures log == old(log) + [c]
    {
      log := log + [c];
    }
  }
}
