/**
 * `drawModel`: a `Model` — inputs for the vertex and fragment stages, resources and heaps to make
 * resident, and one draw command — turned into an ordered run of encoder calls, bracketed by a
 * debug group; and the render-target loop of `RenderPipeline.init`.
 *
 * A fragment input that is a mesh throws; the calls made before the throw stay made, so a run is
 * described by the calls it makes and the error, if any, that ended it.
 */
module RenderPipeline {
  import opened Common
  import opened Encoder

  /**
   * What a `Model`'s `setVertexBytes(in:index:)` and `setFragmentBytes(in:index:)` hand the
   * encoder; `None` when the implementation makes no call.
   */
  datatype ModelBytes = ModelBytes(vertex: Option<seq<real>>, fragment: Option<seq<real>>)

  /** `MetalResource`. A `ByteResource` stands for its model by what that model's byte setters write. */
  datatype MetalResource =
    | ByteResource(model: ModelBytes)
    | BufferResource(buffer: BufferId, offset: int)
    | TextureResource(texture: TextureId)
    | MeshResource(metalMesh: MeshId)
    | MTKMeshResource(mesh: Mesh)
    | SubMeshResource(name: string, resource: MetalResource)

  /** `DrawCommand` */
  datatype DrawCommand =
    | Vertex(vertexStart: int, vertexCount: int)
    | MTKSubMesh(submeshes: seq<Submesh>)
    | IndirectBuffer(indirectBuffer: BufferId, offset: int)
    | IndexBuffer(indexBuffer: BufferId, indexCount: int, indexType: IndexType, indexBufferOffset: int)
    | IndexedIndirectBuffer(indirectBuffer: BufferId, indirectBufferOffset: int, indexBuffer: BufferId,
                            indexType: IndexType, indexBufferOffset: int)

  /** A value conforming to the `Model` protocol, read at the time of the draw. */
  datatype Model = Model(
    vertexInputs: seq<(int, MetalResource)>,
    fragmentInputs: seq<(int, MetalResource)>,
    drawResource: DrawCommand,
    primitiveType: Option<PrimitiveType>,
    resources: Option<seq<(ResourceId, int)>>,
    heaps: Option<seq<HeapId>>,
    instanceCount: Option<int>,
    name: string)

  /** The calls a run made, and the error that ended it early, if one did. */
  datatype Emitted = Emitted(calls: seq<Command>, error: Option<Error>)

  function Plain(calls: seq<Command>): Emitted {
    Emitted(calls, None)
  }

  /** Run a, then b unless a threw. */
  function Then(a: Emitted, b: Emitted): Emitted {
    if a.error.Some? then a else Emitted(a.calls + b.calls, b.error)
  }

  /** The result a `throws` function returns for a run. */
  function Outcome(e: Emitted): Result<()> {
    if e.error.Some? then Err(e.error.value) else Ok(())
  }

  /** c binds something at argument-table index `index`. */
  predicate BindsAt(c: Command, index: int) {
    && (c.SetVertexBytes? || c.SetFragmentBytes? || c.SetVertexBuffer? || c.SetFragmentBuffer?
        || c.SetVertexTexture? || c.SetFragmentTexture? || c.SetVertexMesh?)
    && c.index == index
  }

  predicate NoPop(calls: seq<Command>) {
    forall k :: 0 <= k < |calls| ==> !calls[k].PopDebugGroup?
  }

  // ---------------------------------------------------------------------------------------------
  // One resource

  /**
   * `setVertexResource(_:index:)`: at most one call, binding at `index`; none for a sub-mesh
   * resource (bound per submesh instead) or a model that writes no vertex bytes.
   */
  function VertexResourceCalls(res: MetalResource, index: int): (r: seq<Command>)
    ensures |r| <= 1
    ensures r == [] <==> res.SubMeshResource? || (res.ByteResource? && res.model.vertex.None?)
    ensures forall k :: 0 <= k < |r| ==> BindsAt(r[k], index)
  {
    match res
    case ByteResource(m) => if m.vertex.Some? then [SetVertexBytes(m.vertex.value, index)] else []
    case BufferResource(b, offset) => [SetVertexBuffer(b, offset, index)]
    case TextureResource(t) => [SetVertexTexture(t, index)]
    case MeshResource(m) => [SetVertexMesh(m, index)]
    case MTKMeshResource(m) => [SetVertexMesh(m.id, index)]
    case SubMeshResource(_, _) => []
  }

  /**
   * `setFragmentResouce(_:index:)`: throws, calling nothing, exactly for the two mesh resources;
   * otherwise at most one call, binding at `index`, and none for a sub-mesh resource.
   */
  function FragmentResourceCalls(res: MetalResource, index: int): (r: Emitted)
    ensures r.error.Some? <==> res.MTKMeshResource? || res.MeshResource?
    ensures r.error.Some? ==> r.calls == [] && r.error == Some(UnsupportedResource)
    ensures |r.calls| <= 1
    ensures res.SubMeshResource? ==> r.calls == []
    ensures forall k :: 0 <= k < |r.calls| ==> BindsAt(r.calls[k], index)
  {
    match res
    case ByteResource(m) => Plain(if m.fragment.Some? then [SetFragmentBytes(m.fragment.value, index)] else [])
    case BufferResource(b, offset) => Plain([SetFragmentBuffer(b, offset, index)])
    case TextureResource(t) => Plain([Command.SetFragmentTexture(t, index)])
    case SubMeshResource(_, _) => Plain([])
    case MTKMeshResource(_) => Emitted([], Some(UnsupportedResource))
    case MeshResource(_) => Emitted([], Some(UnsupportedResource))
  }

  method SetVertexResource(enc: RenderCommandEncoder, res: MetalResource, index: int)
    modifies enc
    ensures enc.log == old(enc.log) + VertexResourceCalls(res, index)
  {
    match res {
      case ByteResource(m) =>
        if m.vertex.Some? {
          enc.Emit(SetVertexBytes(m.vertex.value, index));
        }
      case BufferResource(b, offset) => enc.Emit(SetVertexBuffer(b, offset, index));
      case TextureResource(t) => enc.Emit(SetVertexTexture(t, index));
      case MeshResource(m) => enc.Emit(SetVertexMesh(m, index));
      case MTKMeshResource(m) => enc.Emit(SetVertexMesh(m.id, index));
      case SubMeshResource(_, _) =>
    }
  }

  method SetFragmentResource(enc: RenderCommandEncoder, res: MetalResource, index: int) returns (r: Result<()>)
    modifies enc
    ensures enc.log == old(enc.log) + FragmentResourceCalls(res, index).calls
    ensures r == Outcome(FragmentResourceCalls(res, index))
  {
    match res {
      case ByteResource(m) =>
        if m.fragment.Some? {
          enc.Emit(SetFragmentBytes(m.fragment.value, index));
        }
      case BufferResource(b, offset) => enc.Emit(SetFragmentBuffer(b, offset, index));
      case TextureResource(t) => enc.Emit(Command.SetFragmentTexture(t, index));
      case SubMeshResource(_, _) =>
      case MTKMeshResource(_) => return Err(UnsupportedResource);
      case MeshResource(_) => return Err(UnsupportedResource);
    }
    r := Ok(());
  }

  // ---------------------------------------------------------------------------------------------
  // The steps of a draw, as functions of the model

  /** `useHeap` for a single heap, `useHeaps` for several, nothing for nil or none. */
  function HeapCalls(heaps: Option<seq<HeapId>>): seq<Command> {
    if heaps.None? || |heaps.value| == 0 then []
    else if |heaps.value| == 1 then [UseHeap(heaps.value[0])]
    else [UseHeaps(heaps.value)]
  }

  /** The heaps a run of calls makes resident. */
  function HeapsUsed(calls: seq<Command>): set<HeapId> {
    if |calls| == 0 then {}
    else
      var c := calls[|calls| - 1];
      HeapsUsed(calls[..|calls| - 1])
        + (if c.UseHeap? then {c.heap} else if c.UseHeaps? then set k | 0 <= k < |c.heaps| :: c.heaps[k] else {})
  }

  /** One `useResource` per (resource, usage) pair, in order. */
  function UseResourceCalls(resources: seq<(ResourceId, int)>): seq<Command> {
    if |resources| == 0 then []
    else
      var last := resources[|resources| - 1];
      UseResourceCalls(resources[..|resources| - 1]) + [UseResource(last.0, last.1)]
  }

  function OptionalUseResourceCalls(resources: Option<seq<(ResourceId, int)>>): seq<Command> {
    if resources.Some? then UseResourceCalls(resources.value) else []
  }

  /** The vertex-input loop: each input's calls, in order. */
  function VertexInputCalls(inputs: seq<(int, MetalResource)>): seq<Command> {
    if |inputs| == 0 then []
    else
      var last := inputs[|inputs| - 1];
      VertexInputCalls(inputs[..|inputs| - 1]) + VertexResourceCalls(last.1, last.0)
  }

  /** The fragment-input loop, which stops at the first input that throws. */
  function FragmentInputCalls(inputs: seq<(int, MetalResource)>): Emitted {
    if |inputs| == 0 then Plain([])
    else
      var last := inputs[|inputs| - 1];
      Then(FragmentInputCalls(inputs[..|inputs| - 1]), FragmentResourceCalls(last.1, last.0))
  }

  /** The sub-mesh vertex inputs named `name`, unwrapped, with their indices. */
  function Selected(inputs: seq<(int, MetalResource)>, name: string): seq<(int, MetalResource)> {
    if |inputs| == 0 then []
    else
      var last := inputs[|inputs| - 1];
      Selected(inputs[..|inputs| - 1], name)
        + (if last.1.SubMeshResource? && last.1.name == name then [(last.0, last.1.resource)] else [])
  }

  /** The per-submesh vertex loop: re-bind the sub-mesh inputs whose name is the submesh's. */
  function SubmeshVertexCalls(inputs: seq<(int, MetalResource)>, name: string): seq<Command> {
    if |inputs| == 0 then []
    else
      var last := inputs[|inputs| - 1];
      SubmeshVertexCalls(inputs[..|inputs| - 1], name)
        + (if last.1.SubMeshResource? && last.1.name == name then VertexResourceCalls(last.1.resource, last.0) else [])
  }

  /** The per-submesh fragment loop, which stops at the first input that throws. */
  function SubmeshFragmentCalls(inputs: seq<(int, MetalResource)>, name: string): Emitted {
    if |inputs| == 0 then Plain([])
    else
      var last := inputs[|inputs| - 1];
      Then(SubmeshFragmentCalls(inputs[..|inputs| - 1], name),
           if last.1.SubMeshResource? && last.1.name == name then FragmentResourceCalls(last.1.resource, last.0)
           else Plain([]))
  }

  /** One submesh: its vertex inputs, its fragment inputs, then its draw. */
  function OneSubmeshCalls(m: Model, s: Submesh): Emitted {
    Then(Plain(SubmeshVertexCalls(m.vertexInputs, s.name)),
         Then(SubmeshFragmentCalls(m.fragmentInputs, s.name), Plain([DrawSubmesh(s, m.instanceCount)])))
  }

  /** The `MTKSubMesh` case from the k-th submesh on: each in order, stopping at the first throw. */
  function SubmeshCalls(m: Model, submeshes: seq<Submesh>, k: nat): Emitted
    decreases |submeshes| - k
  {
    if k >= |submeshes| then Plain([])
    else Then(OneSubmeshCalls(m, submeshes[k]), SubmeshCalls(m, submeshes, k + 1))
  }

  /** `model.primitiveType ?? .triangle` */
  function PrimitiveOf(m: Model): (p: PrimitiveType)
    ensures m.primitiveType.None? ==> p == Triangle
    ensures m.primitiveType.Some? ==> p == m.primitiveType.value
  {
    if m.primitiveType.Some? then m.primitiveType.value else Triangle
  }

  /** `model.instanceCount ?? 1` */
  function InstancesOf(m: Model): (n: int)
    ensures m.instanceCount.None? ==> n == 1
    ensures m.instanceCount.Some? ==> n == m.instanceCount.value
  {
    if m.instanceCount.Some? then m.instanceCount.value else 1
  }

  /** The draw step, by the model's draw command. */
  function DrawCalls(m: Model): Emitted {
    match m.drawResource
    case Vertex(start, count) => Plain([DrawPrimitives(PrimitiveOf(m), start, count, Some(InstancesOf(m)))])
    case MTKSubMesh(submeshes) => SubmeshCalls(m, submeshes, 0)
    case IndirectBuffer(b, offset) => Plain([DrawPrimitivesIndirect(PrimitiveOf(m), b, offset)])
    case IndexBuffer(b, n, t, offset) => Plain([DrawIndexedPrimitives(PrimitiveOf(m), n, t, b, offset, Some(InstancesOf(m)))])
    case IndexedIndirectBuffer(ib, ioffset, b, t, offset) =>
      Plain([DrawIndexedIndirect(PrimitiveOf(m), t, b, offset, ib, ioffset)])
  }

  /** The calls before the fragment inputs, none of which can throw. */
  function SetupCalls(m: Model): seq<Command> {
    [PushDebugGroup("Draw Model")] + HeapCalls(m.heaps) + OptionalUseResourceCalls(m.resources)
      + VertexInputCalls(m.vertexInputs)
  }

  /**
   * `drawModel(_:)`: push the debug group, heaps, resources, vertex inputs, fragment inputs, the
   * draw, pop the debug group; a throw ends the run where it happens.
   */
  function DrawModelCalls(m: Model): Emitted {
    Then(Plain(SetupCalls(m)), Then(FragmentInputCalls(m.fragmentInputs), Then(DrawCalls(m), Plain([PopDebugGroup]))))
  }

  // ---------------------------------------------------------------------------------------------
  // The methods, each proved to make the calls its function describes

  method UseModelHeaps(enc: RenderCommandEncoder, heaps: Option<seq<HeapId>>)
    modifies enc
    ensures enc.log == old(enc.log) + HeapCalls(heaps)
  {
    if heaps.Some? && |heaps.value| > 0 {
      if |heaps.value| == 1 {
        enc.Emit(UseHeap(heaps.value[0]));
      } else {
        enc.Emit(Command.UseHeaps(heaps.value));
      }
    }
  }

  method UseResources(enc: RenderCommandEncoder, resources: Option<seq<(ResourceId, int)>>)
    modifies enc
    ensures enc.log == old(enc.log) + OptionalUseResourceCalls(resources)
  {
    if resources.Some? {
      var rs := resources.value;
      for k := 0 to |rs|
        invariant enc.log == old(enc.log) + UseResourceCalls(rs[..k])
      {
        assert rs[..k + 1][..k] == rs[..k];
        enc.Emit(UseResource(rs[k].0, rs[k].1));
      }
      assert rs[..|rs|] == rs;
    }
  }

  method SetVertexInputs(enc: RenderCommandEncoder, inputs: seq<(int, MetalResource)>)
    modifies enc
    ensures enc.log == old(enc.log) + VertexInputCalls(inputs)
  {
    for k := 0 to |inputs|
      invariant enc.log == old(enc.log) + VertexInputCalls(inputs[..k])
    {
      assert inputs[..k + 1][..k] == inputs[..k];
      SetVertexResource(enc, inputs[k].1, inputs[k].0);
    }
    assert inputs[..|inputs|] == inputs;
  }

  method SetFragmentInputs(enc: RenderCommandEncoder, inputs: seq<(int, MetalResource)>) returns (r: Result<()>)
    modifies enc
    ensures enc.log == old(enc.log) + FragmentInputCalls(inputs).calls
    ensures r == Outcome(FragmentInputCalls(inputs))
  {
    for k := 0 to |inputs|
      invariant enc.log == old(enc.log) + FragmentInputCalls(inputs[..k]).calls
      invariant FragmentInputCalls(inputs[..k]).error.None?
    {
      assert inputs[..k + 1][..k] == inputs[..k];
      var step := SetFragmentResource(enc, inputs[k].1, inputs[k].0);
      if step.Err? {
        FragmentInputsStopAtThrow(inputs, k + 1);
        return step;
      }
    }
    assert inputs[..|inputs|] == inputs;
    r := Ok(());
  }

  /** The vertex half of one submesh's set-up. */
  method SetSubmeshVertexInputs(enc: RenderCommandEncoder, inputs: seq<(int, MetalResource)>, name: string)
    modifies enc
    ensures enc.log == old(enc.log) + SubmeshVertexCalls(inputs, name)
  {
    for k := 0 to |inputs|
      invariant enc.log == old(enc.log) + SubmeshVertexCalls(inputs[..k], name)
    {
      assert inputs[..k + 1][..k] == inputs[..k];
      var (index, res) := inputs[k];
      if res.SubMeshResource? && res.name == name {
        SetVertexResource(enc, res.resource, index);
      }
    }
    assert inputs[..|inputs|] == inputs;
  }

  /** The fragment half of one submesh's set-up. */
  method SetSubmeshFragmentInputs(enc: RenderCommandEncoder, inputs: seq<(int, MetalResource)>, name: string)
    returns (r: Result<()>)
    modifies enc
    ensures enc.log == old(enc.log) + SubmeshFragmentCalls(inputs, name).calls
    ensures r == Outcome(SubmeshFragmentCalls(inputs, name))
  {
    for k := 0 to |inputs|
      invariant enc.log == old(enc.log) + SubmeshFragmentCalls(inputs[..k], name).calls
      invariant SubmeshFragmentCalls(inputs[..k], name).error.None?
    {
      assert inputs[..k + 1][..k] == inputs[..k];
      var (index, res) := inputs[k];
      if res.SubMeshResource? && res.name == name {
        var step := SetFragmentResource(enc, res.resource, index);
        if step.Err? {
          SubmeshFragmentStopsAtThrow(inputs, name, k + 1);
          return step;
        }
      }
    }
    assert inputs[..|inputs|] == inputs;
    r := Ok(());
  }

  /** One turn of the `MTKSubMesh` loop. */
  method DrawOneSubmesh(enc: RenderCommandEncoder, m: Model, s: Submesh) returns (r: Result<()>)
    modifies enc
    ensures enc.log == old(enc.log) + OneSubmeshCalls(m, s).calls
    ensures r == Outcome(OneSubmeshCalls(m, s))
  {
    ghost var log0 := enc.log;
    SetSubmeshVertexInputs(enc, m.vertexInputs, s.name);
    r := SetSubmeshFragmentInputs(enc, m.fragmentInputs, s.name);
    OneSubmeshShape(m, s);
    ghost var vertex, frag := SubmeshVertexCalls(m.vertexInputs, s.name), SubmeshFragmentCalls(m.fragmentInputs, s.name).calls;
    AppendAssoc(log0, vertex, frag);
    if r.Err? {
      return;
    }
    enc.Emit(DrawSubmesh(s, m.instanceCount));
    AppendAssoc(log0, vertex + frag, [DrawSubmesh(s, m.instanceCount)]);
  }

  /** The `MTKSubMesh` loop: what is still to come, after what has been drawn, is the whole run. */
  method DrawSubmeshes(enc: RenderCommandEncoder, m: Model, submeshes: seq<Submesh>) returns (r: Result<()>)
    modifies enc
    ensures enc.log == old(enc.log) + SubmeshCalls(m, submeshes, 0).calls
    ensures r == Outcome(SubmeshCalls(m, submeshes, 0))
  {
    for k := 0 to |submeshes|
      invariant enc.log + SubmeshCalls(m, submeshes, k).calls == old(enc.log) + SubmeshCalls(m, submeshes, 0).calls
      invariant SubmeshCalls(m, submeshes, k).error == SubmeshCalls(m, submeshes, 0).error
    {
      ghost var log := enc.log;
      var step := DrawOneSubmesh(enc, m, submeshes[k]);
      if step.Err? {
        return step;
      }
      AppendAssoc(log, OneSubmeshCalls(m, submeshes[k]).calls, SubmeshCalls(m, submeshes, k + 1).calls);
    }
    r := Ok(());
  }

  method Draw(enc: RenderCommandEncoder, m: Model) returns (r: Result<()>)
    modifies enc
    ensures enc.log == old(enc.log) + DrawCalls(m).calls
    ensures r == Outcome(DrawCalls(m))
  {
    match m.drawResource {
      case Vertex(start, count) =>
        enc.Emit(DrawPrimitives(PrimitiveOf(m), start, count, Some(InstancesOf(m))));
        r := Ok(());
      case MTKSubMesh(submeshes) =>
        r := DrawSubmeshes(enc, m, submeshes);
      case IndirectBuffer(b, offset) =>
        enc.Emit(DrawPrimitivesIndirect(PrimitiveOf(m), b, offset));
        r := Ok(());
      case IndexBuffer(b, n, t, offset) =>
        enc.Emit(DrawIndexedPrimitives(PrimitiveOf(m), n, t, b, offset, Some(InstancesOf(m))));
        r := Ok(());
      case IndexedIndirectBuffer(ib, ioffset, b, t, offset) =>
        enc.Emit(DrawIndexedIndirect(PrimitiveOf(m), t, b, offset, ib, ioffset));
        r := Ok(());
    }
  }

  /** Everything `drawModel` does before its fragment inputs. */
  method BeginDraw(enc: RenderCommandEncoder, m: Model)
    modifies enc
    ensures enc.log == old(enc.log) + SetupCalls(m)
  {
    enc.Emit(PushDebugGroup("Draw Model"));
    UseModelHeaps(enc, m.heaps);
    UseResources(enc, m.resources);
    SetVertexInputs(enc, m.vertexInputs);
  }

  method DrawModel(enc: RenderCommandEncoder, m: Model) returns (r: Result<()>)
    modifies enc
    ensures enc.log == old(enc.log) + DrawModelCalls(m).calls
    ensures r == Outcome(DrawModelCalls(m))
  {
    ghost var log0 := enc.log;
    BeginDraw(enc, m);
    r := SetFragmentInputs(enc, m.fragmentInputs);
    DrawModelShape(m);
    ghost var setup, frag := SetupCalls(m), FragmentInputCalls(m.fragmentInputs).calls;
    AppendAssoc(log0, setup, frag);
    if r.Err? {
      return;
    }
    r := Draw(enc, m);
    AppendAssoc(log0, setup + frag, DrawCalls(m).calls);
    if r.Err? {
      return;
    }
    enc.Emit(PopDebugGroup);
    AppendAssoc(log0, setup + frag + DrawCalls(m).calls, [PopDebugGroup]);
  }

  // ---------------------------------------------------------------------------------------------
  // Properties

  /** One submesh's calls, with the nested `Then`s spelt out. */
  lemma OneSubmeshShape(m: Model, s: Submesh)
    ensures var frag := SubmeshFragmentCalls(m.fragmentInputs, s.name);
      && OneSubmeshCalls(m, s).error == frag.error
      && OneSubmeshCalls(m, s).calls == SubmeshVertexCalls(m.vertexInputs, s.name) + frag.calls
           + (if frag.error.None? then [DrawSubmesh(s, m.instanceCount)] else [])
  {
  }

  /** A draw's calls, with the nested `Then`s spelt out. */
  lemma DrawModelShape(m: Model)
    ensures var frag := FragmentInputCalls(m.fragmentInputs);
      var draw := DrawCalls(m);
      && (frag.error.Some? ==> DrawModelCalls(m) == Emitted(SetupCalls(m) + frag.calls, frag.error))
      && (frag.error.None? && draw.error.Some? ==>
           DrawModelCalls(m) == Emitted(SetupCalls(m) + frag.calls + draw.calls, draw.error))
      && (frag.error.None? && draw.error.None? ==>
           DrawModelCalls(m) == Emitted(SetupCalls(m) + frag.calls + draw.calls + [PopDebugGroup], None))
  {
  }

  /** Once the fragment loop has thrown, the later inputs are never reached. */
  lemma {:induction false} FragmentInputsStopAtThrow(inputs: seq<(int, MetalResource)>, k: nat)
    requires k <= |inputs| && FragmentInputCalls(inputs[..k]).error.Some?
    ensures FragmentInputCalls(inputs) == FragmentInputCalls(inputs[..k])
    decreases |inputs|
  {
    if k < |inputs| {
      var prefix := inputs[..|inputs| - 1];
      assert prefix[..k] == inputs[..k];
      FragmentInputsStopAtThrow(prefix, k);
    } else {
      assert inputs[..k] == inputs;
    }
  }

  lemma {:induction false} SubmeshFragmentStopsAtThrow(inputs: seq<(int, MetalResource)>, name: string, k: nat)
    requires k <= |inputs| && SubmeshFragmentCalls(inputs[..k], name).error.Some?
    ensures SubmeshFragmentCalls(inputs, name) == SubmeshFragmentCalls(inputs[..k], name)
    decreases |inputs|
  {
    if k < |inputs| {
      var prefix := inputs[..|inputs| - 1];
      assert prefix[..k] == inputs[..k];
      SubmeshFragmentStopsAtThrow(prefix, name, k);
    } else {
      assert inputs[..k] == inputs;
    }
  }

  /** Once a submesh throws, the later submeshes are never bound or drawn: they make no difference. */
  lemma {:induction false} SubmeshesStopAtThrow(m: Model, submeshes: seq<Submesh>, k: nat, j: nat)
    requires k <= j < |submeshes|
    requires OneSubmeshCalls(m, submeshes[j]).error.Some?
    ensures SubmeshCalls(m, submeshes, k) == SubmeshCalls(m, submeshes[..j + 1], k)
    decreases j - k
  {
    if k < j {
      SubmeshesStopAtThrow(m, submeshes, k + 1, j);
    }
  }

  /** Every heap given is made resident, and no other, whichever of the two calls is used. */
  lemma HeapCallsUseEveryHeap(heaps: Option<seq<HeapId>>)
    ensures heaps.None? ==> HeapCalls(heaps) == []
    ensures heaps.Some? ==> HeapsUsed(HeapCalls(heaps)) == set k | 0 <= k < |heaps.value| :: heaps.value[k]
    ensures |HeapCalls(heaps)| <= 1
    ensures heaps.Some? && |heaps.value| == 1 ==> HeapCalls(heaps) == [UseHeap(heaps.value[0])]
  {
    if heaps.Some? {
      var hs := heaps.value;
      var cs := HeapCalls(heaps);
      if |hs| == 0 {
      } else if |hs| == 1 {
        assert cs[..0] == [];
        assert (set k | 0 <= k < |hs| :: hs[k]) == {hs[0]};
      } else {
        assert cs[..0] == [];
      }
    }
  }

  /**
   * The sub-mesh vertex loop binds exactly the unwrapped sub-mesh inputs carrying the submesh's
   * name, in input order, as the top-level vertex loop would bind them.
   */
  lemma {:induction false} SubmeshRebindsOnlyNamed(inputs: seq<(int, MetalResource)>, name: string)
    ensures SubmeshVertexCalls(inputs, name) == VertexInputCalls(Selected(inputs, name))
    decreases |inputs|
  {
    if |inputs| > 0 {
      var prefix := inputs[..|inputs| - 1];
      var last := inputs[|inputs| - 1];
      SubmeshRebindsOnlyNamed(prefix, name);
      var sel := Selected(prefix, name);
      if last.1.SubMeshResource? && last.1.name == name {
        var sel' := sel + [(last.0, last.1.resource)];
        assert sel'[..|sel'| - 1] == sel;
      } else {
        assert Selected(inputs, name) == sel;
      }
    }
  }

  /** Each selected input is a sub-mesh input of that name, so nothing else is re-bound. */
  lemma {:induction false} SelectedAreNamed(inputs: seq<(int, MetalResource)>, name: string)
    ensures forall j :: 0 <= j < |Selected(inputs, name)| ==>
      exists k :: (0 <= k < |inputs| && inputs[k].1.SubMeshResource? && inputs[k].1.name == name
        && Selected(inputs, name)[j] == (inputs[k].0, inputs[k].1.resource))
    decreases |inputs|
  {
    if |inputs| > 0 {
      var prefix := inputs[..|inputs| - 1];
      SelectedAreNamed(prefix, name);
      var last := inputs[|inputs| - 1];
      assert Selected(inputs, name) == Selected(prefix, name)
        + (if last.1.SubMeshResource? && last.1.name == name then [(last.0, last.1.resource)] else []);
      forall j | 0 <= j < |Selected(inputs, name)|
        ensures exists k :: (0 <= k < |inputs| && inputs[k].1.SubMeshResource? && inputs[k].1.name == name
          && Selected(inputs, name)[j] == (inputs[k].0, inputs[k].1.resource))
      {
        if j < |Selected(prefix, name)| {
          assert Selected(inputs, name)[j] == Selected(prefix, name)[j];
          var k :| 0 <= k < |prefix| && prefix[k].1.SubMeshResource? && prefix[k].1.name == name
            && Selected(prefix, name)[j] == (prefix[k].0, prefix[k].1.resource);
          assert inputs[k] == prefix[k];
        } else {
          var k := |inputs| - 1;
          assert Selected(inputs, name)[j] == (inputs[k].0, inputs[k].1.resource);
        }
      }
    } else {
      assert |Selected(inputs, name)| == 0;
    }
  }

  lemma {:induction false} VertexInputsNoPop(inputs: seq<(int, MetalResource)>)
    ensures NoPop(VertexInputCalls(inputs))
    decreases |inputs|
  {
    if |inputs| > 0 {
      VertexInputsNoPop(inputs[..|inputs| - 1]);
    }
  }

  lemma {:induction false} UseResourcesNoPop(resources: seq<(ResourceId, int)>)
    ensures NoPop(UseResourceCalls(resources))
    decreases |resources|
  {
    if |resources| > 0 {
      UseResourcesNoPop(resources[..|resources| - 1]);
    }
  }

  lemma {:induction false} FragmentInputsNoPop(inputs: seq<(int, MetalResource)>)
    ensures NoPop(FragmentInputCalls(inputs).calls)
    decreases |inputs|
  {
    if |inputs| > 0 {
      FragmentInputsNoPop(inputs[..|inputs| - 1]);
    }
  }

  lemma {:induction false} SubmeshCallsNoPop(m: Model, submeshes: seq<Submesh>, k: nat)
    ensures NoPop(SubmeshCalls(m, submeshes, k).calls)
    decreases |submeshes| - k
  {
    if k < |submeshes| {
      SubmeshVertexNoPop(m.vertexInputs, submeshes[k].name);
      SubmeshFragmentNoPop(m.fragmentInputs, submeshes[k].name);
      SubmeshCallsNoPop(m, submeshes, k + 1);
    }
  }

  lemma {:induction false} SubmeshVertexNoPop(inputs: seq<(int, MetalResource)>, name: string)
    ensures NoPop(SubmeshVertexCalls(inputs, name))
    decreases |inputs|
  {
    if |inputs| > 0 {
      SubmeshVertexNoPop(inputs[..|inputs| - 1], name);
    }
  }

  lemma {:induction false} SubmeshFragmentNoPop(inputs: seq<(int, MetalResource)>, name: string)
    ensures NoPop(SubmeshFragmentCalls(inputs, name).calls)
    decreases |inputs|
  {
    if |inputs| > 0 {
      SubmeshFragmentNoPop(inputs[..|inputs| - 1], name);
    }
  }

  /**
   * A draw opens the "Draw Model" debug group first; it closes it as its last call exactly when
   * nothing threw, and a run that threw never pops the group.
   */
  lemma DrawModelBracketed(m: Model)
    ensures |DrawModelCalls(m).calls| >= 1 && DrawModelCalls(m).calls[0] == PushDebugGroup("Draw Model")
    ensures DrawModelCalls(m).error.None? ==> DrawModelCalls(m).calls[|DrawModelCalls(m).calls| - 1] == PopDebugGroup
    ensures DrawModelCalls(m).error.Some? ==> NoPop(DrawModelCalls(m).calls)
  {
    DrawModelShape(m);
    var setup := SetupCalls(m);
    var frag := FragmentInputCalls(m.fragmentInputs).calls;
    SetupNoPop(m);
    FragmentInputsNoPop(m.fragmentInputs);
    DrawNoPop(m);
    NoPopAppend(setup, frag);
    NoPopAppend(setup + frag, DrawCalls(m).calls);
  }

  /** The setup opens the debug group and never pops it. */
  lemma SetupNoPop(m: Model)
    ensures |SetupCalls(m)| >= 1 && SetupCalls(m)[0] == PushDebugGroup("Draw Model")
    ensures NoPop(SetupCalls(m))
  {
    VertexInputsNoPop(m.vertexInputs);
    if m.resources.Some? {
      UseResourcesNoPop(m.resources.value);
    }
    NoPopAppend([PushDebugGroup("Draw Model")], HeapCalls(m.heaps));
    NoPopAppend([PushDebugGroup("Draw Model")] + HeapCalls(m.heaps), OptionalUseResourceCalls(m.resources));
    NoPopAppend([PushDebugGroup("Draw Model")] + HeapCalls(m.heaps) + OptionalUseResourceCalls(m.resources),
                VertexInputCalls(m.vertexInputs));
  }

  /** The draw step never pops the debug group. */
  lemma DrawNoPop(m: Model)
    ensures NoPop(DrawCalls(m).calls)
  {
    if m.drawResource.MTKSubMesh? {
      SubmeshCallsNoPop(m, m.drawResource.submeshes, 0);
    }
  }

  lemma NoPopAppend(a: seq<Command>, b: seq<Command>)
    requires NoPop(a) && NoPop(b)
    ensures NoPop(a + b)
  {
  }

  // ---------------------------------------------------------------------------------------------
  // `RenderPipeline.init`

  /** `RenderTarget`, with the pixel format of its texture. */
  datatype RenderTarget =
    | ColorTarget(colorFormat: int)
    | DepthTarget(depthFormat: int)

  /** The target entry sets colour attachment i. */
  predicate IsColorAt(target: (int, RenderTarget), i: int) {
    target.0 == i && target.1.ColorTarget?
  }

  /** The pixel formats a render pipeline descriptor is given. */
  datatype TargetFormats = TargetFormats(colorAttachments: map<int, int>, depthAttachment: Option<int>)

  /** The target loop: each colour target sets its attachment's format, each depth target the depth format. */
  function ConfigureTargets(targets: seq<(int, RenderTarget)>): TargetFormats {
    if |targets| == 0 then TargetFormats(map[], None)
    else
      var d := ConfigureTargets(targets[..|targets| - 1]);
      var (index, t) := targets[|targets| - 1];
      match t
      case ColorTarget(f) => d.(colorAttachments := d.colorAttachments[index := f])
      case DepthTarget(f) => d.(depthAttachment := Some(f))
  }

  method NewRenderPipeline(targets: seq<(int, RenderTarget)>) returns (d: TargetFormats)
    ensures d == ConfigureTargets(targets)
  {
    d := TargetFormats(map[], None);
    for k := 0 to |targets|
      invariant d == ConfigureTargets(targets[..k])
    {
      assert targets[..k + 1][..k] == targets[..k];
      var (index, t) := targets[k];
      match t {
        case ColorTarget(f) => d := d.(colorAttachments := d.colorAttachments[index := f]);
        case DepthTarget(f) => d := d.(depthAttachment := Some(f));
      }
    }
    assert targets[..|targets|] == targets;
  }

  /**
   * `colorAttachments[i]` holds the format of the last colour target at index i, and an index no
   * colour target names is left unset.
   */
  lemma {:induction false} ColorAttachmentFromLastTarget(targets: seq<(int, RenderTarget)>, i: int)
    ensures i in ConfigureTargets(targets).colorAttachments <==>
      exists k :: 0 <= k < |targets| && IsColorAt(targets[k], i)
    ensures forall k :: (0 <= k < |targets| && IsColorAt(targets[k], i)
      && (forall k' :: k < k' < |targets| ==> !IsColorAt(targets[k'], i))
      ==> ConfigureTargets(targets).colorAttachments[i] == targets[k].1.colorFormat)
    decreases |targets|
  {
    if |targets| > 0 {
      var prefix := targets[..|targets| - 1];
      ColorAttachmentFromLastTarget(prefix, i);
      var last := targets[|targets| - 1];
      if last.0 == i && last.1.ColorTarget? {
      } else {
        if exists k :: 0 <= k < |targets| && IsColorAt(targets[k], i) {
          var k :| 0 <= k < |targets| && IsColorAt(targets[k], i);
          assert k < |prefix| && prefix[k] == targets[k];
        }
        forall k | 0 <= k < |targets| && IsColorAt(targets[k], i)
          && (forall k' :: k < k' < |targets| ==> !IsColorAt(targets[k'], i))
          ensures ConfigureTargets(targets).colorAttachments[i] == targets[k].1.colorFormat
        {
          assert k < |prefix| && prefix[k] == targets[k];
          assert forall k' :: k < k' < |prefix| ==> prefix[k'] == targets[k'];
        }
      }
    }
  }

  /** The depth format is the last depth target's, and unset when there is none. */
  lemma {:induction false} DepthAttachmentFromLastTarget(targets: seq<(int, RenderTarget)>)
    ensures ConfigureTargets(targets).depthAttachment.None? <==> forall k :: 0 <= k < |targets| ==> !targets[k].1.DepthTarget?
    ensures forall k :: (0 <= k < |targets| && targets[k].1.DepthTarget?
      && (forall k' :: k < k' < |targets| ==> !targets[k'].1.DepthTarget?)
      ==> ConfigureTargets(targets).depthAttachment == Some(targets[k].1.depthFormat))
    decreases |targets|
  {
    if |targets| > 0 {
      var prefix := targets[..|targets| - 1];
      DepthAttachmentFromLastTarget(prefix);
      assert forall k :: 0 <= k < |prefix| ==> prefix[k] == targets[k];
    }
  }
}
