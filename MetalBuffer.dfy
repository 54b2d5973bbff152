/**
 * `MetalBuffer<Element>`: a typed view of an `MTLBuffer` holding `count` elements of `stride`
 * bytes each, with bounds-checked element writes, whole-buffer replacement and element reads;
 * `Texture`, a texture with an optional binding index; and the encoder calls that bind either.
 *
 * The buffer's memory is modelled one element per array cell. `MetalBuffer` is a Swift struct
 * whose only mutable state is the shared `MTLBuffer` it points to, so copies of it alias; a Dafny
 * class with a constant array reproduces exactly that sharing.
 */
module MetalBuffer {
  import opened Common
  import opened Encoder

  /** `MTLResourceOptions.storageModeShared`, whose raw value is 0. */
  const StorageModeShared: int := 0

  /** An element index of a buffer of `count` elements. */
  predicate IsElementIndex(index: int, count: int) {
    0 <= index < count
  }

  class MetalBuffer<T> {
    /** The `MTLBuffer` the struct wraps. */
    const id: BufferId
    /** The buffer's contents, element by element. */
    const data: array<T>
    const count: nat
    /** `MemoryLayout<Element>.stride`. */
    const stride: nat
    /** The binding index used when the buffer is encoded. */
    const index: int
    const bufferLabel: Option<string>
    const options: int

    predicate Valid() {
      data.Length == count && stride >= 1
    }

    /** `buffer.length`: the bytes allocated for `count` elements. */
    function Length(): nat {
      stride * count
    }

    /**
     * `init(device:count:index:label:options:)`: `count` zero elements (`zero` is the element whose
     * bytes are all 0), the given label and options.
     */
    constructor Zeroed(id: BufferId, count: nat, stride: nat, index: uint32, zero: T, name: Option<string>,
                       options: int)
      requires stride >= 1
      ensures Valid() && fresh(data)
      ensures data[..] == seq(count, _ => zero)
      ensures this.id == id && this.count == count && this.stride == stride && this.index == index as int
      ensures this.bufferLabel == name && this.options == options
    {
      this.id := id;
      this.data := new T[count](_ => zero);
      this.count := count;
      this.stride := stride;
      this.index := index as int;
      this.bufferLabel := name;
      this.options := options;
    }

    /**
     * `init(device:array:index:options:)`: the array's elements, `count = array.count`, no label;
     * the `options` argument is ignored and shared storage is always used.
     */
    constructor FromArray(id: BufferId, values: seq<T>, stride: nat, index: uint32, options: int)
      requires stride >= 1
      ensures Valid() && fresh(data)
      ensures data[..] == values
      ensures this.id == id && this.count == |values| && this.stride == stride && this.index == index as int
      ensures this.bufferLabel == None && this.options == StorageModeShared
    {
      this.id := id;
      this.data := new T[|values|](k requires 0 <= k < |values| => values[k]);
      this.count := |values|;
      this.stride := stride;
      this.index := index as int;
      this.bufferLabel := None;
      this.options := StorageModeShared;
    }

    /**
     * `assign(_:at:)` and the subscript setter: overwrite element `at` (bytes
     * `[at·stride, (at+1)·stride)`) and nothing else.
     */
    method Assign(value: T, at: int)
      requires Valid() && IsElementIndex(at, count)
      modifies data
      ensures data[..] == old(data[..])[at := value]
    {
      data[at] := value;
    }

    /** `assign(with:)`: replace the whole contents by an array of exactly `length` bytes. */
    method AssignAll(values: seq<T>)
      requires Valid() && |values| * stride == Length()
      modifies data
      ensures data[..] == values
    {
      SameByteCountSameLength(|values|, count, stride);
      for k := 0 to count
        invariant data[..k] == values[..k]
      {
        data[k] := values[k];
        assert data[..k + 1] == data[..k] + [values[k]];
        assert values[..k + 1] == values[..k] + [values[k]];
      }
      assert data[..] == data[..count];
      assert values == values[..count];
    }

    /** The subscript getter: a copy of element `at`. */
    function Get(at: int): (v: T)
      reads data
      requires Valid() && IsElementIndex(at, count)
      ensures v == data[at]
    {
      data[at]
    }
  }

  /** Two arrays of the same element type fill the same number of bytes exactly when they are equally long. */
  lemma SameByteCountSameLength(n: nat, count: nat, stride: nat)
    requires stride >= 1
    ensures n * stride == stride * count <==> n == count
  {
    if n != count {
      var lo, hi := if n < count then n else count, if n < count then count else n;
      var d := hi - lo;
      assert hi * stride == lo * stride + d * stride;
      StrictlyPositiveProduct(d, stride);
    }
  }

  lemma StrictlyPositiveProduct(d: nat, s: nat)
    requires d >= 1 && s >= 1
    ensures d * s >= 1
  {
    assert d * s == (d - 1) * s + s;
  }

  /** The bytes element `at` occupies lie inside the buffer. */
  lemma ElementBytesInBuffer(at: int, count: nat, stride: nat)
    requires IsElementIndex(at, count)
    ensures 0 <= at * stride && (at + 1) * stride <= stride * count
  {
    assert count - (at + 1) >= 0;
    assert (count - (at + 1)) * stride >= 0;
    assert stride * count - (at + 1) * stride == (count - (at + 1)) * stride;
  }

  /** Distinct elements occupy disjoint byte ranges, so a write to one leaves the others' bytes alone. */
  lemma ElementBytesDisjoint(a: int, b: int, stride: nat)
    requires a < b
    ensures (a + 1) * stride <= b * stride
  {
    assert b * stride - (a + 1) * stride == (b - (a + 1)) * stride;
    assert (b - (a + 1)) * stride >= 0;
  }

  // ---------------------------------------------------------------------------------------------
  // The bounds checks as written

  /** `precondition(index <= count - 1)` of `assign(_:at:)`. */
  predicate AssignGuardAsWritten(index: int, count: int) {
    index <= count - 1
  }

  /** `precondition(stride * index <= buffer.length - stride)` of the subscript getter. */
  predicate GetGuardAsWritten(index: int, stride: int, length: int) {
    stride * index <= length - stride
  }

  /**
   * Both checks let a negative index through: index -1 passes them for every buffer, and would
   * address the `stride` bytes just before the buffer's memory.
   */
  lemma NegativeIndexPassesGuards(count: nat, stride: nat)
    requires stride >= 1
    ensures AssignGuardAsWritten(-1, count) && GetGuardAsWritten(-1, stride, stride * count)
    ensures !IsElementIndex(-1, count)
    ensures (-1) * stride + stride <= 0
  {
  }

  /**
   * On non-negative indices both checks are exactly the element-index test the corrected
   * `Assign` and `Get` require, so the only indices they mis-admit are the negative ones.
   */
  lemma GuardsOnNonNegativeIndices(index: int, count: nat, stride: nat)
    requires stride >= 1 && index >= 0
    ensures AssignGuardAsWritten(index, count) <==> IsElementIndex(index, count)
    ensures GetGuardAsWritten(index, stride, stride * count) <==> IsElementIndex(index, count)
  {
    if index < count {
      ElementBytesInBuffer(index, count, stride);
    } else {
      assert (index + 1 - count) * stride >= stride;
      assert stride * index - (stride * count - stride) == (index + 1 - count) * stride;
    }
  }

  // ---------------------------------------------------------------------------------------------
  // Textures and encoding

  /** `Texture`: a texture and the index it binds to, if it has one. */
  datatype Texture = Texture(texture: TextureId, index: Option<int>)

  /** `newTextureWithIndex(_:)`: the same texture with its index replaced. */
  function NewTextureWithIndex(t: Texture, index: Option<int>): (r: Texture)
    ensures r.texture == t.texture && r.index == index
  {
    Texture(t.texture, index)
  }

  /** The index `setFragmentTexture(_:index:)` binds at: the explicit one, else the texture's own. */
  function FragmentTextureIndex(t: Texture, index: Option<int>): (r: Option<int>)
    ensures index.Some? ==> r == index
    ensures index.None? ==> r == t.index
    ensures r.None? <==> index.None? && t.index.None?
  {
    OrElse(index, t.index)
  }

  /** A value conforming to `Resource`: a `MetalBuffer` or a `Texture`. */
  datatype Resource<T> = BufferResource(buffer: MetalBuffer<T>) | TextureResource(texture: Texture)

  /** `setVertexBuffer(_:offset:)` for a `MetalBuffer`: bound at the buffer's own index. */
  method SetVertexMetalBuffer<T>(enc: RenderCommandEncoder, b: MetalBuffer<T>, offset: int)
    modifies enc
    ensures enc.log == old(enc.log) + [SetVertexBuffer(b.id, offset, b.index)]
  {
    enc.Emit(SetVertexBuffer(b.id, offset, b.index));
  }

  /** `setFragmentBuffer(_:offset:)` for a `MetalBuffer`. */
  method SetFragmentMetalBuffer<T>(enc: RenderCommandEncoder, b: MetalBuffer<T>, offset: int)
    modifies enc
    ensures enc.log == old(enc.log) + [SetFragmentBuffer(b.id, offset, b.index)]
  {
    enc.Emit(SetFragmentBuffer(b.id, offset, b.index));
  }

  /**
   * `setFragmentTexture(_:index:)`: binds at `index ?? texture.index`, and throws without calling
   * the encoder when both are nil.
   */
  method SetFragmentTexture(enc: RenderCommandEncoder, t: Texture, index: Option<int>) returns (r: Result<()>)
    modifies enc
    ensures FragmentTextureIndex(t, index).None? ==> r == Err(MissingTextureIndex) && enc.log == old(enc.log)
    ensures FragmentTextureIndex(t, index).Some? ==>
      r == Ok(()) && enc.log == old(enc.log) + [Command.SetFragmentTexture(t.texture, FragmentTextureIndex(t, index).value)]
  {
    var i := OrElse(index, t.index);
    if i.None? {
      return Err(MissingTextureIndex);
    }
    enc.Emit(Command.SetFragmentTexture(t.texture, i.value));
    r := Ok(());
  }

  /**
   * `setVertexResource(_:)`: a buffer is bound at offset 0 and its own index; a texture at its
   * own index, and a texture without one throws without calling the encoder.
   */
  method SetVertexResource<T>(enc: RenderCommandEncoder, res: Resource<T>) returns (r: Result<()>)
    modifies enc
    ensures res.BufferResource? ==>
      r == Ok(()) && enc.log == old(enc.log) + [SetVertexBuffer(res.buffer.id, 0, res.buffer.index)]
    ensures res.TextureResource? && res.texture.index.None? ==> r == Err(MissingTextureIndex) && enc.log == old(enc.log)
    ensures res.TextureResource? && res.texture.index.Some? ==>
      r == Ok(()) && enc.log == old(enc.log) + [SetVertexTexture(res.texture.texture, res.texture.index.value)]
  {
    match res
    case BufferResource(b) =>
      SetVertexMetalBuffer(enc, b, 0);
      r := Ok(());
    case TextureResource(t) =>
      if t.index.None? {
        return Err(MissingTextureIndex);
      }
      enc.Emit(SetVertexTexture(t.texture, t.index.value));
      r := Ok(());
  }

  /** `setFragmentResource(_:)`: the fragment-stage counterpart of `SetVertexResource`. */
  method SetFragmentResource<T>(enc: RenderCommandEncoder, res: Resource<T>) returns (r: Result<()>)
    modifies enc
    ensures res.BufferResource? ==>
      r == Ok(()) && enc.log == old(enc.log) + [SetFragmentBuffer(res.buffer.id, 0, res.buffer.index)]
    ensures res.TextureResource? && res.texture.index.None? ==> r == Err(MissingTextureIndex) && enc.log == old(enc.log)
    ensures res.TextureResource? && res.texture.index.Some? ==>
      r == Ok(()) && enc.log == old(enc.log) + [Command.SetFragmentTexture(res.texture.texture, res.texture.index.value)]
  {
    match res
    case BufferResource(b) =>
      SetFragmentMetalBuffer(enc, b, 0);
      r := Ok(());
    case TextureResource(t) =>
      if t.index.None? {
        return Err(MissingTextureIndex);
      }
      enc.Emit(Command.SetFragmentTexture(t.texture, t.index.value));
      r := Ok(());
  }
}
