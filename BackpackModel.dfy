/**
 * The deferred-shading sample's `BackpackModel`: a `Model` whose vertex and fragment input lists
 * are edited in place. The loaded mesh is an input: its id, its submeshes and its two texture
 * dictionaries, each as its entries in iteration order.
 */
module BackpackModel {
  import opened Common
  import opened Encoder
  import opened RenderPipeline
  import Attributes

  /** `VertexInputIndexPosition` and `VertexInputIndexUniforms` */
  const PositionIndex: int := 0
  const UniformsIndex: int := 1

  /** `FragmentInputIndexDiffuse` and `FragmentInputIndexSpecular` */
  const DiffuseIndex: int := 0
  const SpecularIndex: int := 1

  /** The attribute map handed to the mesh loader: position, texture coordinate and normal at 0, 1 and 2. */
  const MeshAttributes: Attributes.AttributesMap :=
    [(0, Attributes.Position), (1, Attributes.TextureCoordinate), (2, Attributes.Normal)]

  /** A matrix as its components in memory order. */
  type Matrix = seq<real>

  const Identity4: Matrix := [1.0, 0.0, 0.0, 0.0, 0.0, 1.0, 0.0, 0.0, 0.0, 0.0, 1.0, 0.0, 0.0, 0.0, 0.0, 1.0]

  /** `matrix3x3_upper_left(matrix4x4_identity())` */
  const Identity3: Matrix := [1.0, 0.0, 0.0, 0.0, 1.0, 0.0, 0.0, 0.0, 1.0]

  /** The `Uniforms` struct, field by field in declaration order. */
  datatype Uniforms = Uniforms(modelMatrix: Matrix, viewMatrix: Matrix, projectionMatrix: Matrix, normalMatrix: Matrix)

  /** What `setVertexBytes` hands the encoder: the struct's fields one after another. */
  function UniformBytes(u: Uniforms): (r: seq<real>)
    ensures |r| == |u.modelMatrix| + |u.viewMatrix| + |u.projectionMatrix| + |u.normalMatrix|
    ensures r[..|u.modelMatrix|] == u.modelMatrix
  {
    u.modelMatrix + u.viewMatrix + u.projectionMatrix + u.normalMatrix
  }

  /** A texture dictionary `[String: MTLTexture]`, as its entries in iteration order; names are distinct. */
  type TextureDict = e: seq<(string, TextureId)> | forall p, q :: 0 <= p < q < |e| ==> e[p].0 != e[q].0

  /** One `SubMeshResource` per dictionary entry, in iteration order, all at `index`. */
  function SubmeshTextureInputs(index: int, dict: seq<(string, TextureId)>): (r: seq<(int, MetalResource)>)
    ensures |r| == |dict|
    ensures forall k :: 0 <= k < |dict| ==> r[k] == (index, SubMeshResource(dict[k].0, TextureResource(dict[k].1)))
  {
    seq(|dict|, k requires 0 <= k < |dict| => (index, SubMeshResource(dict[k].0, TextureResource(dict[k].1))))
  }

  /** `removeAll { (index, _) in index == i }`: the list without its entries at index i, the rest in order. */
  function WithoutIndex(inputs: seq<(int, MetalResource)>, i: int): (r: seq<(int, MetalResource)>)
    ensures forall e :: e in r ==> e in inputs && e.0 != i
    ensures forall e :: e in inputs && e.0 != i ==> e in r
    ensures |r| <= |inputs|
    decreases |inputs|
  {
    if |inputs| == 0 then []
    else (if inputs[0].0 == i then [] else [inputs[0]]) + WithoutIndex(inputs[1..], i)
  }

  /** The entries at index j, in order. */
  function AtIndex(inputs: seq<(int, MetalResource)>, j: int): seq<(int, MetalResource)>
    decreases |inputs|
  {
    if |inputs| == 0 then []
    else (if inputs[0].0 == j then [inputs[0]] else []) + AtIndex(inputs[1..], j)
  }

  class BackpackModel {
    var name: string
    var vertexInputs: seq<(int, MetalResource)>
    var fragmentInputs: seq<(int, MetalResource)>
    var drawResource: DrawCommand
    var primitiveType: Option<PrimitiveType>
    var resources: Option<seq<(ResourceId, int)>>
    var heaps: Option<seq<HeapId>>
    var instanceCount: Option<int>
    const backPackMesh: MeshId
    var uniforms: Uniforms

    /** What this model's byte setters write: the uniforms to the vertex stage, nothing to the fragment stage. */
    function Bytes(): ModelBytes
      reads this
    {
      ModelBytes(Some(UniformBytes(uniforms)), None)
    }

    /**
     * Every `ByteResource(model: self)` in the vertex inputs is at the uniforms index and, since it
     * refers to this model, writes the current uniforms.
     */
    predicate BytesCurrent()
      reads this
    {
      forall e :: e in vertexInputs && e.1.ByteResource? ==> e.0 == UniformsIndex && e.1.model == Bytes()
    }

    /** The model as `drawModel` reads it. */
    function AsModel(): Model
      reads this
    {
      Model(vertexInputs, fragmentInputs, drawResource, primitiveType, resources, heaps, instanceCount, name)
    }

    /**
     * `init(device:)`: identity uniforms; the mesh at the position index as the only vertex input;
     * all submeshes drawn; one diffuse input per base-colour texture, then one specular input per
     * specular texture, each in its dictionary's iteration order.
     */
    constructor (mesh: MeshId, submeshes: seq<Submesh>, baseColorTextures: TextureDict, specularTextures: TextureDict)
      ensures name == "Backpack" && instanceCount.None? && primitiveType.None?
      ensures resources.None? && heaps.None?
      ensures uniforms == Uniforms(Identity4, Identity4, Identity4, Identity3)
      ensures backPackMesh == mesh && drawResource == MTKSubMesh(submeshes)
      ensures vertexInputs == [(PositionIndex, MeshResource(mesh))]
      ensures fragmentInputs == SubmeshTextureInputs(DiffuseIndex, baseColorTextures)
                                + SubmeshTextureInputs(SpecularIndex, specularTextures)
      ensures BytesCurrent()
    {
      instanceCount := None;
      name := "Backpack";
      uniforms := Uniforms(Identity4, Identity4, Identity4, Identity3);
      backPackMesh := mesh;
      drawResource := MTKSubMesh(submeshes);
      vertexInputs := [(PositionIndex, MeshResource(mesh))];
      var inputs: seq<(int, MetalResource)> := [];
      for k := 0 to |baseColorTextures|
        invariant inputs == SubmeshTextureInputs(DiffuseIndex, baseColorTextures[..k])
      {
        var (n, texture) := baseColorTextures[k];
        inputs := inputs + [(DiffuseIndex, SubMeshResource(n, TextureResource(texture)))];
      }
      assert baseColorTextures[..|baseColorTextures|] == baseColorTextures;
      ghost var diffuse := inputs;
      for k := 0 to |specularTextures|
        invariant inputs == diffuse + SubmeshTextureInputs(SpecularIndex, specularTextures[..k])
      {
        var (n, texture) := specularTextures[k];
        inputs := inputs + [(SpecularIndex, SubMeshResource(n, TextureResource(texture)))];
      }
      assert specularTextures[..|specularTextures|] == specularTextures;
      fragmentInputs := inputs;
      primitiveType := None;
      resources := None;
      heaps := None;
    }

    /** `removeVertexMesh()` */
    method RemoveVertexMesh()
      modifies this
      ensures vertexInputs == WithoutIndex(old(vertexInputs), PositionIndex)
      ensures fragmentInputs == old(fragmentInputs) && uniforms == old(uniforms)
      ensures old(BytesCurrent()) ==> BytesCurrent()
    {
      vertexInputs := WithoutIndex(vertexInputs, PositionIndex);
    }

    /** `addVertexMesh()`: remove, then append the mesh at the position index. */
    method AddVertexMesh()
      modifies this
      ensures vertexInputs == WithoutIndex(old(vertexInputs), PositionIndex) + [(PositionIndex, MeshResource(backPackMesh))]
      ensures fragmentInputs == old(fragmentInputs) && uniforms == old(uniforms)
      ensures old(BytesCurrent()) ==> BytesCurrent()
    {
      RemoveVertexMesh();
      vertexInputs := vertexInputs + [(PositionIndex, MeshResource(backPackMesh))];
    }

    /**
     * `resetUniforms(_:)`: the four matrices are copied, every input at the uniforms index is
     * removed, and this model is appended there as a byte resource.
     */
    method ResetUniforms(u: Uniforms)
      modifies this
      ensures uniforms == u
      ensures vertexInputs == WithoutIndex(old(vertexInputs), UniformsIndex) + [(UniformsIndex, ByteResource(Bytes()))]
      ensures fragmentInputs == old(fragmentInputs)
      ensures old(BytesCurrent()) ==> BytesCurrent()
    {
      uniforms := uniforms.(modelMatrix := u.modelMatrix);
      uniforms := uniforms.(normalMatrix := u.normalMatrix);
      uniforms := uniforms.(projectionMatrix := u.projectionMatrix);
      uniforms := uniforms.(viewMatrix := u.viewMatrix);
      vertexInputs := WithoutIndex(vertexInputs, UniformsIndex);
      vertexInputs := vertexInputs + [(UniformsIndex, ByteResource(Bytes()))];
    }

    /** `setVertexBytes(in:index:)`: the current uniforms, at the given index. */
    method SetVertexBytesTo(enc: RenderCommandEncoder, index: int)
      modifies enc
      ensures enc.log == old(enc.log) + [SetVertexBytes(Bytes().vertex.value, index)]
    {
      enc.Emit(SetVertexBytes(UniformBytes(uniforms), index));
    }

    /** `setFragmentBytes(in:index:)`: no call. */
    method SetFragmentBytesTo(enc: RenderCommandEncoder, index: int)
      ensures Bytes().fragment.None?
    {
    }
  }

  // ---------------------------------------------------------------------------------------------
  // The input-list edits

  /** Removing index i leaves nothing at i and every other index's entries as they were, in order. */
  lemma {:induction false} WithoutIndexAtIndex(inputs: seq<(int, MetalResource)>, i: int, j: int)
    ensures AtIndex(WithoutIndex(inputs, i), i) == []
    ensures j != i ==> AtIndex(WithoutIndex(inputs, i), j) == AtIndex(inputs, j)
    decreases |inputs|
  {
    if |inputs| > 0 {
      WithoutIndexAtIndex(inputs[1..], i, j);
      var head := if inputs[0].0 == i then [] else [inputs[0]];
      AtIndexAppend(head, WithoutIndex(inputs[1..], i), i);
      AtIndexAppend(head, WithoutIndex(inputs[1..], i), j);
    }
  }

  lemma {:induction false} AtIndexAppend(a: seq<(int, MetalResource)>, b: seq<(int, MetalResource)>, j: int)
    ensures AtIndex(a + b, j) == AtIndex(a, j) + AtIndex(b, j)
    decreases |a|
  {
    if |a| > 0 {
      assert (a + b)[0] == a[0] && (a + b)[1..] == a[1..] + b;
      AtIndexAppend(a[1..], b, j);
      var head := if a[0].0 == j then [a[0]] else [];
      assert AtIndex(a + b, j) == head + AtIndex(a[1..] + b, j);
      assert head + (AtIndex(a[1..], j) + AtIndex(b, j)) == (head + AtIndex(a[1..], j)) + AtIndex(b, j);
    } else {
      assert a + b == b;
    }
  }

  lemma {:induction false} WithoutIndexAppend(a: seq<(int, MetalResource)>, b: seq<(int, MetalResource)>, i: int)
    ensures WithoutIndex(a + b, i) == WithoutIndex(a, i) + WithoutIndex(b, i)
    decreases |a|
  {
    if |a| > 0 {
      assert (a + b)[0] == a[0] && (a + b)[1..] == a[1..] + b;
      WithoutIndexAppend(a[1..], b, i);
      var head := if a[0].0 == i then [] else [a[0]];
      assert WithoutIndex(a + b, i) == head + WithoutIndex(a[1..] + b, i);
      assert head + (WithoutIndex(a[1..], i) + WithoutIndex(b, i)) == (head + WithoutIndex(a[1..], i)) + WithoutIndex(b, i);
    } else {
      assert a + b == b;
    }
  }

  /** Removing an index twice is removing it once. */
  lemma {:induction false} WithoutIndexIdempotent(inputs: seq<(int, MetalResource)>, i: int)
    ensures WithoutIndex(WithoutIndex(inputs, i), i) == WithoutIndex(inputs, i)
    decreases |inputs|
  {
    if |inputs| > 0 {
      var head := if inputs[0].0 == i then [] else [inputs[0]];
      WithoutIndexAppend(head, WithoutIndex(inputs[1..], i), i);
      WithoutIndexIdempotent(inputs[1..], i);
    }
  }

  /** Replacing the entries at index i by x: after it, x is the only entry at i, and it is last. */
  function Replaced(inputs: seq<(int, MetalResource)>, x: (int, MetalResource)): seq<(int, MetalResource)> {
    WithoutIndex(inputs, x.0) + [x]
  }

  /**
   * After `addVertexMesh` or `resetUniforms`, the appended entry is the only one at its index and
   * the last; doing it again changes nothing.
   */
  lemma ReplacedLeavesOne(inputs: seq<(int, MetalResource)>, x: (int, MetalResource))
    ensures AtIndex(Replaced(inputs, x), x.0) == [x]
    ensures var r := Replaced(inputs, x); forall k :: 0 <= k < |r| && r[k].0 == x.0 ==> k == |r| - 1
    ensures Replaced(Replaced(inputs, x), x) == Replaced(inputs, x)
  {
    var r := Replaced(inputs, x);
    WithoutIndexAtIndex(inputs, x.0, x.0);
    AtIndexAppend(WithoutIndex(inputs, x.0), [x], x.0);
    forall k | 0 <= k < |r| - 1
      ensures r[k].0 != x.0
    {
      assert r[k] in WithoutIndex(inputs, x.0);
    }
    WithoutIndexAppend(WithoutIndex(inputs, x.0), [x], x.0);
    WithoutIndexIdempotent(inputs, x.0);
    assert WithoutIndex([x], x.0) == [];
  }

  /**
   * The fragment inputs `init` builds hold, for each base-colour texture, exactly one diffuse
   * input naming its submesh, and likewise for each specular texture at the specular index: the
   * one at the texture's own position in its half of the list, carrying that texture.
   */
  lemma InitFragmentInputsOnePerTexture(base: TextureDict, specular: TextureDict, index: int, dict: TextureDict, k: nat)
    requires (index, dict) == (DiffuseIndex, base) || (index, dict) == (SpecularIndex, specular)
    requires k < |dict|
    ensures var f := SubmeshTextureInputs(DiffuseIndex, base) + SubmeshTextureInputs(SpecularIndex, specular);
            var at := (if index == DiffuseIndex then 0 else |base|) + k;
            && (forall p :: 0 <= p < |f| ==> (f[p].0 == index && f[p].1.name == dict[k].0 <==> p == at))
            && f[at].1.resource == TextureResource(dict[k].1)
  {
    var f := SubmeshTextureInputs(DiffuseIndex, base) + SubmeshTextureInputs(SpecularIndex, specular);
    forall p | 0 <= p < |f|
      ensures f[p] == if p < |base| then (DiffuseIndex, SubMeshResource(base[p].0, TextureResource(base[p].1)))
                      else (SpecularIndex, SubMeshResource(specular[p - |base|].0, TextureResource(specular[p - |base|].1)))
    {
    }
  }
}
