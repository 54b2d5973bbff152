/**
 * `JsonMesh.init(withJson:withTexture:device:mtlVertexDescriptor:attributesMap:)`: a mesh built
 * from the flat `position`, `normal` and `uv` arrays of a JSON file, with one base-colour texture.
 * Reading and parsing the file and loading the texture are inputs.
 */
module JsonMesh {
  import opened Common
  import opened Attributes
  import Encoder

  /** The value written into one 16-byte vertex slot. */
  datatype JsonAttribute =
    | JsonPosition(x: real, y: real, z: real)
    | JsonNormal(x: real, y: real, z: real)
    | JsonUV(u: real, v: real)

  /**
   * The mesh the initialiser leaves behind: the interleaved vertex slots and their vertex count,
   * the index list of its one triangle submesh and that submesh's name, the attribute names the
   * vertex descriptor was given, and the two texture dictionaries.
   */
  datatype LoadedMesh = LoadedMesh(
    slots: seq<Option<JsonAttribute>>,
    vertexCount: nat,
    indices: seq<uint32>,
    submeshName: string,
    geometry: GeometryType,
    names: AttributesMap,
    baseColorTextures: map<string, Encoder.TextureId>,
    specularTextures: map<string, Encoder.TextureId>)

  /** The only names the initialiser accepts. */
  predicate JsonAttributes(attrs: AttributesMap) {
    OnlyNames(attrs, {Position, Normal, TextureCoordinate})
  }

  /** Some slot index 0 ..< count is mapped to `n`, so the packing loop reads `n`'s array. */
  predicate SlotNamed(attrs: AttributesMap, n: AttributeName) {
    exists j :: 0 <= j < |attrs| && Lookup(attrs, j) == Some(n)
  }

  /**
   * Some vertex i < n reads `normals[i * 3 + 2]` or `uvs[i * 2 + 1]` past the end of its array:
   * the last vertex does exactly when the array holds fewer than 3n (or 2n) values.
   */
  predicate ShortArrays(attrs: AttributesMap, positions: seq<real>, normals: seq<real>, uvs: seq<real>) {
    || (SlotNamed(attrs, Normal) && |normals| < 3 * VertexCount(positions))
    || (SlotNamed(attrs, TextureCoordinate) && |uvs| < 2 * VertexCount(positions))
  }

  /** The trap condition: the packing loop reads past the end of an array for some vertex exactly when the arrays are short. */
  lemma ShortArraysReadPastEnd(attrs: AttributesMap, positions: seq<real>, normals: seq<real>, uvs: seq<real>)
    ensures ShortArrays(attrs, positions, normals, uvs) <==>
      exists i :: 0 <= i < VertexCount(positions) &&
        ((SlotNamed(attrs, Normal) && |normals| <= 3 * i + 2) || (SlotNamed(attrs, TextureCoordinate) && |uvs| <= 2 * i + 1))
  {
    if ShortArrays(attrs, positions, normals, uvs) {
      var last := VertexCount(positions) - 1;
      assert (SlotNamed(attrs, Normal) && |normals| <= 3 * last + 2) || (SlotNamed(attrs, TextureCoordinate) && |uvs| <= 2 * last + 1);
    }
  }

  /** `positions.count / 3`: whole triples only; a trailing partial triple is ignored. */
  function VertexCount(positions: seq<real>): (r: nat)
    ensures 3 * r <= |positions| < 3 * r + 3
  {
    |positions| / 3
  }

  /**
   * The value of the attribute named `n` for vertex v: the v-th triple of positions or normals,
   * or the v-th pair of texture coordinates with v flipped to 1 - v.
   */
  function JsonSlot(positions: seq<real>, normals: seq<real>, uvs: seq<real>): (AttributeName, nat) -> Option<JsonAttribute> {
    (n: AttributeName, v: nat) =>
      if n == Position && 3 * v + 2 < |positions| then Some(JsonPosition(positions[3 * v], positions[3 * v + 1], positions[3 * v + 2]))
      else if n == Normal && 3 * v + 2 < |normals| then Some(JsonNormal(normals[3 * v], normals[3 * v + 1], normals[3 * v + 2]))
      else if n == TextureCoordinate && 2 * v + 1 < |uvs| then Some(JsonUV(uvs[2 * v], 1.0 - uvs[2 * v + 1]))
      else None
  }

  /** `Array(UInt32(0) ..< UInt32(n))` */
  function IdentityIndices(n: nat): (r: seq<uint32>)
    requires n <= 0x1_0000_0000
    ensures |r| == n
    ensures forall k :: 0 <= k < n ==> r[k] as int == k
  {
    seq(n, k requires 0 <= k < n => k as uint32)
  }

  /**
   * The initialiser: the texture is loaded first and recorded under the JSON file's path, so a
   * texture that fails to load is reported even when the attribute map is also invalid; then any
   * name other than Position, Normal or TextureCoordinate throws; a named normal or texture
   * coordinate array too short for some vertex is read out of range, which traps; otherwise every
   * vertex's slots are packed, the indices are 0, 1, ..., n - 1, and the submesh is named after the
   * JSON path.
   */
  method New(jsonPath: string, texture: Option<Encoder.TextureId>, attrs: AttributesMap,
             positions: seq<real>, normals: seq<real>, uvs: seq<real>) returns (r: Result<LoadedMesh>)
    requires texture.Some? && JsonAttributes(attrs) ==> VertexCount(positions) <= 0xFFFF_FFFF
    ensures texture.None? ==> r == Err(TextureLoadFailed)
    ensures texture.Some? && !JsonAttributes(attrs) ==> r == Err(InvalidAttributes)
    ensures texture.Some? && JsonAttributes(attrs) && ShortArrays(attrs, positions, normals, uvs) ==> r == Err(Trap)
    ensures texture.Some? && JsonAttributes(attrs) && !ShortArrays(attrs, positions, normals, uvs) ==>
      && r.Ok?
      && r.value.vertexCount == VertexCount(positions)
      && r.value.indices == IdentityIndices(VertexCount(positions))
      && r.value.geometry == Triangles
      && r.value.submeshName == jsonPath
      && r.value.names == attrs
      && r.value.baseColorTextures == map[jsonPath := texture.value]
      && r.value.specularTextures == map[]
      && |r.value.slots| == VertexCount(positions) * |attrs|
      && forall s :: 0 <= s < |r.value.slots| ==>
           r.value.slots[s] == PackedAt(attrs, JsonSlot(positions, normals, uvs), s)
  {
    if texture.None? {
      return Err(TextureLoadFailed);
    }
    var baseColorTextures := map[jsonPath := texture.value];
    if !JsonAttributes(attrs) {
      return Err(InvalidAttributes);
    }
    var vertexCount := |positions| / 3;
    if (SlotNamed(attrs, Normal) && |normals| < 3 * vertexCount) || (SlotNamed(attrs, TextureCoordinate) && |uvs| < 2 * vertexCount) {
      return Err(Trap);
    }
    var slots := PackVertices(vertexCount, attrs, JsonSlot(positions, normals, uvs));
    var indices := IdentityIndices(vertexCount);
    r := Ok(LoadedMesh(slots[..], vertexCount, indices, jsonPath, Triangles, attrs, baseColorTextures, map[]));
  }

  /**
   * Slot j of vertex i < n sits at byte offset `i * 16 * count + j * 16` and holds the vertex's
   * position triple, normal triple, or texture coordinate with v flipped, for the name at key j;
   * every vertex gets all three values its named slots need.
   */
  lemma JsonSlotAt(attrs: AttributesMap, positions: seq<real>, normals: seq<real>, uvs: seq<real>, i: nat, j: nat)
    requires 0 <= j < |attrs| && i < VertexCount(positions)
    requires Lookup(attrs, j) == Some(Normal) ==> 3 * VertexCount(positions) <= |normals|
    requires Lookup(attrs, j) == Some(TextureCoordinate) ==> 2 * VertexCount(positions) <= |uvs|
    ensures 16 * (i * |attrs| + j) == SlotOffset(i, j, |attrs|)
    ensures Lookup(attrs, j) == Some(Position) ==>
      PackedAt(attrs, JsonSlot(positions, normals, uvs), i * |attrs| + j)
        == Some(JsonPosition(positions[3 * i], positions[3 * i + 1], positions[3 * i + 2]))
    ensures Lookup(attrs, j) == Some(Normal) ==>
      PackedAt(attrs, JsonSlot(positions, normals, uvs), i * |attrs| + j)
        == Some(JsonNormal(normals[3 * i], normals[3 * i + 1], normals[3 * i + 2]))
    ensures Lookup(attrs, j) == Some(TextureCoordinate) ==>
      PackedAt(attrs, JsonSlot(positions, normals, uvs), i * |attrs| + j)
        == Some(JsonUV(uvs[2 * i], 1.0 - uvs[2 * i + 1]))
  {
    PackedAtVertexSlot(attrs, JsonSlot(positions, normals, uvs), i, j);
  }

  /**
   * The flip loses nothing: flipping the stored v once more gives back the file's texture
   * coordinate, so a texture coordinate slot determines the input pair.
   */
  lemma UVFlipRestores(attrs: AttributesMap, positions: seq<real>, normals: seq<real>, uvs: seq<real>, i: nat, j: nat)
    requires 0 <= j < |attrs| && i < VertexCount(positions)
    requires Lookup(attrs, j) == Some(TextureCoordinate) && 2 * VertexCount(positions) <= |uvs|
    ensures var slot := PackedAt(attrs, JsonSlot(positions, normals, uvs), i * |attrs| + j);
            slot.Some? && slot.value.JsonUV? && [slot.value.u, 1.0 - slot.value.v] == uvs[2 * i..2 * i + 2]
  {
    JsonSlotAt(attrs, positions, normals, uvs, i, j);
  }

  /** The index list draws every vertex exactly once, in order. */
  lemma IdentityIndicesDrawEachVertexOnce(n: nat, v: nat)
    requires n <= 0x1_0000_0000 && v < n
    ensures exists k :: 0 <= k < n && IdentityIndices(n)[k] as int == v
    ensures forall k :: 0 <= k < n && IdentityIndices(n)[k] as int == v ==> k == v
  {
    assert IdentityIndices(n)[v] as int == v;
  }
}
