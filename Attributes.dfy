/**
 * Vertex attribute names and formats as Model I/O and Metal name them, the attribute whitelists
 * the mesh builders apply, and the interleaved vertex layout shared by the torus, tube and JSON
 * mesh builders (16 bytes per attribute slot, `attributesMap.count` slots per vertex).
 */
module Attributes {
  import opened Common

  /** `MDLVertexAttribute*` names; `Custom` is any other string. */
  datatype AttributeName =
    | Position | TextureCoordinate | Normal | Binormal | Color | Tangent | Bitangent
    | Anisotropy | EdgeCrease | OcclusionValue | JointIndices | JointWeights
    | SubdivisionStencil | ShadingBasisU | ShadingBasisV
    | Custom(name: string)

  /**
   * `[Int: String]`: vertex-descriptor attribute index to attribute name, as the dictionary's
   * entries in its (unspecified but fixed) iteration order; keys are distinct.
   */
  type AttributesMap = e: seq<(int, AttributeName)> | DistinctKeys(e)

  predicate DistinctKeys(e: seq<(int, AttributeName)>) {
    forall p, q :: 0 <= p < q < |e| ==> e[p].0 != e[q].0
  }

  /** `attributesMap[j]` */
  function Lookup(m: AttributesMap, j: int): (r: Option<AttributeName>)
    ensures r.Some? <==> exists p :: 0 <= p < |m| && m[p].0 == j
    ensures forall p :: 0 <= p < |m| && m[p].0 == j ==> r == Some(m[p].1)
  {
    LookupFrom(m, j, 0)
  }

  function LookupFrom(m: AttributesMap, j: int, from: nat): (r: Option<AttributeName>)
    requires from <= |m|
    ensures r.Some? <==> exists p :: from <= p < |m| && m[p].0 == j
    ensures forall p :: from <= p < |m| && m[p].0 == j ==> r == Some(m[p].1)
    decreases |m| - from
  {
    if from == |m| then None
    else if m[from].0 == j then Some(m[from].1)
    else LookupFrom(m, j, from + 1)
  }

  /** `attributesMap.values.contains(n)` */
  predicate HasName(m: AttributesMap, n: AttributeName) {
    exists p :: 0 <= p < |m| && m[p].1 == n
  }

  /** The fifteen names `checkVertexDescriptor` lets through. */
  predicate IsStandardName(n: AttributeName) {
    !n.Custom?
  }

  /** What `checkVertexDescriptor` decides: a non-empty map of standard names only. */
  predicate IsValidDescriptorMap(m: AttributesMap) {
    |m| > 0 && forall p :: 0 <= p < |m| ==> IsStandardName(m[p].1)
  }

  /** No value of `m` lies outside `allowed` (the negation of `values.contains(where: ...)`). */
  predicate OnlyNames(m: AttributesMap, allowed: set<AttributeName>) {
    forall p :: 0 <= p < |m| ==> m[p].1 in allowed
  }

  /** The `count != 1 || first?.value != Position` guard of the line builders, negated. */
  predicate IsSinglePosition(m: AttributesMap) {
    |m| == 1 && m[0].1 == Position
  }

  /** `MDLGeometryType` */
  datatype GeometryType = Points | Lines | Triangles | TriangleStrips | Quads | VariableTopology

  /** `MTLVertexFormat`; `Invalid` is what an unset descriptor attribute reports. */
  datatype VertexFormat = Invalid | Float | Float2 | Float3 | Float4 | OtherFormat(code: int)

  /** `MTLVertexDescriptor.attributes[k].format`, for every index k. */
  type VertexDescriptor = map<int, VertexFormat>

  function FormatOf(vd: VertexDescriptor, k: int): VertexFormat {
    if k in vd then vd[k] else Invalid
  }

  /** `MemoryLayout<T>.stride` of the point types the line builder accepts. */
  function PointStride(f: VertexFormat): (r: Option<nat>)
    ensures r.Some? <==> f in {Float, Float2, Float3, Float4}
    ensures f == Float ==> r == Some(4)
    ensures f == Float2 ==> r == Some(8)
    ensures f == Float3 || f == Float4 ==> r == Some(16)
  {
    match f
    case Float => Some(4)
    case Float2 => Some(8)
    case Float3 => Some(16)
    case Float4 => Some(16)
    case _ => None
  }

  // ---------------------------------------------------------------------------------------------
  // Interleaved vertex layout

  /** Byte offset of slot j of vertex i: `i * 16 * attributesMap.count + j * 16`. */
  function SlotOffset(i: nat, j: nat, attrCount: nat): nat {
    i * 16 * attrCount + j * 16
  }

  /**
   * What a builder writes into slot j of vertex i: the value it provides for the attribute named
   * `attrs[j]`, or nothing (the slot keeps the allocator's unspecified contents) when key j is
   * absent or names an attribute the builder does not write.
   */
  function SlotValue<V>(attrs: AttributesMap, value: (AttributeName, nat) -> Option<V>, i: nat, j: nat): Option<V> {
    match Lookup(attrs, j)
    case Some(n) => value(n, i)
    case None => None
  }

  /** The slot at flat position s, for vertices of `attrCount` slots each. */
  function PackedAt<V>(attrs: AttributesMap, value: (AttributeName, nat) -> Option<V>, s: nat): Option<V>
    requires |attrs| > 0
  {
    SlotValue(attrs, value, s / |attrs|, s % |attrs|)
  }

  lemma {:induction false} DivModOfSlot(i: nat, j: nat, k: nat)
    requires j < k
    ensures (i * k + j) / k == i && (i * k + j) % k == j
  {
    var s := i * k + j;
    var q, r := s / k, s % k;
    var d := q - i;
    assert d * k == j - r;
    MulAtLeastOne(d, k);
    MulAtLeastOne(-d, k);
    assert (-d) * k == -(d * k);
  }

  lemma MulAtLeastOne(d: int, k: nat)
    ensures d >= 1 ==> d * k >= k
  {
    if d >= 1 {
      assert d * k == (d - 1) * k + k;
      assert (d - 1) * k >= 0;
    }
  }

  /** The flat slot of (i, j) is slot j of vertex i, and sits at byte offset `SlotOffset(i, j)`. */
  lemma PackedAtVertexSlot<V>(attrs: AttributesMap, value: (AttributeName, nat) -> Option<V>, i: nat, j: nat)
    requires 0 <= j < |attrs|
    ensures PackedAt(attrs, value, i * |attrs| + j) == SlotValue(attrs, value, i, j)
    ensures 16 * (i * |attrs| + j) == SlotOffset(i, j, |attrs|)
  {
    DivModOfSlot(i, j, |attrs|);
  }

  /**
   * The nested `for i in 0..<count { for j in 0..<attributesMap.count { ... } }` packing loop,
   * one array element per 16-byte slot.
   */
  method PackVertices<V>(vertexCount: nat, attrs: AttributesMap, value: (AttributeName, nat) -> Option<V>)
    returns (slots: array<Option<V>>)
    ensures fresh(slots)
    ensures slots.Length == vertexCount * |attrs|
    ensures forall s :: 0 <= s < slots.Length ==> slots[s] == PackedAt(attrs, value, s)
  {
    var k := |attrs|;
    slots := new Option<V>[vertexCount * k](_ => None);
    if k == 0 {
      return;
    }
    var base := 0;  // i * k, the first slot of vertex i
    for i := 0 to vertexCount
      invariant base == i * k <= vertexCount * k
      invariant forall s :: 0 <= s < base ==> slots[s] == PackedAt(attrs, value, s)
    {
      assert base + k == (i + 1) * k <= vertexCount * k;
      for j := 0 to k
        invariant forall s :: 0 <= s < base + j ==> slots[s] == PackedAt(attrs, value, s)
      {
        PackedAtVertexSlot(attrs, value, i, j);
        slots[base + j] := SlotValue(attrs, value, i, j);
      }
      base := base + k;
    }
  }
}
