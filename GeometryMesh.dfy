/**
 * The `MTKMesh` extension of GeometryMesh.swift: validate-then-build constructors for the Model I/O
 * shapes, its own `newLines`, and the helpers that bind a mesh's vertex buffers and draw its
 * submeshes on a render command encoder. The shape generators themselves (`MDLMesh.newBox` and
 * friends) belong to Model I/O; a built mesh is modelled as the request handed to them.
 */
module GeometryMesh {
  import opened Common
  import opened Attributes
  import opened Encoder
  import GeometryLines

  /** The Model I/O shape generators and the arguments each one is given. */
  datatype Shape =
    | Box(extent: (real, real, real), boxSegments: (nat, nat, nat), inwardNormals: bool)
    | Plane(area: (real, real), planeSegments: (nat, nat))
    | Icosahedron(radius: real, inwardNormals: bool)
    | Cylinder(height: real, radii: (real, real), radialSegments: int, verticalSegments: int, inwardNormals: bool)
    | Ellipsoid(semiAxes: (real, real, real), radialSegments: int, verticalSegments: int, inwardNormals: bool,
                hemisphere: bool)
    | EllipticalCone(height: real, radii: (real, real), radialSegments: int, verticalSegments: int,
                     inwardNormals: bool)
    | Capsule(height: real, radii: (real, real), radialSegments: int, verticalSegments: int,
              hemisphereSegments: int, inwardNormals: bool)

  /**
   * A generated mesh: the shape, its geometry type, and the attribute names written into the
   * Model I/O vertex descriptor (`attributes[key].name = value` for every entry).
   */
  datatype ShapeMesh = ShapeMesh(shape: Shape, geometry: GeometryType, names: AttributesMap)

  /**
   * `checkVertexDescriptor`: walks the names, returning false at the first one outside the
   * fifteen standard attribute names, and otherwise answers whether the map is non-empty.
   */
  method CheckVertexDescriptor(attrs: AttributesMap) returns (ok: bool)
    ensures ok <==> IsValidDescriptorMap(attrs)
  {
    for p := 0 to |attrs|
      invariant forall q :: 0 <= q < p ==> IsStandardName(attrs[q].1)
    {
      if attrs[p].1.Custom? {
        return false;
      }
    }
    return |attrs| > 0;
  }

  /** The common body of every constructor: reject an invalid map before generating anything. */
  method Generate(attrs: AttributesMap, shape: Shape, geometry: GeometryType) returns (r: Result<ShapeMesh>)
    ensures !IsValidDescriptorMap(attrs) <==> r == Err(InvalidAttributes)
    ensures IsValidDescriptorMap(attrs) <==> r == Ok(ShapeMesh(shape, geometry, attrs))
  {
    var ok := CheckVertexDescriptor(attrs);
    if !ok {
      return Err(InvalidAttributes);
    }
    r := Ok(ShapeMesh(shape, geometry, attrs));
  }

  method NewBox(attrs: AttributesMap, dimensions: (real, real, real), segments: (nat, nat, nat),
                geometry: GeometryType, inwardNormals: bool) returns (r: Result<ShapeMesh>)
    ensures !IsValidDescriptorMap(attrs) <==> r == Err(InvalidAttributes)
    ensures IsValidDescriptorMap(attrs) <==> r == Ok(ShapeMesh(Box(dimensions, segments, inwardNormals), geometry, attrs))
  {
    r := Generate(attrs, Box(dimensions, segments, inwardNormals), geometry);
  }

  /** `newPlane` takes `inwardNormals` but does not pass it on. */
  method NewPlane(attrs: AttributesMap, dimensions: (real, real), segments: (nat, nat),
                  geometry: GeometryType, inwardNormals: bool) returns (r: Result<ShapeMesh>)
    ensures !IsValidDescriptorMap(attrs) <==> r == Err(InvalidAttributes)
    ensures IsValidDescriptorMap(attrs) <==> r == Ok(ShapeMesh(Plane(dimensions, segments), geometry, attrs))
  {
    r := Generate(attrs, Plane(dimensions, segments), geometry);
  }

  method NewIcosahedron(attrs: AttributesMap, radius: real, geometry: GeometryType, inwardNormals: bool)
    returns (r: Result<ShapeMesh>)
    ensures !IsValidDescriptorMap(attrs) <==> r == Err(InvalidAttributes)
    ensures IsValidDescriptorMap(attrs) <==> r == Ok(ShapeMesh(Icosahedron(radius, inwardNormals), geometry, attrs))
  {
    r := Generate(attrs, Icosahedron(radius, inwardNormals), geometry);
  }

  method NewCylinder(attrs: AttributesMap, height: real, radii: (real, real), radialSegments: int,
                     verticalSegments: int, geometry: GeometryType, inwardNormals: bool)
    returns (r: Result<ShapeMesh>)
    ensures !IsValidDescriptorMap(attrs) <==> r == Err(InvalidAttributes)
    ensures IsValidDescriptorMap(attrs) <==>
      r == Ok(ShapeMesh(Cylinder(height, radii, radialSegments, verticalSegments, inwardNormals), geometry, attrs))
  {
    r := Generate(attrs, Cylinder(height, radii, radialSegments, verticalSegments, inwardNormals), geometry);
  }

  method NewEllipsoid(attrs: AttributesMap, radii: (real, real, real), radialSegments: int, verticalSegments: int,
                      geometry: GeometryType, inwardNormals: bool, hemisphere: bool)
    returns (r: Result<ShapeMesh>)
    ensures !IsValidDescriptorMap(attrs) <==> r == Err(InvalidAttributes)
    ensures IsValidDescriptorMap(attrs) <==>
      r == Ok(ShapeMesh(Ellipsoid(radii, radialSegments, verticalSegments, inwardNormals, hemisphere), geometry, attrs))
  {
    r := Generate(attrs, Ellipsoid(radii, radialSegments, verticalSegments, inwardNormals, hemisphere), geometry);
  }

  /** `newSphere` is `newEllipsoid` with the one radius repeated on all three axes. */
  method NewSphere(attrs: AttributesMap, radius: real, radialSegments: int, verticalSegments: int,
                   geometry: GeometryType, inwardNormals: bool, hemisphere: bool)
    returns (r: Result<ShapeMesh>)
    ensures !IsValidDescriptorMap(attrs) <==> r == Err(InvalidAttributes)
    ensures IsValidDescriptorMap(attrs) <==>
      r == Ok(ShapeMesh(Ellipsoid((radius, radius, radius), radialSegments, verticalSegments, inwardNormals, hemisphere),
                        geometry, attrs))
  {
    r := NewEllipsoid(attrs, (radius, radius, radius), radialSegments, verticalSegments, geometry, inwardNormals,
                      hemisphere);
  }

  method NewEllipticalCone(attrs: AttributesMap, height: real, radii: (real, real), radialSegments: int,
                           verticalSegments: int, geometry: GeometryType, inwardNormals: bool)
    returns (r: Result<ShapeMesh>)
    ensures !IsValidDescriptorMap(attrs) <==> r == Err(InvalidAttributes)
    ensures IsValidDescriptorMap(attrs) <==>
      r == Ok(ShapeMesh(EllipticalCone(height, radii, radialSegments, verticalSegments, inwardNormals), geometry, attrs))
  {
    r := Generate(attrs, EllipticalCone(height, radii, radialSegments, verticalSegments, inwardNormals), geometry);
  }

  method NewCapsule(attrs: AttributesMap, height: real, radii: (real, real), radialSegments: int,
                    verticalSegments: int, hemisphereSegments: int, geometry: GeometryType, inwardNormals: bool)
    returns (r: Result<ShapeMesh>)
    ensures !IsValidDescriptorMap(attrs) <==> r == Err(InvalidAttributes)
    ensures IsValidDescriptorMap(attrs) <==>
      r == Ok(ShapeMesh(Capsule(height, radii, radialSegments, verticalSegments, hemisphereSegments, inwardNormals),
                        geometry, attrs))
  {
    r := Generate(attrs, Capsule(height, radii, radialSegments, verticalSegments, hemisphereSegments, inwardNormals),
                  geometry);
  }

  // ---------------------------------------------------------------------------------------------
  // newLines

  /** `attributesMap.first(where: { $0.value == n })?.key`: the key of the first entry named n. */
  method FirstKeyNamed(attrs: AttributesMap, n: AttributeName) returns (key: Option<int>)
    ensures key.None? <==> !HasName(attrs, n)
    ensures key.Some? ==>
      exists p :: 0 <= p < |attrs| && attrs[p] == (key.value, n) && forall q :: 0 <= q < p ==> attrs[q].1 != n
  {
    for p := 0 to |attrs|
      invariant forall q :: 0 <= q < p ==> attrs[q].1 != n
    {
      if attrs[p].1 == n {
        return Some(attrs[p].0);
      }
    }
    return None;
  }

  /**
   * `newLines` of GeometryMesh.swift: the same guard and stride selection as the Lines builder,
   * but the Position key is found with `first(where:)` rather than taken from `first`, and a zero
   * count likewise traps once the checks pass.
   */
  method NewLines<P>(vd: VertexDescriptor, attrs: AttributesMap, points: seq<P>, count: nat)
    returns (r: Result<GeometryLines.LineMesh<P>>)
    requires count <= |points|
    ensures !IsSinglePosition(attrs) ==> r == Err(InvalidAttributes)
    ensures IsSinglePosition(attrs) && PointStride(FormatOf(vd, attrs[0].0)).None? ==>
      r == Err(UnsupportedFormat)
    ensures IsSinglePosition(attrs) && PointStride(FormatOf(vd, attrs[0].0)).Some? && count == 0 ==> r == Err(Trap)
    ensures IsSinglePosition(attrs) && PointStride(FormatOf(vd, attrs[0].0)).Some? && count >= 1 ==>
      r == Ok(GeometryLines.LinesOf(points, count, PointStride(FormatOf(vd, attrs[0].0)).value))
  {
    if |attrs| != 1 || attrs[0].1 != Position {
      return Err(InvalidAttributes);
    }
    var pointStride := 0;
    var key := FirstKeyNamed(attrs, Position);
    if key.Some? {
      var stride := PointStride(FormatOf(vd, key.value));
      if stride.None? {
        return Err(UnsupportedFormat);
      }
      pointStride := stride.value;
    }
    if count == 0 {
      // `Array(repeating: 0, count: (count - 1) * 2)` with a negative count
      return Err(Trap);
    }
    var indexes := GeometryLines.LineIndices(count);
    r := Ok(GeometryLines.LineMesh(points[..count], count * pointStride, count, indexes, Lines));
  }

  // ---------------------------------------------------------------------------------------------
  // Encoding

  /** `setVertexBuffer(inRenderCommandEncoder:index:)`: every vertex buffer bound at `index`. */
  method SetVertexBuffer(mesh: Mesh, enc: RenderCommandEncoder, index: int)
    modifies enc
    ensures enc.log == old(enc.log) + VertexBufferBinds(mesh.vertexBuffers, 0, index)
  {
    var buffers := mesh.vertexBuffers;
    for k := 0 to |buffers|
      invariant enc.log == old(enc.log) + VertexBufferBinds(buffers[..k], 0, index)
    {
      assert buffers[..k + 1][..k] == buffers[..k];
      enc.Emit(Command.SetVertexBuffer(buffers[k].buffer, buffers[k].offset, index));
    }
    assert buffers[..|buffers|] == buffers;
  }

  /** `draw(inRenderCommandEncoder:)`: one indexed draw per submesh, in order. */
  method Draw(mesh: Mesh, enc: RenderCommandEncoder)
    modifies enc
    ensures enc.log == old(enc.log) + SubmeshDraws(mesh.submeshes, None)
  {
    DrawAll(mesh.submeshes, None, enc);
  }

  /** `draw(inRenderCommandEncoder:instanceCount:)`: the same draws, each instanced. */
  method DrawInstanced(mesh: Mesh, enc: RenderCommandEncoder, instanceCount: int)
    modifies enc
    ensures enc.log == old(enc.log) + SubmeshDraws(mesh.submeshes, Some(instanceCount))
  {
    DrawAll(mesh.submeshes, Some(instanceCount), enc);
  }

  /** The `for subMesh in submeshes` loop shared by both draw helpers. */
  method DrawAll(submeshes: seq<Submesh>, instanceCount: Option<int>, enc: RenderCommandEncoder)
    modifies enc
    ensures enc.log == old(enc.log) + SubmeshDraws(submeshes, instanceCount)
  {
    for k := 0 to |submeshes|
      invariant enc.log == old(enc.log) + SubmeshDraws(submeshes[..k], instanceCount)
    {
      assert submeshes[..k + 1][..k] == submeshes[..k];
      enc.Emit(SubmeshDraw(submeshes[k], instanceCount));
    }
    assert submeshes[..|submeshes|] == submeshes;
  }
}
