/**
 * The `MTKMesh` and `MTLRenderCommandEncoder` extensions of MetalMesh.swift: a second copy of the
 * validating `newBox`/`newPlane`, five constructors that always throw, and the encoder helpers
 * that bind a mesh's vertex buffers and draw its submeshes.
 */
module MetalMesh {
  import opened Common
  import opened Attributes
  import opened Encoder
  import opened GeometryMesh

  /** This file's `checkVertexDescriptor`, written like the one in GeometryMesh.swift. */
  method CheckVertexDescriptor(attrs: AttributesMap) returns (ok: bool)
    ensures ok <==> IsValidDescriptorMap(attrs)
  {
    var p := 0;
    while p < |attrs|
      invariant 0 <= p <= |attrs|
      invariant forall q :: 0 <= q < p ==> IsStandardName(attrs[q].1)
    {
      if !IsStandardName(attrs[p].1) {
        return false;
      }
      p := p + 1;
    }
    ok := |attrs| > 0;
  }

  method NewBox(attrs: AttributesMap, dimensions: (real, real, real), segments: (nat, nat, nat),
                geometry: GeometryType, inwardNormals: bool) returns (r: Result<ShapeMesh>)
    ensures !IsValidDescriptorMap(attrs) <==> r == Err(InvalidAttributes)
    ensures IsValidDescriptorMap(attrs) <==> r == Ok(ShapeMesh(Box(dimensions, segments, inwardNormals), geometry, attrs))
  {
    var ok := CheckVertexDescriptor(attrs);
    if !ok {
      return Err(InvalidAttributes);
    }
    r := Ok(ShapeMesh(Box(dimensions, segments, inwardNormals), geometry, attrs));
  }

  /** Like the GeometryMesh.swift version, `inwardNormals` is accepted and not used. */
  method NewPlane(attrs: AttributesMap, dimensions: (real, real), segments: (nat, nat),
                  geometry: GeometryType, inwardNormals: bool) returns (r: Result<ShapeMesh>)
    ensures !IsValidDescriptorMap(attrs) <==> r == Err(InvalidAttributes)
    ensures IsValidDescriptorMap(attrs) <==> r == Ok(ShapeMesh(Plane(dimensions, segments), geometry, attrs))
  {
    var ok := CheckVertexDescriptor(attrs);
    if !ok {
      return Err(InvalidAttributes);
    }
    r := Ok(ShapeMesh(Plane(dimensions, segments), geometry, attrs));
  }

  /**
   * The five unimplemented constructors: whatever the arguments, even a valid attribute map, the
   * call throws "not implemented yet".
   */
  method NewIcosahedron(attrs: AttributesMap, radius: real, inwardNormals: bool) returns (r: Result<ShapeMesh>)
    ensures r == Err(NotImplemented)
  {
    r := Err(NotImplemented);
  }

  method NewCylinder(attrs: AttributesMap, height: real, radii: (real, real), radialSegments: int,
                     verticalSegments: int, geometry: GeometryType, inwardNormals: bool)
    returns (r: Result<ShapeMesh>)
    ensures r == Err(NotImplemented)
  {
    r := Err(NotImplemented);
  }

  method NewEllipsoid(attrs: AttributesMap, radii: (real, real, real), radialSegments: int, verticalSegments: int,
                      geometry: GeometryType, inwardNormals: bool, hemisphere: bool)
    returns (r: Result<ShapeMesh>)
    ensures r == Err(NotImplemented)
  {
    r := Err(NotImplemented);
  }

  method NewEllipticalCone(attrs: AttributesMap, height: real, radii: (real, real), radialSegments: int,
                           verticalSegments: int, geometry: GeometryType, inwardNormals: bool)
    returns (r: Result<ShapeMesh>)
    ensures r == Err(NotImplemented)
  {
    r := Err(NotImplemented);
  }

  method NewCapsule(attrs: AttributesMap, height: real, radii: (real, real), radialSegments: int,
                    verticalSegments: int, hemisphereSegments: int, geometry: GeometryType, inwardNormals: bool)
    returns (r: Result<ShapeMesh>)
    ensures r == Err(NotImplemented)
  {
    r := Err(NotImplemented);
  }

  /** This file's `setVertexBuffer(inRenderCommandEncoder:index:)`. */
  method SetVertexBuffer(mesh: Mesh, enc: RenderCommandEncoder, index: int)
    modifies enc
    ensures enc.log == old(enc.log) + VertexBufferBinds(mesh.vertexBuffers, 0, index)
  {
    SetVertexMeshBuffer(enc, mesh, index, 0);
  }

  /** This file's `draw(inRenderCommandEncoder:)`. */
  method Draw(mesh: Mesh, enc: RenderCommandEncoder)
    modifies enc
    ensures enc.log == old(enc.log) + SubmeshDraws(mesh.submeshes, None)
  {
    DrawMesh(enc, mesh);
  }

  /**
   * `setVertexMeshBuffer(_:index:offset:)`: every vertex buffer of the mesh bound at the same
   * index, at `offset` past the buffer's own offset.
   */
  method SetVertexMeshBuffer(enc: RenderCommandEncoder, mesh: Mesh, index: int, offset: int)
    modifies enc
    ensures enc.log == old(enc.log) + VertexBufferBinds(mesh.vertexBuffers, offset, index)
  {
    var buffers := mesh.vertexBuffers;
    for k := 0 to |buffers|
      invariant enc.log == old(enc.log) + VertexBufferBinds(buffers[..k], offset, index)
    {
      assert buffers[..k + 1][..k] == buffers[..k];
      enc.Emit(Command.SetVertexBuffer(buffers[k].buffer, offset + buffers[k].offset, index));
    }
    assert buffers[..|buffers|] == buffers;
  }

  /** `drawMesh(_:)`: one indexed draw per submesh, in order, without an instance count. */
  method DrawMesh(enc: RenderCommandEncoder, mesh: Mesh)
    modifies enc
    ensures enc.log == old(enc.log) + SubmeshDraws(mesh.submeshes, None)
  {
    var submeshes := mesh.submeshes;
    for k := 0 to |submeshes|
      invariant enc.log == old(enc.log) + SubmeshDraws(submeshes[..k], None)
    {
      assert submeshes[..k + 1][..k] == submeshes[..k];
      enc.Emit(SubmeshDraw(submeshes[k], None));
    }
    assert submeshes[..|submeshes|] == submeshes;
  }
}
