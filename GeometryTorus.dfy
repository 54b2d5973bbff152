/**
 * `GeometryMesh+Torus.swift`: a torus as a (radialSegments+1) × (tubularSegments+1) grid of
 * vertices, two triangles per grid cell, and interleaved attribute slots.
 *
 * Positions and normals come from `sin`/`cos` of the grid angles; they are left abstract as the
 * grid point they belong to. Texture coordinates are kept as exact reals.
 */
module GeometryTorus {
  import opened Common
  import opened Attributes

  /** Grid point (i, j): i in `0...tubularSegments` around the tube, j in `0...radialSegments`. */
  datatype GridPoint = GridPoint(i: nat, j: nat)

  /** What a torus slot holds: the position, the normal or the texture coordinate of a grid point. */
  datatype TorusAttribute = TorusPosition(p: GridPoint) | TorusNormal(p: GridPoint) | TorusUV(u: real, v: real)

  /** The attribute whitelist of `newTorus`. */
  predicate TorusAttributes(attrs: AttributesMap) {
    OnlyNames(attrs, {Position, Normal, TextureCoordinate})
  }

  /** `num`: the number of grid vertices. */
  function VertexCount(R: nat, T: nat): nat {
    (R + 1) * (T + 1)
  }

  /** The texture coordinate of grid point (i, j): `(i / T, j / R)`. */
  function UV(i: nat, j: nat, R: nat, T: nat): (real, real)
    requires R >= 1 && T >= 1
  {
    (i as real / T as real, j as real / R as real)
  }


  lemma QuotientAtMostOne(a: nat, b: nat)
    requires 1 <= b && a <= b
    ensures 0.0 <= a as real / b as real <= 1.0
  {
    var q := a as real / b as real;
    assert (1.0 - q) * b as real == (b - a) as real;
  }

  /** The grid points in vertex order: slot s holds point (s % (T+1), s / (T+1)). */
  function GridPoints(R: nat, T: nat): (r: seq<GridPoint>)
    ensures |r| == VertexCount(R, T)
  {
    seq(VertexCount(R, T), s requires 0 <= s => GridPoint(s % (T + 1), s / (T + 1)))
  }

  /** The texture coordinates in vertex order. */
  function GridUVs(R: nat, T: nat): (r: seq<(real, real)>)
    requires R >= 1 && T >= 1
    ensures |r| == VertexCount(R, T)
  {
    seq(VertexCount(R, T), s requires 0 <= s => UV(s % (T + 1), s / (T + 1), R, T))
  }

  /**
   * The first grid loop: `for j in 0...R { for i in 0...T { ...; idx += 1 } }` writing grid point
   * (i, j) and its texture coordinate at `idx`.
   */
  method FillGrid(R: nat, T: nat) returns (grid: array<GridPoint>, uvs: array<(real, real)>)
    requires R >= 1 && T >= 1
    ensures fresh(grid) && fresh(uvs)
    ensures grid[..] == GridPoints(R, T) && uvs[..] == GridUVs(R, T)
  {
    var num := VertexCount(R, T);
    var w := T + 1;
    grid := new GridPoint[num](_ => GridPoint(0, 0));
    uvs := new (real, real)[num](_ => (0.0, 0.0));
    var idx := 0;
    for j := 0 to R + 1
      invariant idx == j * w <= num
      invariant grid[..idx] == GridPoints(R, T)[..idx]
      invariant uvs[..idx] == GridUVs(R, T)[..idx]
    {
      MulStep(j, R, w);
      for i := 0 to w
        invariant idx == j * w + i <= num
        invariant grid[..idx] == GridPoints(R, T)[..idx]
        invariant uvs[..idx] == GridUVs(R, T)[..idx]
      {
        DivModOfSlot(j, i, w);
        grid[idx] := GridPoint(i, j);
        uvs[idx] := UV(i, j, R, T);
        assert grid[..idx + 1] == grid[..idx] + [GridPoints(R, T)[idx]];
        assert uvs[..idx + 1] == uvs[..idx] + [GridUVs(R, T)[idx]];
        idx := idx + 1;
      }
    }
    assert grid[..] == grid[..idx];
    assert uvs[..] == uvs[..idx];
  }

  /** Every texture coordinate the grid loop stores lies in the unit square. */
  lemma GridUVsInUnitSquare(R: nat, T: nat, s: nat)
    requires R >= 1 && T >= 1 && s < VertexCount(R, T)
    ensures 0.0 <= GridUVs(R, T)[s].0 <= 1.0 && 0.0 <= GridUVs(R, T)[s].1 <= 1.0
  {
    var i, j := s % (T + 1), s / (T + 1);
    assert s == j * (T + 1) + i;
    if j > R {
      assert false;
    }
    QuotientAtMostOne(i, T);
    QuotientAtMostOne(j, R);
  }

  /** Row j + 1 still fits: `(j+1)·w <= (R+1)·w`. */
  lemma MulStep(j: nat, R: nat, w: nat)
    requires j <= R
    ensures (j + 1) * w == j * w + w <= (R + 1) * w
  {
    assert (R + 1) * w == (j + 1) * w + (R - j) * w;
  }

  /**
   * Grid point (i, j) sits at slot `j·(T+1) + i`, inside the `num` vertices: the row-major fill
   * writes every grid point, each at its own slot.
   */
  lemma GridSlotOfPoint(i: nat, j: nat, R: nat, T: nat)
    requires i <= T && j <= R
    ensures j * (T + 1) + i < VertexCount(R, T)
    ensures GridPoints(R, T)[j * (T + 1) + i] == GridPoint(i, j)
  {
    DivModOfSlot(j, i, T + 1);
    MulAtLeastOne(R + 1 - j, T + 1);
    assert (R + 1) * (T + 1) == j * (T + 1) + (R + 1 - j) * (T + 1);
  }

  /** The two triangles (a, b, d) and (b, c, d) of grid cell (i, j), 1 <= i <= T, 1 <= j <= R. */
  function Cell(i: nat, j: nat, T: nat): seq<int>
    requires i >= 1 && j >= 1
  {
    var a := (T + 1) * j + i - 1;
    var b := (T + 1) * (j - 1) + i - 1;
    var c := (T + 1) * (j - 1) + i;
    var d := (T + 1) * j + i;
    [a, b, d, b, c, d]
  }

  /** Cells (1, j) … (n, j) of row j. */
  function Row(j: nat, T: nat, n: nat): seq<int>
    requires j >= 1
  {
    if n == 0 then [] else Row(j, T, n - 1) + Cell(n, j, T)
  }

  /** All cells of rows 1 … m, row after row. */
  function Rows(m: nat, T: nat): seq<int> {
    if m == 0 then [] else Rows(m - 1, T) + Row(m, T, T)
  }

  /** The index list of a torus: every row of every cell. */
  function TorusIndices(R: nat, T: nat): seq<int> {
    Rows(R, T)
  }

  lemma {:induction false} RowShape(j: nat, T: nat, n: nat)
    requires j >= 1 && n <= T
    ensures |Row(j, T, n)| == 6 * n
    ensures forall x :: x in Row(j, T, n) ==> (T + 1) * (j - 1) <= x < (T + 1) * (j + 1)
  {
    if n > 0 {
      RowShape(j, T, n - 1);
    }
  }

  /**
   * The index list of an R × T torus has `6·R·T` entries and every entry names one of the
   * `(R+1)(T+1)` vertices.
   */
  lemma {:induction false} TorusIndicesShape(R: nat, T: nat)
    ensures |TorusIndices(R, T)| == 6 * R * T
    ensures forall x :: x in TorusIndices(R, T) ==> 0 <= x < VertexCount(R, T)
  {
    if R > 0 {
      TorusIndicesShape(R - 1, T);
      RowShape(R, T, T);
      assert 6 * R * T == 6 * (R - 1) * T + 6 * T;
      assert (T + 1) * (R + 1) == VertexCount(R, T);
      assert VertexCount(R - 1, T) <= VertexCount(R, T);
    }
  }

  /** Cell (i, j) occupies entries `6((j-1)T + i - 1)` … `+5` of the index list. */
  lemma {:induction false} TorusCellAt(R: nat, T: nat, i: nat, j: nat, k: nat)
    requires 1 <= i <= T && 1 <= j <= R && k < 6
    ensures 6 * ((j - 1) * T + i - 1) + k < |TorusIndices(R, T)|
    ensures TorusIndices(R, T)[6 * ((j - 1) * T + i - 1) + k] == Cell(i, j, T)[k]
  {
    var prefix := Rows(R - 1, T);
    var base := (j - 1) * T;
    var pos := 6 * (base + i - 1) + k;
    if j == R {
      assert |prefix| == 6 * base by {
        TorusIndicesLength(R - 1, T);
      }
      RowCellAt(R, T, T, i, k);
      RowShape(R, T, T);
    } else {
      TorusCellAt(R - 1, T, i, j, k);
    }
  }

  lemma {:induction false} TorusIndicesLength(R: nat, T: nat)
    ensures |TorusIndices(R, T)| == 6 * R * T
  {
    if R > 0 {
      TorusIndicesLength(R - 1, T);
      RowShape(R, T, T);
      assert 6 * R * T == 6 * (R - 1) * T + 6 * T;
    }
  }

  lemma {:induction false} RowCellAt(j: nat, T: nat, n: nat, i: nat, k: nat)
    requires j >= 1 && 1 <= i <= n <= T && k < 6
    ensures 6 * (i - 1) + k < |Row(j, T, n)|
    ensures Row(j, T, n)[6 * (i - 1) + k] == Cell(i, j, T)[k]
  {
    RowShape(j, T, n - 1);
    if i < n {
      RowCellAt(j, T, n - 1, i, k);
    }
  }

  /** The six `indices[idx + k] = …` assignments of one cell. */
  method WriteCell(indices: array<int>, idx: nat, i: nat, j: nat, T: nat)
    requires i >= 1 && j >= 1 && idx + 6 <= indices.Length
    modifies indices
    ensures indices[..idx + 6] == old(indices[..idx]) + Cell(i, j, T)
    ensures indices[idx + 6..] == old(indices[idx + 6..])
  {
    var a := (T + 1) * j + i - 1;
    var b := (T + 1) * (j - 1) + i - 1;
    var c := (T + 1) * (j - 1) + i;
    var d := (T + 1) * j + i;
    indices[idx] := a;
    indices[idx + 1] := b;
    indices[idx + 2] := d;
    indices[idx + 3] := b;
    indices[idx + 4] := c;
    indices[idx + 5] := d;
  }

  /**
   * The index loop: `for j in 1...R { for i in 1...T { six entries at idx; idx += 6 } }` over a
   * zeroed array of `6·R·T` entries.
   */
  method FillIndices(R: nat, T: nat) returns (indices: array<int>)
    requires R >= 1 && T >= 1
    ensures fresh(indices)
    ensures indices[..] == TorusIndices(R, T)
  {
    indices := new int[R * T * 6](_ => 0);
    TorusIndicesLength(R, T);
    var idx := 0;
    assert indices.Length == 6 * R * T;
    for j := 1 to R + 1
      invariant idx == 6 * (j - 1) * T
      invariant indices[..idx] == Rows(j - 1, T)
    {
      MulMonotone6(j, R, T);
      FillRow(indices, idx, j, T);
      idx := idx + 6 * T;
    }
    assert indices[..] == indices[..idx];
  }

  /** One pass of the inner loop: `for i in 1...T`, six entries per cell from `start` on. */
  method FillRow(indices: array<int>, start: nat, j: nat, T: nat)
    requires j >= 1 && start + 6 * T <= indices.Length
    modifies indices
    ensures indices[..start + 6 * T] == old(indices[..start]) + Row(j, T, T)
  {
    ghost var prefix := indices[..start];
    var idx := start;
    for i := 1 to T + 1
      invariant idx == start + 6 * (i - 1)
      invariant idx + 6 * (T + 1 - i) <= indices.Length
      invariant indices[..idx] == prefix + Row(j, T, i - 1)
    {
      WriteCell(indices, idx, i, j, T);
      AppendAssoc(prefix, Row(j, T, i - 1), Cell(i, j, T));
      idx := idx + 6;
    }
  }

  lemma MulMonotone6(j: nat, R: nat, T: nat)
    requires 1 <= j <= R
    ensures 6 * j * T <= 6 * R * T && 6 * j * T == 6 * (j - 1) * T + 6 * T
  {
    assert 6 * R * T == 6 * j * T + 6 * (R - j) * T;
  }

  /** The slot contents of the packing loop for grid vertex v. */
  function TorusSlot(grid: seq<GridPoint>, uvs: seq<(real, real)>): (AttributeName, nat) -> Option<TorusAttribute> {
    (n: AttributeName, v: nat) =>
      if v < |grid| && n == Position then Some(TorusPosition(grid[v]))
      else if v < |grid| && n == Normal then Some(TorusNormal(grid[v]))
      else if v < |uvs| && n == TextureCoordinate then Some(TorusUV(uvs[v].0, uvs[v].1))
      else None
  }

  /** A torus mesh: interleaved slots, vertex count and triangle indices. */
  datatype TorusMesh = TorusMesh(
    slots: seq<Option<TorusAttribute>>,
    vertexCount: nat,
    indices: seq<int>,
    geometry: GeometryType)

  /**
   * `newTorus`: reject any name other than Position, Normal or TextureCoordinate before building
   * anything; otherwise fill the grid, pack the slots and emit the cell triangles.
   */
  method NewTorus(attrs: AttributesMap, R: nat, T: nat, geometry: GeometryType) returns (r: Result<TorusMesh>)
    requires TorusAttributes(attrs) ==> R >= 1 && T >= 1
    ensures !TorusAttributes(attrs) ==> r == Err(InvalidAttributes)
    ensures TorusAttributes(attrs) ==>
      r.Ok? && r.value.vertexCount == VertexCount(R, T) && r.value.geometry == geometry
      && r.value.indices == TorusIndices(R, T)
      && |r.value.slots| == VertexCount(R, T) * |attrs|
      && forall s :: 0 <= s < |r.value.slots| ==>
           r.value.slots[s] == PackedAt(attrs, TorusSlot(GridPoints(R, T), GridUVs(R, T)), s)
  {
    if !TorusAttributes(attrs) {
      return Err(InvalidAttributes);
    }
    var grid, uvs := FillGrid(R, T);
    assert grid[..] == GridPoints(R, T);
    assert uvs[..] == GridUVs(R, T);
    var slots := PackVertices(grid.Length, attrs, TorusSlot(grid[..], uvs[..]));
    var indices := FillIndices(R, T);
    r := Ok(TorusMesh(slots[..], grid.Length, indices[..], geometry));
  }
}
