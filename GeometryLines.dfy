/**
 * `GeometryMesh+Lines.swift`: line meshes from a point array, Bézier curves sampled into line
 * meshes, and tubes (a ring of vertices around every point, joined by triangles).
 *
 * Points are vectors of reals (`vector_float2` / `vector_float3` without rounding); the tube's
 * ring geometry (rotations, `acos`, `cross`) is left abstract: a tube vertex is named by the input
 * point it surrounds and its position on the ring.
 */
module GeometryLines {
  import opened Common
  import opened Attributes

  // ---------------------------------------------------------------------------------------------
  // Vectors

  type Vec = seq<real>

  /** Every point has the same number of components (they are read as one SIMD type). */
  predicate Uniform(pts: seq<Vec>) {
    forall i :: 0 <= i < |pts| ==> |pts[i]| == |pts[0]|
  }

  function Add(u: Vec, v: Vec): (r: Vec)
    requires |u| == |v|
    ensures |r| == |u| && forall i :: 0 <= i < |r| ==> r[i] == u[i] + v[i]
  {
    seq(|u|, i requires 0 <= i < |u| => u[i] + v[i])
  }

  function Scale(u: Vec, s: real): (r: Vec)
    ensures |r| == |u| && forall i :: 0 <= i < |r| ==> r[i] == u[i] * s
  {
    seq(|u|, i requires 0 <= i < |u| => u[i] * s)
  }

  /** `p - c + p`: the reflection of control point c through p. */
  function Reflect(p: Vec, c: Vec): (r: Vec)
    requires |p| == |c|
    ensures |r| == |p| && forall i :: 0 <= i < |r| ==> r[i] - p[i] == p[i] - c[i]
  {
    seq(|p|, i requires 0 <= i < |p| => p[i] - c[i] + p[i])
  }

  /** Linear interpolation, the building block of de Casteljau's construction. */
  function Lerp(u: Vec, v: Vec, t: real): (r: Vec)
    requires |u| == |v|
    ensures |r| == |u| && forall i :: 0 <= i < |r| ==> r[i] == Mix(u[i], v[i], t)
  {
    seq(|u|, i requires 0 <= i < |u| => Mix(u[i], v[i], t))
  }

  function Mix(a: real, b: real, t: real): real {
    (1.0 - t) * a + t * b
  }

  // ---------------------------------------------------------------------------------------------
  // Evaluators (`getQuadraticBeizerPoint`, `getCubicBeizerPoint`, 2D and 3D alike)

  datatype Quadratic = Quadratic(p0: Vec, c0: Vec, p1: Vec)
  datatype Cubic = Cubic(p0: Vec, c0: Vec, c1: Vec, p1: Vec)

  predicate QuadraticOk(q: Quadratic) {
    |q.c0| == |q.p0| && |q.p1| == |q.p0|
  }

  predicate CubicOk(c: Cubic) {
    |c.c0| == |c.p0| && |c.c1| == |c.p0| && |c.p1| == |c.p0|
  }

  /** One coordinate of `p0·k² + c0·2kt + p1·t²` with `k = 1 - t`. */
  function Quadratic1(t: real, p0: real, c0: real, p1: real): real {
    var k := 1.0 - t;
    p0 * (k * k) + c0 * (2.0 * k * t) + p1 * (t * t)
  }

  /** One coordinate of `p0·k³ + c0·3k²t + c1·3kt² + p1·t³` with `k = 1 - t`. */
  function Cubic1(t: real, p0: real, c0: real, c1: real, p1: real): real {
    var k := 1.0 - t;
    p0 * (k * k * k) + c0 * (3.0 * k * k * t) + c1 * (3.0 * k * t * t) + p1 * (t * t * t)
  }

  function QuadraticPoint(t: real, q: Quadratic): (r: Vec)
    requires QuadraticOk(q)
    ensures |r| == |q.p0|
  {
    seq(|q.p0|, i requires 0 <= i < |q.p0| => Quadratic1(t, q.p0[i], q.c0[i], q.p1[i]))
  }

  function CubicPoint(t: real, c: Cubic): (r: Vec)
    requires CubicOk(c)
    ensures |r| == |c.p0|
  {
    seq(|c.p0|, i requires 0 <= i < |c.p0| => Cubic1(t, c.p0[i], c.c0[i], c.c1[i], c.p1[i]))
  }

  /** The quadratic evaluator starts exactly at p0 and ends exactly at p1. */
  lemma QuadraticEndpoints(q: Quadratic)
    requires QuadraticOk(q)
    ensures QuadraticPoint(0.0, q) == q.p0
    ensures QuadraticPoint(1.0, q) == q.p1
  {
    assert QuadraticPoint(0.0, q) == q.p0 by {
      var r := QuadraticPoint(0.0, q);
      forall i | 0 <= i < |r| ensures r[i] == q.p0[i] { }
    }
    assert QuadraticPoint(1.0, q) == q.p1 by {
      var r := QuadraticPoint(1.0, q);
      forall i | 0 <= i < |r| ensures r[i] == q.p1[i] { }
    }
  }

  /** The cubic evaluator starts exactly at p0 and ends exactly at p1. */
  lemma CubicEndpoints(c: Cubic)
    requires CubicOk(c)
    ensures CubicPoint(0.0, c) == c.p0
    ensures CubicPoint(1.0, c) == c.p1
  {
    assert CubicPoint(0.0, c) == c.p0 by {
      var r := CubicPoint(0.0, c);
      forall i | 0 <= i < |r| ensures r[i] == c.p0[i] { }
    }
    assert CubicPoint(1.0, c) == c.p1 by {
      var r := CubicPoint(1.0, c);
      forall i | 0 <= i < |r| ensures r[i] == c.p1[i] { }
    }
  }

  /** The Bernstein form agrees with de Casteljau's construction by repeated interpolation. */
  lemma {:induction false} QuadraticIsDeCasteljau(t: real, q: Quadratic)
    requires QuadraticOk(q)
    ensures QuadraticPoint(t, q) == Lerp(Lerp(q.p0, q.c0, t), Lerp(q.c0, q.p1, t), t)
  {
    var r := QuadraticPoint(t, q);
    var l0, l1 := Lerp(q.p0, q.c0, t), Lerp(q.c0, q.p1, t);
    var d := Lerp(l0, l1, t);
    forall i | 0 <= i < |r| ensures r[i] == d[i] {
      QuadraticMix(t, q.p0[i], q.c0[i], q.p1[i]);
    }
  }

  lemma QuadraticMix(t: real, p0: real, c0: real, p1: real)
    ensures Quadratic1(t, p0, c0, p1) == Mix(Mix(p0, c0, t), Mix(c0, p1, t), t)
  {
  }

  /** The same holds for the cubic evaluator, with three levels of interpolation. */
  lemma {:induction false} CubicIsDeCasteljau(t: real, c: Cubic)
    requires CubicOk(c)
    ensures CubicPoint(t, c)
         == Lerp(Lerp(Lerp(c.p0, c.c0, t), Lerp(c.c0, c.c1, t), t),
                 Lerp(Lerp(c.c0, c.c1, t), Lerp(c.c1, c.p1, t), t), t)
  {
    var r := CubicPoint(t, c);
    var a0, a1, a2 := Lerp(c.p0, c.c0, t), Lerp(c.c0, c.c1, t), Lerp(c.c1, c.p1, t);
    var b0, b1 := Lerp(a0, a1, t), Lerp(a1, a2, t);
    var d := Lerp(b0, b1, t);
    forall i | 0 <= i < |r| ensures r[i] == d[i] {
      CubicMix(t, c.p0[i], c.c0[i], c.c1[i], c.p1[i]);
    }
  }

  lemma CubicMix(t: real, p0: real, c0: real, c1: real, p1: real)
    ensures Cubic1(t, p0, c0, c1, p1)
         == Mix(Mix(Mix(p0, c0, t), Mix(c0, c1, t), t), Mix(Mix(c0, c1, t), Mix(c1, p1, t), t), t)
  {
  }

  // ---------------------------------------------------------------------------------------------
  // Line meshes (`newLines`)

  /** A line mesh: `vertexCount` points of `pointStride` bytes each and a `.lines` submesh. */
  datatype LineMesh<P> = LineMesh(
    vertices: seq<P>,
    vertexByteLength: nat,
    vertexCount: nat,
    indices: seq<int>,
    geometry: GeometryType)

  /** Index pairs (0,1), (1,2), …, (n-2, n-1). */
  function LinePairs(n: nat): seq<int>
  {
    if n <= 1 then [] else LinePairs(n - 1) + [n - 2, n - 1]
  }

  /** `LinePairs(n)` holds 2(n-1) entries and its k-th pair is (k, k+1). */
  lemma {:induction false} LinePairsShape(n: nat)
    ensures n >= 1 ==> |LinePairs(n)| == 2 * (n - 1)
    ensures forall k :: 0 <= k < n - 1 ==> LinePairs(n)[2 * k] == k && LinePairs(n)[2 * k + 1] == k + 1
  {
    if n > 1 {
      LinePairsShape(n - 1);
    }
  }

  /** The `for i in 0..<(count-1)` loop filling a zeroed `[UInt32]` with pairs. */
  method LineIndices(count: nat) returns (indexes: seq<int>)
    requires count >= 1
    ensures indexes == LinePairs(count)
  {
    var a := new int[(count - 1) * 2](_ => 0);
    LinePairsShape(count);
    for i := 0 to count - 1
      invariant forall k :: 0 <= k < 2 * i ==> a[k] == LinePairs(count)[k]
    {
      a[i * 2] := i;
      a[i * 2 + 1] := i + 1;
    }
    indexes := a[..];
    assert |indexes| == |LinePairs(count)|;
    forall k | 0 <= k < |indexes| ensures indexes[k] == LinePairs(count)[k] {
      assert k < 2 * (count - 1);
    }
  }

  /** What `newLines` builds when it does not throw. */
  function LinesOf<P>(points: seq<P>, count: nat, stride: nat): LineMesh<P>
    requires 1 <= count <= |points|
  {
    LineMesh(points[..count], count * stride, count, LinePairs(count), Lines)
  }

  /**
   * `newLines`: exactly one attribute, named Position, whose format gives the point stride; the
   * vertex data is the first `count` points, indexed pairwise. A zero count passes the checks and
   * then traps on the negative size of the index array.
   */
  method NewLines<P>(vd: VertexDescriptor, attrs: AttributesMap, points: seq<P>, count: nat)
    returns (r: Result<LineMesh<P>>)
    requires count <= |points|
    ensures !IsSinglePosition(attrs) ==> r == Err(InvalidAttributes)
    ensures IsSinglePosition(attrs) && PointStride(FormatOf(vd, attrs[0].0)).None? ==>
      r == Err(UnsupportedFormat)
    ensures IsSinglePosition(attrs) && PointStride(FormatOf(vd, attrs[0].0)).Some? && count == 0 ==> r == Err(Trap)
    ensures IsSinglePosition(attrs) && PointStride(FormatOf(vd, attrs[0].0)).Some? && count >= 1 ==>
      r == Ok(LinesOf(points, count, PointStride(FormatOf(vd, attrs[0].0)).value))
  {
    if |attrs| != 1 || attrs[0].1 != Position {
      return Err(InvalidAttributes);
    }
    var stride := PointStride(FormatOf(vd, attrs[0].0));
    if stride.None? {
      return Err(UnsupportedFormat);
    }
    if count == 0 {
      // `Array(repeating: 0, count: (count - 1) * 2)` with a negative count
      return Err(Trap);
    }
    var indexes := LineIndices(count);
    r := Ok(LineMesh(points[..count], count * stride.value, count, indexes, Lines));
  }

  /** A built line mesh has `count·stride` bytes of vertex data and `(k, k+1)` index pairs. */
  lemma LinesOfShape<P>(points: seq<P>, count: nat, stride: nat)
    requires 1 <= count <= |points|
    ensures var m := LinesOf(points, count, stride);
      m.vertexByteLength == count * stride && m.vertexCount == count && m.vertices == points[..count]
      && |m.indices| == 2 * (count - 1)
      && forall k :: 0 <= k < count - 1 ==> m.indices[2 * k] == k && m.indices[2 * k + 1] == k + 1
  {
    LinePairsShape(count);
  }

  // ---------------------------------------------------------------------------------------------
  // Chained Bézier curves

  /**
   * Curve m of a cubic chain: the first uses points 0..3; each later one starts at the previous
   * end point, reflects the previous second control point through it, and takes two new points.
   */
  function CubicCurve(pts: seq<Vec>, m: nat): (c: Cubic)
    requires Uniform(pts) && 2 * m + 3 < |pts|
    ensures CubicOk(c) && |c.p0| == |pts[0]|
  {
    if m == 0 then Cubic(pts[0], pts[1], pts[2], pts[3])
    else
      var prev := CubicCurve(pts, m - 1);
      Cubic(prev.p1, Reflect(prev.p1, prev.c1), pts[2 * m + 2], pts[2 * m + 3])
  }

  /** Curve m of a quadratic chain: each later curve reflects c0 and takes one new point. */
  function QuadraticCurve(pts: seq<Vec>, m: nat): (q: Quadratic)
    requires Uniform(pts) && m + 2 < |pts|
    ensures QuadraticOk(q) && |q.p0| == |pts[0]|
  {
    if m == 0 then Quadratic(pts[0], pts[1], pts[2])
    else
      var prev := QuadraticCurve(pts, m - 1);
      Quadratic(prev.p1, Reflect(prev.p1, prev.c0), pts[m + 2])
  }

  /** The `segments + 1` samples `i / segments`, i in `0...segments`, of one curve. */
  function CubicSamples(c: Cubic, segments: nat): (r: seq<Vec>)
    requires CubicOk(c) && segments >= 1
    ensures |r| == segments + 1
  {
    seq(segments + 1, i requires 0 <= i <= segments => CubicPoint(i as real / segments as real, c))
  }

  function QuadraticSamples(q: Quadratic, segments: nat): (r: seq<Vec>)
    requires QuadraticOk(q) && segments >= 1
    ensures |r| == segments + 1
  {
    seq(segments + 1, i requires 0 <= i <= segments => QuadraticPoint(i as real / segments as real, q))
  }

  /** The samples of the first n curves of a chain, curve after curve. */
  function CubicChain(pts: seq<Vec>, n: nat, segments: nat): (r: seq<Vec>)
    requires Uniform(pts) && 2 * n + 1 < |pts| && segments >= 1
  {
    if n == 0 then [] else CubicChain(pts, n - 1, segments) + CubicSamples(CubicCurve(pts, n - 1), segments)
  }

  function QuadraticChain(pts: seq<Vec>, n: nat, segments: nat): (r: seq<Vec>)
    requires Uniform(pts) && n + 1 < |pts| && segments >= 1
  {
    if n == 0 then [] else QuadraticChain(pts, n - 1, segments) + QuadraticSamples(QuadraticCurve(pts, n - 1), segments)
  }

  /**
   * The number of cubic curves sampled for `count` points: the first one always, then one per
   * `while index < count - 2` iteration, `index` running 3, 5, 7, ….
   */
  function CubicCurveCount(count: nat): nat {
    if count <= 4 then 1 else 1 + (count - 4) / 2
  }

  /** The number of quadratic curves: the first, then one per `while index < count - 1` step. */
  function QuadraticCurveCount(count: nat): nat {
    if count <= 3 then 1 else count - 2
  }

  /** A chain of n curves holds n·(segments+1) samples. */
  lemma {:induction false} CubicChainLength(pts: seq<Vec>, n: nat, segments: nat)
    requires Uniform(pts) && 2 * n + 1 < |pts| && segments >= 1
    ensures |CubicChain(pts, n, segments)| == n * (segments + 1)
  {
    if n > 0 {
      CubicChainLength(pts, n - 1, segments);
    }
  }

  /** Sample i of curve m sits at position m·(segments+1) + i of the chain. */
  lemma {:induction false} CubicChainAt(pts: seq<Vec>, n: nat, segments: nat, m: nat, i: nat)
    requires Uniform(pts) && 2 * n + 1 < |pts| && segments >= 1
    requires m < n && i <= segments
    ensures m * (segments + 1) + i < |CubicChain(pts, n, segments)|
    ensures CubicChain(pts, n, segments)[m * (segments + 1) + i]
         == CubicPoint(i as real / segments as real, CubicCurve(pts, m))
  {
    CubicChainLength(pts, n - 1, segments);
    var w := segments + 1;
    var prefix := CubicChain(pts, n - 1, segments);
    var last := CubicSamples(CubicCurve(pts, n - 1), segments);
    assert CubicChain(pts, n, segments) == prefix + last;
    if m == n - 1 {
      assert m * w + i == |prefix| + i;
      assert last[i] == CubicPoint(i as real / segments as real, CubicCurve(pts, m));
    } else {
      CubicChainAt(pts, n - 1, segments, m, i);
      MulMonotone(m + 1, n - 1, w);
      assert m * w + i < (m + 1) * w <= |prefix|;
    }
  }

  lemma MulMonotone(a: nat, b: nat, w: nat)
    requires a <= b
    ensures a * w <= b * w
  {
    assert b * w == a * w + (b - a) * w;
  }

  lemma {:induction false} QuadraticChainLength(pts: seq<Vec>, n: nat, segments: nat)
    requires Uniform(pts) && n + 1 < |pts| && segments >= 1
    ensures |QuadraticChain(pts, n, segments)| == n * (segments + 1)
  {
    if n > 0 {
      QuadraticChainLength(pts, n - 1, segments);
    }
  }

  lemma {:induction false} QuadraticChainAt(pts: seq<Vec>, n: nat, segments: nat, m: nat, i: nat)
    requires Uniform(pts) && n + 1 < |pts| && segments >= 1
    requires m < n && i <= segments
    ensures m * (segments + 1) + i < |QuadraticChain(pts, n, segments)|
    ensures QuadraticChain(pts, n, segments)[m * (segments + 1) + i]
         == QuadraticPoint(i as real / segments as real, QuadraticCurve(pts, m))
  {
    QuadraticChainLength(pts, n - 1, segments);
    var w := segments + 1;
    var prefix := QuadraticChain(pts, n - 1, segments);
    var last := QuadraticSamples(QuadraticCurve(pts, n - 1), segments);
    assert QuadraticChain(pts, n, segments) == prefix + last;
    if m == n - 1 {
      assert m * w + i == |prefix| + i;
      assert last[i] == QuadraticPoint(i as real / segments as real, QuadraticCurve(pts, m));
    } else {
      QuadraticChainAt(pts, n - 1, segments, m, i);
      MulMonotone(m + 1, n - 1, w);
      assert m * w + i < (m + 1) * w <= |prefix|;
    }
  }

  /**
   * Consecutive cubic curves join smoothly: curve m+1 starts where curve m ends, with the same
   * tangent (its first control leg equals the previous last control leg), so the chain's last
   * sample of curve m equals the first sample of curve m+1.
   */
  lemma CubicJoin(pts: seq<Vec>, m: nat, segments: nat)
    requires Uniform(pts) && 2 * (m + 1) + 3 < |pts| && segments >= 1
    ensures var prev, next := CubicCurve(pts, m), CubicCurve(pts, m + 1);
      next.p0 == prev.p1
      && (forall i :: 0 <= i < |next.p0| ==> next.c0[i] - next.p0[i] == prev.p1[i] - prev.c1[i])
      && CubicPoint(0.0, next) == CubicPoint(1.0, prev)
  {
    CubicEndpoints(CubicCurve(pts, m));
    CubicEndpoints(CubicCurve(pts, m + 1));
  }

  /** Consecutive quadratic curves share the join point and its tangent direction. */
  lemma QuadraticJoin(pts: seq<Vec>, m: nat, segments: nat)
    requires Uniform(pts) && (m + 1) + 2 < |pts| && segments >= 1
    ensures var prev, next := QuadraticCurve(pts, m), QuadraticCurve(pts, m + 1);
      next.p0 == prev.p1
      && (forall i :: 0 <= i < |next.p0| ==> next.c0[i] - next.p0[i] == prev.p1[i] - prev.c0[i])
      && QuadraticPoint(0.0, next) == QuadraticPoint(1.0, prev)
  {
    QuadraticEndpoints(QuadraticCurve(pts, m));
    QuadraticEndpoints(QuadraticCurve(pts, m + 1));
  }

  /**
   * The sampling loop of `newCubicBezierCurve2D`/`3D` and `newCubicBezier3DCurve`: the first curve
   * from points 0..3, then `while index < count - 2` one more curve per two points.
   */
  method CubicBezierPoints(pts: seq<Vec>, count: nat, segments: nat) returns (points: seq<Vec>)
    requires Uniform(pts) && 4 <= |pts| && count <= |pts| && segments >= 1
    ensures 2 * CubicCurveCount(count) + 1 < |pts|
    ensures points == CubicChain(pts, CubicCurveCount(count), segments)
  {
    var p0, c0, c1, p1 := pts[0], pts[1], pts[2], pts[3];
    var next := 4;  // the point `float2Ptr` / `float3Ptr` addresses
    points := [];
    for i := 0 to segments + 1
      invariant points == CubicSamples(Cubic(p0, c0, c1, p1), segments)[..i]
    {
      points := points + [CubicPoint(i as real / segments as real, Cubic(p0, c0, c1, p1))];
    }
    assert points == CubicChain(pts, 1, segments);
    var index := 3;
    ghost var m: nat := 1;  // curves sampled so far
    while index < count - 2
      invariant index == 2 * m + 1 && next == 2 * m + 2
      invariant 1 <= m <= CubicCurveCount(count)
      invariant Cubic(p0, c0, c1, p1) == CubicCurve(pts, m - 1)
      invariant points == CubicChain(pts, m, segments)
      decreases count - index
    {
      p0 := p1;
      c0 := Reflect(p1, c1);
      c1 := pts[next];
      p1 := pts[next + 1];
      next := next + 2;
      assert Cubic(p0, c0, c1, p1) == CubicCurve(pts, m);
      ghost var before := points;
      for i := 0 to segments + 1
        invariant points == before + CubicSamples(Cubic(p0, c0, c1, p1), segments)[..i]
      {
        points := points + [CubicPoint(i as real / segments as real, Cubic(p0, c0, c1, p1))];
      }
      index := index + 2;
      m := m + 1;
    }
  }

  /** The sampling loop of `newQuadraticBezierCurve2D`/`3D`: one more curve per extra point. */
  method QuadraticBezierPoints(pts: seq<Vec>, count: nat, segments: nat) returns (points: seq<Vec>)
    requires Uniform(pts) && 3 <= |pts| && count <= |pts| && segments >= 1
    ensures QuadraticCurveCount(count) + 1 < |pts|
    ensures points == QuadraticChain(pts, QuadraticCurveCount(count), segments)
  {
    var p0, c0, p1 := pts[0], pts[1], pts[2];
    var next := 3;
    points := [];
    for i := 0 to segments + 1
      invariant points == QuadraticSamples(Quadratic(p0, c0, p1), segments)[..i]
    {
      points := points + [QuadraticPoint(i as real / segments as real, Quadratic(p0, c0, p1))];
    }
    assert points == QuadraticChain(pts, 1, segments);
    var index := 2;
    while index < count - 1
      invariant 2 <= index && next == index + 1
      invariant index - 1 <= QuadraticCurveCount(count)
      invariant Quadratic(p0, c0, p1) == QuadraticCurve(pts, index - 2)
      invariant points == QuadraticChain(pts, index - 1, segments)
      decreases count - index
    {
      p0 := p1;
      c0 := Reflect(p1, c0);
      p1 := pts[next];
      next := next + 1;
      assert Quadratic(p0, c0, p1) == QuadraticCurve(pts, index - 1);
      ghost var before := points;
      for i := 0 to segments + 1
        invariant points == before + QuadraticSamples(Quadratic(p0, c0, p1), segments)[..i]
      {
        points := points + [QuadraticPoint(i as real / segments as real, Quadratic(p0, c0, p1))];
      }
      index := index + 1;
    }
  }

  /**
   * Every sampled cubic curve reads its points inside the first `max(count, 4)`, and once the loop
   * stops no further pair of points is left: with an odd surplus the last point goes unused.
   */
  lemma CubicCurveCountTight(count: nat)
    requires count >= 4
    ensures 2 * CubicCurveCount(count) + 1 < count <= 2 * CubicCurveCount(count) + 3
  {
  }

  /** A quadratic chain of `count >= 3` points uses every point: curves end at points 2..count-1. */
  lemma QuadraticCurveCountTight(count: nat)
    requires count >= 3
    ensures QuadraticCurveCount(count) + 1 == count - 1
  {
  }

  // ---------------------------------------------------------------------------------------------
  // Tubes (`new3DLines`)

  /** Vertex `step` of the ring around input point `ring` (centred on `center`). */
  datatype TubeVertex = TubeVertex(center: Vec, ring: nat, step: nat)

  /** What the packing loop stores in a slot: a vertex position or its (outward/inward) normal. */
  datatype TubeAttribute = TubePosition(v: TubeVertex) | TubeNormal(v: TubeVertex, inward: bool)

  function Ring(points: seq<Vec>, k: nat, radialSegments: nat): (r: seq<TubeVertex>)
    requires k < |points|
    ensures |r| == radialSegments
  {
    seq(radialSegments, i requires 0 <= i < radialSegments => TubeVertex(points[k], k, i))
  }

  /** The rings around the first n points, in point order. */
  function TubeVertices(points: seq<Vec>, n: nat, radialSegments: nat): seq<TubeVertex>
    requires n <= |points|
  {
    if n == 0 then [] else TubeVertices(points, n - 1, radialSegments) + Ring(points, n - 1, radialSegments)
  }

  /** Two triangles joining vertex p of the new ring's predecessor to the new ring. */
  function Quad(p: int, radialSegments: int): seq<int> {
    [p, p + radialSegments, p + radialSegments - 1, p - 1, p, p + radialSegments - 1]
  }

  /** The quads emitted while the ring is appended, for circle points 1 ..< n. */
  function RingJoin(prevStart: int, radialSegments: nat, n: nat): seq<int> {
    if n <= 1 then [] else RingJoin(prevStart, radialSegments, n - 1) + Quad(prevStart + n - 1, radialSegments)
  }

  /** The two triangles closing the seam between circle point R-1 and circle point 0. */
  function Closing(vertexCount: int, radialSegments: int): seq<int> {
    [vertexCount - radialSegments, vertexCount - 1, vertexCount - radialSegments - 1,
     vertexCount - radialSegments - 1, vertexCount - 2 * radialSegments, vertexCount - radialSegments]
  }

  /** The indices emitted when ring k (k >= 1) is appended. */
  function TubeStep(k: nat, radialSegments: nat): seq<int>
    requires k >= 1
  {
    RingJoin((k - 1) * radialSegments, radialSegments, radialSegments) + Closing((k + 1) * radialSegments, radialSegments)
  }

  /** The indices of a tube around n points. */
  function TubeIndices(n: nat, radialSegments: nat): seq<int> {
    if n <= 1 then [] else TubeIndices(n - 1, radialSegments) + TubeStep(n - 1, radialSegments)
  }

  lemma {:induction false} TubeVerticesShape(points: seq<Vec>, n: nat, R: nat, k: nat, i: nat)
    requires n <= |points| && k < n && i < R
    ensures |TubeVertices(points, n, R)| == n * R
    ensures k * R + i < n * R && TubeVertices(points, n, R)[k * R + i] == TubeVertex(points[k], k, i)
  {
    TubeVerticesLength(points, n - 1, R);
    var prefix := TubeVertices(points, n - 1, R);
    if k == n - 1 {
      assert k * R + i == |prefix| + i;
    } else {
      TubeVerticesShape(points, n - 1, R, k, i);
    }
  }

  /** There are R vertices per input point. */
  lemma {:induction false} TubeVerticesLength(points: seq<Vec>, n: nat, R: nat)
    requires n <= |points|
    ensures |TubeVertices(points, n, R)| == n * R
  {
    if n > 0 {
      TubeVerticesLength(points, n - 1, R);
    }
  }

  lemma {:induction false} RingJoinShape(prevStart: int, R: nat, n: nat)
    requires 1 <= n <= R
    ensures |RingJoin(prevStart, R, n)| == 6 * (n - 1)
    ensures forall x :: x in RingJoin(prevStart, R, n) ==> prevStart <= x < prevStart + 2 * R
  {
    if n > 1 {
      RingJoinShape(prevStart, R, n - 1);
    }
  }

  /**
   * Appending ring k emits 6R indices, all naming vertices of ring k-1 or ring k, none negative
   * (so no `UInt32` trap). The bound at the moment each index is emitted is `QuadBelowCount` and
   * the invariant of `JoinRing`; the closing pair is emitted once the ring's (k+1)R vertices exist.
   */
  lemma TubeStepShape(k: nat, R: nat)
    requires k >= 1 && R >= 1
    ensures |TubeStep(k, R)| == 6 * R
    ensures forall x :: x in TubeStep(k, R) ==> (k - 1) * R <= x < (k + 1) * R
  {
    RingJoinShape((k - 1) * R, R, R);
    assert (k + 1) * R == (k - 1) * R + 2 * R;
  }

  /**
   * The quad for circle point i >= 1, emitted right after that point's vertex is appended to
   * `prevStart + R` earlier vertices, names only vertices that exist by then: it stays within the
   * previous ring's start and the `prevStart + R + i + 1` vertices appended so far.
   */
  lemma QuadBelowCount(prevStart: int, R: nat, i: nat)
    requires 1 <= i < R
    ensures var q := Quad(prevStart + i, R); forall x :: x in q ==> prevStart <= x < prevStart + R + i + 1
  {
  }

  /** A tube around n >= 1 points has 6R(n-1) indices, all naming one of its nR vertices. */
  lemma {:induction false} TubeIndicesShape(n: nat, R: nat)
    requires n >= 1 && R >= 1
    ensures |TubeIndices(n, R)| == 6 * R * (n - 1)
    ensures forall x :: x in TubeIndices(n, R) ==> 0 <= x < n * R
  {
    if n > 1 {
      TubeIndicesShape(n - 1, R);
      TubeStepShape(n - 1, R);
      RingOffsets(n, R);
      BelowAfterAppend(TubeIndices(n - 1, R), TubeStep(n - 1, R), n * R);
    }
  }

  /** Two index lists bounded by `hi` join into one that is. */
  lemma BelowAfterAppend(a: seq<int>, b: seq<int>, hi: int)
    requires forall x :: x in a ==> 0 <= x < hi
    requires forall x :: x in b ==> 0 <= x < hi
    ensures forall x :: x in a + b ==> 0 <= x < hi
  {
  }

  /** The ring offsets of the last two rings of n, written linearly in terms of the one before. */
  lemma RingOffsets(n: nat, R: nat)
    requires n >= 2
    ensures 0 <= (n - 2) * R && (n - 1) * R == (n - 2) * R + R && n * R == (n - 2) * R + 2 * R
    ensures 6 * R * (n - 1) == 6 * R * (n - 2) + 6 * R
  {
  }

  /**
   * The ring and index loops of `new3DLines`: the first ring, then for every further point a new
   * ring whose vertices are joined to the previous ring as they are appended, and the seam closed.
   */
  method TubeGeometry(points: seq<Vec>, count: nat, R: nat) returns (vertices: seq<TubeVertex>, indices: seq<int>)
    requires 1 <= count <= |points| && (R >= 1 || count == 1)
    ensures vertices == TubeVertices(points, count, R)
    ensures indices == TubeIndices(count, R)
  {
    vertices := [];
    indices := [];
    for i := 0 to R
      invariant vertices == Ring(points, 0, R)[..i]
    {
      vertices := vertices + [TubeVertex(points[0], 0, i)];
    }
    assert vertices == TubeVertices(points, 1, R);
    for k := 1 to count
      invariant vertices == TubeVertices(points, k, R)
      invariant indices == TubeIndices(k, R)
    {
      assert R >= 1;
      TubeVerticesLength(points, k, R);
      MulMonotone(1, k, R);
      var prevStart := |vertices| - R;
      assert prevStart == (k - 1) * R;
      ghost var before := indices;
      vertices, indices := JoinRing(points, k, R, prevStart, vertices, indices);
      TubeVerticesLength(points, k + 1, R);
      assert |vertices| == (k + 1) * R;
      indices := indices + Closing(|vertices|, R);
      AppendAssoc(before, RingJoin(prevStart, R, R), Closing(|vertices|, R));
    }
  }

  /**
   * The inner loop of `new3DLines` for point k: append its R ring vertices, and for every circle
   * point after the first the quad joining it to the ring before (which starts at `prevStart`).
   * Every index emitted names a vertex already appended when it is emitted.
   */
  method JoinRing(points: seq<Vec>, k: nat, R: nat, prevStart: int, vs: seq<TubeVertex>, ixs: seq<int>)
    returns (vertices: seq<TubeVertex>, indices: seq<int>)
    requires k < |points| && prevStart + R == |vs|
    ensures vertices == vs + Ring(points, k, R)
    ensures indices == ixs + RingJoin(prevStart, R, R)
    ensures forall x :: x in RingJoin(prevStart, R, R) ==> prevStart <= x < |vertices|
  {
    vertices, indices := vs, ixs;
    ghost var ring := Ring(points, k, R);
    for i := 0 to R
      invariant vertices == vs + ring[..i]
      invariant indices == ixs + RingJoin(prevStart, R, i)
      invariant forall x :: x in RingJoin(prevStart, R, i) ==> prevStart <= x < |vertices|
    {
      var prevIdx := prevStart + i;
      assert ring[..i + 1] == ring[..i] + [TubeVertex(points[k], k, i)];
      AppendAssoc(vs, ring[..i], [TubeVertex(points[k], k, i)]);
      vertices := vertices + [TubeVertex(points[k], k, i)];
      if i > 0 {
        QuadBelowCount(prevStart, R, i);
        AppendAssoc(ixs, RingJoin(prevStart, R, i), Quad(prevIdx, R));
        indices := indices + Quad(prevIdx, R);
      }
    }
    assert ring[..R] == ring;
  }

  /** The slot contents the packing loop writes: position or normal of vertex v. */
  function TubeSlot(vertices: seq<TubeVertex>, inward: bool): (AttributeName, nat) -> Option<TubeAttribute> {
    (n: AttributeName, v: nat) =>
      if v < |vertices| && n == Position then Some(TubePosition(vertices[v]))
      else if v < |vertices| && n == Normal then Some(TubeNormal(vertices[v], inward))
      else None
  }

  /** A tube mesh: interleaved 16-byte slots, the vertex count and the triangle indices. */
  datatype TubeMesh = TubeMesh(
    slots: seq<Option<TubeAttribute>>,
    vertexCount: nat,
    indices: seq<int>,
    geometry: GeometryType)

  /** The attribute whitelist of the tube builders. */
  predicate TubeAttributes(attrs: AttributesMap) {
    OnlyNames(attrs, {Position, Normal})
  }

  /** What the tube builder needs from its caller once the attributes are accepted. */
  predicate TubeInput(points: seq<Vec>, count: nat, R: nat) {
    1 <= count <= |points| && 2 <= |points| && (R >= 1 || count == 1)
  }

  /**
   * `new3DLines`: reject any attribute other than Position and Normal, build the rings and
   * indices, then pack one 16-byte slot per attribute per vertex.
   */
  method New3DLines(attrs: AttributesMap, points: seq<Vec>, count: nat, R: nat,
                    geometry: GeometryType, inward: bool)
    returns (r: Result<TubeMesh>)
    requires TubeAttributes(attrs) ==> TubeInput(points, count, R)
    ensures !TubeAttributes(attrs) ==> r == Err(InvalidAttributes)
    ensures TubeAttributes(attrs) ==>
      r.Ok? && r.value.vertexCount == count * R && r.value.geometry == geometry
      && r.value.indices == TubeIndices(count, R)
      && |r.value.slots| == count * R * |attrs|
      && forall s :: 0 <= s < |r.value.slots| ==>
           r.value.slots[s] == PackedAt(attrs, TubeSlot(TubeVertices(points, count, R), inward), s)
  {
    if !TubeAttributes(attrs) {
      return Err(InvalidAttributes);
    }
    var vertices, indices := TubeGeometry(points, count, R);
    TubeVerticesLength(points, count, R);
    var slots := PackVertices(|vertices|, attrs, TubeSlot(vertices, inward));
    r := Ok(TubeMesh(slots[..], |vertices|, indices, geometry));
  }

  // ---------------------------------------------------------------------------------------------
  // Curve builders

  /** What the samplers need: at least the four (three) points read unconditionally, `count` of them readable. */
  predicate CubicInput(pts: seq<Vec>, count: nat, segments: nat) {
    Uniform(pts) && 4 <= |pts| && count <= |pts| && segments >= 1
  }

  predicate QuadraticInput(pts: seq<Vec>, count: nat, segments: nat) {
    Uniform(pts) && 3 <= |pts| && count <= |pts| && segments >= 1
  }

  /** The points a cubic chain over `count` input points samples. */
  function CubicCurvePoints(pts: seq<Vec>, count: nat, segments: nat): (r: seq<Vec>)
    requires CubicInput(pts, count, segments)
    ensures 2 * CubicCurveCount(count) + 1 < |pts|
    ensures |r| == CubicCurveCount(count) * (segments + 1) && |r| >= 2
  {
    CubicChainLength(pts, CubicCurveCount(count), segments);
    MulMonotone(1, CubicCurveCount(count), segments + 1);
    CubicChain(pts, CubicCurveCount(count), segments)
  }

  function QuadraticCurvePoints(pts: seq<Vec>, count: nat, segments: nat): (r: seq<Vec>)
    requires QuadraticInput(pts, count, segments)
    ensures QuadraticCurveCount(count) + 1 < |pts|
    ensures |r| == QuadraticCurveCount(count) * (segments + 1) && |r| >= 2
  {
    QuadraticChainLength(pts, QuadraticCurveCount(count), segments);
    MulMonotone(1, QuadraticCurveCount(count), segments + 1);
    QuadraticChain(pts, QuadraticCurveCount(count), segments)
  }

  /** The format of the first attribute, as `vertexDescriptor.attributes[attributesMap.first!.key]`. */
  function FirstFormat(vd: VertexDescriptor, attrs: AttributesMap): VertexFormat
    requires |attrs| > 0
  {
    FormatOf(vd, attrs[0].0)
  }

  /** The private `newCubicBezierCurve2D` (format `Float2`) and `newCubicBezierCurve3D` (`Float3`). */
  method CubicBezierCurveIn(vd: VertexDescriptor, attrs: AttributesMap, pts: seq<Vec>, count: nat,
                            segments: nat, format: VertexFormat)
    returns (r: Result<LineMesh<Vec>>)
    requires format == Float2 || format == Float3
    requires IsSinglePosition(attrs) && FirstFormat(vd, attrs) == format ==> CubicInput(pts, count, segments)
    ensures |attrs| > 0 && FirstFormat(vd, attrs) != format ==> r == Err(UnsupportedFormat)
    ensures (|attrs| == 0 || FirstFormat(vd, attrs) == format) && !IsSinglePosition(attrs) ==>
      r == Err(InvalidAttributes)
    ensures IsSinglePosition(attrs) && FirstFormat(vd, attrs) == format ==>
      var points := CubicCurvePoints(pts, count, segments);
      r == Ok(LinesOf(points, |points|, PointStride(format).value))
  {
    if |attrs| > 0 && FormatOf(vd, attrs[0].0) != format {
      return Err(UnsupportedFormat);
    }
    if |attrs| != 1 || attrs[0].1 != Position {
      return Err(InvalidAttributes);
    }
    var points := CubicBezierPoints(pts, count, segments);
    assert points == CubicCurvePoints(pts, count, segments);
    r := NewLines(vd, attrs, points, |points|);
  }

  /** The private `newQuadraticBezierCurve2D` and `newQuadraticBezierCurve3D`. */
  method QuadraticBezierCurveIn(vd: VertexDescriptor, attrs: AttributesMap, pts: seq<Vec>, count: nat,
                                segments: nat, format: VertexFormat)
    returns (r: Result<LineMesh<Vec>>)
    requires format == Float2 || format == Float3
    requires IsSinglePosition(attrs) && FirstFormat(vd, attrs) == format ==> QuadraticInput(pts, count, segments)
    ensures |attrs| > 0 && FirstFormat(vd, attrs) != format ==> r == Err(UnsupportedFormat)
    ensures (|attrs| == 0 || FirstFormat(vd, attrs) == format) && !IsSinglePosition(attrs) ==>
      r == Err(InvalidAttributes)
    ensures IsSinglePosition(attrs) && FirstFormat(vd, attrs) == format ==>
      var points := QuadraticCurvePoints(pts, count, segments);
      r == Ok(LinesOf(points, |points|, PointStride(format).value))
  {
    if |attrs| > 0 && FormatOf(vd, attrs[0].0) != format {
      return Err(UnsupportedFormat);
    }
    if |attrs| != 1 || attrs[0].1 != Position {
      return Err(InvalidAttributes);
    }
    var points := QuadraticBezierPoints(pts, count, segments);
    assert points == QuadraticCurvePoints(pts, count, segments);
    r := NewLines(vd, attrs, points, |points|);
  }

  /**
   * `newCubicBezierCurve`: a single Position attribute, then dispatch on its format: `Float2` to
   * the 2D builder, `Float3` to the 3D builder, anything else throws.
   */
  method NewCubicBezierCurve(vd: VertexDescriptor, attrs: AttributesMap, pts: seq<Vec>, count: nat, segments: nat)
    returns (r: Result<LineMesh<Vec>>)
    requires IsSinglePosition(attrs) && FirstFormat(vd, attrs) in {Float2, Float3} ==> CubicInput(pts, count, segments)
    ensures !IsSinglePosition(attrs) ==> r == Err(InvalidAttributes)
    ensures IsSinglePosition(attrs) && FirstFormat(vd, attrs) !in {Float2, Float3} ==> r == Err(UnsupportedFormat)
    ensures IsSinglePosition(attrs) && FirstFormat(vd, attrs) in {Float2, Float3} ==>
      var points := CubicCurvePoints(pts, count, segments);
      r == Ok(LinesOf(points, |points|, if FirstFormat(vd, attrs) == Float2 then 8 else 16))
  {
    if |attrs| != 1 || attrs[0].1 != Position {
      return Err(InvalidAttributes);
    }
    match FormatOf(vd, attrs[0].0)
    case Float2 =>
      r := CubicBezierCurveIn(vd, attrs, pts, count, segments, Float2);
    case Float3 =>
      r := CubicBezierCurveIn(vd, attrs, pts, count, segments, Float3);
    case _ =>
      r := Err(UnsupportedFormat);
  }

  /** `newQuadraticBezierCurve`: the same guard and dispatch for quadratic chains. */
  method NewQuadraticBezierCurve(vd: VertexDescriptor, attrs: AttributesMap, pts: seq<Vec>, count: nat, segments: nat)
    returns (r: Result<LineMesh<Vec>>)
    requires IsSinglePosition(attrs) && FirstFormat(vd, attrs) in {Float2, Float3} ==> QuadraticInput(pts, count, segments)
    ensures !IsSinglePosition(attrs) ==> r == Err(InvalidAttributes)
    ensures IsSinglePosition(attrs) && FirstFormat(vd, attrs) !in {Float2, Float3} ==> r == Err(UnsupportedFormat)
    ensures IsSinglePosition(attrs) && FirstFormat(vd, attrs) in {Float2, Float3} ==>
      var points := QuadraticCurvePoints(pts, count, segments);
      r == Ok(LinesOf(points, |points|, if FirstFormat(vd, attrs) == Float2 then 8 else 16))
  {
    if |attrs| != 1 || attrs[0].1 != Position {
      return Err(InvalidAttributes);
    }
    match FormatOf(vd, attrs[0].0)
    case Float2 =>
      r := QuadraticBezierCurveIn(vd, attrs, pts, count, segments, Float2);
    case Float3 =>
      r := QuadraticBezierCurveIn(vd, attrs, pts, count, segments, Float3);
    case _ =>
      r := Err(UnsupportedFormat);
  }

  /** Every attribute of the map has format f in the descriptor. */
  predicate AllFormats(vd: VertexDescriptor, attrs: AttributesMap, f: VertexFormat) {
    forall p :: 0 <= p < |attrs| ==> FormatOf(vd, attrs[p].0) == f
  }

  /** The `attributesMap.forEach` loop that throws on the first attribute whose format is not f. */
  method CheckFormats(vd: VertexDescriptor, attrs: AttributesMap, f: VertexFormat) returns (ok: bool)
    ensures ok <==> AllFormats(vd, attrs, f)
  {
    for p := 0 to |attrs|
      invariant forall q :: 0 <= q < p ==> FormatOf(vd, attrs[q].0) == f
    {
      if FormatOf(vd, attrs[p].0) != f {
        return false;
      }
    }
    return true;
  }

  /**
   * `newCubicBezier3DCurve`: Position/Normal only, every attribute `Float3`, then the cubic chain's
   * samples become the centre line of a tube.
   */
  method NewCubicBezier3DCurve(vd: VertexDescriptor, attrs: AttributesMap, pts: seq<Vec>, count: nat,
                               lineSegments: nat, R: nat, geometry: GeometryType, inward: bool)
    returns (r: Result<TubeMesh>)
    requires TubeAttributes(attrs) && AllFormats(vd, attrs, Float3) ==> CubicInput(pts, count, lineSegments) && R >= 1
    ensures !TubeAttributes(attrs) ==> r == Err(InvalidAttributes)
    ensures TubeAttributes(attrs) && !AllFormats(vd, attrs, Float3) ==> r == Err(UnsupportedFormat)
    ensures TubeAttributes(attrs) && AllFormats(vd, attrs, Float3) ==>
      var centre := CubicCurvePoints(pts, count, lineSegments);
      r.Ok? && r.value.vertexCount == |centre| * R && r.value.indices == TubeIndices(|centre|, R)
      && |r.value.slots| == |centre| * R * |attrs| && r.value.geometry == geometry
      && forall s :: 0 <= s < |r.value.slots| ==>
           r.value.slots[s] == PackedAt(attrs, TubeSlot(TubeVertices(centre, |centre|, R), inward), s)
  {
    if !TubeAttributes(attrs) {
      return Err(InvalidAttributes);
    }
    var ok := CheckFormats(vd, attrs, Float3);
    if !ok {
      return Err(UnsupportedFormat);
    }
    var points := CubicBezierPoints(pts, count, lineSegments);
    assert points == CubicCurvePoints(pts, count, lineSegments);
    r := New3DLines(attrs, points, |points|, R, geometry, inward);
  }
}
