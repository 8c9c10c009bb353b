/**
 * Vertex attributes and the per-buffer layout arithmetic of a mesh: byte
 * size of each attribute, the stride of a buffer, and the byte offset of
 * each attribute inside a vertex.
 */
module VertexLayout {

  /** The eight attribute classes of `gl::VertexAttribute`. */
  datatype AttributeKind = Float | Vec2 | Vec3 | Vec4 | Int | IVec2 | IVec3 | IVec4

  /** The scalar type an attribute reports (`GL_FLOAT` or `GL_INT`). */
  datatype ScalarType = GlFloat | GlInt

  /** The aliases declared next to the attribute classes. */
  const Position2D: AttributeKind := Vec2
  const Position3D: AttributeKind := Vec3
  const Normal3D: AttributeKind := Vec3
  const UV: AttributeKind := Vec2
  const ColorRGB: AttributeKind := Vec3
  const ColorRGBA: AttributeKind := Vec4

  /**
   * `AnyVertexAttribute`: one of the eight kinds, carrying the shader input
   * index it was constructed with (what `index()` returns).
   */
  datatype VertexAttribute = VertexAttribute(kind: AttributeKind, index: int)

  /** `size()`: number of components. */
  function ComponentCount(k: AttributeKind): (n: nat)
    ensures 1 <= n <= 4
  {
    match k
    case Float => 1
    case Vec2 => 2
    case Vec3 => 3
    case Vec4 => 4
    case Int => 1
    case IVec2 => 2
    case IVec3 => 3
    case IVec4 => 4
  }

  /** `type()`. */
  function ScalarTypeOf(k: AttributeKind): ScalarType {
    match k
    case Float => GlFloat
    case Vec2 => GlFloat
    case Vec3 => GlFloat
    case Vec4 => GlFloat
    case Int => GlInt
    case IVec2 => GlInt
    case IVec3 => GlInt
    case IVec4 => GlInt
  }

  /** The attribute class with a given scalar type and component count. */
  function KindFor(t: ScalarType, n: nat): (k: AttributeKind)
    requires 1 <= n <= 4
  {
    match t
    case GlFloat => (if n == 1 then Float else if n == 2 then Vec2 else if n == 3 then Vec3 else Vec4)
    case GlInt => (if n == 1 then Int else if n == 2 then IVec2 else if n == 3 then IVec3 else IVec4)
  }

  /**
   * The eight classes are exactly the pairs (scalar type, 1..4 components):
   * `size()` and `type()` together identify the class, and every pair has one.
   */
  lemma KindIsSizeAndType(k: AttributeKind, t: ScalarType, n: nat)
    requires 1 <= n <= 4
    ensures KindFor(ScalarTypeOf(k), ComponentCount(k)) == k
    ensures ScalarTypeOf(KindFor(t, n)) == t && ComponentCount(KindFor(t, n)) == n
  {
  }

  /** `size_in_bytes`: every component is a 4-byte float or int. */
  function SizeInBytes(a: VertexAttribute): (b: nat)
    ensures 4 <= b <= 16 && b % 4 == 0
  {
    ComponentCount(a.kind) * 4
  }

  /**
   * The stride of a buffer: the byte sizes of its attributes summed from the
   * left, as `std::accumulate` does.
   */
  function Stride(layout: seq<VertexAttribute>): nat
    decreases |layout|
  {
    if |layout| == 0 then 0
    else Stride(layout[..|layout| - 1]) + SizeInBytes(layout[|layout| - 1])
  }

  /** Total number of components of one vertex. */
  function Components(layout: seq<VertexAttribute>): nat
    decreases |layout|
  {
    if |layout| == 0 then 0 else ComponentCount(layout[0].kind) + Components(layout[1..])
  }

  /** The byte offset of attribute `k`: the sizes of the attributes before it. */
  function Offset(layout: seq<VertexAttribute>, k: nat): nat
    requires k <= |layout|
  {
    Stride(layout[..k])
  }

  /** The stride is four bytes per component of a vertex. */
  lemma {:induction false} StrideIsFourBytesPerComponent(layout: seq<VertexAttribute>)
    ensures Stride(layout) == 4 * Components(layout)
    decreases |layout|
  {
    if |layout| > 0 {
      var last := |layout| - 1;
      StrideIsFourBytesPerComponent(layout[..last]);
      ComponentsSplit(layout[..last], [layout[last]]);
      assert layout[..last] + [layout[last]] == layout;
    }
  }

  lemma {:induction false} ComponentsSplit(a: seq<VertexAttribute>, b: seq<VertexAttribute>)
    ensures Components(a + b) == Components(a) + Components(b)
    decreases |a|
  {
    if |a| == 0 {
      assert a + b == b;
    } else {
      assert (a + b)[1..] == a[1..] + b;
      ComponentsSplit(a[1..], b);
    }
  }

  /** An empty layout has stride 0; any attribute makes it positive. */
  lemma StridePositive(layout: seq<VertexAttribute>)
    ensures Stride(layout) == 0 <==> |layout| == 0
    ensures |layout| > 0 ==> Stride(layout) >= 4
    ensures Stride(layout) % 4 == 0
  {
    StrideIsFourBytesPerComponent(layout);
    if |layout| > 0 {
      StrideAtLeastLast(layout);
    }
  }

  lemma StrideAtLeastLast(layout: seq<VertexAttribute>)
    requires |layout| > 0
    ensures Stride(layout) >= SizeInBytes(layout[|layout| - 1])
  {
  }

  /** Stride grows with the prefix. */
  lemma {:induction false} OffsetMonotone(layout: seq<VertexAttribute>, j: nat, k: nat)
    requires j <= k <= |layout|
    ensures Offset(layout, j) <= Offset(layout, k)
    decreases k - j
  {
    if j < k {
      OffsetMonotone(layout, j, k - 1);
      OffsetStep(layout, k - 1);
    }
  }

  /** The next offset is this one plus this attribute's size. */
  lemma OffsetStep(layout: seq<VertexAttribute>, k: nat)
    requires k < |layout|
    ensures Offset(layout, k + 1) == Offset(layout, k) + SizeInBytes(layout[k])
  {
    assert layout[..k + 1][..k] == layout[..k];
  }

  /**
   * Offsets are prefix sums that tile one vertex: the last offset past the
   * end is the stride, every attribute ends at or before the stride, and the
   * byte ranges of two attributes never overlap.
   */
  lemma OffsetsTileTheStride(layout: seq<VertexAttribute>, j: nat, k: nat)
    requires j < k < |layout|
    ensures Offset(layout, |layout|) == Stride(layout)
    ensures Offset(layout, k) + SizeInBytes(layout[k]) <= Stride(layout)
    ensures Offset(layout, k) < Stride(layout)
    ensures Offset(layout, j) + SizeInBytes(layout[j]) <= Offset(layout, k)
  {
    assert layout[..|layout|] == layout;
    OffsetStep(layout, k);
    OffsetMonotone(layout, k + 1, |layout|);
    OffsetStep(layout, j);
    OffsetMonotone(layout, j + 1, k);
  }

  /** One `glVertexAttribPointer` call. */
  datatype AttribPointer = AttribPointer(
    index: int, size: nat, scalarType: ScalarType, normalized: bool, stride: nat, offset: nat)

  /**
   * The attribute loop of mesh construction: the stride of the buffer and the
   * `glVertexAttribPointer` call issued for each attribute, in order, with a
   * running byte pointer.
   */
  method AttribPointers(layout: seq<VertexAttribute>) returns (stride: nat, calls: seq<AttribPointer>, pointer: nat)
    ensures stride == Stride(layout) && pointer == stride
    ensures |calls| == |layout|
    ensures forall k :: 0 <= k < |calls| ==>
              && calls[k].index == layout[k].index
              && calls[k].size == ComponentCount(layout[k].kind)
              && calls[k].scalarType == ScalarTypeOf(layout[k].kind)
              && !calls[k].normalized
              && calls[k].stride == stride
              && calls[k].offset == Offset(layout, k)
  {
    stride := 0;
    var i := 0;
    while i < |layout|
      invariant i <= |layout|
      invariant stride == Stride(layout[..i])
    {
      assert layout[..i + 1][..i] == layout[..i];
      stride := stride + SizeInBytes(layout[i]);
      i := i + 1;
    }
    assert layout[..|layout|] == layout;
    calls := [];
    pointer := 0;
    while |calls| < |layout|
      invariant |calls| <= |layout|
      invariant pointer == Offset(layout, |calls|)
      invariant forall k :: 0 <= k < |calls| ==>
                  && calls[k].index == layout[k].index
                  && calls[k].size == ComponentCount(layout[k].kind)
                  && calls[k].scalarType == ScalarTypeOf(layout[k].kind)
                  && !calls[k].normalized
                  && calls[k].stride == stride
                  && calls[k].offset == Offset(layout, k)
    {
      var a := layout[|calls|];
      OffsetStep(layout, |calls|);
      calls := calls + [AttribPointer(a.index, ComponentCount(a.kind), ScalarTypeOf(a.kind), false, stride, pointer)];
      pointer := pointer + SizeInBytes(a);
    }
  }

  /** The demo layout `[Position3D{0}, UV{1}]`: stride 20, UV at byte 12. */
  lemma DemoLayout()
    ensures Stride([VertexAttribute(Position3D, 0), VertexAttribute(UV, 1)]) == 20
    ensures Offset([VertexAttribute(Position3D, 0), VertexAttribute(UV, 1)], 1) == 12
  {
    var layout := [VertexAttribute(Position3D, 0), VertexAttribute(UV, 1)];
    assert layout[..1][..0] == [];
    assert Stride(layout[..1]) == 12;
    assert Stride(layout) == Stride(layout[..1]) + 8;
  }
}
