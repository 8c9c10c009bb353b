/**
 * `gl::Mesh`: a vertex array, one vertex buffer per descriptor entry and an
 * optional index buffer, plus the number of triangles to draw.
 */
module Mesh {
  import opened Wrappers
  import opened Names
  import opened VertexLayout

  datatype VertexBufferDescriptor = VertexBufferDescriptor(layout: seq<VertexAttribute>, data: seq<real>)

  /** `Mesh_Descriptor`; an empty index buffer means "not indexed". */
  datatype MeshDescriptor = MeshDescriptor(vertexBuffers: seq<VertexBufferDescriptor>, indexBuffer: seq<nat>)

  /** Number of whole vertices in a buffer: floats divided by floats per vertex. */
  function VertexCount(vb: VertexBufferDescriptor): nat
    requires |vb.layout| > 0
  {
    StridePositive(vb.layout);
    |vb.data| / (Stride(vb.layout) / 4)
  }

  /** Triangles inferred from a non-indexed buffer: `data.size() / (stride / 4) / 3`. */
  function BufferTriangles(vb: VertexBufferDescriptor): nat
    requires |vb.layout| > 0
  {
    VertexCount(vb) / 3
  }

  /**
   * What the constructor asserts: at least one vertex buffer; an index
   * buffer, if given, holds whole triangles; without one, every layout is
   * non-empty (the stride is a divisor) and every buffer infers the same
   * triangle count as buffer 0.
   */
  predicate ValidDescriptor(desc: MeshDescriptor) {
    && |desc.vertexBuffers| > 0
    && (|desc.indexBuffer| > 0 ==> |desc.indexBuffer| % 3 == 0)
    && (|desc.indexBuffer| == 0 ==>
          && (forall i :: 0 <= i < |desc.vertexBuffers| ==> |desc.vertexBuffers[i].layout| > 0)
          && (forall i :: 0 <= i < |desc.vertexBuffers| ==>
                BufferTriangles(desc.vertexBuffers[i]) == BufferTriangles(desc.vertexBuffers[0])))
  }

  /** The GL calls the constructor makes for one vertex buffer's layout. */
  datatype BufferLayout = BufferLayout(stride: nat, pointers: seq<AttribPointer>)

  /**
   * The constructor's computation: the triangle count (from the index buffer,
   * or from each vertex buffer in turn, checked against buffer 0) and the
   * attribute pointers of every buffer.
   */
  method Layouts(desc: MeshDescriptor) returns (trianglesCount: nat, layouts: seq<BufferLayout>)
    requires ValidDescriptor(desc)
    ensures |desc.indexBuffer| > 0 ==> trianglesCount * 3 == |desc.indexBuffer|
    ensures |desc.indexBuffer| == 0 ==>
              forall i :: 0 <= i < |desc.vertexBuffers| ==> trianglesCount == BufferTriangles(desc.vertexBuffers[i])
    ensures |layouts| == |desc.vertexBuffers|
    ensures forall i :: 0 <= i < |layouts| ==>
              && layouts[i].stride == Stride(desc.vertexBuffers[i].layout)
              && |layouts[i].pointers| == |desc.vertexBuffers[i].layout|
              && forall k :: 0 <= k < |layouts[i].pointers| ==>
                   layouts[i].pointers[k].offset == Offset(desc.vertexBuffers[i].layout, k)
  {
    var vbs := desc.vertexBuffers;
    trianglesCount := 0;
    if |desc.indexBuffer| > 0 {
      trianglesCount := |desc.indexBuffer| / 3;
    }
    layouts := [];
    var i := 0;
    while i < |vbs|
      invariant i <= |vbs| && |layouts| == i
      invariant |desc.indexBuffer| > 0 ==> trianglesCount * 3 == |desc.indexBuffer|
      invariant |desc.indexBuffer| == 0 && i > 0 ==> trianglesCount == BufferTriangles(vbs[0])
      invariant forall j :: 0 <= j < i ==>
                  && layouts[j].stride == Stride(vbs[j].layout)
                  && |layouts[j].pointers| == |vbs[j].layout|
                  && forall k :: 0 <= k < |layouts[j].pointers| ==>
                       layouts[j].pointers[k].offset == Offset(vbs[j].layout, k)
    {
      var stride, calls, _ := AttribPointers(vbs[i].layout);
      if |desc.indexBuffer| == 0 {
        StridePositive(vbs[i].layout);
        var count := |vbs[i].data| / (stride / 4) / 3;
        if i == 0 {
          trianglesCount := count;
        } else {
          assert trianglesCount == count;
        }
      }
      layouts := layouts + [BufferLayout(stride, calls)];
      i := i + 1;
    }
  }

  /** Triangle count of a valid descriptor, as the constructor computes it. */
  function Triangles(desc: MeshDescriptor): nat
    requires ValidDescriptor(desc)
  {
    if |desc.indexBuffer| > 0 then |desc.indexBuffer| / 3 else BufferTriangles(desc.vertexBuffers[0])
  }

  /** The handles a `Mesh` owns and its triangle count. */
  datatype MeshObject = MeshObject(vertexArray: Name, vertexBuffers: seq<Name>, indexBuffer: Name, trianglesCount: nat)

  /** Field defaults: no handles, no vertex buffers, no triangles. */
  function DefaultMesh(): (m: MeshObject)
    ensures m.vertexArray == 0 && m.vertexBuffers == [] && m.indexBuffer == 0 && m.trianglesCount == 0
  {
    MeshObject(0, [], 0, 0)
  }

  function NamesOf(m: MeshObject): set<Name> {
    NameSet(m.vertexArray) + Elements(m.vertexBuffers) + NameSet(m.indexBuffer)
  }

  /** The handles of one mesh are distinct and non-zero buffers are listed once. */
  predicate WellFormed(m: MeshObject) {
    && Distinct(m.vertexBuffers)
    && 0 !in Elements(m.vertexBuffers)
    && m.vertexArray !in Elements(m.vertexBuffers)
    && m.indexBuffer !in Elements(m.vertexBuffers)
    && (m.vertexArray != 0 ==> m.vertexArray != m.indexBuffer)
  }

  /** A draw call: indexed (`glDrawElements`) or not (`glDrawArrays` from 0). */
  datatype DrawCall = DrawElements(count: nat) | DrawArrays(first: nat, count: nat)

  /** `draw`: binds the vertex array, then draws `3 * triangles_count` vertices as triangles. */
  function Draw(m: MeshObject): (r: (Name, DrawCall))
    ensures r.0 == m.vertexArray
    ensures r.1.count == 3 * m.trianglesCount
    ensures r.1.DrawElements? <==> m.indexBuffer != 0
    ensures r.1.DrawArrays? ==> r.1.first == 0
  {
    (m.vertexArray, if m.indexBuffer != 0 then DrawElements(3 * m.trianglesCount) else DrawArrays(0, 3 * m.trianglesCount))
  }

  /** A set of live `Mesh` objects by address, with the name store. */
  datatype MeshHeap = MeshHeap(gl: Store, meshes: map<Addr, MeshObject>)

  function Owned(h: MeshHeap): map<Addr, set<Name>> {
    OwnedBy(h.meshes)
  }

  function OwnedBy(meshes: map<Addr, MeshObject>): map<Addr, set<Name>> {
    map a | a in meshes :: NamesOf(meshes[a])
  }

  lemma OwnedByUpdate(meshes: map<Addr, MeshObject>, a: Addr, m: MeshObject)
    ensures OwnedBy(meshes[a := m]) == OwnedBy(meshes)[a := NamesOf(m)]
  {
  }

  lemma OwnedByRemove(meshes: map<Addr, MeshObject>, a: Addr)
    ensures OwnedBy(meshes - {a}) == OwnedBy(meshes) - {a}
  {
  }

  predicate Valid(h: MeshHeap) {
    && Names.Valid(h.gl)
    && (forall a :: a in h.meshes ==> WellFormed(h.meshes[a]))
    && Exclusive(h.gl.live, Owned(h))
  }

  /**
   * Construction of mesh `a`: a new vertex array, one new buffer per vertex
   * buffer, a new index buffer only when indices are given, and the triangle
   * count of the descriptor.
   */
  function Create(h: MeshHeap, a: Addr, desc: MeshDescriptor): (r: MeshHeap)
    requires Valid(h) && a !in h.meshes && ValidDescriptor(desc)
    ensures Valid(r)
    ensures a in r.meshes && r.meshes == h.meshes[a := r.meshes[a]]
    ensures r.meshes[a].vertexArray != 0
    ensures |r.meshes[a].vertexBuffers| == |desc.vertexBuffers|
    ensures r.meshes[a].indexBuffer != 0 <==> |desc.indexBuffer| > 0
    ensures r.meshes[a].trianglesCount == Triangles(desc)
    ensures NamesOf(r.meshes[a]) !! h.gl.live
    ensures r.gl.live == h.gl.live + NamesOf(r.meshes[a])
    ensures r.gl.staleDeletes == h.gl.staleDeletes
  {
    var (s1, va) := Names.Generate(h.gl);
    var (s2, buffers) := Names.GenerateMany(s1, |desc.vertexBuffers|);
    var (s3, ib) := if |desc.indexBuffer| > 0 then Names.Generate(s2) else (s2, 0);
    var m := MeshObject(va, buffers, ib, Triangles(desc));
    var r := MeshHeap(s3, h.meshes[a := m]);
    OwnedByUpdate(h.meshes, a, m);
    ExclusiveAdd(h.gl.live, Owned(h), a, NamesOf(m));
    r
  }

  /**
   * The destructor's deletions: the vertex array, the vertex buffers when
   * there are any (a moved-from mesh has none), and the index buffer.
   */
  function Release(gl: Store, m: MeshObject): (r: Store)
    requires Names.Valid(gl) && WellFormed(m) && NamesOf(m) <= gl.live
    ensures Names.Valid(r)
    ensures r.live == gl.live - NamesOf(m)
    ensures r.staleDeletes == gl.staleDeletes
  {
    var s1 := Names.Delete(gl, m.vertexArray);
    var s2 := if |m.vertexBuffers| > 0 then Names.DeleteMany(s1, m.vertexBuffers) else s1;
    Names.Delete(s2, m.indexBuffer)
  }

  /** A moved-from mesh: handles zeroed, buffer list emptied, count kept. */
  function MovedFrom(m: MeshObject): (r: MeshObject)
    ensures WellFormed(r) && NamesOf(r) == {}
  {
    assert Elements<Name>([]) == {};
    m.(vertexArray := 0, vertexBuffers := [], indexBuffer := 0)
  }

  /** What a mesh of a valid heap owns is live. */
  lemma OwnedIsLive(h: MeshHeap, a: Addr)
    requires Valid(h) && a in h.meshes
    ensures NamesOf(h.meshes[a]) <= h.gl.live
  {
    assert Owned(h)[a] == NamesOf(h.meshes[a]);
  }

  /** Move construction: all handles and the count transfer; the source owns nothing. */
  function MoveConstruct(h: MeshHeap, a: Addr, src: Addr): (r: MeshHeap)
    requires Valid(h) && a !in h.meshes && src in h.meshes
    ensures Valid(r)
    ensures a in r.meshes && src in r.meshes
    ensures r.meshes[a] == h.meshes[src]
    ensures NamesOf(r.meshes[src]) == {}
    ensures r.meshes[src].trianglesCount == h.meshes[src].trianglesCount
    ensures r.gl == h.gl
  {
    var moved := MovedFrom(h.meshes[src]);
    var meshes := h.meshes[a := h.meshes[src]][src := moved];
    var r := MeshHeap(h.gl, meshes);
    assert forall b :: b in meshes ==> WellFormed(meshes[b]);
    OwnedByUpdate(h.meshes, a, h.meshes[src]);
    OwnedByUpdate(h.meshes[a := h.meshes[src]], src, moved);
    ExclusiveHandOver(h.gl.live, Owned(h), a, src);
    r
  }

  /**
   * Move assignment: a self-move changes nothing; otherwise the
   * destination's own handles are deleted first, then everything transfers.
   */
  function MoveAssign(h: MeshHeap, dst: Addr, src: Addr): (r: MeshHeap)
    requires Valid(h) && dst in h.meshes && src in h.meshes
    ensures Valid(r)
    ensures r.gl.staleDeletes == h.gl.staleDeletes
    ensures dst == src ==> r == h
    ensures dst != src ==>
              && r.meshes == h.meshes[dst := h.meshes[src]][src := MovedFrom(h.meshes[src])]
              && r.gl.live == h.gl.live - NamesOf(h.meshes[dst])
              && NamesOf(h.meshes[dst]) !! r.gl.live
  {
    if dst == src then h else Replace(h, dst, src)
  }

  /** The body of a move assignment between two distinct meshes. */
  function Replace(h: MeshHeap, dst: Addr, src: Addr): (r: MeshHeap)
    requires Valid(h) && dst in h.meshes && src in h.meshes && dst != src
    ensures Valid(r)
    ensures r.gl.staleDeletes == h.gl.staleDeletes
    ensures r.meshes == h.meshes[dst := h.meshes[src]][src := MovedFrom(h.meshes[src])]
    ensures r.gl.live == h.gl.live - NamesOf(h.meshes[dst])
  {
    OwnedIsLive(h, dst);
    var gl := Release(h.gl, h.meshes[dst]);
    var moved := MovedFrom(h.meshes[src]);
    var meshes := h.meshes[dst := h.meshes[src]][src := moved];
    var r := MeshHeap(gl, meshes);
    assert forall b :: b in meshes ==> WellFormed(meshes[b]);
    OwnedByUpdate(h.meshes, dst, h.meshes[src]);
    OwnedByUpdate(h.meshes[dst := h.meshes[src]], src, moved);
    ExclusiveReplace(h.gl.live, Owned(h), dst, src);
    r
  }

  /** Destruction: releases exactly what the mesh owns. */
  function Destroy(h: MeshHeap, a: Addr): (r: MeshHeap)
    requires Valid(h) && a in h.meshes
    ensures Valid(r)
    ensures r.meshes == h.meshes - {a}
    ensures r.gl.live == h.gl.live - NamesOf(h.meshes[a])
    ensures r.gl.staleDeletes == h.gl.staleDeletes
  {
    OwnedIsLive(h, a);
    var gl := Release(h.gl, h.meshes[a]);
    var r := MeshHeap(gl, h.meshes - {a});
    OwnedByRemove(h.meshes, a);
    ExclusiveRemove(h.gl.live, Owned(h), a);
    r
  }

  /** Destroying a moved-from mesh deletes nothing. */
  lemma DestroyMovedFrom(h: MeshHeap, dst: Addr, src: Addr)
    requires Valid(h) && dst in h.meshes && src in h.meshes && dst != src
    ensures Destroy(MoveAssign(h, dst, src), src).gl == MoveAssign(h, dst, src).gl
  {
    var h1 := MoveAssign(h, dst, src);
    assert h1.meshes[src] == MovedFrom(h.meshes[src]);
  }

  /**
   * What a constructed mesh draws: with indices, exactly the index buffer;
   * without, the whole triangles of every vertex buffer (at most two
   * trailing vertices are dropped).
   */
  lemma DrawCoversDescriptor(h: MeshHeap, a: Addr, desc: MeshDescriptor)
    requires Valid(h) && a !in h.meshes && ValidDescriptor(desc)
    ensures var call := Draw(Create(h, a, desc).meshes[a]).1;
            && (call.DrawElements? <==> |desc.indexBuffer| > 0)
            && (call.DrawElements? ==> call.count == |desc.indexBuffer|)
            && (call.DrawArrays? ==> forall i :: 0 <= i < |desc.vertexBuffers| ==>
                  call.count <= VertexCount(desc.vertexBuffers[i]) < call.count + 3)
  {
    var m := Create(h, a, desc).meshes[a];
    if |desc.indexBuffer| == 0 {
      forall i | 0 <= i < |desc.vertexBuffers|
        ensures 3 * m.trianglesCount <= VertexCount(desc.vertexBuffers[i]) < 3 * m.trianglesCount + 3
      {
        assert m.trianglesCount == VertexCount(desc.vertexBuffers[i]) / 3;
      }
    }
  }

  /** The test cube: 8 vertices of 3 floats and 36 indices give 12 triangles. */
  lemma TestCubeHasTwelveTriangles(data: seq<real>, indices: seq<nat>)
    requires |data| == 24 && |indices| == 36
    ensures ValidDescriptor(MeshDescriptor([VertexBufferDescriptor([VertexAttribute(Position3D, 0)], data)], indices))
    ensures Triangles(MeshDescriptor([VertexBufferDescriptor([VertexAttribute(Position3D, 0)], data)], indices)) == 12
  {
  }
}
