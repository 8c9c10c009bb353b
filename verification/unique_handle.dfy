/**
 * Move-only wrappers that own exactly one OpenGL name: `UniqueTexture`,
 * `UniqueShader`, `UniqueFramebuffer` (in the `internal` namespaces of the
 * headers) and the shader-module wrapper local to the shader source. The
 * four classes have the same body up to which `glCreate*`/`glGen*` and
 * `glDelete*` they call, so one model serves them all.
 *
 * A `Heap` is a set of live wrapper objects, identified by address, each
 * holding the name it owns (0 once moved from), together with the name store.
 */
module UniqueHandle {
  import opened Wrappers
  import opened Names

  datatype Heap = Heap(gl: Store, objects: map<Addr, Name>)

  function Owned(h: Heap): map<Addr, set<Name>> {
    map a | a in h.objects :: NameSet(h.objects[a])
  }

  /** Every live name is owned by exactly one wrapper, and nothing else is live. */
  predicate Valid(h: Heap) {
    Names.Valid(h.gl) && Exclusive(h.gl.live, Owned(h))
  }

  function Empty(): (h: Heap)
    ensures Valid(h) && h.objects == map[]
  {
    Heap(Names.Initial(), map[])
  }

  /** Default construction: one new name, owned by the new object `a`. */
  function Construct(h: Heap, a: Addr): (r: Heap)
    requires Valid(h) && a !in h.objects
    ensures Valid(r)
    ensures a in r.objects && r.objects == h.objects[a := r.objects[a]]
    ensures r.objects[a] != 0 && r.objects[a] !in h.gl.live
    ensures r.gl.live == h.gl.live + {r.objects[a]}
    ensures r.gl.staleDeletes == h.gl.staleDeletes
  {
    var (gl, id) := Names.Generate(h.gl);
    var r := Heap(gl, h.objects[a := id]);
    assert Owned(r) == Owned(h)[a := {id}];
    ExclusiveAdd(h.gl.live, Owned(h), a, {id});
    r
  }

  /** Move construction of `a` from `src`: the name moves, `src` holds 0. */
  function MoveConstruct(h: Heap, a: Addr, src: Addr): (r: Heap)
    requires Valid(h) && a !in h.objects && src in h.objects
    ensures Valid(r)
    ensures a in r.objects && src in r.objects
    ensures r.objects[a] == h.objects[src] && r.objects[src] == 0
    ensures r.objects.Keys == h.objects.Keys + {a}
    ensures forall b :: b in h.objects && b != src ==> r.objects[b] == h.objects[b]
    ensures r.gl == h.gl
  {
    var r := Heap(h.gl, h.objects[a := h.objects[src]][src := 0]);
    assert Owned(r) == Owned(h)[a := Owned(h)[src]][src := {}];
    ExclusiveHandOver(h.gl.live, Owned(h), a, src);
    r
  }

  /**
   * Move assignment `dst = std::move(src)`. A self-move changes nothing;
   * otherwise `dst` deletes the name it held, takes `src`'s name, and `src`
   * is left holding 0.
   */
  function MoveAssign(h: Heap, dst: Addr, src: Addr): (r: Heap)
    requires Valid(h) && dst in h.objects && src in h.objects
    ensures Valid(r)
    ensures r.gl.staleDeletes == h.gl.staleDeletes
    ensures dst == src ==> r == h
    ensures dst != src ==>
              && r.objects == h.objects[dst := h.objects[src]][src := 0]
              && r.gl.live == h.gl.live - NameSet(h.objects[dst])
              && (h.objects[dst] != 0 ==> h.objects[dst] !in r.gl.live)
  {
    if dst == src then h
    else
      var gl := Names.Delete(h.gl, h.objects[dst]);
      var r := Heap(gl, h.objects[dst := h.objects[src]][src := 0]);
      assert Owned(r) == Owned(h)[dst := Owned(h)[src]][src := {}];
      ExclusiveReplace(h.gl.live, Owned(h), dst, src);
      r
  }

  /** Destruction of `a`: it deletes its name; deleting 0 is a no-op. */
  function Destroy(h: Heap, a: Addr): (r: Heap)
    requires Valid(h) && a in h.objects
    ensures Valid(r)
    ensures r.objects == h.objects - {a}
    ensures r.gl.live == h.gl.live - NameSet(h.objects[a])
    ensures r.gl.staleDeletes == h.gl.staleDeletes
    ensures h.objects[a] == 0 ==> r.gl == h.gl
  {
    var gl := Names.Delete(h.gl, h.objects[a]);
    var r := Heap(gl, h.objects - {a});
    assert Owned(r) == Owned(h) - {a};
    ExclusiveRemove(h.gl.live, Owned(h), a);
    r
  }

  /** The lifetime events a program can apply to the wrappers. */
  datatype Op = New(a: Addr) | MoveNew(a: Addr, src: Addr) | Assign(dst: Addr, src: Addr) | Drop(a: Addr)

  /** The C++ type system only lets an operation touch objects that exist. */
  predicate Enabled(h: Heap, op: Op) {
    match op
    case New(a) => a !in h.objects
    case MoveNew(a, src) => a !in h.objects && src in h.objects
    case Assign(dst, src) => dst in h.objects && src in h.objects
    case Drop(a) => a in h.objects
  }

  function Step(h: Heap, op: Op): (r: Heap)
    requires Valid(h) && Enabled(h, op)
    ensures Valid(r) && r.gl.staleDeletes == h.gl.staleDeletes
  {
    match op
    case New(a) => Construct(h, a)
    case MoveNew(a, src) => MoveConstruct(h, a, src)
    case Assign(dst, src) => MoveAssign(h, dst, src)
    case Drop(a) => Destroy(h, a)
  }

  /**
   * Runs a program of lifetime events; `None` when some event would touch an
   * object that does not exist (a program the compiler rejects).
   */
  function Run(h: Heap, ops: seq<Op>): (r: Option<Heap>)
    requires Valid(h)
    ensures r.Some? ==> Valid(r.value) && r.value.gl.staleDeletes == h.gl.staleDeletes
    decreases |ops|
  {
    if |ops| == 0 then Some(h)
    else if !Enabled(h, ops[0]) then None
    else Run(Step(h, ops[0]), ops[1..])
  }

  /**
   * No name is ever deleted twice: whatever sequence of constructions,
   * moves and destructions a program performs, the store sees no stale
   * delete; and once every wrapper is gone, no name is left live.
   */
  lemma NoDoubleDeleteNoLeak(ops: seq<Op>)
    requires Run(Empty(), ops).Some?
    ensures Run(Empty(), ops).value.gl.staleDeletes == 0
    ensures Run(Empty(), ops).value.objects == map[] ==> Run(Empty(), ops).value.gl.live == {}
  {
    var h := Run(Empty(), ops).value;
    ExclusiveCovers(h.gl.live, Owned(h));
  }

  /** A moved-from wrapper owns nothing, so destroying it touches no name. */
  lemma MovedFromOwnsNothing(h: Heap, dst: Addr, src: Addr)
    requires Valid(h) && dst in h.objects && src in h.objects && dst != src
    ensures Owned(MoveAssign(h, dst, src))[src] == {}
    ensures Destroy(MoveAssign(h, dst, src), src).gl == MoveAssign(h, dst, src).gl
  {
  }
}
