/**
 * `gl::Shader`: a linked program built from a vertex and a fragment module,
 * a memo of uniform locations, the typed uniform setters, and the
 * process-wide round-robin texture-unit allocator behind the texture setter.
 */
module Shader {
  import opened Wrappers
  import opened HandleError
  import opened Names
  import opened GlState
  import Texture

  /** `AnyShaderSource`: a file path or inline code. */
  datatype ShaderSource = File(path: string) | Code(code: string)

  /** `Shader_Descriptor`: one source per stage. */
  datatype ShaderDescriptor = ShaderDescriptor(vertex: ShaderSource, fragment: ShaderSource)

  datatype Stage = VertexStage | FragmentStage

  /**
   * What the file system and the driver decide: the contents a shader file
   * path resolves to, whether a module compiles, whether two compiled
   * modules link, and the info logs of failures.
   */
  datatype Driver = Driver(
    readFile: string -> string,
    compiles: (Stage, string) -> bool,
    compileLog: (Stage, string) -> string,
    links: (string, string) -> bool,
    linkLog: (string, string) -> string)

  /** The text handed to the compiler for a source. */
  function SourceCode(driver: Driver, source: ShaderSource): string {
    match source
    case File(path) => driver.readFile(path)
    case Code(code) => code
  }

  /** A program name and its memo of uniform locations. */
  datatype Shader = Shader(program: Name, uniformLocations: map<string, int>)

  /**
   * A shader-module wrapper's constructor: a new module name, then
   * compilation; a failed compilation reaches the error funnel with the
   * compiler's log and the code.
   */
  function CompileModule(gl: Gl, driver: Driver, stage: Stage, source: ShaderSource): (r: Result<(Gl, Name)>)
    requires Names.Valid(gl.names)
    ensures var code := SourceCode(driver, source);
            && (r.Success? <==> driver.compiles(stage, code))
            && (r.Failure? ==> r.error == ShaderCompilationFailed(driver.compileLog(stage, code), code))
    ensures r.Success? ==>
              && Names.Valid(r.value.0.names)
              && r.value.1 != 0 && r.value.1 !in gl.names.live
              && r.value.0 == gl.(names := r.value.0.names)
              && r.value.0.names.live == gl.names.live + {r.value.1}
              && r.value.0.names.staleDeletes == gl.names.staleDeletes
  {
    var (names, id) := Names.Generate(gl.names);
    var code := SourceCode(driver, source);
    if driver.compiles(stage, code) then Success((gl.(names := names), id))
    else Failure(ShaderCompilationFailed(driver.compileLog(stage, code), code))
  }

  /**
   * The constructor: a new program (the `UniqueShader` member), the vertex
   * then the fragment module, attach both, link, detach both, check the
   * link status; on leaving the constructor the two module wrappers delete
   * their names. Any failure is fatal.
   */
  function Construct(gl: Gl, driver: Driver, desc: ShaderDescriptor): (r: Result<(Gl, Shader)>)
    requires Names.Valid(gl.names)
    ensures var vcode := SourceCode(driver, desc.vertex);
            var fcode := SourceCode(driver, desc.fragment);
            && (r.Success? <==> driver.compiles(VertexStage, vcode) && driver.compiles(FragmentStage, fcode) && driver.links(vcode, fcode))
            && (!driver.compiles(VertexStage, vcode) ==>
                  r == Failure(ShaderCompilationFailed(driver.compileLog(VertexStage, vcode), vcode)))
            && (driver.compiles(VertexStage, vcode) && !driver.compiles(FragmentStage, fcode) ==>
                  r == Failure(ShaderCompilationFailed(driver.compileLog(FragmentStage, fcode), fcode)))
            && (driver.compiles(VertexStage, vcode) && driver.compiles(FragmentStage, fcode) && !driver.links(vcode, fcode) ==>
                  r == Failure(ShaderLinkingFailed(driver.linkLog(vcode, fcode))))
    ensures r.Success? ==>
              var (g, sh) := r.value;
              && Names.Valid(g.names)
              && sh.program != 0 && sh.program !in gl.names.live
              && sh.uniformLocations == map[]
              && g.names.live == gl.names.live + {sh.program}
              && g.names.staleDeletes == gl.names.staleDeletes
              && sh.program in g.linkedWith && |g.linkedWith[sh.program]| == 2
              && g.linkedWith[sh.program] !! g.names.live
              && sh.program in g.attached && g.attached[sh.program] == {}
  {
    var (g1, program) := Names.Generate(gl.names);
    var gl1 := gl.(names := g1);
    match CompileModule(gl1, driver, VertexStage, desc.vertex)
    case Failure(e) => Failure(e)
    case Success((gl2, vs)) =>
      match CompileModule(gl2, driver, FragmentStage, desc.fragment)
      case Failure(e) => Failure(e)
      case Success((gl3, fs)) =>
        var attachedGl := gl3.(attached := gl3.attached[program := {vs, fs}]);
        var linkedGl := attachedGl.(linkedWith := attachedGl.linkedWith[program := attachedGl.attached[program]]);
        var detachedGl := linkedGl.(attached := linkedGl.attached[program := linkedGl.attached[program] - {fs} - {vs}]);
        var vcode := SourceCode(driver, desc.vertex);
        var fcode := SourceCode(driver, desc.fragment);
        if !driver.links(vcode, fcode) then Failure(ShaderLinkingFailed(driver.linkLog(vcode, fcode)))
        else
          var done := detachedGl.(names := Names.Delete(Names.Delete(detachedGl.names, fs), vs));
          Success((done, Shader(program, map[])))
  }

  /** `bind`: makes this program current, which every setter requires. */
  function Bind(gl: Gl, sh: Shader): (r: Gl)
    ensures r.currentProgram == sh.program
    ensures r == gl.(currentProgram := r.currentProgram)
  {
    gl.(currentProgram := sh.program)
  }

  /** `glGetUniformLocation`: an active uniform's location, -1 for any other name. */
  function QueryLocation(active: map<string, nat>, name: string): int {
    if name in active then active[name] else -1
  }

  /** The memo agrees with the program's active uniforms. */
  predicate CacheAgrees(sh: Shader, active: map<string, nat>) {
    forall n :: n in sh.uniformLocations ==> sh.uniformLocations[n] == QueryLocation(active, n)
  }

  /**
   * `uniform_location`: a memoised name is answered from the memo without
   * asking the driver; any other name is asked once and memoised. The
   * boolean says whether the driver was asked.
   */
  function UniformLocation(sh: Shader, active: map<string, nat>, name: string): (r: (Shader, int, bool))
    ensures r.0.program == sh.program
    ensures name in sh.uniformLocations ==> r == (sh, sh.uniformLocations[name], false)
    ensures name !in sh.uniformLocations ==>
              && r.2
              && r.1 == QueryLocation(active, name)
              && r.0.uniformLocations == sh.uniformLocations[name := r.1]
  {
    if name in sh.uniformLocations then (sh, sh.uniformLocations[name], false)
    else
      var location := QueryLocation(active, name);
      (sh.(uniformLocations := sh.uniformLocations[name := location]), location, true)
  }

  /**
   * The memo is transparent and stable: a lookup never changes an existing
   * entry, answers what the driver would answer, and a second lookup of the
   * same name is answered from the memo with the same location.
   */
  lemma UniformLocationMemo(sh: Shader, active: map<string, nat>, name: string)
    requires CacheAgrees(sh, active)
    ensures var (sh1, loc, _) := UniformLocation(sh, active, name);
            && loc == QueryLocation(active, name)
            && CacheAgrees(sh1, active)
            && (forall n :: n in sh.uniformLocations ==> n in sh1.uniformLocations && sh1.uniformLocations[n] == sh.uniformLocations[n])
            && UniformLocation(sh1, active, name) == (sh1, loc, false)
  {
  }

  /**
   * A typed setter (int, float, vectors, matrices): the shader must be the
   * current program; the value goes to the program's location for `name`,
   * or nowhere when the program has no such uniform.
   */
  function SetUniform(gl: Gl, sh: Shader, active: map<string, nat>, name: string, value: UniformValue): (r: (Gl, Shader))
    requires gl.currentProgram == sh.program
    ensures r.1.program == sh.program
    ensures r.0 == gl.(uniformWrites := r.0.uniformWrites)
    ensures CacheAgrees(sh, active) ==>
              && CacheAgrees(r.1, active)
              && r.0 == GlState.SetUniform(gl, QueryLocation(active, name), value)
  {
    var (sh1, location, _) := UniformLocation(sh, active, name);
    (GlState.SetUniform(gl, location, value), sh1)
  }

  /** `set_uniform(name, int)`. */
  function SetUniformInt(gl: Gl, sh: Shader, active: map<string, nat>, name: string, v: int): (r: (Gl, Shader))
    requires gl.currentProgram == sh.program
    ensures r.1.program == sh.program
    ensures r.0 == gl.(uniformWrites := r.0.uniformWrites)
    ensures CacheAgrees(sh, active) ==>
              && CacheAgrees(r.1, active)
              && r.0 == GlState.SetUniform(gl, QueryLocation(active, name), IntValue(v))
  {
    SetUniform(gl, sh, active, name, IntValue(v))
  }

  /** `static_cast<int>` of an unsigned 32-bit value: two's-complement reinterpretation. */
  function UnsignedToInt(v: nat): (i: int)
    requires v < 0x1_0000_0000
    ensures -0x8000_0000 <= i < 0x8000_0000
    ensures (v - i) % 0x1_0000_0000 == 0
  {
    if v < 0x8000_0000 then v else v - 0x1_0000_0000
  }

  /** `set_uniform(name, unsigned)`: forwarded to the int setter. */
  function SetUniformUnsigned(gl: Gl, sh: Shader, active: map<string, nat>, name: string, v: nat): (r: (Gl, Shader))
    requires gl.currentProgram == sh.program && v < 0x1_0000_0000
    ensures r.1.program == sh.program
    ensures r.0 == gl.(uniformWrites := r.0.uniformWrites)
    ensures CacheAgrees(sh, active) ==>
              && CacheAgrees(r.1, active)
              && r.0 == GlState.SetUniform(gl, QueryLocation(active, name),
                                         IntValue(if v < 0x8000_0000 then v else v - 0x1_0000_0000))
  {
    SetUniformInt(gl, sh, active, name, UnsignedToInt(v))
  }

  /** `set_uniform(name, bool)`: forwarded to the int setter as 1 or 0. */
  function SetUniformBool(gl: Gl, sh: Shader, active: map<string, nat>, name: string, b: bool): (r: (Gl, Shader))
    requires gl.currentProgram == sh.program
    ensures r.1.program == sh.program
    ensures r.0 == gl.(uniformWrites := r.0.uniformWrites)
    ensures CacheAgrees(sh, active) ==>
              && CacheAgrees(r.1, active)
              && r.0 == GlState.SetUniform(gl, QueryLocation(active, name), IntValue(if b then 1 else 0))
  {
    SetUniformInt(gl, sh, active, name, if b then 1 else 0)
  }

  /**
   * The process-wide texture-unit allocator: the last unit handed out and
   * the driver's `GL_MAX_TEXTURE_IMAGE_UNITS`.
   */
  datatype TextureSlots = TextureSlots(current: nat, maxSlots: nat)

  /**
   * The allocator's reachable states. OpenGL 4 guarantees at least 16
   * texture image units, so `maxSlots >= 2`; the count is a `GLint`.
   */
  predicate SlotsValid(a: TextureSlots) {
    2 <= a.maxSlots < 0x8000_0000 && a.current < a.maxSlots
  }

  function InitialSlots(maxSlots: nat): (a: TextureSlots)
    requires 2 <= maxSlots < 0x8000_0000
    ensures SlotsValid(a)
  {
    TextureSlots(0, maxSlots)
  }

  /**
   * `get_next_texture_slot`: advances round-robin modulo the unit count and
   * skips unit 0, which the framework keeps for texture uploads.
   */
  function NextTextureSlot(a: TextureSlots): (r: (TextureSlots, nat))
    requires SlotsValid(a)
    ensures SlotsValid(r.0) && r.0.maxSlots == a.maxSlots && r.0.current == r.1
    ensures 1 <= r.1 < a.maxSlots
  {
    var slot := (a.current + 1) % a.maxSlots;
    var slot' := if slot == 0 then 1 else slot;
    (a.(current := slot'), slot')
  }

  /** The allocator after `k` calls. */
  function SlotsAfter(a: TextureSlots, k: nat): (r: TextureSlots)
    requires SlotsValid(a)
    ensures SlotsValid(r) && r.maxSlots == a.maxSlots
  {
    if k == 0 then a else NextTextureSlot(SlotsAfter(a, k - 1)).0
  }

  /** Below the last unit the allocator steps up by one; from the last unit it wraps to 1. */
  lemma NextSlotStep(a: TextureSlots)
    requires SlotsValid(a)
    ensures NextTextureSlot(a).1 == if a.current + 1 < a.maxSlots then a.current + 1 else 1
  {
    if a.current + 1 < a.maxSlots {
      ModBelow(a.current + 1, a.maxSlots);
    } else {
      assert a.current + 1 == a.maxSlots;
    }
  }

  lemma ModBelow(x: int, m: int)
    requires 0 <= x < m
    ensures x % m == x
  {
  }

  /** Running `j` then `k` calls is running `j + k` calls. */
  lemma {:induction false} SlotsAfterAdd(a: TextureSlots, j: nat, k: nat)
    requires SlotsValid(a)
    ensures SlotsAfter(SlotsAfter(a, j), k) == SlotsAfter(a, j + k)
  {
    if k > 0 {
      SlotsAfterAdd(a, j, k - 1);
    }
  }

  /** From a fresh allocator, calls 1 … maxSlots - 1 hand out units 1 … maxSlots - 1 in order. */
  lemma {:induction false} SlotsCountUp(maxSlots: nat, k: nat)
    requires 2 <= maxSlots < 0x8000_0000 && k < maxSlots
    ensures SlotsAfter(InitialSlots(maxSlots), k).current == k
  {
    if k > 0 {
      SlotsCountUp(maxSlots, k - 1);
      NextSlotStep(SlotsAfter(InitialSlots(maxSlots), k - 1));
    }
  }

  /**
   * The allocator then wraps to unit 1, never to 0: call `k + maxSlots - 1`
   * hands out the same unit as call `k`, so units cycle with period
   * `maxSlots - 1`.
   */
  lemma SlotsCycle(maxSlots: nat, k: nat)
    requires 2 <= maxSlots < 0x8000_0000 && k >= 1
    ensures SlotsAfter(InitialSlots(maxSlots), k + maxSlots - 1) == SlotsAfter(InitialSlots(maxSlots), k)
  {
    var a := InitialSlots(maxSlots);
    SlotsCountUp(maxSlots, maxSlots - 1);
    NextSlotStep(SlotsAfter(a, maxSlots - 1));
    NextSlotStep(a);
    assert SlotsAfter(a, maxSlots) == SlotsAfter(a, 1);
    SlotsAfterAdd(a, maxSlots, k - 1);
    SlotsAfterAdd(a, 1, k - 1);
  }

  /**
   * `set_uniform(name, texture)`: takes the next unit, makes it active,
   * binds the texture there, sets the uniform to the unit through the
   * unsigned setter, and makes unit 0 active again.
   */
  function SetUniformTexture(gl: Gl, sh: Shader, slots: TextureSlots, active: map<string, nat>, name: string, texture: Texture.Texture)
    : (r: (Gl, Shader, TextureSlots))
    requires gl.currentProgram == sh.program && SlotsValid(slots)
    ensures var slot := NextTextureSlot(slots).1;
            && slot != 0
            && r.2 == NextTextureSlot(slots).0
            && r.0.activeUnit == 0
            && r.0.boundTextures == gl.boundTextures[slot := texture.id]
            && r.1.program == sh.program
            && r.0 == gl.(activeUnit := 0, boundTextures := r.0.boundTextures, uniformWrites := r.0.uniformWrites)
            && (CacheAgrees(sh, active) ==>
                  && CacheAgrees(r.1, active)
                  && r.0.uniformWrites == GlState.SetUniform(gl, QueryLocation(active, name), IntValue(slot)).uniformWrites)
  {
    var (slots1, slot) := NextTextureSlot(slots);
    var gl1 := gl.(activeUnit := slot);
    var gl2 := GlState.BindTexture(gl1, texture.id);
    var (gl3, sh1) := SetUniformUnsigned(gl2, sh, active, name, slot);
    (gl3.(activeUnit := 0), sh1, slots1)
  }
}
