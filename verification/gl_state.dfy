/**
 * The slice of OpenGL context state the framework reads and writes, other
 * than object names: current program, program attachments, texture units,
 * uniform writes, framebuffer bindings, viewport and framebuffer attachments.
 */
module GlState {
  import opened Names

  datatype Viewport = Viewport(x: int, y: int, width: int, height: int)

  /** Framebuffer attachment points. */
  datatype AttachmentPoint = ColorAttachment(i: nat) | DepthAttachment | StencilAttachment | DepthStencilAttachment

  /** The value passed to one `glUniform*` call; float contents are carried as reals. */
  datatype UniformValue =
    | IntValue(i: int)
    | FloatValues(floats: seq<real>)
    | UnsignedValues(unsigneds: seq<nat>)
    | MatrixValue(dimension: nat, entries: seq<real>)

  datatype UniformWrite = UniformWrite(program: Name, location: int, value: UniformValue)

  datatype Gl = Gl(
    names: Store,
    currentProgram: Name,
    attached: map<Name, set<Name>>,   // program -> shader modules attached to it
    linkedWith: map<Name, set<Name>>, // program -> modules attached when it was last linked
    activeUnit: nat,
    boundTextures: map<nat, Name>,    // texture unit -> texture bound to GL_TEXTURE_2D
    uniformWrites: seq<UniformWrite>,
    drawFramebuffer: Name,
    readFramebuffer: Name,
    viewport: Viewport,
    attachments: map<(Name, AttachmentPoint), Name>,
    noColorBuffers: set<Name>)        // framebuffers whose draw and read buffers are GL_NONE

  /** A fresh context: nothing bound, unit 0 active, the window's viewport. */
  function Initial(viewport: Viewport): (gl: Gl)
    ensures Names.Valid(gl.names) && gl.names.live == {}
    ensures gl.activeUnit == 0 && gl.drawFramebuffer == 0 && gl.readFramebuffer == 0
  {
    Gl(Names.Initial(), 0, map[], map[], 0, map[], [], 0, 0, viewport, map[], {})
  }

  /**
   * `glUniform*` on the current program. A location of -1 is silently
   * ignored (section 7.6.1 of the OpenGL 4.6 core profile specification).
   */
  function SetUniform(gl: Gl, location: int, value: UniformValue): (r: Gl)
    ensures location == -1 ==> r == gl
    ensures location != -1 ==>
              && |r.uniformWrites| == |gl.uniformWrites| + 1
              && r.uniformWrites[..|gl.uniformWrites|] == gl.uniformWrites
              && r.uniformWrites[|gl.uniformWrites|] == UniformWrite(gl.currentProgram, location, value)
    ensures r == gl.(uniformWrites := r.uniformWrites)
  {
    if location == -1 then gl
    else gl.(uniformWrites := gl.uniformWrites + [UniformWrite(gl.currentProgram, location, value)])
  }

  /** `glBindTexture(GL_TEXTURE_2D, texture)` on the active unit. */
  function BindTexture(gl: Gl, texture: Name): Gl {
    gl.(boundTextures := gl.boundTextures[gl.activeUnit := texture])
  }

  /** `glFramebufferTexture2D(GL_FRAMEBUFFER, point, …)`: attaches to the bound draw framebuffer. */
  function AttachTexture(gl: Gl, point: AttachmentPoint, texture: Name): Gl {
    gl.(attachments := gl.attachments[(gl.drawFramebuffer, point) := texture])
  }

  /** `glDelete*` through the context. */
  function DeleteName(gl: Gl, n: Name): Gl {
    gl.(names := Names.Delete(gl.names, n))
  }
}
