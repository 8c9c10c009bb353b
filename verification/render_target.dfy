/**
 * `gl::RenderTarget`: a framebuffer (the `UniqueFramebuffer` member) with
 * its colour textures and optional depth/stencil texture, all of the
 * descriptor's size, plus `render`, which binds the framebuffer around a
 * callback and restores the previous bindings.
 */
module RenderTarget {
  import opened Wrappers
  import opened HandleError
  import opened Names
  import opened GlState
  import opened Texture

  /** Whether a depth/stencil format stores depth. */
  predicate HasDepth(f: DepthStencilFormat) {
    !f.Stencil8?
  }

  /** Whether a depth/stencil format stores stencil. */
  predicate HasStencil(f: DepthStencilFormat) {
    f.Stencil8? || f.Depth24_Stencil8? || f.Depth32F_Stencil8?
  }

  /**
   * `attachment_type`: total over the six formats; a format goes to the
   * depth, the stencil or the combined point according to what it stores.
   */
  function AttachmentType(f: DepthStencilFormat): (p: AttachmentPoint)
    ensures p == DepthAttachment <==> HasDepth(f) && !HasStencil(f)
    ensures p == StencilAttachment <==> !HasDepth(f) && HasStencil(f)
    ensures p == DepthStencilAttachment <==> HasDepth(f) && HasStencil(f)
  {
    match f
    case Depth16 | Depth24 | Depth32F => DepthAttachment
    case Stencil8 => StencilAttachment
    case Depth24_Stencil8 | Depth32F_Stencil8 => DepthStencilAttachment
  }

  /** What `glCheckFramebufferStatus` may answer; `OtherStatus` is any other code. */
  datatype FramebufferStatus =
    | Complete
    | Undefined
    | IncompleteAttachment
    | IncompleteMissingAttachment
    | IncompleteDrawBuffer
    | IncompleteReadBuffer
    | Unsupported
    | IncompleteMultisample
    | IncompleteLayerTargets
    | OtherStatus(code: nat)

  /** The statuses the error message names. */
  predicate KnownIncomplete(s: FramebufferStatus) {
    !s.Complete? && !s.OtherStatus?
  }

  /** The status text of the error message; anything the switch does not name is "UNKNOWN_ERROR". */
  function StatusName(s: FramebufferStatus): (r: string)
    ensures KnownIncomplete(s) <==> r != "UNKNOWN_ERROR"
    ensures KnownIncomplete(s) ==> |r| > 12 && r[..12] == "FRAMEBUFFER_"
  {
    match s
    case Undefined => "FRAMEBUFFER_UNDEFINED"
    case IncompleteAttachment => "FRAMEBUFFER_INCOMPLETE_ATTACHMENT"
    case IncompleteMissingAttachment => "FRAMEBUFFER_INCOMPLETE_MISSING_ATTACHMENT"
    case IncompleteDrawBuffer => "FRAMEBUFFER_INCOMPLETE_DRAW_BUFFER"
    case IncompleteReadBuffer => "FRAMEBUFFER_INCOMPLETE_READ_BUFFER"
    case Unsupported => "FRAMEBUFFER_UNSUPPORTED"
    case IncompleteMultisample => "FRAMEBUFFER_INCOMPLETE_MULTISAMPLE"
    case IncompleteLayerTargets => "FRAMEBUFFER_INCOMPLETE_LAYER_TARGETS"
    case _ => "UNKNOWN_ERROR"
  }

  /** Distinct named statuses produce distinct messages. */
  lemma StatusNamesDistinct(a: FramebufferStatus, b: FramebufferStatus)
    requires KnownIncomplete(a) && KnownIncomplete(b) && a != b
    ensures StatusName(a) != StatusName(b)
  {
    var na, nb := StatusName(a), StatusName(b);
    if |na| == |nb| {
      // The only equal-length pair differs at its first letter after the prefix.
      assert na[12] != nb[12] || na[25] != nb[25] || na[24] != nb[24];
    }
  }

  datatype ColorAttachmentDescriptor = ColorAttachmentDescriptor(format: ColorFormat, options: TextureOptions)

  datatype DepthStencilAttachmentDescriptor = DepthStencilAttachmentDescriptor(format: DepthStencilFormat, options: TextureOptions)

  datatype RenderTargetDescriptor = RenderTargetDescriptor(
    width: int,
    height: int,
    colorTextures: seq<ColorAttachmentDescriptor>,
    depthStencilTexture: Option<DepthStencilAttachmentDescriptor>)

  /** The default descriptor: 0 x 0, no colour texture, no depth/stencil texture. */
  function DefaultDescriptor(): (d: RenderTargetDescriptor)
    ensures d.width == 0 && d.height == 0 && d.colorTextures == [] && d.depthStencilTexture == None
  {
    RenderTargetDescriptor(0, 0, [], None)
  }

  datatype RenderTarget = RenderTarget(
    framebuffer: Name,
    colorTextures: seq<Texture>,
    depthStencilTexture: Option<Texture>,
    desc: RenderTargetDescriptor)

  /** The names of a sequence of textures, in order. */
  function Ids(ts: seq<Texture>): (ids: seq<Name>)
    ensures |ids| == |ts| && forall i :: 0 <= i < |ts| ==> ids[i] == ts[i].id
  {
    seq(|ts|, i requires 0 <= i < |ts| => ts[i].id)
  }

  /** Every name a render target owns. */
  function OwnedNames(rt: RenderTarget): set<Name> {
    {rt.framebuffer} + Elements(Ids(rt.colorTextures))
      + (if rt.depthStencilTexture.Some? then {rt.depthStencilTexture.value.id} else {})
  }

  /** The render target's names are live, non-zero and pairwise distinct. */
  predicate Owns(s: Store, rt: RenderTarget) {
    && rt.framebuffer != 0 && rt.framebuffer in s.live
    && Distinct(Ids(rt.colorTextures))
    && (forall i :: 0 <= i < |rt.colorTextures| ==>
          rt.colorTextures[i].id != 0 && rt.colorTextures[i].id in s.live && rt.colorTextures[i].id != rt.framebuffer)
    && (rt.depthStencilTexture.Some? ==>
          var d := rt.depthStencilTexture.value.id;
          d != 0 && d in s.live && d != rt.framebuffer && d !in Elements(Ids(rt.colorTextures)))
  }

  /** The state `render`'s callback runs in: this framebuffer bound, viewport covering it. */
  function Inside(gl: Gl, rt: RenderTarget): Gl {
    gl.(drawFramebuffer := rt.framebuffer, readFramebuffer := rt.framebuffer,
        viewport := Viewport(0, 0, rt.desc.width, rt.desc.height))
  }

  /**
   * `render`: the callback sees this framebuffer bound for drawing and
   * reading and the viewport set to the target's size; on normal return the
   * previous draw and read bindings and viewport are back, and everything
   * else is as the callback left it.
   */
  function Render<T>(gl: Gl, rt: RenderTarget, body: Gl --> Result<(Gl, T)>): (r: Result<(Gl, T)>)
    requires body.requires(Inside(gl, rt))
    ensures var inner := body(Inside(gl, rt));
            && (r.Success? <==> inner.Success?)
            && (inner.Failure? ==> r.error == inner.error)
            && (r.Success? ==>
                  && r.value.1 == inner.value.1
                  && r.value.0 == inner.value.0.(drawFramebuffer := gl.drawFramebuffer,
                                                 readFramebuffer := gl.readFramebuffer,
                                                 viewport := gl.viewport))
  {
    var previousDraw, previousRead, previousViewport := gl.drawFramebuffer, gl.readFramebuffer, gl.viewport;
    var bound := gl.(drawFramebuffer := rt.framebuffer, readFramebuffer := rt.framebuffer);
    var sized := bound.(viewport := Viewport(0, 0, rt.desc.width, rt.desc.height));
    match body(sized)
    case Failure(e) => Failure(e)
    case Success((after, value)) =>
      Success((after.(drawFramebuffer := previousDraw, readFramebuffer := previousRead, viewport := previousViewport), value))
  }

  /**
   * The colour-texture loop from index `first` on: each texture is created
   * at the given size with its descriptor's format and options, then
   * attached to the bound framebuffer at `COLOR_ATTACHMENT0 + index`. What
   * the loop creates and attaches is stated by `CreateColorsTextures`,
   * `CreateColorsNames`, `CreateColorsAttaches` and `CreateColorsKeeps`.
   */
  function CreateColors(gl: Gl, width: int, height: int, descs: seq<ColorAttachmentDescriptor>, first: nat)
    : (r: (Gl, seq<Texture>))
    requires Names.Valid(gl.names)
    ensures Names.Valid(r.0.names) && |r.1| == |descs|
    ensures r.0 == gl.(names := r.0.names, boundTextures := r.0.boundTextures, attachments := r.0.attachments)
    decreases |descs|
  {
    if |descs| == 0 then (gl, [])
    else
      var (gl1, t) := CreateEmptyTexture(gl, width, height, ColorToSized(descs[0].format), descs[0].options);
      var gl2 := AttachTexture(gl1, ColorAttachment(first), t.id);
      var (gl3, ts) := CreateColors(gl2, width, height, descs[1..], first + 1);
      (gl3, [t] + ts)
  }

  /** Colour texture `k` has the requested size, its descriptor's format and options, and a name that was not live. */
  lemma {:induction false} CreateColorsTextures(gl: Gl, width: int, height: int, descs: seq<ColorAttachmentDescriptor>, first: nat,
                                                k: nat)
    requires Names.Valid(gl.names) && k < |descs|
    ensures var t := CreateColors(gl, width, height, descs, first).1[k];
            && t.id != 0 && t.id !in gl.names.live
            && t.width == width && t.height == height
            && t.format == ColorToSized(descs[k].format) && t.options == descs[k].options
    decreases |descs|
  {
    var (gl1, t) := CreateEmptyTexture(gl, width, height, ColorToSized(descs[0].format), descs[0].options);
    var gl2 := AttachTexture(gl1, ColorAttachment(first), t.id);
    var rest := CreateColors(gl2, width, height, descs[1..], first + 1);
    var r := CreateColors(gl, width, height, descs, first);
    if k > 0 {
      CreateColorsTextures(gl2, width, height, descs[1..], first + 1, k - 1);
      assert r.1[k] == rest.1[k - 1];
      assert descs[k] == descs[1..][k - 1];
    }
  }

  /**
   * The loop's names are pairwise distinct, the store gains exactly them,
   * and nothing is deleted.
   */
  lemma {:induction false} CreateColorsNames(gl: Gl, width: int, height: int, descs: seq<ColorAttachmentDescriptor>, first: nat)
    requires Names.Valid(gl.names)
    ensures var r := CreateColors(gl, width, height, descs, first);
            && Distinct(Ids(r.1))
            && r.0.names.live == gl.names.live + Elements(Ids(r.1))
            && r.0.names.staleDeletes == gl.names.staleDeletes
            && (forall n :: n in Elements(Ids(r.1)) ==> n != 0 && n !in gl.names.live)
    decreases |descs|
  {
    if |descs| > 0 {
      var (gl1, t) := CreateEmptyTexture(gl, width, height, ColorToSized(descs[0].format), descs[0].options);
      var gl2 := AttachTexture(gl1, ColorAttachment(first), t.id);
      var rest := CreateColors(gl2, width, height, descs[1..], first + 1);
      CreateColorsNames(gl2, width, height, descs[1..], first + 1);
      var r := CreateColors(gl, width, height, descs, first);
      assert r.1 == [t] + rest.1;
      assert Ids(r.1) == [t.id] + Ids(rest.1);
      assert Elements(Ids(r.1)) == {t.id} + Elements(Ids(rest.1));
    }
  }

  /** Attachments the colour-texture loop does not reach are kept. */
  lemma {:induction false} CreateColorsKeeps(gl: Gl, width: int, height: int, descs: seq<ColorAttachmentDescriptor>, first: nat,
                                             key: (Name, AttachmentPoint))
    requires Names.Valid(gl.names)
    requires key in gl.attachments && (key.0 != gl.drawFramebuffer || !key.1.ColorAttachment? || key.1.i < first)
    ensures key in CreateColors(gl, width, height, descs, first).0.attachments
    ensures CreateColors(gl, width, height, descs, first).0.attachments[key] == gl.attachments[key]
    decreases |descs|
  {
    if |descs| > 0 {
      var (gl1, t) := CreateEmptyTexture(gl, width, height, ColorToSized(descs[0].format), descs[0].options);
      var gl2 := AttachTexture(gl1, ColorAttachment(first), t.id);
      assert gl2.attachments[key] == gl.attachments[key];
      CreateColorsKeeps(gl2, width, height, descs[1..], first + 1, key);
    }
  }

  /** Texture `k` of the colour-texture loop sits at `COLOR_ATTACHMENT0 + first + k` of the bound framebuffer. */
  lemma {:induction false} CreateColorsAttaches(gl: Gl, width: int, height: int, descs: seq<ColorAttachmentDescriptor>, first: nat,
                                                k: nat)
    requires Names.Valid(gl.names) && k < |descs|
    ensures var r := CreateColors(gl, width, height, descs, first);
            && (gl.drawFramebuffer, ColorAttachment(first + k)) in r.0.attachments
            && r.0.attachments[(gl.drawFramebuffer, ColorAttachment(first + k))] == r.1[k].id
    decreases |descs|
  {
    var (gl1, t) := CreateEmptyTexture(gl, width, height, ColorToSized(descs[0].format), descs[0].options);
    var gl2 := AttachTexture(gl1, ColorAttachment(first), t.id);
    var rest := CreateColors(gl2, width, height, descs[1..], first + 1);
    var r := CreateColors(gl, width, height, descs, first);
    assert r.0 == rest.0;
    assert gl2.drawFramebuffer == gl.drawFramebuffer;
    var key := (gl.drawFramebuffer, ColorAttachment(first + k));
    if k == 0 {
      assert r.1[0] == t;
      assert key in gl2.attachments && gl2.attachments[key] == t.id;
      CreateColorsKeeps(gl2, width, height, descs[1..], first + 1, key);
      assert key in rest.0.attachments && rest.0.attachments[key] == r.1[k].id;
    } else {
      assert r.1[k] == rest.1[k - 1];
      CreateColorsAttaches(gl2, width, height, descs[1..], first + 1, k - 1);
      var key' := (gl2.drawFramebuffer, ColorAttachment((first + 1) + (k - 1)));
      assert key' in rest.0.attachments && rest.0.attachments[key'] == rest.1[k - 1].id;
      assert key == key';
    }
    assert key in r.0.attachments && r.0.attachments[key] == r.1[k].id;
  }

  /** The per-texture lemmas for a loop started at index 0, for every index at once. */
  lemma CreateColorsFacts(gl: Gl, width: int, height: int, descs: seq<ColorAttachmentDescriptor>)
    requires Names.Valid(gl.names)
    ensures var r := CreateColors(gl, width, height, descs, 0);
            forall k :: 0 <= k < |descs| ==>
              && r.1[k].id != 0 && r.1[k].id !in gl.names.live
              && r.1[k].width == width && r.1[k].height == height
              && r.1[k].format == ColorToSized(descs[k].format) && r.1[k].options == descs[k].options
              && (gl.drawFramebuffer, ColorAttachment(k)) in r.0.attachments
              && r.0.attachments[(gl.drawFramebuffer, ColorAttachment(k))] == r.1[k].id
  {
    var r := CreateColors(gl, width, height, descs, 0);
    forall k | 0 <= k < |descs|
      ensures && r.1[k].id != 0 && r.1[k].id !in gl.names.live
              && r.1[k].width == width && r.1[k].height == height
              && r.1[k].format == ColorToSized(descs[k].format) && r.1[k].options == descs[k].options
              && (gl.drawFramebuffer, ColorAttachment(k)) in r.0.attachments
              && r.0.attachments[(gl.drawFramebuffer, ColorAttachment(k))] == r.1[k].id
    {
      CreateColorsTextures(gl, width, height, descs, 0, k);
      CreateColorsAttaches(gl, width, height, descs, 0, k);
    }
  }

  /**
   * `_depth_stencil_texture.emplace(…)` and its attachment: the previous
   * texture, if any, is destroyed first; the new one is created at the given
   * size and attached at the point its format calls for.
   */
  function EmplaceDepthStencil(gl: Gl, current: Option<Texture>, width: int, height: int, d: DepthStencilAttachmentDescriptor)
    : (r: (Gl, Texture))
    requires Names.Valid(gl.names)
    ensures Names.Valid(r.0.names)
    ensures r.1.id != 0 && r.1.id !in gl.names.live
    ensures r.1.width == width && r.1.height == height
    ensures r.1.format == DepthStencilToSized(d.format) && r.1.options == d.options
    ensures r.0.attachments == gl.attachments[(gl.drawFramebuffer, AttachmentType(d.format)) := r.1.id]
    ensures var released := if current.Some? then Names.Delete(gl.names, current.value.id) else gl.names;
            && r.0.names.live == released.live + {r.1.id}
            && r.0.names.staleDeletes == released.staleDeletes
    ensures r.0 == gl.(names := r.0.names, boundTextures := r.0.boundTextures, attachments := r.0.attachments)
  {
    var gl1 := if current.Some? then DeleteName(gl, current.value.id) else gl;
    var (gl2, t) := CreateEmptyTexture(gl1, width, height, DepthStencilToSized(d.format), d.options);
    (AttachTexture(gl2, AttachmentType(d.format), t.id), t)
  }

  /**
   * The callback `create_attachments` runs inside `render`: with no colour
   * texture, draw and read buffers become `GL_NONE`; then the colour
   * textures, then the depth/stencil texture when the descriptor asks for
   * one (otherwise the current one is kept); then the completeness check,
   * which is fatal when it fails. What it builds is the subject of
   * `BodyBuilds` and `BodyNames`.
   */
  function AttachmentsBody(gl: Gl, desc: RenderTargetDescriptor, depth: Option<Texture>, status: FramebufferStatus)
    : (r: Result<(Gl, (seq<Texture>, Option<Texture>))>)
    requires Names.Valid(gl.names)
    ensures r.Failure? <==> status != Complete
    ensures r.Failure? ==> r.error == InvalidFramebuffer(StatusName(status))
    ensures r.Success? ==>
              && Names.Valid(r.value.0.names)
              && |r.value.1.0| == |desc.colorTextures|
              && r.value.0.drawFramebuffer == gl.drawFramebuffer
  {
    var gl1 := if |desc.colorTextures| == 0 then gl.(noColorBuffers := gl.noColorBuffers + {gl.drawFramebuffer}) else gl;
    var (gl2, colors) := CreateColors(gl1, desc.width, desc.height, desc.colorTextures, 0);
    var (gl3, newDepth) :=
      if desc.depthStencilTexture.Some? then
        var (g, t) := EmplaceDepthStencil(gl2, depth, desc.width, desc.height, desc.depthStencilTexture.value);
        (g, Some(t))
      else (gl2, depth);
    if status != Complete then Failure(InvalidFramebuffer(StatusName(status)))
    else Success((gl3, (colors, newDepth)))
  }

  /**
   * What the callback builds on the bound framebuffer: one colour texture
   * per descriptor entry, of the descriptor's size and format, texture `k`
   * at `COLOR_ATTACHMENT0 + k`; the depth/stencil texture likewise at its
   * attachment point; draw and read buffers off exactly when there is no
   * colour texture.
   */
  lemma BodyBuilds(gl: Gl, desc: RenderTargetDescriptor, depth: Option<Texture>)
    requires Names.Valid(gl.names)
    ensures var (g, (colors, newDepth)) := AttachmentsBody(gl, desc, depth, Complete).value;
            && (|desc.colorTextures| == 0 ==> g.noColorBuffers == gl.noColorBuffers + {gl.drawFramebuffer})
            && (|desc.colorTextures| > 0 ==> g.noColorBuffers == gl.noColorBuffers)
            && (forall k :: 0 <= k < |colors| ==>
                  && colors[k].width == desc.width && colors[k].height == desc.height
                  && colors[k].format == ColorToSized(desc.colorTextures[k].format)
                  && colors[k].options == desc.colorTextures[k].options
                  && (gl.drawFramebuffer, ColorAttachment(k)) in g.attachments
                  && g.attachments[(gl.drawFramebuffer, ColorAttachment(k))] == colors[k].id)
            && (desc.depthStencilTexture.None? ==> newDepth == depth)
            && (desc.depthStencilTexture.Some? ==>
                  var d := desc.depthStencilTexture.value;
                  && newDepth.Some?
                  && newDepth.value.width == desc.width && newDepth.value.height == desc.height
                  && newDepth.value.format == DepthStencilToSized(d.format)
                  && newDepth.value.options == d.options
                  && (gl.drawFramebuffer, AttachmentType(d.format)) in g.attachments
                  && g.attachments[(gl.drawFramebuffer, AttachmentType(d.format))] == newDepth.value.id)
  {
    var gl1 := if |desc.colorTextures| == 0 then gl.(noColorBuffers := gl.noColorBuffers + {gl.drawFramebuffer}) else gl;
    CreateColorsFacts(gl1, desc.width, desc.height, desc.colorTextures);
  }

  /**
   * The callback's effect on names: the colour textures and a new
   * depth/stencil texture get names that were not live and differ from each
   * other, a replaced depth/stencil texture is deleted, and when that
   * texture was live nothing is deleted twice.
   */
  lemma BodyNames(gl: Gl, desc: RenderTargetDescriptor, depth: Option<Texture>)
    requires Names.Valid(gl.names)
    requires depth.Some? ==> depth.value.id != 0 && depth.value.id in gl.names.live
    ensures var (g, (colors, newDepth)) := AttachmentsBody(gl, desc, depth, Complete).value;
            && Distinct(Ids(colors))
            && (forall n :: n in Elements(Ids(colors)) ==> n != 0 && n !in gl.names.live)
            && (desc.depthStencilTexture.Some? ==>
                  && newDepth.Some? && newDepth.value.id != 0 && newDepth.value.id !in gl.names.live
                  && newDepth.value.id !in Elements(Ids(colors)))
            && g.names.live == (if desc.depthStencilTexture.Some? && depth.Some? then gl.names.live - {depth.value.id} else gl.names.live)
                               + Elements(Ids(colors))
                               + (if desc.depthStencilTexture.Some? then {newDepth.value.id} else {})
            && g.names.staleDeletes == gl.names.staleDeletes
  {
    var gl1 := if |desc.colorTextures| == 0 then gl.(noColorBuffers := gl.noColorBuffers + {gl.drawFramebuffer}) else gl;
    CreateColorsNames(gl1, desc.width, desc.height, desc.colorTextures, 0);
  }

  /**
   * `create_attachments`: the colour textures are destroyed first, then the
   * callback runs inside `render`. The callback reads the descriptor stored
   * in the render target.
   */
  function CreateAttachments(gl: Gl, rt: RenderTarget, status: FramebufferStatus): (r: Result<(Gl, RenderTarget)>)
    requires Names.Valid(gl.names)
    ensures r.Failure? <==> status != Complete
    ensures r.Failure? ==> r.error == InvalidFramebuffer(StatusName(status))
    ensures r.Success? ==>
              var (g, rt') := r.value;
              && Names.Valid(g.names)
              && rt'.framebuffer == rt.framebuffer && rt'.desc == rt.desc
              && |rt'.colorTextures| == |rt.desc.colorTextures|
              && g.drawFramebuffer == gl.drawFramebuffer && g.readFramebuffer == gl.readFramebuffer
              && g.viewport == gl.viewport
  {
    var cleared := gl.(names := Names.DeleteMany(gl.names, Ids(rt.colorTextures)));
    var rt1 := rt.(colorTextures := []);
    var body := (g: Gl) requires Names.Valid(g.names) => AttachmentsBody(g, rt1.desc, rt1.depthStencilTexture, status);
    match Render(cleared, rt1, body)
    case Failure(e) => Failure(e)
    case Success((g, (colors, depth))) => Success((g, rt1.(colorTextures := colors, depthStencilTexture := depth)))
  }

  /**
   * The render target holds what its descriptor asks for: exactly one
   * colour texture per entry, of the descriptor's size, format and
   * options, texture `k` attached at `COLOR_ATTACHMENT0 + k` of its
   * framebuffer; a requested depth/stencil texture of the descriptor's
   * size and format, attached at the point its format calls for.
   */
  predicate AsDescribed(g: Gl, rt: RenderTarget) {
    var desc := rt.desc;
    && |rt.colorTextures| == |desc.colorTextures|
    && (forall k :: 0 <= k < |rt.colorTextures| ==>
          && rt.colorTextures[k].width == desc.width && rt.colorTextures[k].height == desc.height
          && rt.colorTextures[k].format == ColorToSized(desc.colorTextures[k].format)
          && rt.colorTextures[k].options == desc.colorTextures[k].options
          && (rt.framebuffer, ColorAttachment(k)) in g.attachments
          && g.attachments[(rt.framebuffer, ColorAttachment(k))] == rt.colorTextures[k].id)
    && (desc.depthStencilTexture.Some? ==>
          var d := desc.depthStencilTexture.value;
          && rt.depthStencilTexture.Some?
          && rt.depthStencilTexture.value.width == desc.width
          && rt.depthStencilTexture.value.height == desc.height
          && rt.depthStencilTexture.value.format == DepthStencilToSized(d.format)
          && (rt.framebuffer, AttachmentType(d.format)) in g.attachments
          && g.attachments[(rt.framebuffer, AttachmentType(d.format))] == rt.depthStencilTexture.value.id)
  }

  /**
   * After `create_attachments` the render target matches its descriptor:
   * exactly one colour texture per entry, of the descriptor's size and
   * format, texture `k` at `COLOR_ATTACHMENT0 + k` of this framebuffer; the
   * requested depth/stencil texture at the point its format calls for;
   * draw and read buffers off exactly when there is no colour texture.
   */
  lemma CreateAttachmentsMatchesDescriptor(gl: Gl, rt: RenderTarget)
    requires Names.Valid(gl.names)
    ensures var (g, rt') := CreateAttachments(gl, rt, Complete).value;
            var desc := rt.desc;
            && (|desc.colorTextures| == 0 ==> rt.framebuffer in g.noColorBuffers)
            && (|desc.colorTextures| > 0 ==> g.noColorBuffers == gl.noColorBuffers)
            && AsDescribed(g, rt')
            && (desc.depthStencilTexture.None? ==> rt'.depthStencilTexture == rt.depthStencilTexture)
  {
    var cleared := gl.(names := Names.DeleteMany(gl.names, Ids(rt.colorTextures)));
    var rt1 := rt.(colorTextures := []);
    BodyBuilds(Inside(cleared, rt1), rt1.desc, rt1.depthStencilTexture);
  }

  /**
   * `create_attachments` keeps ownership exact: if the render target's
   * names were live and distinct, the old colour textures and a replaced
   * depth/stencil texture are deleted once each, the new textures get names
   * that were not live, and the store's live names change by exactly that.
   */
  lemma CreateAttachmentsOwnership(gl: Gl, rt: RenderTarget)
    requires Names.Valid(gl.names) && Owns(gl.names, rt)
    ensures var (g, rt') := CreateAttachments(gl, rt, Complete).value;
            && Owns(g.names, rt')
            && g.names.live == (gl.names.live - OwnedNames(rt)) + OwnedNames(rt')
            && (OwnedNames(rt') - OwnedNames(rt)) !! gl.names.live
            && g.names.staleDeletes == gl.names.staleDeletes
  {
    var oldColors := Elements(Ids(rt.colorTextures));
    assert oldColors <= gl.names.live && rt.framebuffer !in oldColors by {
      forall n | n in oldColors ensures n in gl.names.live && n != rt.framebuffer {
        var i :| 0 <= i < |Ids(rt.colorTextures)| && Ids(rt.colorTextures)[i] == n;
      }
    }
    var cleared := gl.(names := Names.DeleteMany(gl.names, Ids(rt.colorTextures)));
    assert cleared.names.live == gl.names.live - oldColors;
    var rt1 := rt.(colorTextures := []);
    var inside := Inside(cleared, rt1);
    BodyNames(inside, rt1.desc, rt1.depthStencilTexture);
    var (g, rt') := CreateAttachments(gl, rt, Complete).value;
    var (g0, (colors, depth)) := AttachmentsBody(inside, rt1.desc, rt1.depthStencilTexture, Complete).value;
    assert g.names == g0.names;
    assert rt' == rt.(colorTextures := colors, depthStencilTexture := depth);
    OwnershipAfterBody(gl.names, cleared.names, g.names, rt, rt');
  }

  /** The set algebra behind `CreateAttachmentsOwnership`. */
  lemma OwnershipAfterBody(before: Store, cleared: Store, after: Store, rt: RenderTarget, rt': RenderTarget)
    requires Owns(before, rt)
    requires cleared.live == before.live - Elements(Ids(rt.colorTextures))
    requires cleared.staleDeletes == before.staleDeletes
    requires rt'.framebuffer == rt.framebuffer && rt'.desc == rt.desc
    requires Distinct(Ids(rt'.colorTextures))
    requires forall n :: n in Elements(Ids(rt'.colorTextures)) ==> n != 0 && n !in cleared.live
    requires rt.desc.depthStencilTexture.None? ==> rt'.depthStencilTexture == rt.depthStencilTexture
    requires rt.desc.depthStencilTexture.Some? ==>
               && rt'.depthStencilTexture.Some? && rt'.depthStencilTexture.value.id != 0
               && rt'.depthStencilTexture.value.id !in cleared.live
               && rt'.depthStencilTexture.value.id !in Elements(Ids(rt'.colorTextures))
    requires after.live == (if rt.desc.depthStencilTexture.Some? && rt.depthStencilTexture.Some?
                            then cleared.live - {rt.depthStencilTexture.value.id} else cleared.live)
                           + Elements(Ids(rt'.colorTextures))
                           + (if rt.desc.depthStencilTexture.Some? then {rt'.depthStencilTexture.value.id} else {})
    requires after.staleDeletes == cleared.staleDeletes
    ensures Owns(after, rt')
    ensures after.live == (before.live - OwnedNames(rt)) + OwnedNames(rt')
    ensures (OwnedNames(rt') - OwnedNames(rt)) !! before.live
    ensures after.staleDeletes == before.staleDeletes
  {
    var oldColors, newColors := Elements(Ids(rt.colorTextures)), Elements(Ids(rt'.colorTextures));
    assert rt.framebuffer in cleared.live;
    forall i | 0 <= i < |rt'.colorTextures|
      ensures rt'.colorTextures[i].id != 0 && rt'.colorTextures[i].id in after.live && rt'.colorTextures[i].id != rt'.framebuffer
    {
      assert Ids(rt'.colorTextures)[i] == rt'.colorTextures[i].id;
      assert rt'.colorTextures[i].id in newColors;
    }
    if rt.depthStencilTexture.Some? {
      assert rt.depthStencilTexture.value.id in cleared.live;
    }
  }

  /**
   * The constructor: the descriptor must ask for at least one colour
   * texture or a depth/stencil texture. A new framebuffer name, then
   * `create_attachments`.
   */
  function Construct(gl: Gl, desc: RenderTargetDescriptor, status: FramebufferStatus): (r: Result<(Gl, RenderTarget)>)
    requires Names.Valid(gl.names)
    requires |desc.colorTextures| > 0 || desc.depthStencilTexture.Some?
    ensures r.Failure? <==> status != Complete
    ensures r.Failure? ==> r.error == InvalidFramebuffer(StatusName(status))
    ensures r.Success? ==>
              var (g, rt) := r.value;
              && rt.desc == desc
              && AsDescribed(g, rt)
              && (desc.depthStencilTexture.None? ==> rt.depthStencilTexture.None?)
              && (|desc.colorTextures| == 0 ==> rt.framebuffer in g.noColorBuffers)
              && Owns(g.names, rt)
              && OwnedNames(rt) !! gl.names.live
              && g.names.live == gl.names.live + OwnedNames(rt)
              && g.names.staleDeletes == gl.names.staleDeletes
  {
    var (names, fb) := Names.Generate(gl.names);
    var rt := RenderTarget(fb, [], None, desc);
    var gl1 := gl.(names := names);
    assert Owns(gl1.names, rt) && OwnedNames(rt) == {fb} by {
      assert Ids(rt.colorTextures) == [];
    }
    var r := CreateAttachments(gl1, rt, status);
    if r.Success? then
      CreateAttachmentsOwnership(gl1, rt);
      CreateAttachmentsMatchesDescriptor(gl1, rt);
      assert OwnedNames(r.value.1) !! gl.names.live;
      r
    else r
  }

  /**
   * `resize`: only the stored width and height change; every attachment is
   * rebuilt at the new size.
   */
  function Resize(gl: Gl, rt: RenderTarget, width: int, height: int, status: FramebufferStatus): (r: Result<(Gl, RenderTarget)>)
    requires Names.Valid(gl.names)
    ensures r.Failure? <==> status != Complete
    ensures r.Success? ==>
              var (g, rt') := r.value;
              && rt'.desc == rt.desc.(width := width, height := height)
              && rt'.framebuffer == rt.framebuffer
              && AsDescribed(g, rt')
              && |rt'.colorTextures| == |rt.desc.colorTextures|
              && (forall k :: 0 <= k < |rt'.colorTextures| ==>
                    rt'.colorTextures[k].width == width && rt'.colorTextures[k].height == height)
              && (rt.desc.depthStencilTexture.Some? ==>
                    && rt'.depthStencilTexture.Some?
                    && rt'.depthStencilTexture.value.width == width
                    && rt'.depthStencilTexture.value.height == height)
  {
    var resized := rt.(desc := rt.desc.(width := width, height := height));
    var r := CreateAttachments(gl, resized, status);
    if r.Success? then
      CreateAttachmentsMatchesDescriptor(gl, resized);
      r
    else r
  }

  /** `color_texture(index)`: bounds-checked, so an index past the end is the `out_of_range` error. */
  function ColorTexture(rt: RenderTarget, index: nat): (r: Option<Texture>)
    ensures r.Some? <==> index < |rt.colorTextures|
    ensures r.Some? ==> r.value == rt.colorTextures[index] && r.value.id in Elements(Ids(rt.colorTextures))
  {
    if index < |rt.colorTextures| then
      assert Ids(rt.colorTextures)[index] == rt.colorTextures[index].id;
      Some(rt.colorTextures[index])
    else None
  }

  /** `depth_stencil_texture()`: only for a render target created with one. */
  function DepthStencilTexture(rt: RenderTarget): (t: Texture)
    requires rt.depthStencilTexture.Some?
    ensures t.id in OwnedNames(rt) && Some(t) == rt.depthStencilTexture
  {
    rt.depthStencilTexture.value
  }
}
