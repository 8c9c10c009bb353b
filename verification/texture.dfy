/**
 * The texture vocabulary: pixel formats, sampling options, image sources,
 * and the ownership of a texture name. Only the relations between the enums
 * matter here, so each enumerator is a constructor and the numeric values of
 * the GL constants are not modelled.
 */
module Texture {
  import opened Wrappers
  import opened Names
  import opened GlState

  /** `InternalFormat`: formats accepted by `glTexImage2D`. */
  datatype InternalFormat =
    | R | RG | RGB | RGBA | Depth | DepthStencil
    | R8 | R8_SNORM | R16 | R16_SNORM | RG8 | RG8_SNORM
    | RG16 | RG16_SNORM | R3_G3_B2 | RGB4 | RGB5 | RGB8
    | RGB8_SNORM | RGB10 | RGB12 | RGB16_SNORM | RGBA2 | RGBA4
    | RGB5_A1 | RGBA8 | RGBA8_SNORM | RGB10_A2 | RGB10_A2UI | RGBA12
    | RGBA16 | SRGB8 | SRGB8_ALPHA8 | R16F | RG16F | RGB16F
    | RGBA16F | R32F | RG32F | RGB32F | RGBA32F | R11F_G11F_B10F
    | RGB9_E5 | R8I | R8UI | R16I | R16UI | R32I
    | R32UI | RG8I | RG8UI | RG16I | RG16UI | RG32I
    | RG32UI | RGB8I | RGB8UI | RGB16I | RGB16UI | RGB32I
    | RGB32UI | RGBA8I | RGBA8UI | RGBA16I | RGBA16UI | RGBA32I
    | RGBA32UI | Compressed_R | Compressed_RG | Compressed_RGB | Compressed_RGBA | Compressed_SRGB
    | Compressed_SRGB_ALPHA | Compressed_RED_RGTC1 | Compressed_SIGNED_RED_RGTC1 | Compressed_RG_RGTC2 | Compressed_SIGNED_RG_RGTC2 | Compressed_RGBA_BPTC_UNORM
    | Compressed_SRGB_ALPHA_BPTC_UNORM | Compressed_RGB_BPTC_SIGNED_FLOAT | Compressed_RGB_BPTC_UNSIGNED_FLOAT

  /**
   * `InternalFormatSized`: formats accepted by `glTexStorage2D`. Its
   * enumerators are the 61 color formats followed by the 6 depth/stencil
   * formats, each with the same name and GL value as in the two attachment
   * enums, so it is written here as their disjoint union.
   */
  datatype SizedFormat = SizedColor(color: ColorFormat) | SizedDepthStencil(depthStencil: DepthStencilFormat)

  /** `InternalFormat_Color`: formats of a color attachment. */
  datatype ColorFormat =
    | R8 | R8_SNORM | R16 | R16_SNORM | RG8 | RG8_SNORM
    | RG16 | RG16_SNORM | R3_G3_B2 | RGB4 | RGB5 | RGB8
    | RGB8_SNORM | RGB10 | RGB12 | RGB16_SNORM | RGBA2 | RGBA4
    | RGB5_A1 | RGBA8 | RGBA8_SNORM | RGB10_A2 | RGB10_A2UI | RGBA12
    | RGBA16 | SRGB8 | SRGB8_ALPHA8 | R16F | RG16F | RGB16F
    | RGBA16F | R32F | RG32F | RGB32F | RGBA32F | R11F_G11F_B10F
    | RGB9_E5 | R8I | R8UI | R16I | R16UI | R32I
    | R32UI | RG8I | RG8UI | RG16I | RG16UI | RG32I
    | RG32UI | RGB8I | RGB8UI | RGB16I | RGB16UI | RGB32I
    | RGB32UI | RGBA8I | RGBA8UI | RGBA16I | RGBA16UI | RGBA32I
    | RGBA32UI

  /** `InternalFormat_DepthStencil`: formats of a depth/stencil attachment. */
  datatype DepthStencilFormat =
    | Depth32F | Depth24 | Depth16 | Depth32F_Stencil8 | Depth24_Stencil8 | Stencil8

  /** `Format`: layout of source pixel data. */
  datatype PixelFormat =
    | R | RG | RGB | BGR | RGBA | BGRA
    | R_Integer | RG_Integer | RGB_Integer | BGR_Integer | RGBA_Integer | BGRA_Integer
    | StencilIndex | DepthComponent | DepthStencil

  /** `Type`: scalar type of source pixel data. */
  datatype PixelType =
    | UnsignedByte | Byte | UnsignedShort | Short
    | UnsignedInt | Int | Float | UnsignedByte_3_3_2
    | UnsignedByte_2_3_3_Rev | UnsignedShort_5_6_5 | UnsignedShort_5_6_5_Rev | UnsignedShort_4_4_4_4
    | UnsignedShort_4_4_4_4_Rev | UnsignedShort_5_5_5_1 | UnsignedShort_1_5_5_5_Rev | UnsignedInt_8_8_8_8
    | UnsignedInt_8_8_8_8_Rev | UnsignedInt_10_10_10_2 | UnsignedInt_2_10_10_10_Rev

  datatype Filter = NearestNeighbour | Linear | LinearMipmapLinear

  datatype Wrap = Repeat | MirroredRepeat | ClampToEdge | ClampToBorder

  datatype Color4 = Color4(r: real, g: real, b: real, a: real)

  /** `TextureOptions`; the border color only matters with `ClampToBorder`. */
  datatype TextureOptions = TextureOptions(
    minificationFilter: Filter, magnificationFilter: Filter, wrapX: Wrap, wrapY: Wrap, borderColor: Color4)

  /** The default options: linear filtering, clamped to edge, transparent black border. */
  function DefaultOptions(): (o: TextureOptions)
    ensures o.minificationFilter == Linear && o.magnificationFilter == Linear
    ensures o.wrapX == ClampToEdge && o.wrapY == ClampToEdge
    ensures o.borderColor == Color4(0.0, 0.0, 0.0, 0.0)
  {
    TextureOptions(Linear, Linear, ClampToEdge, ClampToEdge, Color4(0.0, 0.0, 0.0, 0.0))
  }

  /** `AnyTextureSource`: an image file, raw pixels, or uninitialised storage. */
  datatype TextureSource =
    | File(path: string, flipY: bool, fileTextureFormat: InternalFormat)
    | Pixels(pixels: seq<nat>, pixelsWidth: int, pixelsHeight: int,
             sourcePixelsType: PixelType, sourcePixelsFormat: PixelFormat, pixelsTextureFormat: InternalFormat)
    | EmptyImage(width: int, height: int, textureFormat: SizedFormat)

  /** A `TextureSource::File` with only its path given: flipped, stored as RGBA. */
  function FileSource(path: string): (s: TextureSource)
    ensures s.File? && s.path == path && s.flipY && s.fileTextureFormat == InternalFormat.RGBA
  {
    File(path, true, InternalFormat.RGBA)
  }

  /** A `TextureSource::Pixels` with only its pixels given: unsigned bytes, RGBA in and out. */
  function PixelsSource(pixels: seq<nat>): (s: TextureSource)
    ensures s.Pixels? && s.pixels == pixels && s.pixelsWidth == 0 && s.pixelsHeight == 0
    ensures s.sourcePixelsType == UnsignedByte && s.sourcePixelsFormat == PixelFormat.RGBA
    ensures s.pixelsTextureFormat == InternalFormat.RGBA
  {
    Pixels(pixels, 0, 0, UnsignedByte, PixelFormat.RGBA, InternalFormat.RGBA)
  }

  /** A default `TextureSource::EmptyImage`: 0x0 storage in RGBA8. */
  function EmptyImageSource(): (s: TextureSource)
    ensures s.EmptyImage? && s.width == 0 && s.height == 0 && s.textureFormat == SizedColor(ColorFormat.RGBA8)
  {
    EmptyImage(0, 0, SizedColor(ColorFormat.RGBA8))
  }

  /** `static_cast<InternalFormatSized>` of a color attachment format: same enumerator. */
  function ColorToSized(f: ColorFormat): (s: SizedFormat)
    ensures s.SizedColor? && s.color == f
  {
    SizedColor(f)
  }

  /** `static_cast<InternalFormatSized>` of a depth/stencil attachment format: same enumerator. */
  function DepthStencilToSized(f: DepthStencilFormat): (s: SizedFormat)
    ensures s.SizedDepthStencil? && s.depthStencil == f
  {
    SizedDepthStencil(f)
  }

  /** The color format a sized format is, if any. */
  function SizedAsColor(f: SizedFormat): Option<ColorFormat> {
    if f.SizedColor? then Some(f.color) else None
  }

  /** The depth/stencil format a sized format is, if any. */
  function SizedAsDepthStencil(f: SizedFormat): Option<DepthStencilFormat> {
    if f.SizedDepthStencil? then Some(f.depthStencil) else None
  }

  /**
   * Both attachment enums are subsets of `InternalFormatSized`: the casts
   * are inverted by `SizedAs…`, and every sized format is exactly one of a
   * color format or a depth/stencil format.
   */
  lemma AttachmentFormatsPartitionSized(c: ColorFormat, d: DepthStencilFormat, s: SizedFormat)
    ensures SizedAsColor(ColorToSized(c)) == Some(c) && SizedAsDepthStencil(ColorToSized(c)) == None
    ensures SizedAsDepthStencil(DepthStencilToSized(d)) == Some(d) && SizedAsColor(DepthStencilToSized(d)) == None
    ensures SizedAsColor(s).Some? != SizedAsDepthStencil(s).Some?
    ensures SizedAsColor(s).Some? ==> ColorToSized(SizedAsColor(s).value) == s
    ensures SizedAsDepthStencil(s).Some? ==> DepthStencilToSized(SizedAsDepthStencil(s).value) == s
  {
  }

  /** A texture name together with the storage the model tracks for it. */
  datatype Texture = Texture(id: Name, width: int, height: int, format: SizedFormat, options: TextureOptions)

  /**
   * `Texture{EmptyImage{…}, options}`: a new name (the `UniqueTexture`
   * member), bound to `GL_TEXTURE_2D` on the active unit, with storage of the
   * requested size and format.
   */
  function CreateEmptyTexture(gl: Gl, width: int, height: int, format: SizedFormat, options: TextureOptions): (r: (Gl, Texture))
    requires Names.Valid(gl.names)
    ensures Names.Valid(r.0.names)
    ensures r.1.id != 0 && r.1.id !in gl.names.live
    ensures r.0.names.live == gl.names.live + {r.1.id}
    ensures r.0.names.staleDeletes == gl.names.staleDeletes
    ensures r.1.width == width && r.1.height == height && r.1.format == format && r.1.options == options
    ensures r.0.boundTextures == gl.boundTextures[gl.activeUnit := r.1.id]
    ensures r.0 == gl.(names := r.0.names, boundTextures := r.0.boundTextures)
  {
    var (names, id) := Names.Generate(gl.names);
    var gl1 := GlState.BindTexture(gl.(names := names), id);
    (gl1, Texture(id, width, height, format, options))
  }
}
