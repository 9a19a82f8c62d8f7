/** The SDL-side values the Wii U renderer backend reads: rectangles and
    points in the renderer's logical space, draw colours, blend modes, flip
    flags, textures and the window it presents to. */
module Sdl {
  import opened Gx2

  type byte = x: int | 0 <= x < 256

  /** SDL_Rect: integer rectangle. */
  datatype Rect = Rect(x: int, y: int, w: int, h: int)

  /** SDL_FRect and SDL_FPoint: floating-point geometry, modelled as reals. */
  datatype FRect = FRect(x: real, y: real, w: real, h: real)
  datatype FPoint = FPoint(x: real, y: real)

  /** SDL_RendererFlip, a bit set. */
  type RendererFlip = bv32
  const FLIP_NONE: RendererFlip := 0
  const FLIP_HORIZONTAL: RendererFlip := 1
  const FLIP_VERTICAL: RendererFlip := 2

  /** SDL_BlendMode values; any other value (a custom composed mode) is also
      a possible input. */
  const BLENDMODE_NONE: int := 0x00000000
  const BLENDMODE_BLEND: int := 0x00000001
  const BLENDMODE_ADD: int := 0x00000002
  const BLENDMODE_MOD: int := 0x00000004

  datatype PixelFormat = Rgba8888 | Rgba4444 | Abgr1555 | Rgba5551 | Rgb565 | OtherFormat(code: nat)

  /** An SDL_Texture together with its WIIU_TextureData: the GX2 texture's
      surface and sampler, the `u_texSize` uniform, the colour/alpha
      modulation and the blend mode. */
  datatype Texture = Texture(
    surface: Surface, sampler: Sampler, texSize: Vec4,
    r: byte, g: byte, b: byte, a: byte, blendMode: int)

  /** The window's WIIU_WindowData, of which the renderer uses the surface of
      the window texture. */
  datatype Window = Window(textureSurface: Surface)

  datatype Error = ReadOutsideSurface

  datatype Result<+T> = Ok(value: T) | Err(error: Error)
}
