/** The renderer object of the Wii U backend (SDL_render_wiiu.c): creation,
    render-target binding, pixel read-back and destruction. */
module RenderWiiU {
  import opened Gx2
  import opened Sdl

  /** A node of the renderer's intrusive free-list of transient allocations. */
  class FreeNode {
    var next: FreeNode?

    constructor (next: FreeNode?)
      ensures this.next == next
    {
      this.next := next;
    }
  }

  /** `s` is the list of nodes reached from `n` by following `next` up to null. */
  ghost predicate ListFrom(n: FreeNode?, s: seq<FreeNode>)
    reads s
    decreases |s|
  {
    if s == [] then n == null else n == s[0] && ListFrom(s[0].next, s[1..])
  }

  /** The heap determines the list: two descriptions of the list from one node agree. */
  lemma {:induction false} ListFromUnique(n: FreeNode?, s: seq<FreeNode>, t: seq<FreeNode>)
    requires ListFrom(n, s) && ListFrom(n, t)
    ensures s == t
    decreases |s|
  {
    if s != [] {
      ListFromUnique(s[0].next, s[1..], t[1..]);
    }
  }

  lemma {:induction false} ListFromSuffix(n: FreeNode?, s: seq<FreeNode>, k: nat)
    requires ListFrom(n, s) && k < |s|
    ensures ListFrom(s[k], s[k..])
    decreases k
  {
    if k > 0 {
      ListFromSuffix(s[0].next, s[1..], k - 1);
      assert s[1..][k - 1..] == s[k..];
    }
  }

  /** A list that ends in null has no node twice: it is acyclic. */
  lemma ListFromDistinct(n: FreeNode?, s: seq<FreeNode>)
    requires ListFrom(n, s)
    ensures forall i, j :: 0 <= i < j < |s| ==> s[i] != s[j]
  {
    forall i, j | 0 <= i < j < |s|
      ensures s[i] != s[j]
    {
      ListFromSuffix(n, s, i);
      ListFromSuffix(n, s, j);
      if s[i] == s[j] {
        ListFromUnique(s[i], s[i..], s[j..]);
        assert false;
      }
    }
  }

  /** The flags of the two persistent texture attribute buffers. */
  const PERSISTENT_BUFFER_FLAGS: set<ResourceFlag> :=
    {BindVertexBuffer, UsageCpuRead, UsageCpuWrite, UsageGpuRead}

  /** The colour-buffer descriptor built for a target surface: a zeroed
      descriptor holding a copy of the surface, usable both as a texture and
      as a colour buffer, with one slice. */
  function BoundColorBuffer(target: Surface): (cb: ColorBuffer)
    ensures cb.surface.width == target.width && cb.surface.height == target.height
    ensures cb.surface.pitch == target.pitch && cb.surface.image == target.image
    ensures cb.surface.use == SURFACE_USE_TEXTURE | SURFACE_USE_COLOR_BUFFER
    ensures cb.surface.(use := target.use) == target
    ensures cb.viewNumSlices == 1
    ensures cb.(surface := ZERO_SURFACE, viewNumSlices := 0) == ZERO_COLOR_BUFFER
  {
    ZERO_COLOR_BUFFER.(
      surface := target.(use := SURFACE_USE_TEXTURE | SURFACE_USE_COLOR_BUFFER),
      viewNumSlices := 1)
  }

  /** The surface a render-target change binds: the texture's own surface, or
      the window texture's surface when no texture is given. */
  function TargetSurface(texture: Option<Texture>, window: Window): Surface {
    match texture
    case Some(t) => t.surface
    case None => window.textureSurface
  }

  /** The viewport a bind sets. */
  function BindViewport(cb: ColorBuffer): Command {
    SetViewport(0.0, 0.0, cb.surface.width as real, cb.surface.height as real, 0.0, 1.0)
  }

  /** The scissor a bind sets. */
  function BindScissor(cb: ColorBuffer): Command {
    SetScissor(0, 0, cb.surface.width, cb.surface.height)
  }

  /** The GX2 calls that activate colour buffer `cb`: its registers, the
      context state, the colour buffer itself on target 0, then a viewport
      and a scissor covering the whole surface. */
  function BindTrace(cb: ColorBuffer): seq<Command> {
    [InitColorBufferRegs(cb), SetContextState, SetColorBuffer(cb, 0), BindViewport(cb), BindScissor(cb)]
  }

  /** After a bind, and after any later commands that set neither a viewport
      nor a scissor, the viewport and the scissor in force are (0, 0, w, h)
      for the bound surface's width w and height h. */
  lemma BindSetsViewportAndScissor(log: seq<Command>, cb: ColorBuffer, rest: seq<Command>)
    requires forall i :: 0 <= i < |rest| ==> !IsViewport(rest[i]) && !IsScissor(rest[i])
    ensures Last(log + BindTrace(cb) + rest, IsViewport) ==
            Some(SetViewport(0.0, 0.0, cb.surface.width as real, cb.surface.height as real, 0.0, 1.0))
    ensures Last(log + BindTrace(cb) + rest, IsScissor) ==
            Some(SetScissor(0, 0, cb.surface.width, cb.surface.height))
  {
    BindViewportInForce(log, cb, rest);
    BindScissorInForce(log, cb, rest);
  }

  /** The viewport half of BindSetsViewportAndScissor. */
  lemma BindViewportInForce(log: seq<Command>, cb: ColorBuffer, rest: seq<Command>)
    requires forall i :: 0 <= i < |rest| ==> !IsViewport(rest[i])
    ensures Last(log + BindTrace(cb) + rest, IsViewport) == Some(BindViewport(cb))
  {
    var bound := log + BindTrace(cb);
    LastAppendUnmatched(bound, rest, IsViewport);
    var front := log + BindTrace(cb)[..4];
    assert bound[..|bound| - 1] == front;
    assert !IsViewport(bound[|bound| - 1]);
    assert front[|front| - 1] == BindViewport(cb);
  }

  /** The scissor half of BindSetsViewportAndScissor. */
  lemma BindScissorInForce(log: seq<Command>, cb: ColorBuffer, rest: seq<Command>)
    requires forall i :: 0 <= i < |rest| ==> !IsScissor(rest[i])
    ensures Last(log + BindTrace(cb) + rest, IsScissor) == Some(BindScissor(cb))
  {
    var bound := log + BindTrace(cb);
    LastAppendUnmatched(bound, rest, IsScissor);
    assert bound[|bound| - 1] == BindScissor(cb);
  }

  /** The calls WIIU_SDL_CreateRenderer makes before binding the window. */
  function SetupTrace(texPosition: BufferDesc, texCoord: BufferDesc, sampler: Sampler): seq<Command> {
    [InitShader(TextureShader), InitShader(ColorShader),
     CreateBuffer(texPosition), CreateBuffer(texCoord),
     SetLineWidth(1.0), SetPointSize(1.0, 1.0),
     InitSampler(sampler), SetupContextState(true)]
  }

  /** The request the read-back hands to SDL_ConvertPixels: a w x h block
      starting `srcOffset` bytes into the bound surface's pixels. */
  datatype ConvertRequest = ConvertRequest(
    w: int, h: int,
    srcFormat: PixelFormat, srcOffset: int, srcPitch: int,
    dstFormat: PixelFormat, dstPitch: int)

  /** A signed `int` converted to `uint32`, as C does before comparing it
      with an unsigned value. */
  function AsUint32(v: int): int {
    v % 0x1_0000_0000
  }

  /** The C comparison `sum > limit` of a signed sum with an unsigned limit.
      The sum is converted to unsigned, so a negative sum compares as a huge
      value and fails the bound as well. */
  predicate ExceedsUnsigned(sum: int, limit: nat) {
    sum < 0 || sum > limit
  }

  /** For a sum in the range of `int` and a limit below 2^31 (any real
      surface size), the unsigned conversion is exactly `ExceedsUnsigned`. */
  lemma UnsignedBoundCheck(sum: int, limit: nat)
    requires -0x8000_0000 <= sum < 0x8000_0000 && limit < 0x8000_0000
    ensures AsUint32(sum) > limit <==> ExceedsUnsigned(sum, limit)
  {
    if sum < 0 {
      assert AsUint32(sum) == sum + 0x1_0000_0000;
    } else {
      assert AsUint32(sum) == sum;
    }
  }

  /** The rectangle lies inside a width x height surface under the source's
      signed/unsigned comparisons: x and y are not negative, and x + w and
      y + h are neither negative nor past the surface. */
  predicate Inside(rect: Rect, width: nat, height: nat) {
    0 <= rect.x && !ExceedsUnsigned(rect.x + rect.w, width) &&
    0 <= rect.y && !ExceedsUnsigned(rect.y + rect.h, height)
  }

  /** WIIU_SDL_RenderReadPixels on the bound colour buffer: an error, and no
      copy, for a rectangle that leaves the surface; otherwise the conversion
      from the surface's RGBA8888 pixels at byte offset y * pitch + x * 4. */
  function ReadPixels(cbuf: ColorBuffer, rect: Rect, format: PixelFormat, pitch: int): (r: Result<ConvertRequest>)
    ensures r.Err? <==> !Inside(rect, cbuf.surface.width, cbuf.surface.height)
    ensures r.Err? ==> r.error == ReadOutsideSurface
    ensures r.Ok? ==> 0 <= rect.x && 0 <= rect.x + rect.w <= cbuf.surface.width &&
                      0 <= rect.y && 0 <= rect.y + rect.h <= cbuf.surface.height
    ensures rect.x + rect.w < 0 || rect.y + rect.h < 0 ==> r.Err?
    ensures r.Ok? ==> r.value.srcOffset == rect.y * cbuf.surface.pitch + rect.x * 4 &&
                      r.value.srcOffset >= 0
    ensures r.Ok? ==> r.value.w == rect.w && r.value.h == rect.h &&
                      r.value.srcFormat == Rgba8888 && r.value.srcPitch == cbuf.surface.pitch &&
                      r.value.dstFormat == format && r.value.dstPitch == pitch
  {
    var s := cbuf.surface;
    if rect.x < 0 || ExceedsUnsigned(rect.x + rect.w, s.width) ||
       rect.y < 0 || ExceedsUnsigned(rect.y + rect.h, s.height) then
      Err(ReadOutsideSurface)
    else
      Ok(ConvertRequest(rect.w, rect.h, Rgba8888, rect.y * s.pitch + rect.x * 4, s.pitch, format, pitch))
  }

  /** With a pitch of at least four bytes per pixel, every byte of an accepted
      read-back (row j < h, byte k < 4 * w of the row) lies inside the
      height * pitch bytes of the surface, and the block ends by
      (y + h - 1) * pitch + (x + w) * 4. */
  lemma ReadStaysInSurface(cbuf: ColorBuffer, rect: Rect, format: PixelFormat, pitch: int, j: int, k: int)
    requires ReadPixels(cbuf, rect, format, pitch).Ok?
    requires rect.w >= 1 && rect.h >= 1
    requires cbuf.surface.pitch >= 4 * cbuf.surface.width
    requires 0 <= j < rect.h && 0 <= k < 4 * rect.w
    ensures var off := ReadPixels(cbuf, rect, format, pitch).value.srcOffset;
            0 <= off + j * cbuf.surface.pitch + k < cbuf.surface.height * cbuf.surface.pitch &&
            off + (rect.h - 1) * cbuf.surface.pitch + rect.w * 4 <= cbuf.surface.height * cbuf.surface.pitch
  {
    var s := cbuf.surface;
    assert ReadPixels(cbuf, rect, format, pitch).value.srcOffset == rect.y * s.pitch + rect.x * 4;
    BlockInsideRows(rect.x, rect.y, rect.w, rect.h, s.width, s.height, s.pitch, j, k);
  }

  /** The arithmetic of ReadStaysInSurface: a w x h block at (x, y) of a
      row-major surface with `p` bytes per row stays inside it. */
  lemma BlockInsideRows(x: int, y: int, w: int, h: int, width: int, height: int, p: int, j: int, k: int)
    requires 0 <= x && 0 <= y && 1 <= w && 1 <= h && x + w <= width && y + h <= height
    requires p >= 4 * width
    requires 0 <= j < h && 0 <= k < 4 * w
    ensures 0 <= y * p + x * 4 + j * p + k < height * p
    ensures y * p + x * 4 + (h - 1) * p + w * 4 <= height * p
  {
    MulMono(j, h - 1, p);
    assert y * p + (h - 1) * p == (y + h - 1) * p;
    MulMono(y + h - 1, height - 1, p);
    assert (height - 1) * p == height * p - p;
    MulMono(0, j, p);
    MulMono(0, y, p);
  }

  lemma MulMono(a: int, b: int, c: nat)
    requires a <= b
    ensures a * c <= b * c
  {
    assert b * c - a * c == (b - a) * c;
  }

  /** The renderer: the SDL_Renderer fields the backend reads (viewport,
      draw colour, blend mode, window) and its WIIU_RenderData, with the GPU
      as the log of GX2 calls issued so far. */
  class Renderer {
    var viewport: Rect
    var r: byte
    var g: byte
    var b: byte
    var a: byte
    var blendMode: int
    const window: Window

    var cbuf: ColorBuffer
    var viewSize: Vec4
    var sampler: Sampler
    var texPositionBuffer: BufferDesc
    var texCoordBuffer: BufferDesc
    var listfree: FreeNode?
    ghost var pending: seq<FreeNode>
    /** The free-list nodes passed to SDL_free, in order. */
    var freed: seq<FreeNode>
    var log: seq<Command>

    ghost predicate Valid()
      reads this, pending
    {
      ListFrom(listfree, pending)
    }

    /** WIIU_SDL_CreateRenderer: an empty free-list, the two persistent
        texture buffers of four 2-float elements, the shaders, sampler and
        context set up, and the window bound as the render target. */
    constructor (window: Window)
      ensures Valid() && listfree == null && pending == [] && freed == []
      ensures this.window == window
      ensures texPositionBuffer == BufferDesc(PERSISTENT_BUFFER_FLAGS, 2 * FLOAT_SIZE, 4)
      ensures texCoordBuffer == BufferDesc(PERSISTENT_BUFFER_FLAGS, 2 * FLOAT_SIZE, 4)
      ensures sampler == Sampler(ClampClamp, FilterLinear)
      ensures cbuf == BoundColorBuffer(window.textureSurface)
      ensures log == SetupTrace(texPositionBuffer, texCoordBuffer, sampler) + BindTrace(cbuf)
      ensures viewport == Rect(0, 0, 0, 0) && r == 0 && g == 0 && b == 0 && a == 0
      ensures blendMode == BLENDMODE_NONE && viewSize == Vec4(0.0, 0.0, 0.0, 0.0)
    {
      this.window := window;
      viewport := Rect(0, 0, 0, 0);
      r, g, b, a := 0, 0, 0, 0;
      blendMode := BLENDMODE_NONE;
      viewSize := Vec4(0.0, 0.0, 0.0, 0.0);
      cbuf := ZERO_COLOR_BUFFER;
      listfree := null;
      pending := [];
      freed := [];
      texPositionBuffer := BufferDesc(PERSISTENT_BUFFER_FLAGS, 2 * FLOAT_SIZE, 4);
      texCoordBuffer := BufferDesc(PERSISTENT_BUFFER_FLAGS, 2 * FLOAT_SIZE, 4);
      sampler := Sampler(ClampClamp, FilterLinear);
      new;
      log := SetupTrace(texPositionBuffer, texCoordBuffer, sampler);
      SetRenderTarget(None);
    }

    /** WIIU_SDL_SetRenderTarget: rebuild the colour buffer from the chosen
        surface alone, activate it and reset viewport and scissor to it. */
    method SetRenderTarget(texture: Option<Texture>)
      modifies this`cbuf, this`log
      ensures cbuf == BoundColorBuffer(TargetSurface(texture, window))
      ensures log == old(log) + BindTrace(cbuf)
    {
      var target: Surface;
      if texture.Some? {
        target := texture.value.surface;
      } else {
        target := window.textureSurface;
      }
      cbuf := ZERO_COLOR_BUFFER;
      cbuf := cbuf.(surface := target);
      cbuf := cbuf.(surface := cbuf.surface.(use := SURFACE_USE_TEXTURE | SURFACE_USE_COLOR_BUFFER));
      cbuf := cbuf.(viewNumSlices := 1);
      log := log + [InitColorBufferRegs(cbuf)];
      log := log + [SetContextState];
      log := log + [SetColorBuffer(cbuf, 0)];
      log := log + [SetViewport(0.0, 0.0, cbuf.surface.width as real, cbuf.surface.height as real, 0.0, 1.0)];
      log := log + [SetScissor(0, 0, cbuf.surface.width, cbuf.surface.height)];
    }

    /** WIIU_SDL_DestroyRenderer: free every node of the free-list once, in
        list order, leaving the list empty; then free both shaders. */
    method DestroyRenderer()
      requires Valid()
      modifies this`listfree, this`pending, this`freed, this`log
      ensures Valid() && listfree == null && pending == []
      ensures freed == old(freed) + old(pending)
      ensures forall i, j :: |old(freed)| <= i < j < |freed| ==> freed[i] != freed[j]
      ensures log == old(log) + [FreeShader(ColorShader), FreeShader(TextureShader)]
    {
      ListFromDistinct(listfree, pending);
      ghost var done: seq<FreeNode> := [];
      while listfree != null
        invariant ListFrom(listfree, pending)
        invariant old(pending) == done + pending
        invariant freed == old(freed) + done
        invariant log == old(log)
        decreases |pending|
      {
        var ptr := listfree;
        listfree := listfree.next;
        freed := freed + [ptr];
        done := done + [pending[0]];
        pending := pending[1..];
      }
      log := log + [FreeShader(ColorShader)];
      log := log + [FreeShader(TextureShader)];
    }
  }
}
