/** The GX2 / GX2R graphics interface of the Wii U, as the renderer sees it.

    The GPU is modelled as an append-only log of the GX2 and GX2R calls the
    renderer issues (`Command`). Register contents, shader binaries and the
    GPU's own execution are not modelled; what is modelled is the order and the
    arguments of the calls, plus two small pieces of device semantics that the
    renderer's guarantees are stated against: which state a later draw sees
    (the last command of a kind in the log) and how the colour-blend hardware
    combines a source and a destination pixel. */
module Gx2 {

  /** Four 32-bit floats, as passed to GX2SetVertexUniformReg / GX2SetPixelUniformReg. */
  datatype Vec4 = Vec4(x: real, y: real, z: real, w: real)

  /** GX2Surface: the descriptor of an image in GPU memory. */
  datatype Surface = Surface(
    width: nat, height: nat, depth: nat, mipLevels: nat,
    format: int, tileMode: int, swizzle: int, alignment: nat,
    use: bv32, image: int, imageSize: nat, pitch: nat)

  const SURFACE_USE_TEXTURE: bv32 := 1
  const SURFACE_USE_COLOR_BUFFER: bv32 := 2

  /** GX2ColorBuffer: a surface viewed as a render target. */
  datatype ColorBuffer = ColorBuffer(
    surface: Surface, viewMip: nat, viewFirstSlice: nat, viewNumSlices: nat,
    aaBuffer: int, aaSize: nat)

  /** The all-zero surface and colour buffer, what `memset(.., 0, ..)` leaves behind. */
  const ZERO_SURFACE := Surface(0, 0, 0, 0, 0, 0, 0, 0, 0, 0, 0, 0)
  const ZERO_COLOR_BUFFER := ColorBuffer(ZERO_SURFACE, 0, 0, 0, 0, 0)

  datatype Primitive = Points | LineStrip | Quads

  /** The two fixed shader programs of the renderer. */
  datatype Shader = ColorShader | TextureShader

  datatype ClampMode = ClampClamp
  datatype XYFilter = FilterLinear
  datatype Sampler = Sampler(clamp: ClampMode, filter: XYFilter)

  datatype ResourceFlag = BindVertexBuffer | UsageCpuRead | UsageCpuWrite | UsageGpuRead

  /** The creation parameters of a GX2RBuffer: `elemSize` is in bytes. */
  datatype BufferDesc = BufferDesc(flags: set<ResourceFlag>, elemSize: nat, elemCount: nat)

  const FLOAT_SIZE: nat := 4

  /** A GX2RBuffer. `vals` is the float view that GX2RLockBufferEx hands to the CPU. */
  class Buffer {
    const desc: BufferDesc
    const vals: array<real>

    constructor (desc: BufferDesc)
      ensures this.desc == desc
      ensures fresh(vals) && vals.Length == desc.elemSize / FLOAT_SIZE * desc.elemCount
    {
      this.desc := desc;
      vals := new real[desc.elemSize / FLOAT_SIZE * desc.elemCount];
    }
  }

  datatype BlendFactor = Zero | One | SrcAlpha | InvSrcAlpha | DstColor
  datatype CombineMode = CombineAdd
  datatype LogicOp = LogicOpCopy

  /** The arguments of GX2SetBlendControl after the render-target index. */
  datatype BlendControl = BlendControl(
    colorSrc: BlendFactor, colorDst: BlendFactor, colorCombine: CombineMode,
    separateAlpha: bool,
    alphaSrc: BlendFactor, alphaDst: BlendFactor, alphaCombine: CombineMode)

  /** One GX2 or GX2R call. */
  datatype Command =
    | SetContextState
    | SetupContextState(profiling: bool)
    | InitShader(shader: Shader)
    | FreeShader(shader: Shader)
    | SetShader(shader: Shader)
    | CreateBuffer(created: BufferDesc)
    | LockBuffer(buf: Buffer)
    | UnlockBuffer(buf: Buffer)
    | SetPixelTexture(texture: Surface, unit: nat)
    | SetPixelSampler(sampler: Sampler, unit: nat)
    | InitSampler(initSampler: Sampler)
    | SetAttribBuffer(attrib: Buffer, slot: nat, stride: nat)
    | SetVertexUniform(vertexIndex: nat, vertexValue: Vec4)
    | SetPixelUniform(pixelIndex: nat, pixelValue: Vec4)
    | SetColorControl(op: LogicOp, blendEnableMask: bv8, multiWrite: bool, colorWrite: bool)
    | SetBlendControl(target: nat, control: BlendControl)
    | SetLineWidth(lineWidth: real)
    | SetPointSize(pointWidth: real, pointHeight: real)
    | InitColorBufferRegs(regsOf: ColorBuffer)
    | SetColorBuffer(colorBuffer: ColorBuffer, renderTarget: nat)
    | SetViewport(vx: real, vy: real, vw: real, vh: real, nearZ: real, farZ: real)
    | SetScissor(sx: int, sy: int, sw: int, sh: int)
    | ClearColor(cleared: ColorBuffer, color: Vec4)
    | DrawEx(prim: Primitive, count: nat, firstVertex: nat, instances: nat)

  predicate IsDraw(c: Command) { c.DrawEx? }
  predicate IsViewport(c: Command) { c.SetViewport? }
  predicate IsScissor(c: Command) { c.SetScissor? }
  predicate IsColorControl(c: Command) { c.SetColorControl? }
  predicate IsBlendControl(c: Command) { c.SetBlendControl? }

  /** A call that binds state a draw reads: shader, texture, sampler,
      attribute buffer, uniform or blend state. */
  predicate IsBinding(c: Command) {
    c.SetShader? || c.SetPixelTexture? || c.SetPixelSampler? || c.SetAttribBuffer? ||
    c.SetVertexUniform? || c.SetPixelUniform? || c.SetColorControl? || c.SetBlendControl?
  }

  /** The most recent command of the log that satisfies `p`: the one whose
      state a later draw sees. */
  function Last(log: seq<Command>, p: Command -> bool): (r: Option<Command>)
    ensures r.Some? ==> p(r.value) && r.value in log
    ensures r.None? <==> forall i :: 0 <= i < |log| ==> !p(log[i])
    ensures r.Some? ==> exists i :: 0 <= i < |log| && log[i] == r.value &&
                         forall j :: i < j < |log| ==> !p(log[j])
  {
    if |log| == 0 then None
    else if p(log[|log| - 1]) then Some(log[|log| - 1])
    else
      var front := log[..|log| - 1];
      assert forall i :: 0 <= i < |front| ==> front[i] == log[i];
      Last(front, p)
  }

  datatype Option<+T> = None | Some(value: T)

  /** Appending commands none of which matches `p` leaves the last match unchanged. */
  lemma {:induction false} LastAppendUnmatched(log: seq<Command>, t: seq<Command>, p: Command -> bool)
    requires forall i :: 0 <= i < |t| ==> !p(t[i])
    ensures Last(log + t, p) == Last(log, p)
    decreases |t|
  {
    if t == [] {
      assert log + t == log;
    } else {
      var t' := t[..|t| - 1];
      assert (log + t)[..|log + t| - 1] == log + t';
      LastAppendUnmatched(log, t', p);
    }
  }

  /** The number of commands of the log that satisfy `p`. */
  function Count(log: seq<Command>, p: Command -> bool): (n: nat)
    ensures n <= |log|
    ensures n == 0 <==> forall i :: 0 <= i < |log| ==> !p(log[i])
  {
    if log == [] then 0 else (if p(log[0]) then 1 else 0) + Count(log[1..], p)
  }

  lemma {:induction false} CountAppend(a: seq<Command>, b: seq<Command>, p: Command -> bool)
    ensures Count(a + b, p) == Count(a, p) + Count(b, p)
    decreases |a|
  {
    if a == [] {
      assert a + b == b;
    } else {
      assert (a + b)[1..] == a[1..] + b;
      CountAppend(a[1..], b, p);
    }
  }

  /** The (x, y) pair the vertex fetch reads for vertex `k` of a 2-float
      attribute bound with a byte stride of `stride`: the two floats starting
      at byte k * stride, or None when they lie outside the buffer. */
  function AttribFetch(vals: seq<real>, stride: nat, k: nat): Option<(real, real)> {
    var off := stride / FLOAT_SIZE * k;
    if off + 1 < |vals| then Some((vals[off], vals[off + 1])) else None
  }

  // ---------------------------------------------------------------------------
  // GX2R lock discipline: a buffer is locked for CPU writes between
  // GX2RLockBufferEx and GX2RUnlockBufferEx.

  function LockStep(held: set<Buffer>, c: Command): set<Buffer> {
    match c
    case LockBuffer(b) => held + {b}
    case UnlockBuffer(b) => held - {b}
    case _ => held
  }

  /** The buffers still locked after the trace, starting with `held` locked. */
  function LockedAfter(held: set<Buffer>, t: seq<Command>): set<Buffer>
    decreases |t|
  {
    if t == [] then held else LockedAfter(LockStep(held, t[0]), t[1..])
  }

  /** The call is allowed in the lock state `held`: a lock of a buffer that
      is not locked, an unlock of one that is, or any other call. */
  predicate LockStepOk(held: set<Buffer>, c: Command) {
    (c.LockBuffer? ==> c.buf !in held) && (c.UnlockBuffer? ==> c.buf in held)
  }

  /** No buffer is locked twice, and none is unlocked unless it is locked. */
  predicate LocksPaired(held: set<Buffer>, t: seq<Command>)
    decreases |t|
  {
    t == [] || (LockStepOk(held, t[0]) && LocksPaired(LockStep(held, t[0]), t[1..]))
  }

  /** Two calls in front of a trace, unfolded. */
  lemma LocksTwo(held: set<Buffer>, c0: Command, c1: Command, t: seq<Command>)
    ensures LockedAfter(held, [c0, c1] + t) == LockedAfter(LockStep(LockStep(held, c0), c1), t)
    ensures LocksPaired(held, [c0, c1] + t) <==>
              LockStepOk(held, c0) && LockStepOk(LockStep(held, c0), c1) &&
              LocksPaired(LockStep(LockStep(held, c0), c1), t)
  {
    var s := [c0, c1] + t;
    assert s[0] == c0 && s[1..] == [c1] + t;
    assert s[1..][0] == c1 && s[1..][1..] == t;
  }

  /** A trace with no lock or unlock leaves the locked set alone. */
  lemma {:induction false} LockFreeTrace(held: set<Buffer>, t: seq<Command>)
    requires forall i :: 0 <= i < |t| ==> !t[i].LockBuffer? && !t[i].UnlockBuffer?
    ensures LockedAfter(held, t) == held && LocksPaired(held, t)
    decreases |t|
  {
    if t != [] {
      LockFreeTrace(held, t[1..]);
    }
  }

  lemma {:induction false} LocksAppend(held: set<Buffer>, a: seq<Command>, b: seq<Command>)
    ensures LockedAfter(held, a + b) == LockedAfter(LockedAfter(held, a), b)
    ensures LocksPaired(held, a + b) <==> LocksPaired(held, a) && LocksPaired(LockedAfter(held, a), b)
    decreases |a|
  {
    if a == [] {
      assert a + b == b;
    } else {
      assert (a + b)[0] == a[0];
      assert (a + b)[1..] == a[1..] + b;
      LocksAppend(LockStep(held, a[0]), a[1..], b);
    }
  }

  // ---------------------------------------------------------------------------
  // Colour-blend hardware: what a fragment writes into render target 0.

  /** A colour with components in [0, 1] in the GPU's normalised view. */
  datatype Rgba = Rgba(r: real, g: real, b: real, a: real)

  /** The value of a blend factor for one channel: `srcA` is the source alpha,
      `dstC` the destination's value of that channel. */
  function Factor(f: BlendFactor, srcA: real, dstC: real): real {
    match f
    case Zero => 0.0
    case One => 1.0
    case SrcAlpha => srcA
    case InvSrcAlpha => 1.0 - srcA
    case DstColor => dstC
  }

  function Combine(op: CombineMode, s: real, fs: real, d: real, fd: real): real {
    match op
    case CombineAdd => s * fs + d * fd
  }

  function ApplyBlend(bc: BlendControl, src: Rgba, dst: Rgba): Rgba {
    var aSrc := if bc.separateAlpha then bc.alphaSrc else bc.colorSrc;
    var aDst := if bc.separateAlpha then bc.alphaDst else bc.colorDst;
    var aOp := if bc.separateAlpha then bc.alphaCombine else bc.colorCombine;
    Rgba(
      Combine(bc.colorCombine, src.r, Factor(bc.colorSrc, src.a, dst.r), dst.r, Factor(bc.colorDst, src.a, dst.r)),
      Combine(bc.colorCombine, src.g, Factor(bc.colorSrc, src.a, dst.g), dst.g, Factor(bc.colorDst, src.a, dst.g)),
      Combine(bc.colorCombine, src.b, Factor(bc.colorSrc, src.a, dst.b), dst.b, Factor(bc.colorDst, src.a, dst.b)),
      Combine(aOp, src.a, Factor(aSrc, src.a, dst.a), dst.a, Factor(aDst, src.a, dst.a)))
  }

  /** The pixel a draw issued after `log` writes over `dst` for fragment
      colour `src`, or None when the log leaves the blend state unset. Bit 0
      of the colour control's blend-enable mask switches blending on for
      render target 0; when it is off the fragment is copied. */
  function BlendOutput(log: seq<Command>, src: Rgba, dst: Rgba): Option<Rgba> {
    match Last(log, IsColorControl)
    case None => None
    case Some(cc) =>
      if cc.blendEnableMask & 1 == 0 then Some(src)
      else match Last(log, IsBlendControl)
        case None => None
        case Some(bc) => Some(ApplyBlend(bc.control, src, dst))
  }
}
