/** WIIU_SDL_SetGX2BlendMode (SDL_rdraw_wiiu.c): the translation of an SDL
    blend mode into GX2 colour-control and blend-control calls. */
module BlendWiiU {
  import opened Gx2
  import opened Sdl

  predicate KnownBlendMode(mode: int) {
    mode == BLENDMODE_NONE || mode == BLENDMODE_BLEND || mode == BLENDMODE_ADD || mode == BLENDMODE_MOD
  }

  /** The blend controls of BLEND, ADD and MOD: colour source and destination
      factors, then (separately) alpha source and destination factors. */
  const BLEND_CONTROL := BlendControl(SrcAlpha, InvSrcAlpha, CombineAdd, true, One, InvSrcAlpha, CombineAdd)
  const ADD_CONTROL := BlendControl(SrcAlpha, One, CombineAdd, true, Zero, One, CombineAdd)
  const MOD_CONTROL := BlendControl(DstColor, Zero, CombineAdd, true, Zero, One, CombineAdd)

  /** The GX2 calls for a blend mode. NONE switches blending off; BLEND, ADD
      and MOD switch it on and set their factors; any other mode issues
      nothing, leaving the previous blend state in force. */
  function SetGX2BlendMode(mode: int): (cmds: seq<Command>)
    ensures forall i :: 0 <= i < |cmds| ==> IsColorControl(cmds[i]) || IsBlendControl(cmds[i])
    ensures cmds == [] <==> !KnownBlendMode(mode)
    ensures cmds != [] ==> IsColorControl(cmds[0]) && (cmds[0].blendEnableMask == 0x00 <==> mode == BLENDMODE_NONE)
    ensures |cmds| == (if mode == BLENDMODE_NONE then 1 else if KnownBlendMode(mode) then 2 else 0)
    ensures mode != BLENDMODE_NONE && cmds != [] ==> cmds[0].blendEnableMask == 0xFF
    ensures cmds != [] ==> cmds[0].op == LogicOpCopy && !cmds[0].multiWrite && cmds[0].colorWrite
    ensures forall i :: 0 <= i < |cmds| && IsBlendControl(cmds[i]) ==> cmds[i].target == 0
  {
    if mode == BLENDMODE_NONE then
      [SetColorControl(LogicOpCopy, 0x00, false, true)]
    else if mode == BLENDMODE_BLEND then
      [SetColorControl(LogicOpCopy, 0xFF, false, true), SetBlendControl(0, BLEND_CONTROL)]
    else if mode == BLENDMODE_ADD then
      [SetColorControl(LogicOpCopy, 0xFF, false, true), SetBlendControl(0, ADD_CONTROL)]
    else if mode == BLENDMODE_MOD then
      [SetColorControl(LogicOpCopy, 0xFF, false, true), SetBlendControl(0, MOD_CONTROL)]
    else
      []
  }

  /** After the blend calls of a known mode, the colour control and (unless
      the mode is NONE) the blend control in force are the ones just issued. */
  lemma BlendStateAfter(log: seq<Command>, mode: int, rest: seq<Command>)
    requires KnownBlendMode(mode)
    requires forall i :: 0 <= i < |rest| ==> !IsColorControl(rest[i]) && !IsBlendControl(rest[i])
    ensures Last(log + SetGX2BlendMode(mode) + rest, IsColorControl) == Some(SetGX2BlendMode(mode)[0])
    ensures mode != BLENDMODE_NONE ==>
              Last(log + SetGX2BlendMode(mode) + rest, IsBlendControl) == Some(SetGX2BlendMode(mode)[1])
  {
    ColorControlInForce(log, mode, rest);
    if mode != BLENDMODE_NONE {
      BlendControlInForce(log, mode, rest);
    }
  }

  /** The colour-control half of BlendStateAfter. */
  lemma ColorControlInForce(log: seq<Command>, mode: int, rest: seq<Command>)
    requires KnownBlendMode(mode)
    requires forall i :: 0 <= i < |rest| ==> !IsColorControl(rest[i])
    ensures Last(log + SetGX2BlendMode(mode) + rest, IsColorControl) == Some(SetGX2BlendMode(mode)[0])
  {
    var cmds := SetGX2BlendMode(mode);
    var bound := log + cmds;
    LastAppendUnmatched(bound, rest, IsColorControl);
    if mode == BLENDMODE_NONE {
      assert bound[|bound| - 1] == cmds[0];
    } else {
      var front := log + [cmds[0]];
      assert bound[..|bound| - 1] == front;
      assert !IsColorControl(bound[|bound| - 1]);
      assert front[|front| - 1] == cmds[0];
    }
  }

  /** The blend-control half of BlendStateAfter. */
  lemma BlendControlInForce(log: seq<Command>, mode: int, rest: seq<Command>)
    requires KnownBlendMode(mode) && mode != BLENDMODE_NONE
    requires forall i :: 0 <= i < |rest| ==> !IsBlendControl(rest[i])
    ensures Last(log + SetGX2BlendMode(mode) + rest, IsBlendControl) == Some(SetGX2BlendMode(mode)[1])
  {
    var bound := log + SetGX2BlendMode(mode);
    LastAppendUnmatched(bound, rest, IsBlendControl);
    assert bound[|bound| - 1] == SetGX2BlendMode(mode)[1];
  }

  /** BLEND: rgb = src * srcA + dst * (1 - srcA), a = srcA + dstA * (1 - srcA). */
  lemma BlendControlEquation(src: Rgba, dst: Rgba)
    ensures ApplyBlend(BLEND_CONTROL, src, dst) ==
              Rgba(src.r * src.a + dst.r * (1.0 - src.a),
                   src.g * src.a + dst.g * (1.0 - src.a),
                   src.b * src.a + dst.b * (1.0 - src.a),
                   src.a + dst.a * (1.0 - src.a))
  {
    assert ApplyBlend(BLEND_CONTROL, src, dst).a == src.a * 1.0 + dst.a * (1.0 - src.a);
  }

  /** ADD: rgb = src * srcA + dst, a = dstA. */
  lemma AddControlEquation(src: Rgba, dst: Rgba)
    ensures ApplyBlend(ADD_CONTROL, src, dst) ==
              Rgba(src.r * src.a + dst.r, src.g * src.a + dst.g, src.b * src.a + dst.b, dst.a)
  {
    var out := ApplyBlend(ADD_CONTROL, src, dst);
    assert out.r == src.r * src.a + dst.r * 1.0;
    assert out.g == src.g * src.a + dst.g * 1.0;
    assert out.b == src.b * src.a + dst.b * 1.0;
    assert out.a == src.a * 0.0 + dst.a * 1.0;
  }

  /** MOD: rgb = src * dst, a = dstA. */
  lemma ModControlEquation(src: Rgba, dst: Rgba)
    ensures ApplyBlend(MOD_CONTROL, src, dst) ==
              Rgba(src.r * dst.r, src.g * dst.g, src.b * dst.b, dst.a)
  {
    var out := ApplyBlend(MOD_CONTROL, src, dst);
    assert out.r == src.r * dst.r + dst.r * 0.0;
    assert out.g == src.g * dst.g + dst.g * 0.0;
    assert out.b == src.b * dst.b + dst.b * 0.0;
    assert out.a == src.a * 0.0 + dst.a * 1.0;
  }

  /** What a draw issued after the blend calls (and after any other calls
      that leave colour and blend control alone) writes over `dst`:
      NONE copies the source;
      BLEND: rgb = src * srcA + dst * (1 - srcA), a = srcA + dstA * (1 - srcA);
      ADD:   rgb = src * srcA + dst,              a = dstA;
      MOD:   rgb = src * dst,                     a = dstA. */
  lemma BlendModeEquations(log: seq<Command>, mode: int, rest: seq<Command>, src: Rgba, dst: Rgba)
    requires KnownBlendMode(mode)
    requires forall i :: 0 <= i < |rest| ==> !IsColorControl(rest[i]) && !IsBlendControl(rest[i])
    ensures var out := BlendOutput(log + SetGX2BlendMode(mode) + rest, src, dst);
            (mode == BLENDMODE_NONE ==> out == Some(src)) &&
            (mode == BLENDMODE_BLEND ==>
               out == Some(Rgba(src.r * src.a + dst.r * (1.0 - src.a),
                                src.g * src.a + dst.g * (1.0 - src.a),
                                src.b * src.a + dst.b * (1.0 - src.a),
                                src.a + dst.a * (1.0 - src.a)))) &&
            (mode == BLENDMODE_ADD ==>
               out == Some(Rgba(src.r * src.a + dst.r, src.g * src.a + dst.g, src.b * src.a + dst.b, dst.a))) &&
            (mode == BLENDMODE_MOD ==>
               out == Some(Rgba(src.r * dst.r, src.g * dst.g, src.b * dst.b, dst.a)))
  {
    BlendStateAfter(log, mode, rest);
    if mode != BLENDMODE_NONE {
      assert (0xFF as bv8) & 1 != 0;
      if mode == BLENDMODE_BLEND {
        BlendControlEquation(src, dst);
      } else if mode == BLENDMODE_ADD {
        AddControlEquation(src, dst);
      } else {
        ModControlEquation(src, dst);
      }
    }
  }

  /** An unrecognised mode changes nothing: the blend output is that of the
      state before, and no error is raised. */
  lemma UnknownBlendModeIsNoOp(log: seq<Command>, mode: int, src: Rgba, dst: Rgba)
    requires !KnownBlendMode(mode)
    ensures log + SetGX2BlendMode(mode) == log
    ensures BlendOutput(log + SetGX2BlendMode(mode), src, dst) == BlendOutput(log, src, dst)
  {
    assert log + [] == log;
  }
}
