/** The draw routines of SDL_rdraw_wiiu.c. Each allocates fresh attribute
    buffers, fills them between a GX2R lock and unlock, then appends one
    submission to the renderer's GX2 log: context state, shader, attribute
    buffers, uniforms, blend state, and exactly one draw call last. */
module DrawWiiU {
  import opened Gx2
  import opened Sdl
  import opened RenderWiiU
  import opened DrawGeometry
  import opened BlendWiiU

  /** The flags of a transient attribute buffer. */
  const TRANSIENT_FLAGS: set<ResourceFlag> := {BindVertexBuffer, UsageCpuWrite}

  /** The byte stride of one 2-float vertex. */
  const VERTEX_STRIDE: nat := 2 * FLOAT_SIZE

  /** A transient buffer of `count` elements of `floats` floats each. */
  function TransientDesc(floats: nat, count: nat): BufferDesc {
    BufferDesc(TRANSIENT_FLAGS, floats * FLOAT_SIZE, count)
  }

  /** A submission: context state first, then only state bindings, and one
      draw of `n` vertices of `prim`, one instance, as the last call. */
  predicate Submission(t: seq<Command>, prim: Primitive, n: nat) {
    |t| >= 2 && t[0] == SetContextState && t[|t| - 1] == DrawEx(prim, n, 0, 1) &&
    forall j :: 0 < j < |t| - 1 ==> IsBinding(t[j])
  }

  predicate OnlyLocks(t: seq<Command>) {
    forall i :: 0 <= i < |t| ==> t[i].LockBuffer? || t[i].UnlockBuffer?
  }

  /** The submission of the texture shader (RenderCopy, RenderCopyEx). */
  function TexturedSubmission(pos: Buffer, tex: Buffer, viewSize: Vec4, texture: Texture): seq<Command> {
    [SetContextState, SetShader(TextureShader),
     SetPixelTexture(texture.surface, 0), SetPixelSampler(texture.sampler, 0),
     SetAttribBuffer(pos, 0, pos.desc.elemSize), SetAttribBuffer(tex, 1, tex.desc.elemSize),
     SetVertexUniform(0, viewSize), SetVertexUniform(1, texture.texSize),
     SetPixelUniform(0, ColorUniform(texture.r, texture.g, texture.b, texture.a))]
    + SetGX2BlendMode(texture.blendMode)
    + [DrawEx(Quads, 4, 0, 1)]
  }

  /** The submission of the colour shader (points, lines, rectangles), with
      the position buffer bound at byte stride `stride`. */
  function ColorSubmission(pos: Buffer, stride: nat, viewSize: Vec4, color: Vec4, mode: int, prim: Primitive, n: nat): seq<Command> {
    [SetContextState, SetShader(ColorShader),
     SetAttribBuffer(pos, 0, stride),
     SetVertexUniform(0, viewSize), SetPixelUniform(0, color)]
    + SetGX2BlendMode(mode)
    + [DrawEx(prim, n, 0, 1)]
  }

  /** The lock calls of a copy: each buffer locked, written and unlocked. */
  function CopyLocks(pos: Buffer, tex: Buffer): seq<Command> {
    [LockBuffer(pos), UnlockBuffer(pos), LockBuffer(tex), UnlockBuffer(tex)]
  }

  /** The lock calls of a copy as SDL_rdraw_wiiu.c issues them: after the
      texture coordinates are written, the position buffer is unlocked again
      instead of the texture-coordinate buffer. */
  function CopyLocksAsWritten(pos: Buffer, tex: Buffer): (t: seq<Command>)
    ensures |t| == |CopyLocks(pos, tex)| && t[..3] == CopyLocks(pos, tex)[..3]
    ensures t[3] == UnlockBuffer(pos) && (pos != tex ==> t[3] != CopyLocks(pos, tex)[3])
  {
    [LockBuffer(pos), UnlockBuffer(pos), LockBuffer(tex), UnlockBuffer(pos)]
  }

  function ColorLocks(pos: Buffer): seq<Command> {
    [LockBuffer(pos), UnlockBuffer(pos)]
  }

  lemma TexturedSubmissionShape(pos: Buffer, tex: Buffer, viewSize: Vec4, texture: Texture)
    ensures Submission(TexturedSubmission(pos, tex, viewSize, texture), Quads, 4)
  {
  }

  lemma ColorSubmissionShape(pos: Buffer, stride: nat, viewSize: Vec4, color: Vec4, mode: int, prim: Primitive, n: nat)
    ensures Submission(ColorSubmission(pos, stride, viewSize, color, mode, prim, n), prim, n)
  {
  }

  /** A submission holds exactly one draw. */
  lemma SubmissionDrawsOnce(t: seq<Command>, prim: Primitive, n: nat)
    requires Submission(t, prim, n)
    ensures Count(t, IsDraw) == 1
  {
    var body := t[..|t| - 1];
    assert t == body + [t[|t| - 1]];
    forall i | 0 <= i < |body|
      ensures !IsDraw(body[i])
    {
      assert body[i] == t[i];
    }
    CountAppend(body, [t[|t| - 1]], IsDraw);
    assert [t[|t| - 1]][1..] == [];
  }

  /** A draw routine's calls (locks, then a submission) add exactly one draw
      to the log, and end with it. */
  lemma DrawRoutineDrawsOnce(log: seq<Command>, locks: seq<Command>, t: seq<Command>, prim: Primitive, n: nat)
    requires OnlyLocks(locks) && Submission(t, prim, n)
    ensures var full := log + locks + t;
            full[|full| - 1] == DrawEx(prim, n, 0, 1) &&
            Count(full, IsDraw) == Count(log, IsDraw) + 1
  {
    assert forall i :: 0 <= i < |locks| ==> !IsDraw(locks[i]);
    CountAppend(log, locks, IsDraw);
    CountAppend(log + locks, t, IsDraw);
    SubmissionDrawsOnce(t, prim, n);
  }

  /** A draw routine leaves the viewport and the scissor in force alone. */
  lemma DrawRoutineKeepsTarget(log: seq<Command>, locks: seq<Command>, t: seq<Command>, prim: Primitive, n: nat)
    requires OnlyLocks(locks) && Submission(t, prim, n)
    ensures Last(log + locks + t, IsViewport) == Last(log, IsViewport)
    ensures Last(log + locks + t, IsScissor) == Last(log, IsScissor)
  {
    var rest := locks + t;
    assert log + locks + t == log + rest;
    forall i | 0 <= i < |rest|
      ensures !IsViewport(rest[i]) && !IsScissor(rest[i])
    {
      if i >= |locks| {
        assert rest[i] == t[i - |locks|];
      }
    }
    LastAppendUnmatched(log, rest, IsViewport);
    LastAppendUnmatched(log, rest, IsScissor);
  }

  /** Locking and then unlocking a buffer that is not locked is a step that
      changes nothing. */
  lemma LockUnlockPair(held: set<Buffer>, b: Buffer, t: seq<Command>)
    requires b !in held
    ensures LockedAfter(held, [LockBuffer(b), UnlockBuffer(b)] + t) == LockedAfter(held, t)
    ensures LocksPaired(held, [LockBuffer(b), UnlockBuffer(b)] + t) <==> LocksPaired(held, t)
  {
    LocksTwo(held, LockBuffer(b), UnlockBuffer(b), t);
    assert held + {b} - {b} == held;
  }

  /** With the unlock of the texture-coordinate buffer, a copy's locks pair up
      and no buffer is left locked. */
  lemma CopyLocksPaired(pos: Buffer, tex: Buffer, t: seq<Command>)
    requires forall i :: 0 <= i < |t| ==> !t[i].LockBuffer? && !t[i].UnlockBuffer?
    ensures LocksPaired({}, CopyLocks(pos, tex) + t) && LockedAfter({}, CopyLocks(pos, tex) + t) == {}
  {
    var rest := [LockBuffer(tex), UnlockBuffer(tex)] + t;
    assert CopyLocks(pos, tex) + t == [LockBuffer(pos), UnlockBuffer(pos)] + rest;
    LockFreeTrace({}, t);
    LockUnlockPair({}, tex, t);
    LockUnlockPair({}, pos, rest);
  }

  /** As written, a copy unlocks the position buffer twice and leaves the
      texture-coordinate buffer locked when the draw is issued. */
  lemma CopyLocksAsWrittenUnpaired(pos: Buffer, tex: Buffer, t: seq<Command>)
    requires pos != tex
    requires forall i :: 0 <= i < |t| ==> !t[i].LockBuffer? && !t[i].UnlockBuffer?
    ensures !LocksPaired({}, CopyLocksAsWritten(pos, tex) + t)
    ensures LockedAfter({}, CopyLocksAsWritten(pos, tex) + t) == {tex}
  {
    var rest := [LockBuffer(tex), UnlockBuffer(pos)] + t;
    assert CopyLocksAsWritten(pos, tex) + t == [LockBuffer(pos), UnlockBuffer(pos)] + rest;
    LockUnlockPair({}, pos, rest);
    LocksTwo({}, LockBuffer(tex), UnlockBuffer(pos), t);
    assert LockStep(LockStep({}, LockBuffer(tex)), UnlockBuffer(pos)) == {tex};
    LockFreeTrace({tex}, t);
  }

  lemma ColorLocksPaired(pos: Buffer, t: seq<Command>)
    requires forall i :: 0 <= i < |t| ==> !t[i].LockBuffer? && !t[i].UnlockBuffer?
    ensures LocksPaired({}, ColorLocks(pos) + t) && LockedAfter({}, ColorLocks(pos) + t) == {}
  {
    LockFreeTrace({}, t);
    LockUnlockPair({}, pos, t);
  }

  /** A submission issues no lock or unlock. */
  lemma SubmissionLockFree(t: seq<Command>, prim: Primitive, n: nat)
    requires Submission(t, prim, n)
    ensures forall i :: 0 <= i < |t| ==> !t[i].LockBuffer? && !t[i].UnlockBuffer?
  {
  }

  /** A copy keeps a balanced log balanced: if every lock of the log so far
      is paired and nothing is locked, the same holds after RenderCopy's or
      RenderCopyEx's calls. */
  lemma CopyLogLocksBalanced(log: seq<Command>, pos: Buffer, tex: Buffer, viewSize: Vec4, texture: Texture)
    requires LocksPaired({}, log) && LockedAfter({}, log) == {}
    ensures var full := log + CopyLocks(pos, tex) + TexturedSubmission(pos, tex, viewSize, texture);
            LocksPaired({}, full) && LockedAfter({}, full) == {}
  {
    var t := TexturedSubmission(pos, tex, viewSize, texture);
    TexturedSubmissionShape(pos, tex, viewSize, texture);
    SubmissionLockFree(t, Quads, 4);
    CopyLocksPaired(pos, tex, t);
    assert log + CopyLocks(pos, tex) + t == log + (CopyLocks(pos, tex) + t);
    LocksAppend({}, log, CopyLocks(pos, tex) + t);
  }

  /** As written, a copy issued on a balanced log leaves the texture-
      coordinate buffer locked in the log. */
  lemma CopyAsWrittenLogLeavesLocked(log: seq<Command>, pos: Buffer, tex: Buffer, viewSize: Vec4, texture: Texture)
    requires pos != tex
    requires LocksPaired({}, log) && LockedAfter({}, log) == {}
    ensures var full := log + CopyLocksAsWritten(pos, tex) + TexturedSubmission(pos, tex, viewSize, texture);
            !LocksPaired({}, full) && LockedAfter({}, full) == {tex}
  {
    var t := TexturedSubmission(pos, tex, viewSize, texture);
    TexturedSubmissionShape(pos, tex, viewSize, texture);
    SubmissionLockFree(t, Quads, 4);
    CopyLocksAsWrittenUnpaired(pos, tex, t);
    assert log + CopyLocksAsWritten(pos, tex) + t == log + (CopyLocksAsWritten(pos, tex) + t);
    LocksAppend({}, log, CopyLocksAsWritten(pos, tex) + t);
  }

  /** The colour routines keep a balanced log balanced. */
  lemma ColorLogLocksBalanced(log: seq<Command>, pos: Buffer, stride: nat, viewSize: Vec4, color: Vec4,
                              mode: int, prim: Primitive, n: nat)
    requires LocksPaired({}, log) && LockedAfter({}, log) == {}
    ensures var full := log + ColorLocks(pos) + ColorSubmission(pos, stride, viewSize, color, mode, prim, n);
            LocksPaired({}, full) && LockedAfter({}, full) == {}
  {
    var t := ColorSubmission(pos, stride, viewSize, color, mode, prim, n);
    ColorSubmissionShape(pos, stride, viewSize, color, mode, prim, n);
    SubmissionLockFree(t, prim, n);
    ColorLocksPaired(pos, t);
    assert log + ColorLocks(pos) + t == log + (ColorLocks(pos) + t);
    LocksAppend({}, log, ColorLocks(pos) + t);
  }

  /** Writes the four corners of an axis-aligned quad in quad order. */
  method WriteQuadCorners(vals: array<real>, xMin: real, yMin: real, xMax: real, yMax: real)
    requires vals.Length == 8
    modifies vals
    ensures vals[..] == QuadCorners(xMin, yMin, xMax, yMax)
  {
    vals[0] := xMin; vals[1] := yMin;
    vals[2] := xMax; vals[3] := yMin;
    vals[4] := xMax; vals[5] := yMax;
    vals[6] := xMin; vals[7] := yMax;
  }

  /** Writes the texture coordinates of a copy into a locked buffer. */
  method WriteTexCoords(vals: array<real>, src: Rect)
    requires vals.Length == 8
    modifies vals
    ensures vals[..] == TexCoords(src)
  {
    vals[0] := src.x as real;           vals[1] := (src.y + src.h) as real;
    vals[2] := (src.x + src.w) as real; vals[3] := (src.y + src.h) as real;
    vals[4] := (src.x + src.w) as real; vals[5] := src.y as real;
    vals[6] := src.x as real;           vals[7] := src.y as real;
  }

  /** WIIU_SDL_RenderCopy: the destination's viewport-offset corners in quad
      order, the source rectangle flipped vertically as texture coordinates,
      and one textured quad. */
  method RenderCopy(rd: Renderer, texture: Texture, src: Rect, dst: FRect) returns (pos: Buffer, tex: Buffer)
    modifies rd`log
    ensures fresh(pos) && fresh(tex) && fresh(pos.vals) && fresh(tex.vals)
    ensures pos.desc == TransientDesc(2, 4) && tex.desc == TransientDesc(2, 4)
    ensures pos.vals[..] == ViewportQuad(rd.viewport, dst)
    ensures tex.vals[..] == TexCoords(src)
    ensures rd.log == old(rd.log) + CopyLocks(pos, tex) + TexturedSubmission(pos, tex, rd.viewSize, texture)
  {
    pos := new Buffer(TransientDesc(2, 4));
    tex := new Buffer(TransientDesc(2, 4));

    var xMin := rd.viewport.x as real + dst.x;
    var yMin := rd.viewport.y as real + dst.y;
    var xMax := rd.viewport.x as real + dst.x + dst.w;
    var yMax := rd.viewport.y as real + dst.y + dst.h;

    ghost var log0 := rd.log;
    rd.log := rd.log + [LockBuffer(pos)];
    WriteQuadCorners(pos.vals, xMin, yMin, xMax, yMax);
    rd.log := rd.log + [UnlockBuffer(pos)];

    rd.log := rd.log + [LockBuffer(tex)];
    WriteTexCoords(tex.vals, src);
    rd.log := rd.log + [UnlockBuffer(tex)];
    CopyLocksLogged(log0, pos, tex);

    SubmitTextured(rd, pos, tex, texture);
  }

  /** The four lock calls appended one by one form the copy's lock trace. */
  lemma CopyLocksLogged(log: seq<Command>, pos: Buffer, tex: Buffer)
    ensures log + [LockBuffer(pos)] + [UnlockBuffer(pos)] + [LockBuffer(tex)] + [UnlockBuffer(tex)] ==
            log + CopyLocks(pos, tex)
  {
  }

  /** The "Render" block shared by both copies. */
  method SubmitTextured(rd: Renderer, pos: Buffer, tex: Buffer, texture: Texture)
    modifies rd`log
    ensures rd.log == old(rd.log) + TexturedSubmission(pos, tex, rd.viewSize, texture)
  {
    var uMod := ColorUniform(texture.r, texture.g, texture.b, texture.a);
    rd.log := rd.log + [SetContextState, SetShader(TextureShader),
                        SetPixelTexture(texture.surface, 0), SetPixelSampler(texture.sampler, 0),
                        SetAttribBuffer(pos, 0, pos.desc.elemSize), SetAttribBuffer(tex, 1, tex.desc.elemSize),
                        SetVertexUniform(0, rd.viewSize), SetVertexUniform(1, texture.texSize),
                        SetPixelUniform(0, uMod)];
    rd.log := rd.log + SetGX2BlendMode(texture.blendMode);
    rd.log := rd.log + [DrawEx(Quads, 4, 0, 1)];
  }

  /** The rotation loop of RenderCopyEx: each (x, y) pair of the flip table
      rotated about the pivot, written pair by pair. */
  method WriteRotatedCorners(vals: array<real>, rvb: seq<real>, cx: real, cy: real, rot: Rotation)
    requires vals.Length == |rvb| == 8
    modifies vals
    ensures vals[..] == Rotated(rvb, cx, cy, rot)
  {
    var i := 0;
    while i < 8
      invariant 0 <= i <= 8 && i % 2 == 0
      invariant forall k :: 0 <= k < i ==> vals[k] == Rotated(rvb, cx, cy, rot)[k]
    {
      RotatedAt(rvb, cx, cy, rot, i);
      vals[i] := RotateX(rvb[i], rvb[i + 1], cx, cy, rot);
      vals[i + 1] := RotateY(rvb[i], rvb[i + 1], cx, cy, rot);
      i := i + 2;
    }
  }

  /** WIIU_SDL_RenderCopyEx: the flip table of the viewport-offset
      destination, each corner rotated about the viewport-offset center by
      the abstract rotation, the same texture coordinates as RenderCopy, and
      one textured quad. */
  method RenderCopyEx(rd: Renderer, texture: Texture, src: Rect, dst: FRect,
                      rot: Rotation, center: FPoint, flip: RendererFlip) returns (pos: Buffer, tex: Buffer)
    modifies rd`log
    ensures fresh(pos) && fresh(tex) && fresh(pos.vals) && fresh(tex.vals)
    ensures pos.desc == TransientDesc(2, 4) && tex.desc == TransientDesc(2, 4)
    ensures pos.vals[..] == CopyExPositions(rd.viewport, dst, center, rot, flip)
    ensures tex.vals[..] == TexCoords(src)
    ensures rd.log == old(rd.log) + CopyLocks(pos, tex) + TexturedSubmission(pos, tex, rd.viewSize, texture)
  {
    pos := new Buffer(TransientDesc(2, 4));
    tex := new Buffer(TransientDesc(2, 4));

    ghost var log0 := rd.log;
    rd.log := rd.log + [LockBuffer(pos)];
    WriteCopyExPositions(pos.vals, rd.viewport, dst, center, rot, flip);
    rd.log := rd.log + [UnlockBuffer(pos)];

    rd.log := rd.log + [LockBuffer(tex)];
    WriteTexCoords(tex.vals, src);
    rd.log := rd.log + [UnlockBuffer(tex)];
    CopyLocksLogged(log0, pos, tex);

    SubmitTextured(rd, pos, tex, texture);
  }

  /** The position block of RenderCopyEx: the flip table of the
      viewport-offset destination, rotated about the viewport-offset center. */
  method WriteCopyExPositions(vals: array<real>, viewport: Rect, dst: FRect, center: FPoint,
                              rot: Rotation, flip: RendererFlip)
    requires vals.Length == 8
    modifies vals
    ensures vals[..] == CopyExPositions(viewport, dst, center, rot, flip)
  {
    var xMin := viewport.x as real + dst.x;
    var yMin := viewport.y as real + dst.y;
    var xMax := xMin + dst.w;
    var yMax := yMin + dst.h;
    var rvb := FlipCorners(xMin, yMin, xMax, yMax, flip);
    WriteRotatedCorners(vals, rvb, xMin + center.x, yMin + center.y, rot);
  }

  /** Writes point i, offset by the viewport origin, into slots 2i and 2i + 1. */
  method WritePointPositions(vals: array<real>, viewport: Rect, points: seq<FPoint>)
    requires vals.Length == 2 * |points|
    modifies vals
    ensures vals[..] == PointSlots(viewport, points)
  {
    for i := 0 to |points|
      invariant forall k :: 0 <= k < 2 * i ==> vals[k] == PointSlots(viewport, points)[k]
    {
      vals[i * 2 + 0] := viewport.x as real + points[i].x;
      vals[i * 2 + 1] := viewport.y as real + points[i].y;
    }
  }

  /** The "Render" block of the colour-shader routines. */
  method SubmitColored(rd: Renderer, pos: Buffer, stride: nat, prim: Primitive, n: nat)
    modifies rd`log
    ensures rd.log == old(rd.log) +
              ColorSubmission(pos, stride, rd.viewSize, ColorUniform(rd.r, rd.g, rd.b, rd.a), rd.blendMode, prim, n)
  {
    var uColor := ColorUniform(rd.r, rd.g, rd.b, rd.a);
    rd.log := rd.log + [SetContextState, SetShader(ColorShader), SetAttribBuffer(pos, 0, stride),
                        SetVertexUniform(0, rd.viewSize), SetPixelUniform(0, uColor)];
    rd.log := rd.log + SetGX2BlendMode(rd.blendMode);
    rd.log := rd.log + [DrawEx(prim, n, 0, 1)];
  }

  /** WIIU_SDL_RenderDrawPoints: one viewport-offset vertex per point and a
      POINTS draw of as many vertices. An empty list still allocates and draws. */
  method RenderDrawPoints(rd: Renderer, points: seq<FPoint>) returns (pos: Buffer)
    modifies rd`log
    ensures fresh(pos) && fresh(pos.vals) && pos.desc == TransientDesc(2, |points|)
    ensures pos.vals[..] == PointSlots(rd.viewport, points)
    ensures rd.log == old(rd.log) + ColorLocks(pos) +
              ColorSubmission(pos, pos.desc.elemSize, rd.viewSize, ColorUniform(rd.r, rd.g, rd.b, rd.a), rd.blendMode, Points, |points|)
  {
    pos := new Buffer(TransientDesc(2, |points|));
    rd.log := rd.log + [LockBuffer(pos)];
    WritePointPositions(pos.vals, rd.viewport, points);
    rd.log := rd.log + [UnlockBuffer(pos)];
    SubmitColored(rd, pos, pos.desc.elemSize, Points, |points|);
  }

  /** WIIU_SDL_RenderDrawLines: the same vertices as RenderDrawPoints, drawn
      as one LINE_STRIP. */
  method RenderDrawLines(rd: Renderer, points: seq<FPoint>) returns (pos: Buffer)
    modifies rd`log
    ensures fresh(pos) && fresh(pos.vals) && pos.desc == TransientDesc(2, |points|)
    ensures pos.vals[..] == PointSlots(rd.viewport, points)
    ensures rd.log == old(rd.log) + ColorLocks(pos) +
              ColorSubmission(pos, pos.desc.elemSize, rd.viewSize, ColorUniform(rd.r, rd.g, rd.b, rd.a), rd.blendMode, LineStrip, |points|)
  {
    pos := new Buffer(TransientDesc(2, |points|));
    rd.log := rd.log + [LockBuffer(pos)];
    WritePointPositions(pos.vals, rd.viewport, points);
    rd.log := rd.log + [UnlockBuffer(pos)];
    SubmitColored(rd, pos, pos.desc.elemSize, LineStrip, |points|);
  }

  /** Writes one rectangle's viewport-offset corners into slots
      base .. base + 7 and leaves every other slot alone. */
  method WriteRectCorners(vals: array<real>, base: nat, viewport: Rect, rect: FRect)
    requires base + 8 <= vals.Length
    modifies vals
    ensures vals[base .. base + 8] == ViewportQuad(viewport, rect)
    ensures forall k :: 0 <= k < vals.Length && !(base <= k < base + 8) ==> vals[k] == old(vals[k])
  {
    var vx := viewport.x as real;
    var vy := viewport.y as real;
    vals[base + 0] := vx + rect.x;
    vals[base + 1] := vy + rect.y;
    vals[base + 2] := vx + rect.x + rect.w;
    vals[base + 3] := vy + rect.y;
    vals[base + 4] := vx + rect.x + rect.w;
    vals[base + 5] := vy + rect.y + rect.h;
    vals[base + 6] := vx + rect.x;
    vals[base + 7] := vy + rect.y + rect.h;
  }

  /** Writes rectangle i's corners into slots 8i .. 8i + 7 for every i. */
  method WriteRectPositions(vals: array<real>, viewport: Rect, rects: seq<FRect>)
    requires vals.Length == 8 * |rects|
    modifies vals
    ensures vals[..] == RectSlots(viewport, rects)
  {
    for i := 0 to |rects|
      invariant vals[..8 * i] == RectSlots(viewport, rects)[..8 * i]
    {
      ghost var before := vals[..];
      WriteRectCorners(vals, 8 * i, viewport, rects[i]);
      RectSlotsAt(viewport, rects, i);
      assert vals[..8 * i] == before[..8 * i];
      assert vals[..8 * i + 8] == vals[..8 * i] + vals[8 * i .. 8 * i + 8];
      assert RectSlots(viewport, rects)[..8 * i + 8]
          == RectSlots(viewport, rects)[..8 * i] + RectSlots(viewport, rects)[8 * i .. 8 * i + 8];
    }
    assert vals[..] == vals[..8 * |rects|];
  }

  /** WIIU_SDL_RenderFillRects: 8 floats per rectangle, rectangle i's four
      viewport-offset corners in slots 8i .. 8i + 7, and a QUADS draw of
      4 * count vertices. The positions are bound at the stride of one
      vertex (two floats), not at the rectangle buffer's element size. */
  method RenderFillRects(rd: Renderer, rects: seq<FRect>) returns (pos: Buffer)
    modifies rd`log
    ensures fresh(pos) && fresh(pos.vals) && pos.desc == TransientDesc(8, |rects|)
    ensures pos.vals[..] == RectSlots(rd.viewport, rects)
    ensures rd.log == old(rd.log) + ColorLocks(pos) +
              ColorSubmission(pos, VERTEX_STRIDE, rd.viewSize, ColorUniform(rd.r, rd.g, rd.b, rd.a), rd.blendMode, Quads, 4 * |rects|)
  {
    pos := new Buffer(TransientDesc(8, |rects|));
    rd.log := rd.log + [LockBuffer(pos)];
    WriteRectPositions(pos.vals, rd.viewport, rects);
    rd.log := rd.log + [UnlockBuffer(pos)];
    SubmitColored(rd, pos, VERTEX_STRIDE, Quads, 4 * |rects|);
  }

  /** Points and lines bind their positions at the buffer's element size,
      two floats: vertex i is fetched as point i offset by the viewport. */
  lemma PointFetch(viewport: Rect, points: seq<FPoint>, i: nat)
    requires i < |points|
    ensures AttribFetch(PointSlots(viewport, points), TransientDesc(2, |points|).elemSize, i) ==
            Some((viewport.x as real + points[i].x, viewport.y as real + points[i].y))
  {
    PointSlotsAt(viewport, points, i);
  }

  /** Bound at the stride of one vertex, vertex k of a rectangle fill is
      corner k % 4 of rectangle k / 4, for every vertex the QUADS draw of
      4 * count vertices reads. */
  lemma RectFetch(viewport: Rect, rects: seq<FRect>, k: nat)
    requires k < 4 * |rects|
    ensures var q := ViewportQuad(viewport, rects[k / 4]);
            AttribFetch(RectSlots(viewport, rects), VERTEX_STRIDE, k) ==
            Some((q[2 * (k % 4)], q[2 * (k % 4) + 1]))
  {
    var i, j := k / 4, k % 4;
    assert 2 * k == 8 * i + 2 * j;
    RectSlotsAt(viewport, rects, i);
    assert RectSlots(viewport, rects)[8 * i .. 8 * i + 8][2 * j] == RectSlots(viewport, rects)[2 * k];
    assert RectSlots(viewport, rects)[8 * i .. 8 * i + 8][2 * j + 1] == RectSlots(viewport, rects)[2 * k + 1];
  }

  /** As written, the rectangle buffer is bound at its element size of eight
      floats: vertex k is fetched from float 8k. The first `count` vertices
      read each rectangle's first corner, and every later vertex of the
      4 * count drawn lies past the end of the buffer. */
  lemma RectFetchAsWritten(viewport: Rect, rects: seq<FRect>, k: nat)
    requires k < 4 * |rects|
    ensures var stride := TransientDesc(8, |rects|).elemSize;
            (k < |rects| ==> AttribFetch(RectSlots(viewport, rects), stride, k) ==
                             Some((ViewportQuad(viewport, rects[k])[0], ViewportQuad(viewport, rects[k])[1]))) &&
            (k >= |rects| ==> AttribFetch(RectSlots(viewport, rects), stride, k) == None)
  {
    if k < |rects| {
      RectSlotsAt(viewport, rects, k);
      assert RectSlots(viewport, rects)[8 * k .. 8 * k + 8][0] == RectSlots(viewport, rects)[8 * k];
      assert RectSlots(viewport, rects)[8 * k .. 8 * k + 8][1] == RectSlots(viewport, rects)[8 * k + 1];
    }
  }

  /** WIIU_SDL_RenderClear: clear the bound colour buffer to the draw colour
      divided by 255. */
  method RenderClear(rd: Renderer)
    modifies rd`log
    ensures rd.log == old(rd.log) + [ClearColor(rd.cbuf, ColorUniform(rd.r, rd.g, rd.b, rd.a))]
  {
    rd.log := rd.log + [ClearColor(rd.cbuf, ColorUniform(rd.r, rd.g, rd.b, rd.a))];
  }
}
