# Wii U GX2 renderer backend, modelled in Dafny

This project models the core of SDL's Wii U 2D renderer backend: the code
that turns SDL drawing calls into GPU work on the GX2 / GX2R graphics
interface. It covers the two files `src/render/wiiu/SDL_rdraw_wiiu.c` (the draw
routines and the blend-mode translation) and `src/render/wiiu/SDL_render_wiiu.c`
(renderer creation, render-target binding, pixel read-back and destruction).

The GPU is an append-only log of the calls the renderer issues (`Gx2.Command`).
Register contents, shader binaries and the GPU's own execution are not
modelled. Two pieces of device meaning are given explicitly, because the
renderer's guarantees are stated against them:

- `Gx2.Last`: the state a later draw sees is the last command of its kind in
  the log.
- `Gx2.BlendOutput`: how the colour-blend unit combines a source with a
  destination pixel under the colour control and blend control in force.

The lock discipline of GX2R buffers (lock, write, unlock) is tracked by
`Gx2.LockedAfter` and `Gx2.LocksPaired`.

Modules:

- `Gx2` (gx2.dfy): surfaces, colour buffers, GX2R buffers, the command log,
  the `Last` and `Count` queries, lock tracking and blend semantics.
- `Sdl` (sdl.dfy): SDL rectangles, points, flip flags, blend modes, pixel
  formats, textures and the window.
- `DrawGeometry` (draw_geometry.dfy): the vertex layouts the draw routines
  write, as pure functions, and the lemmas about them.
  - Quad corner order, the viewport offset and the vertically flipped
    texture coordinates.
  - The flip table of a rotated copy and the abstract rotation.
  - The point and rectangle slot layouts, and the colour uniform.
- `BlendWiiU` (blend_wiiu.dfy): `WIIU_SDL_SetGX2BlendMode` as a pure function
  from the mode to its GX2 calls, plus the blend equation each mode programs.
- `RenderWiiU` (render_wiiu.dfy): the renderer object, which merges
  `SDL_Renderer` and `WIIU_RenderData` into one class with the log as a field.
  - Creation and `SetRenderTarget`.
  - `DestroyRenderer`'s drain of the free-list, a linked list of `FreeNode`s.
  - The pixel read-back `ReadPixels`.
- `DrawWiiU` (draw_wiiu.dfy): the draw routines as methods. Each one
  except `RenderClear`, which only logs one clear of the bound colour buffer:
  - allocates fresh `Buffer`s;
  - fills their float arrays in place between a lock and an unlock;
  - appends one submission to the log.

Behaviour of the code that the model keeps as it is:

- A zero-count draw still allocates a buffer and issues a draw of 0 vertices.
- An unknown blend mode issues no command and reports no error.
- Binding the window as the target has no error path for a missing window.

Four lines of `SDL_render_wiiu.c` do not compile as written. The model reads
each one as its evident intent:

- Line 41 lacks a semicolon.
- Line 133 assigns a structure to a pointer; it is read as the texture's
  surface.
- Line 136 uses an undeclared `window`; it is read as `renderer->window`.
- Line 193 uses an undeclared `surface`; it is read as the bound colour
  buffer's surface.

## Model

| member | source | states |
|---|---|---|
| DrawGeometry.TexCoordsFlipVertically | src/render/wiiu/SDL_rdraw_wiiu.c:93-96 | The texture coordinates are the source rectangle in quad corner order with its top and bottom rows exchanged. This is the flip table with only the vertical flag. |
| DrawGeometry.FlipCornersByAxis | src/render/wiiu/SDL_rdraw_wiiu.c:140-145 | Each flip flag acts on one axis alone: HORIZONTAL exchanges xMin and xMax in every corner, VERTICAL exchanges yMin and yMax. With no flag, the corners are the axis-aligned copy's order. |
| DrawGeometry.RotatedByNothing | src/render/wiiu/SDL_rdraw_wiiu.c:165-168 | With cos = 1 and sin = 0, rotating any even-length coordinate list about any pivot leaves every coordinate where it was. |
| DrawGeometry.RotatedByNothingAt | src/render/wiiu/SDL_rdraw_wiiu.c:165-168 | The same fact slot by slot: with cos = 1 and sin = 0, every slot of the rotated list equals the slot it came from. |
| DrawGeometry.RotatedAt | src/render/wiiu/SDL_rdraw_wiiu.c:165-168 | The coordinates at an even index and the next one are rotated together as one (x, y) point about the pivot. |
| DrawGeometry.RotationKeepsDistance | src/render/wiiu/SDL_rdraw_wiiu.c:166-167 | For a proper rotation (cos² + sin² = 1), each rotated corner keeps its squared distance from the pivot. |
| DrawGeometry.RotatedKeepsDistance | src/render/wiiu/SDL_rdraw_wiiu.c:165-168 | The same for every (x, y) pair of a whole rotated list. |
| DrawGeometry.CopyExUnrotated | src/render/wiiu/SDL_rdraw_wiiu.c:133-145 | Unrotated, a rotated copy puts each corner at its flipped position, whatever the pivot. |
| DrawGeometry.CopyExKeepsDistance | src/render/wiiu/SDL_rdraw_wiiu.c:133-168 | Under a proper rotation (cos² + sin² = 1), each corner RenderCopyEx writes is as far from the viewport-offset pivot (xMin + center.x, yMin + center.y) as the flip-table corner it comes from. |
| DrawGeometry.CopyExPlainIsCopy | src/render/wiiu/SDL_rdraw_wiiu.c:133-145 | Unrotated and unflipped, a rotated copy's positions equal the axis-aligned copy's positions. |
| DrawGeometry.PointSlotsAt | src/render/wiiu/SDL_rdraw_wiiu.c:225-228 | Slots 2i and 2i + 1 of the point layout hold point i offset by the viewport origin. |
| DrawGeometry.RectSlotsAt | src/render/wiiu/SDL_rdraw_wiiu.c:313-322 | Slots 8i .. 8i + 7 of the rectangle layout are rectangle i's four viewport-offset corners in quad order. |
| DrawGeometry.ColorUniform | src/render/wiiu/SDL_rdraw_wiiu.c:209-212 | Each component of (r, g, b, a) / 255 lies in [0, 1] and gives back its byte when multiplied by 255. |
| BlendWiiU.SetGX2BlendMode | src/render/wiiu/SDL_rdraw_wiiu.c:364-399 | The calls contain only colour-control and blend-control commands. NONE issues one call, BLEND, ADD and MOD issue two, and any other mode issues none. The colour-control call comes first; its enable mask is 0x00 for NONE and 0xFF for the other known modes, with logic op COPY, multi-write off and colour writes on. Every blend control is for render target 0. |
| BlendWiiU.BlendStateAfter | src/render/wiiu/SDL_rdraw_wiiu.c:364-399 | After a known mode's calls, and any later calls that leave blend state alone, the colour control in force is the mode's. For every mode except NONE, the blend control in force is also the mode's. |
| BlendWiiU.BlendControlEquation | src/render/wiiu/SDL_rdraw_wiiu.c:370-377 | BLEND's factors compute rgb = src·srcA + dst·(1 − srcA) and a = srcA + dstA·(1 − srcA). |
| BlendWiiU.AddControlEquation | src/render/wiiu/SDL_rdraw_wiiu.c:380-387 | ADD's factors compute rgb = src·srcA + dst and a = dstA. |
| BlendWiiU.ModControlEquation | src/render/wiiu/SDL_rdraw_wiiu.c:390-397 | MOD's factors compute rgb = src·dst and a = dstA. |
| BlendWiiU.BlendModeEquations | src/render/wiiu/SDL_rdraw_wiiu.c:364-399 | What a later draw writes over a destination pixel: NONE copies the source, and BLEND, ADD and MOD give the equations above. |
| BlendWiiU.UnknownBlendModeIsNoOp | src/render/wiiu/SDL_rdraw_wiiu.c:364-399 | An unknown mode leaves the log, and therefore the blend output, unchanged, and raises no error. |
| RenderWiiU.BoundColorBuffer | src/render/wiiu/SDL_render_wiiu.c:141-144 | The descriptor holds the target surface unchanged except that `use` is TEXTURE or COLOR_BUFFER, and viewNumSlices is 1. Every other field is zero, so nothing of a previous target survives. |
| RenderWiiU.BindSetsViewportAndScissor | src/render/wiiu/SDL_render_wiiu.c:153-154 | After a bind, and any later calls that set neither, the viewport in force is (0, 0, w, h, 0, 1) and the scissor is (0, 0, w, h). w and h are the bound surface's width and height. |
| RenderWiiU.UnsignedBoundCheck | src/render/wiiu/SDL_render_wiiu.c:187-188 | For a sum in the range of `int` and a limit below 2^31, the C comparison of the signed sum with the unsigned surface size, after the sum is converted to `uint32`, fails exactly when the sum is negative or past the limit. |
| RenderWiiU.ReadPixels | src/render/wiiu/SDL_render_wiiu.c:187-198 | An error, with nothing to copy, exactly when x < 0, y < 0, or x + w or y + h is negative or past the surface (the unsigned comparison). So an accepted rectangle has 0 ≤ x, 0 ≤ x + w ≤ width, 0 ≤ y and 0 ≤ y + h ≤ height. Otherwise the copy reads RGBA8888 from byte offset y·pitch + x·4, which is not negative, with the surface pitch, into the caller's format and pitch. |
| RenderWiiU.ReadStaysInSurface | src/render/wiiu/SDL_render_wiiu.c:193-198 | For an accepted rectangle with w, h ≥ 1 and pitch ≥ 4·width, every byte read lies inside the height·pitch bytes of the surface, and the last row ends by (y + h − 1)·pitch + (x + w)·4. |
| RenderWiiU.ListFromDistinct | src/render/wiiu/SDL_render_wiiu.c:163-167 | A free-list that ends in null holds no node twice. |
| RenderWiiU.Renderer.constructor | src/render/wiiu/SDL_render_wiiu.c:39-122 | Gives the initial state. The free-list is empty. Both persistent texture buffers hold four 2-float elements with the CPU and GPU usage flags. The sampler is clamp/linear. The log holds shader, buffer, line, point, sampler and context setup, then the bind of the window's surface. |
| RenderWiiU.Renderer.SetRenderTarget | src/render/wiiu/SDL_render_wiiu.c:124-157 | The colour buffer is rebuilt from the texture's surface, or from the window's when no texture is given. The log gains the register init, context state, colour buffer, viewport and scissor calls for it. |
| RenderWiiU.Renderer.DestroyRenderer | src/render/wiiu/SDL_render_wiiu.c:159-174 | Frees every node of the free-list exactly once, in list order, leaving the list empty. Then frees the colour shader and the texture shader. |
| DrawWiiU.TexturedSubmissionShape | src/render/wiiu/SDL_rdraw_wiiu.c:106-116 | A copy's submission sets the context state first, then only binds shader, texture, sampler, attribute buffers, uniforms and blend state. It ends with one QUADS draw of 4 vertices. |
| DrawWiiU.ColorSubmissionShape | src/render/wiiu/SDL_rdraw_wiiu.c:232-238 | The colour routines' submission sets the context state first and then only binds. It ends with one draw of the routine's primitive and count. |
| DrawWiiU.SubmissionDrawsOnce | src/render/wiiu/SDL_rdraw_wiiu.c:106-116 | A submission holds exactly one draw call. |
| DrawWiiU.DrawRoutineDrawsOnce | src/render/wiiu/SDL_rdraw_wiiu.c:106-116 | A routine's locks and submission add exactly one draw to the log, and that draw is the last call. |
| DrawWiiU.DrawRoutineKeepsTarget | src/render/wiiu/SDL_rdraw_wiiu.c:106-116 | A draw routine leaves the viewport and the scissor in force unchanged. |
| DrawWiiU.CopyLocksPaired | src/render/wiiu/SDL_rdraw_wiiu.c:84-97 | With the texture-coordinate buffer unlocked after its writes, a copy's locks pair up and no buffer is locked at the draw. |
| DrawWiiU.CopyLocksAsWritten | src/render/wiiu/SDL_rdraw_wiiu.c:83-97 | The lock calls of a copy as written: the same four calls as the corrected trace except the last, which unlocks the position buffer instead of the texture-coordinate buffer. |
| DrawWiiU.CopyLocksAsWrittenUnpaired | src/render/wiiu/SDL_rdraw_wiiu.c:92-97 | As written, the position buffer is unlocked twice. The texture-coordinate buffer is still locked when the draw is issued. |
| DrawWiiU.ColorLocksPaired | src/render/wiiu/SDL_rdraw_wiiu.c:224-229 | The colour routines' single buffer is locked and unlocked once, and nothing is locked at the draw. |
| DrawWiiU.SubmissionLockFree | src/render/wiiu/SDL_rdraw_wiiu.c:106-116 | A submission issues no lock or unlock. |
| DrawWiiU.CopyLogLocksBalanced | src/render/wiiu/SDL_rdraw_wiiu.c:84-116 | With the corrected unlock, a copy issued on a log whose locks are all paired, with nothing locked, leaves the log in that state. This is the three-part log RenderCopy and RenderCopyEx produce. |
| DrawWiiU.CopyAsWrittenLogLeavesLocked | src/render/wiiu/SDL_rdraw_wiiu.c:84-116 | As written, a copy issued on such a log leaves it unpaired, with the texture-coordinate buffer still locked. |
| DrawWiiU.ColorLogLocksBalanced | src/render/wiiu/SDL_rdraw_wiiu.c:224-238 | A points, lines or rectangles routine issued on a balanced log leaves it balanced. |
| DrawWiiU.WriteQuadCorners | src/render/wiiu/SDL_rdraw_wiiu.c:84-87 | The buffer holds the four corners (xMin, yMin), (xMax, yMin), (xMax, yMax), (xMin, yMax) in quad order. |
| DrawWiiU.WriteTexCoords | src/render/wiiu/SDL_rdraw_wiiu.c:92-96 | The buffer holds the vertically flipped source rectangle. |
| DrawWiiU.RenderCopy | src/render/wiiu/SDL_rdraw_wiiu.c:51-119 | Two fresh 4 × 2-float buffers. Positions are the destination's viewport-offset corners in quad order, and texture coordinates are the flipped source. The log gains the paired locks and the textured submission with the texture's blend mode. |
| DrawWiiU.SubmitTextured | src/render/wiiu/SDL_rdraw_wiiu.c:105-116 | Appends the textured submission: the texture's surface and sampler, position on slot 0, texture coordinates on slot 1, view-size, texture-size and colour-mod uniforms, the blend calls, and one QUADS draw. |
| DrawWiiU.WriteRotatedCorners | src/render/wiiu/SDL_rdraw_wiiu.c:164-168 | The buffer holds every (x, y) pair of the flip table rotated about the pivot. |
| DrawWiiU.WriteCopyExPositions | src/render/wiiu/SDL_rdraw_wiiu.c:132-168 | The buffer holds the flip table of the viewport-offset destination, rotated about the viewport-offset center. |
| DrawWiiU.RenderCopyEx | src/render/wiiu/SDL_rdraw_wiiu.c:122-199 | Positions are the flip table of the viewport-offset destination, rotated about the viewport-offset centre. Texture coordinates are the same as RenderCopy's. The log gains the same paired locks and textured submission. |
| DrawWiiU.WritePointPositions | src/render/wiiu/SDL_rdraw_wiiu.c:224-228 | The buffer holds every point offset by the viewport origin, point i in slots 2i and 2i + 1. |
| DrawWiiU.SubmitColored | src/render/wiiu/SDL_rdraw_wiiu.c:231-238 | Appends the colour submission: position on slot 0 at the given stride, the view-size and draw-colour uniforms, the renderer's blend calls, and one draw of the given primitive and count. |
| DrawWiiU.RenderDrawPoints | src/render/wiiu/SDL_rdraw_wiiu.c:201-241 | A fresh buffer of count 2-float elements holding the point layout. The log gains its lock pair and a POINTS draw of count vertices, even for count 0. |
| DrawWiiU.RenderDrawLines | src/render/wiiu/SDL_rdraw_wiiu.c:244-284 | The same buffer as for points, drawn as one LINE_STRIP of count vertices. |
| DrawWiiU.PointFetch | src/render/wiiu/SDL_rdraw_wiiu.c:219-238 | Bound at the buffer's element size of two floats, vertex i is fetched as point i offset by the viewport origin. |
| DrawWiiU.WriteRectCorners | src/render/wiiu/SDL_rdraw_wiiu.c:314-321 | Rectangle i's viewport-offset corners are written into its eight slots, and every other slot is left alone. |
| DrawWiiU.WriteRectPositions | src/render/wiiu/SDL_rdraw_wiiu.c:312-322 | The buffer holds the rectangle layout: rectangle i's corners in slots 8i .. 8i + 7, for every i. |
| DrawWiiU.RenderFillRects | src/render/wiiu/SDL_rdraw_wiiu.c:286-335 | A fresh buffer of count 8-float elements holding the rectangle layout. The log gains its lock pair, the positions bound at the stride of one 2-float vertex, and a QUADS draw of 4·count vertices. |
| DrawWiiU.RectFetch | src/render/wiiu/SDL_rdraw_wiiu.c:307-332 | At the stride of one vertex, every vertex k < 4·count that the draw reads is corner k mod 4 of rectangle k / 4. |
| DrawWiiU.RectFetchAsWritten | src/render/wiiu/SDL_rdraw_wiiu.c:307-332 | At the stride as written, the rectangle buffer's element size of 8 floats, vertex k < count reads rectangle k's first corner. Every vertex from count to 4·count lies past the end of the buffer. |
| DrawWiiU.RenderClear | src/render/wiiu/SDL_rdraw_wiiu.c:353-362 | One clear call of the bound colour buffer to the draw colour divided by 255. |

## Left out

- `SDL_cos`, `SDL_sin` and the conversion of the angle from degrees to radians become an abstract (cos, sin) pair (`DrawGeometry.Rotation`). Periodicity of the angle is not modelled.
- All coordinates are exact reals. Single-precision rounding is not modelled.
- GX2 and GX2R internals are only entries in the log: register writes, uniform offsets, shader binaries, shader init and free, sampler and context setup, and the memory meaning of lock and unlock.
- `SDL_ConvertPixels` is a foreign call. Read-back stops at the request it would receive.
- `WIIU_AllocRenderData` and `WIIU_FreeRenderData` are not part of this model, because their bodies are not shown. A draw's buffer is a fresh object and is not linked onto the free-list. `DestroyRenderer` drains whatever list it finds.
- The present function is commented out in the source, so the moment the GPU retires a frame is not modelled.
- Host wiring in `WIIU_SDL_CreateRenderer` is left out: the function-pointer table, the driver info, and the calloc failure paths.
- RenderWiiU.Renderer.DestroyRenderer: the final frees of the backend data and of the renderer itself (`SDL_render_wiiu.c:172-173`) are host memory management and are not modelled.
- The source passes `GX2Texture` and `GX2Sampler` objects. The log records the texture's surface and a sampler value instead.
- The draw routines, RenderClear and SetRenderTarget return 0 in the source; the methods return nothing but their buffers. The status that ReadPixels returns from `SDL_SetError` or `SDL_ConvertPixels` is not modelled beyond the `Result` error.
- `u_viewSize` is never written by the two modelled files. The constructor starts it at calloc's zero vector, and the draws read whatever `viewSize` holds. `WIIU_UpdateViewport`, which may write it, is not part of this model.
- DrawWiiU.RenderDrawPoints: a point list is a sequence, so a negative `count` cannot be passed. The same holds for RenderDrawLines and RenderFillRects.
- RenderWiiU.ReadPixels: integers are unbounded. A 32-bit overflow of x + w or y + h is not modelled. The conversion of the sum to `uint32` in the comparison is modelled as "negative or past the limit", which `RenderWiiU.UnsignedBoundCheck` proves equal to it for sums in range and surface sizes below 2^31.
- RenderWiiU.ReadStaysInSurface: it needs pitch ≥ 4·width and a non-empty rectangle. The source does not check either.
- DrawWiiU.RenderCopy and DrawWiiU.RenderCopyEx unlock the texture-coordinate buffer after writing it, which is the corrected behaviour (see Findings). The code as written unlocks the position buffer there, and `DrawWiiU.CopyLocksAsWritten` models that.
- DrawWiiU.RenderFillRects binds the positions at the stride of one 2-float vertex, which is the corrected behaviour (see Findings). The code as written passes the rectangle buffer's element size of 8 floats, and `DrawWiiU.RectFetchAsWritten` gives its effect.

## Findings

| source | as written | input that shows it | evidently intended | confidence | as-written member | corrected member |
|---|---|---|---|---|---|---|
| src/render/wiiu/SDL_rdraw_wiiu.c:97 | After writing the texture coordinates, RenderCopy unlocks `a_position`, which is already unlocked, instead of `a_texCoord`. | Any call of RenderCopy with two distinct fresh buffers: lock(pos), unlock(pos), lock(tex), unlock(pos). `tex` is still locked at the draw. | Unlock `a_texCoord`, so every lock pairs with one unlock and nothing is locked at the draw. | not executed | DrawWiiU.CopyLocksAsWrittenUnpaired | DrawWiiU.CopyLocksPaired |
| src/render/wiiu/SDL_rdraw_wiiu.c:177 | RenderCopyEx repeats the same unlock of `a_position` after writing the texture coordinates. | Any call of RenderCopyEx: the same trace, with `tex` still locked at the draw. | Unlock `a_texCoord`. | not executed | DrawWiiU.CopyLocksAsWrittenUnpaired | DrawWiiU.RenderCopyEx |
| src/render/wiiu/SDL_rdraw_wiiu.c:328 | RenderFillRects binds its positions with stride `a_position->elemSize`, which is 8 floats (32 bytes, line 307). Its draw then reads 4·count vertices of 2 floats each (line 332). | One rectangle: vertex 0 reads its first corner, and vertices 1, 2 and 3 are read from bytes 32, 64 and 96 of a 32-byte buffer. Two rectangles: vertex 1 reads the second rectangle's first corner. | Bind at the stride of one vertex, 2 floats, so vertex k is corner k mod 4 of rectangle k / 4. | not executed | DrawWiiU.RectFetchAsWritten | DrawWiiU.RectFetch |
