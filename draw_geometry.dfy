/** The vertex layouts the draw routines of SDL_rdraw_wiiu.c write into their
    attribute buffers, as functions of the inputs. Coordinates are reals;
    SDL_cos / SDL_sin of the rotation angle are an abstract (cos, sin) pair. */
module DrawGeometry {
  import opened Gx2
  import opened Sdl

  /** The fixed corner order of every quad: (xMin, yMin), (xMax, yMin),
      (xMax, yMax), (xMin, yMax), flattened to x0, y0, x1, y1, ... */
  function QuadCorners(xMin: real, yMin: real, xMax: real, yMax: real): (q: seq<real>)
    ensures |q| == 8
  {
    [xMin, yMin, xMax, yMin, xMax, yMax, xMin, yMax]
  }

  /** The device-space corners of rectangle `rect`, offset by the viewport
      origin: RenderCopy's positions and each rectangle of RenderFillRects. */
  function ViewportQuad(viewport: Rect, rect: FRect): (q: seq<real>)
    ensures |q| == 8
  {
    var x := viewport.x as real + rect.x;
    var y := viewport.y as real + rect.y;
    QuadCorners(x, y, x + rect.w, y + rect.h)
  }

  /** The texture coordinates of a copy: the source rectangle's corners in
      quad order, the first two on its bottom row. */
  function TexCoords(src: Rect): (q: seq<real>)
    ensures |q| == 8
  {
    var x0, y0 := src.x as real, src.y as real;
    var x1, y1 := (src.x + src.w) as real, (src.y + src.h) as real;
    [x0, y1, x1, y1, x1, y0, x0, y0]
  }

  /** The unrotated corners of RenderCopyEx (its `rvb` table): each corner
      takes xMax for xMin when the horizontal flag is set and yMax for yMin
      when the vertical flag is set. */
  function FlipCorners(xMin: real, yMin: real, xMax: real, yMax: real, flip: RendererFlip): (q: seq<real>)
    ensures |q| == 8
  {
    var h := flip & FLIP_HORIZONTAL != 0;
    var v := flip & FLIP_VERTICAL != 0;
    [if h then xMax else xMin, if v then yMax else yMin,
     if h then xMin else xMax, if v then yMax else yMin,
     if h then xMin else xMax, if v then yMin else yMax,
     if h then xMax else xMin, if v then yMin else yMax]
  }

  /** Texture coordinates are the source rectangle flipped vertically: the
      quad order with yMin and yMax exchanged, which is the flip table with
      only the vertical flag. */
  lemma TexCoordsFlipVertically(src: Rect)
    ensures var x0, y0 := src.x as real, src.y as real;
            var x1, y1 := (src.x + src.w) as real, (src.y + src.h) as real;
            TexCoords(src) == QuadCorners(x0, y1, x1, y0) &&
            TexCoords(src) == FlipCorners(x0, y0, x1, y1, FLIP_VERTICAL)
  {
  }

  /** Each flip flag acts on one axis alone: the horizontal flag exchanges
      xMin and xMax in every corner, the vertical flag yMin and yMax, and
      without flags the corners are RenderCopy's. */
  lemma FlipCornersByAxis(xMin: real, yMin: real, xMax: real, yMax: real, flip: RendererFlip)
    ensures var h := flip & FLIP_HORIZONTAL != 0;
            var v := flip & FLIP_VERTICAL != 0;
            FlipCorners(xMin, yMin, xMax, yMax, flip) ==
              QuadCorners(if h then xMax else xMin, if v then yMax else yMin,
                          if h then xMin else xMax, if v then yMin else yMax)
    ensures FlipCorners(xMin, yMin, xMax, yMax, FLIP_NONE) == QuadCorners(xMin, yMin, xMax, yMax)
    ensures FlipCorners(xMin, yMin, xMax, yMax, FLIP_HORIZONTAL) == QuadCorners(xMax, yMin, xMin, yMax)
    ensures FlipCorners(xMin, yMin, xMax, yMax, FLIP_VERTICAL) == QuadCorners(xMin, yMax, xMax, yMin)
  {
  }

  /** An abstract rotation: `cos` and `sin` stand for SDL_cos(r) and SDL_sin(r). */
  datatype Rotation = Rotation(cos: real, sin: real)

  const NO_ROTATION := Rotation(1.0, 0.0)

  /** Standard 2D rotation of (x, y) about the pivot (cx, cy). */
  function RotateX(x: real, y: real, cx: real, cy: real, rot: Rotation): real {
    cx + (rot.cos * (x - cx) - rot.sin * (y - cy))
  }

  function RotateY(x: real, y: real, cx: real, cy: real, rot: Rotation): real {
    cy + (rot.cos * (y - cy) + rot.sin * (x - cx))
  }

  /** Every (x, y) pair of `v` rotated about the pivot. */
  function Rotated(v: seq<real>, cx: real, cy: real, rot: Rotation): (r: seq<real>)
    requires |v| % 2 == 0
    ensures |r| == |v|
  {
    seq(|v|, k requires 0 <= k < |v| =>
      if k % 2 == 0 then RotateX(v[k], v[k + 1], cx, cy, rot)
      else RotateY(v[k - 1], v[k], cx, cy, rot))
  }

  /** The pair at an even index i is rotated as one point. */
  lemma RotatedAt(v: seq<real>, cx: real, cy: real, rot: Rotation, i: nat)
    requires |v| % 2 == 0 && i % 2 == 0 && i + 1 < |v|
    ensures Rotated(v, cx, cy, rot)[i] == RotateX(v[i], v[i + 1], cx, cy, rot)
    ensures Rotated(v, cx, cy, rot)[i + 1] == RotateY(v[i], v[i + 1], cx, cy, rot)
  {
    assert (i + 1) % 2 == 1 && i + 1 - 1 == i;
  }

  /** With cos = 1 and sin = 0 nothing moves. */
  lemma RotatedByNothing(v: seq<real>, cx: real, cy: real)
    requires |v| % 2 == 0
    ensures Rotated(v, cx, cy, NO_ROTATION) == v
  {
    RotatedByNothingAt(v, cx, cy);
  }

  /** RotatedByNothing slot by slot. */
  lemma RotatedByNothingAt(v: seq<real>, cx: real, cy: real)
    requires |v| % 2 == 0
    ensures forall k :: 0 <= k < |v| ==> Rotated(v, cx, cy, NO_ROTATION)[k] == v[k]
  {
    forall k | 0 <= k < |v|
      ensures Rotated(v, cx, cy, NO_ROTATION)[k] == v[k]
    {
      if k % 2 == 0 {
        assert RotateX(v[k], v[k + 1], cx, cy, NO_ROTATION) == cx + (1.0 * (v[k] - cx) - 0.0 * (v[k + 1] - cy));
      } else {
        assert RotateY(v[k - 1], v[k], cx, cy, NO_ROTATION) == cy + (1.0 * (v[k] - cy) + 0.0 * (v[k - 1] - cx));
      }
    }
  }

  /** The squared distance of (x, y) from (cx, cy). */
  function SquaredDistance(x: real, y: real, cx: real, cy: real): real {
    (x - cx) * (x - cx) + (y - cy) * (y - cy)
  }

  /** For a proper rotation (cos^2 + sin^2 = 1) every corner keeps its
      distance from the pivot. */
  lemma RotationKeepsDistance(x: real, y: real, cx: real, cy: real, rot: Rotation)
    requires rot.cos * rot.cos + rot.sin * rot.sin == 1.0
    ensures SquaredDistance(RotateX(x, y, cx, cy, rot), RotateY(x, y, cx, cy, rot), cx, cy) ==
            SquaredDistance(x, y, cx, cy)
  {
    var c, s, u, w := rot.cos, rot.sin, x - cx, y - cy;
    assert (c * u - s * w) * (c * u - s * w) + (c * w + s * u) * (c * w + s * u)
        == (c * c + s * s) * (u * u + w * w);
  }

  /** The positions RenderCopyEx writes: the flip table for the viewport-
      offset destination, rotated about the viewport-offset center. */
  function CopyExPositions(viewport: Rect, dst: FRect, center: FPoint, rot: Rotation, flip: RendererFlip): (q: seq<real>)
    ensures |q| == 8
  {
    var xMin := viewport.x as real + dst.x;
    var yMin := viewport.y as real + dst.y;
    Rotated(FlipCorners(xMin, yMin, xMin + dst.w, yMin + dst.h, flip), xMin + center.x, yMin + center.y, rot)
  }

  /** Unrotated, a rotated copy puts each corner at its flipped position. */
  lemma CopyExUnrotated(viewport: Rect, dst: FRect, center: FPoint, flip: RendererFlip)
    ensures var xMin := viewport.x as real + dst.x;
            var yMin := viewport.y as real + dst.y;
            CopyExPositions(viewport, dst, center, NO_ROTATION, flip) ==
              FlipCorners(xMin, yMin, xMin + dst.w, yMin + dst.h, flip)
  {
    var xMin := viewport.x as real + dst.x;
    var yMin := viewport.y as real + dst.y;
    RotatedByNothingAt(FlipCorners(xMin, yMin, xMin + dst.w, yMin + dst.h, flip), xMin + center.x, yMin + center.y);
  }

  /** Under a proper rotation, each corner that RenderCopyEx writes lies as
      far from the pivot (xMin + center.x, yMin + center.y) as the
      flip-table corner it comes from: the pivot is that point. */
  lemma CopyExKeepsDistance(viewport: Rect, dst: FRect, center: FPoint, rot: Rotation, flip: RendererFlip, i: nat)
    requires rot.cos * rot.cos + rot.sin * rot.sin == 1.0
    requires i % 2 == 0 && i < 8
    ensures var xMin := viewport.x as real + dst.x;
            var yMin := viewport.y as real + dst.y;
            var cx, cy := xMin + center.x, yMin + center.y;
            var q := CopyExPositions(viewport, dst, center, rot, flip);
            var v := FlipCorners(xMin, yMin, xMin + dst.w, yMin + dst.h, flip);
            SquaredDistance(q[i], q[i + 1], cx, cy) == SquaredDistance(v[i], v[i + 1], cx, cy)
  {
    var xMin := viewport.x as real + dst.x;
    var yMin := viewport.y as real + dst.y;
    var cx, cy := xMin + center.x, yMin + center.y;
    var v := FlipCorners(xMin, yMin, xMin + dst.w, yMin + dst.h, flip);
    CopyExIsRotatedFlip(viewport, dst, center, rot, flip);
    RotatedKeepsDistance(CopyExPositions(viewport, dst, center, rot, flip), v, cx, cy, rot, i);
  }

  /** CopyExPositions unfolded: the flip table rotated about the pivot. */
  lemma CopyExIsRotatedFlip(viewport: Rect, dst: FRect, center: FPoint, rot: Rotation, flip: RendererFlip)
    ensures var xMin := viewport.x as real + dst.x;
            var yMin := viewport.y as real + dst.y;
            CopyExPositions(viewport, dst, center, rot, flip) ==
              Rotated(FlipCorners(xMin, yMin, xMin + dst.w, yMin + dst.h, flip), xMin + center.x, yMin + center.y, rot)
  {
  }

  /** Every pair of a properly rotated list keeps its distance from the pivot. */
  lemma RotatedKeepsDistance(q: seq<real>, v: seq<real>, cx: real, cy: real, rot: Rotation, i: nat)
    requires rot.cos * rot.cos + rot.sin * rot.sin == 1.0
    requires |v| % 2 == 0 && i % 2 == 0 && i + 1 < |v|
    requires q == Rotated(v, cx, cy, rot)
    ensures SquaredDistance(q[i], q[i + 1], cx, cy) == SquaredDistance(v[i], v[i + 1], cx, cy)
  {
    RotatedAt(v, cx, cy, rot, i);
    RotationKeepsDistance(v[i], v[i + 1], cx, cy, rot);
  }

  /** Unrotated and unflipped, a rotated copy is exactly the axis-aligned copy. */
  lemma CopyExPlainIsCopy(viewport: Rect, dst: FRect, center: FPoint)
    ensures CopyExPositions(viewport, dst, center, NO_ROTATION, FLIP_NONE) == ViewportQuad(viewport, dst)
  {
    var xMin := viewport.x as real + dst.x;
    var yMin := viewport.y as real + dst.y;
    CopyExUnrotated(viewport, dst, center, FLIP_NONE);
    FlipCornersByAxis(xMin, yMin, xMin + dst.w, yMin + dst.h, FLIP_NONE);
  }

  /** The position buffer of RenderDrawPoints / RenderDrawLines: slot pair
      (2i, 2i + 1) holds point i offset by the viewport origin. */
  function PointSlots(viewport: Rect, points: seq<FPoint>): (q: seq<real>)
    ensures |q| == 2 * |points|
  {
    seq(2 * |points|, k requires 0 <= k < 2 * |points| =>
      if k % 2 == 0 then viewport.x as real + points[k / 2].x
      else viewport.y as real + points[k / 2].y)
  }

  lemma PointSlotsAt(viewport: Rect, points: seq<FPoint>, i: nat)
    requires i < |points|
    ensures PointSlots(viewport, points)[2 * i] == viewport.x as real + points[i].x
    ensures PointSlots(viewport, points)[2 * i + 1] == viewport.y as real + points[i].y
  {
    assert (2 * i) / 2 == i && (2 * i + 1) / 2 == i;
  }

  /** The position buffer of RenderFillRects: slots 8i .. 8i + 7 hold the four
      viewport-offset corners of rectangle i. */
  function RectSlots(viewport: Rect, rects: seq<FRect>): (q: seq<real>)
    ensures |q| == 8 * |rects|
  {
    seq(8 * |rects|, k requires 0 <= k < 8 * |rects| => ViewportQuad(viewport, rects[k / 8])[k % 8])
  }

  lemma RectSlotsAt(viewport: Rect, rects: seq<FRect>, i: nat)
    requires i < |rects|
    ensures RectSlots(viewport, rects)[8 * i .. 8 * i + 8] == ViewportQuad(viewport, rects[i])
  {
    forall j | 0 <= j < 8
      ensures RectSlots(viewport, rects)[8 * i + j] == ViewportQuad(viewport, rects[i])[j]
    {
      assert (8 * i + j) / 8 == i && (8 * i + j) % 8 == j;
    }
  }

  /** The colour uniform (r, g, b, a) / 255: each component lies in [0, 1]
      and gives back its byte when scaled by 255. */
  function ColorUniform(r: byte, g: byte, b: byte, a: byte): (u: Vec4)
    ensures 0.0 <= u.x <= 1.0 && 0.0 <= u.y <= 1.0 && 0.0 <= u.z <= 1.0 && 0.0 <= u.w <= 1.0
    ensures u.x * 255.0 == r as real && u.y * 255.0 == g as real
    ensures u.z * 255.0 == b as real && u.w * 255.0 == a as real
  {
    Vec4(r as real / 255.0, g as real / 255.0, b as real / 255.0, a as real / 255.0)
  }
}
