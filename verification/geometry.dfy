/** Where a sticker lands in a pixel space. The same record is placed on
    screen (through `applyStickerStyle`, with per-length rounding to whole
    pixels) and in the exported image (through `drawStickerToCtx`, exactly);
    only the pixels-per-millimetre factor differs. */
module Geometry {
  import opened Units
  import opened State

  /** An axis-aligned box, before rotation and mirroring. */
  datatype Box = Box(left: real, top: real, width: real, height: real)

  function Centre(b: Box): Point {
    Point(b.left + b.width / 2.0, b.top + b.height / 2.0)
  }

  /** The exact box of `s` in a space of `ppm` pixels per millimetre. */
  function Placement(s: Sticker, ppm: real): Box {
    Box(s.xMm * ppm, s.yMm * ppm, s.wMm * s.scale * ppm, s.hMm * s.scale * ppm)
  }

  /** The box `applyStickerStyle` gives the sticker's element: position and
      nominal size each rounded to whole screen pixels, then the size
      multiplied by the scale. */
  function ScreenBox(s: Sticker, zoom: real): Box {
    Box(ScreenPx(s.xMm, zoom) as real, ScreenPx(s.yMm, zoom) as real,
        ScreenPx(s.wMm, zoom) as real * s.scale, ScreenPx(s.hMm, zoom) as real * s.scale)
  }

  /** What is seen while editing is what is exported: the on-screen box is
      the exact placement at `MmToPx * zoom` pixels per millimetre, up to half
      a pixel in position and half a pixel per unit of scale in size. */
  lemma ScreenBoxApproximatesPlacement(s: Sticker, zoom: real)
    requires s.scale >= 0.0
    ensures Abs(ScreenBox(s, zoom).left - Placement(s, MmToPx * zoom).left) <= 0.5
    ensures Abs(ScreenBox(s, zoom).top - Placement(s, MmToPx * zoom).top) <= 0.5
    ensures Abs(ScreenBox(s, zoom).width - Placement(s, MmToPx * zoom).width) <= s.scale / 2.0
    ensures Abs(ScreenBox(s, zoom).height - Placement(s, MmToPx * zoom).height) <= s.scale / 2.0
  {
    ScreenPositionClose(s, zoom);
    ScreenSizeClose(s, zoom);
  }

  lemma ScreenPositionClose(s: Sticker, zoom: real)
    ensures Abs(ScreenBox(s, zoom).left - Placement(s, MmToPx * zoom).left) <= 0.5
    ensures Abs(ScreenBox(s, zoom).top - Placement(s, MmToPx * zoom).top) <= 0.5
  {
    PositionError(s.xMm, zoom);
    PositionError(s.yMm, zoom);
  }

  lemma ScreenSizeClose(s: Sticker, zoom: real)
    requires s.scale >= 0.0
    ensures Abs(ScreenBox(s, zoom).width - Placement(s, MmToPx * zoom).width) <= s.scale / 2.0
    ensures Abs(ScreenBox(s, zoom).height - Placement(s, MmToPx * zoom).height) <= s.scale / 2.0
  {
    SideClose(s.wMm, s.scale, zoom, ScreenBox(s, zoom).width, Placement(s, MmToPx * zoom).width);
    SideClose(s.hMm, s.scale, zoom, ScreenBox(s, zoom).height, Placement(s, MmToPx * zoom).height);
  }

  /** One on-screen side is within half a pixel per unit of scale of the exact side. */
  lemma SideClose(mm: real, scale: real, zoom: real, screen: real, exact: real)
    requires scale >= 0.0
    requires screen == ScreenPx(mm, zoom) as real * scale
    requires exact == mm * scale * (MmToPx * zoom)
    ensures Abs(screen - exact) <= scale / 2.0
  {
    var px := ScreenPx(mm, zoom) as real;
    var e := mm * MmToPx * zoom;
    ScaledErrorBound(px, e, scale);
    assert exact == e * scale;
    assert screen - exact == px * scale - e * scale;
  }

  /** One coordinate of the on-screen box is within half a pixel of the exact one. */
  lemma PositionError(mm: real, zoom: real)
    ensures Abs(ScreenPx(mm, zoom) as real - mm * (MmToPx * zoom)) <= 0.5
  {
    assert mm * (MmToPx * zoom) == mm * MmToPx * zoom;
  }

  /** A rounding error of at most one half, multiplied by `k >= 0`, is at most `k / 2`. */
  lemma ScaledErrorBound(rounded: real, exact: real, k: real)
    requires Abs(rounded - exact) <= 0.5 && k >= 0.0
    ensures Abs(rounded * k - exact * k) <= k / 2.0
  {
    HalfScaled(rounded - exact, k);
    assert rounded * k - exact * k == (rounded - exact) * k;
  }

  lemma HalfScaled(d: real, k: real)
    requires Abs(d) <= 0.5 && k >= 0.0
    ensures Abs(d * k) <= k / 2.0
  {
    MulMonotone(d, 0.5, k);
    MulMonotone(-0.5, d, k);
  }

  /** The rotate gesture's pivot, in client pixels: the element's left edge
      plus half its width, as `startRotate` computes it. */
  function RotatePivot(s: Sticker, zoom: real, rect: Rect): Point {
    Point(rect.left + ScreenPx(s.xMm, zoom) as real + ScreenPx(s.wMm, zoom) as real * s.scale / 2.0,
          rect.top + ScreenPx(s.yMm, zoom) as real + ScreenPx(s.hMm, zoom) as real * s.scale / 2.0)
  }

  /** The rotate gesture turns the sticker about the centre of its on-screen
      box, which is where the element's own rotation is centred. */
  lemma RotatePivotIsBoxCentre(s: Sticker, zoom: real, rect: Rect)
    ensures RotatePivot(s, zoom, rect)
         == Point(rect.left + Centre(ScreenBox(s, zoom)).x, rect.top + Centre(ScreenBox(s, zoom)).y)
  {
  }

  /** One sticker as drawn into the export image: the translation to its
      centre, the box size, the rotation in degrees, the mirror factors and
      the opacity. */
  datatype Draw = Draw(id: int, src: string, centre: Point, width: real, height: real,
                       angleDeg: int, mirrorX: int, mirrorY: int, alpha: real)

  /** `drawStickerToCtx`'s geometry at `ppm` export pixels per millimetre. */
  function ExportDraw(s: Sticker, ppm: real): (d: Draw)
    ensures d.centre == Centre(Placement(s, ppm))
    ensures d.width == Placement(s, ppm).width && d.height == Placement(s, ppm).height
    ensures d.id == s.id && d.src == s.src && d.angleDeg == s.rotate && d.alpha == s.opacity
    ensures d.mirrorX == -1 <==> s.flipH
    ensures d.mirrorY == -1 <==> s.flipV
    ensures d.mirrorX in {-1, 1} && d.mirrorY in {-1, 1}
  {
    Draw(s.id, s.src,
         Point((s.xMm + s.wMm * s.scale / 2.0) * ppm, (s.yMm + s.hMm * s.scale / 2.0) * ppm),
         s.wMm * s.scale * ppm, s.hMm * s.scale * ppm,
         s.rotate,
         if s.flipH then -1 else 1, if s.flipV then -1 else 1,
         s.opacity)
  }

  /** Placements in two pixel spaces differ by the ratio of their densities:
      the exported box is the on-screen exact box scaled by export density
      over screen density. */
  lemma PlacementScales(s: Sticker, ppm: real, k: real)
    ensures Placement(s, ppm * k)
         == Box(Placement(s, ppm).left * k, Placement(s, ppm).top * k,
                Placement(s, ppm).width * k, Placement(s, ppm).height * k)
  {
    assert s.xMm * (ppm * k) == s.xMm * ppm * k;
    assert s.yMm * (ppm * k) == s.yMm * ppm * k;
    assert s.wMm * s.scale * (ppm * k) == s.wMm * s.scale * ppm * k;
    assert s.hMm * s.scale * (ppm * k) == s.hMm * s.scale * ppm * k;
  }
}
