/** Conversions between millimetres, screen pixels and export pixels, and the
    clamps the editor applies to the zoom factor and to the canvas size.
    All lengths are stored in millimetres; pixels only appear on the way out. */
module Units {
  import opened Optional

  /** Screen pixels per millimetre at the 96 dpi reference density. */
  const MmToPx: real := 3.7795275591
  /** Millimetres per inch, used to turn an export resolution into pixels per millimetre. */
  const MmPerInch: real := 25.4

  /** The zoom factor is kept within [MinZoom, MaxZoom]. */
  const MinZoom: real := 0.2
  const MaxZoom: real := 4.0

  /** Smallest canvas side, in millimetres, that the size form accepts. */
  const MinCanvasMm: int := 100
  /** Canvas size at start-up, and the fallback for a size field that is empty, not a number or 0. */
  const DefaultCanvasW: int := 340
  const DefaultCanvasH: int := 230

  function Abs(x: real): real {
    if x < 0.0 then -x else x
  }

  function Max(a: real, b: real): real {
    if a < b then b else a
  }

  function Min(a: real, b: real): real {
    if a < b then a else b
  }

  lemma MulNonnegative(a: real, b: real)
    requires a >= 0.0 && b >= 0.0
    ensures a * b >= 0.0
  {
  }

  /** Multiplying by a non-negative factor keeps an inequality. */
  lemma MulMonotone(a: real, c: real, k: real)
    requires a <= c && k >= 0.0
    ensures a * k <= c * k
  {
    MulNonnegative(c - a, k);
    assert (c - a) * k == c * k - a * k;
  }

  /** JavaScript's `Math.round`: the nearest integer, with halves rounded
      toward +infinity (so -2.5 rounds to -2). */
  function Round(x: real): (r: int)
    ensures r as real - 0.5 <= x < r as real + 0.5
  {
    (x + 0.5).Floor
  }

  /** No integer is closer to `x` than `Round(x)`. */
  lemma RoundIsNearest(x: real, n: int)
    ensures Abs(x - Round(x) as real) <= Abs(x - n as real)
  {
    var r := Round(x);
    if n < r {
      assert n as real <= r as real - 1.0;
    } else if n > r {
      assert n as real >= r as real + 1.0;
    }
  }

  lemma RoundMonotone(x: real, y: real)
    requires x <= y
    ensures Round(x) <= Round(y)
  {
    assert x + 0.5 <= y + 0.5;
  }

  /** `mmToPx`: a length in millimetres as a whole number of screen pixels at
      the given zoom; it is the exact length rounded to the nearest pixel. */
  function ScreenPx(mm: real, zoom: real): (px: int)
    ensures px as real - 0.5 <= mm * MmToPx * zoom < px as real + 0.5
    ensures Abs(px as real - mm * MmToPx * zoom) <= 0.5
  {
    Round(mm * MmToPx * zoom)
  }

  /** Screen pixels never decrease when the length or the zoom grows. */
  lemma ScreenPxMonotone(m1: real, m2: real, z1: real, z2: real)
    requires 0.0 <= m1 <= m2
    requires 0.0 <= z1 <= z2
    ensures ScreenPx(m1, z1) <= ScreenPx(m2, z2)
  {
    var a1, a2 := m1 * MmToPx, m2 * MmToPx;
    MulMonotone(m1, m2, MmToPx);
    MulNonnegative(m1, MmToPx);
    MulMonotone(a1, a2, z1);
    MulMonotone(z1, z2, a2);
    assert z1 * a2 == a2 * z1 && z2 * a2 == a2 * z2;
    RoundMonotone(a1 * z1, a2 * z2);
  }

  /** Export pixels per millimetre at a resolution of `dpi` dots per inch. */
  function ExportPxPerMm(dpi: int): real {
    dpi as real / MmPerInch
  }

  /** One side of the exported image: a canvas side of `mm` millimetres at
      `dpi`, rounded to the nearest whole pixel. */
  function ExportPx(mm: int, dpi: int): (px: int)
    ensures Abs(px as real - mm as real * dpi as real / MmPerInch) <= 0.5
  {
    assert mm as real * ExportPxPerMm(dpi) == mm as real * dpi as real / MmPerInch;
    Round(mm as real * ExportPxPerMm(dpi))
  }

  /** A 100 mm side exported at 300 dpi is 1181 pixels. */
  lemma ExportPxAt300Dpi()
    ensures ExportPx(100, 300) == 1181
  {
    var px := ExportPx(100, 300);
    assert 100.0 * 300.0 / MmPerInch == 30000.0 / 25.4;
    assert 1180.5 < 30000.0 / 25.4 < 1181.5;
  }

  /** `setZoom`'s clamp: `max(0.2, min(4, z))`. */
  function ClampZoom(z: real): (r: real)
    ensures MinZoom <= r <= MaxZoom
    ensures MinZoom <= z <= MaxZoom ==> r == z
    ensures z < MinZoom ==> r == MinZoom
    ensures z > MaxZoom ==> r == MaxZoom
  {
    Max(MinZoom, Min(MaxZoom, z))
  }

  /** Clamping twice is clamping once, and the clamp keeps the order of zoom requests. */
  lemma ClampZoomIdempotentMonotone(z: real, w: real)
    ensures ClampZoom(ClampZoom(z)) == ClampZoom(z)
    ensures z <= w ==> ClampZoom(z) <= ClampZoom(w)
  {
  }

  /** JavaScript's `parsed || fallback` on a `parseInt` result: `NaN` (here
      `None`) and 0 are falsy and give way to the fallback. */
  function OrFallback(parsed: Option<int>, fallback: int): int {
    match parsed
    case Some(v) => if v != 0 then v else fallback
    case None => fallback
  }

  /** One side of the canvas after the size form is applied:
      `max(100, parseInt(field) || fallback)`. */
  function CanvasSide(parsed: Option<int>, fallback: int): (mm: int)
    ensures mm >= MinCanvasMm
    ensures parsed.Some? && parsed.value >= MinCanvasMm ==> mm == parsed.value
    ensures parsed.Some? && parsed.value != 0 && parsed.value < MinCanvasMm ==> mm == MinCanvasMm
    ensures (parsed.None? || parsed.value == 0) && fallback >= MinCanvasMm ==> mm == fallback
  {
    var v := OrFallback(parsed, fallback);
    if v < MinCanvasMm then MinCanvasMm else v
  }
}
