/**
 * The arithmetic shared by the two pan/zoom controllers (map_view_controller.py
 * and the controller in staticMap.py): the wheel step on the zoom level,
 * clamped to [1, 20], and the drag step on the map centre. The controllers
 * differ only in their constants, which each keeps in its own module.
 */
module Viewport {
  import opened Numerics

  /** Which button a mouse event reports: the left one, or any other. */
  datatype MouseButton = LeftButton | OtherButton

  const MIN_ZOOM: int := 1
  const MAX_ZOOM: int := 20

  /** The zoom after one wheel event: one level in for a positive delta, one level out otherwise. */
  function WheelZoom(zoom: int, delta: int): int {
    if delta > 0 then (if zoom + 1 < MAX_ZOOM then zoom + 1 else MAX_ZOOM)
    else (if zoom - 1 > MIN_ZOOM then zoom - 1 else MIN_ZOOM)
  }

  /**
   * From a level in range, one wheel event moves the zoom by exactly one
   * level in the wheel's direction, unless it is already at that end of the
   * range, where it stays. Wheeling in never goes past 20 and wheeling out
   * never below 1, from any level.
   */
  lemma WheelZoomStep(zoom: int, delta: int)
    ensures delta > 0 ==> WheelZoom(zoom, delta) <= MAX_ZOOM
    ensures delta <= 0 ==> WheelZoom(zoom, delta) >= MIN_ZOOM
    ensures MIN_ZOOM <= zoom <= MAX_ZOOM ==>
      && MIN_ZOOM <= WheelZoom(zoom, delta) <= MAX_ZOOM
      && (delta > 0 ==> WheelZoom(zoom, delta) == zoom + 1 || zoom == WheelZoom(zoom, delta) == MAX_ZOOM)
      && (delta <= 0 ==> WheelZoom(zoom, delta) == zoom - 1 || zoom == WheelZoom(zoom, delta) == MIN_ZOOM)
  {
  }

  /** The zoom after a series of wheel events, in order. */
  function ZoomAfter(zoom: int, deltas: seq<int>): int
    decreases |deltas|
  {
    if deltas == [] then zoom else ZoomAfter(WheelZoom(zoom, deltas[0]), deltas[1..])
  }

  /** A zoom in [1, 20] stays in [1, 20] after any number of wheel events. */
  lemma {:induction false} ZoomStaysInRange(zoom: int, deltas: seq<int>)
    requires MIN_ZOOM <= zoom <= MAX_ZOOM
    ensures MIN_ZOOM <= ZoomAfter(zoom, deltas) <= MAX_ZOOM
    decreases |deltas|
  {
    if deltas != [] {
      WheelZoomStep(zoom, deltas[0]);
      ZoomStaysInRange(WheelZoom(zoom, deltas[0]), deltas[1..]);
    }
  }

  /** Strictly inside the range, a step in and a step out undo each other, in either order. */
  lemma ZoomStepsUndo(zoom: int, up: int, down: int)
    requires up > 0 && down <= 0
    ensures MIN_ZOOM <= zoom < MAX_ZOOM ==> WheelZoom(WheelZoom(zoom, up), down) == zoom
    ensures MIN_ZOOM < zoom <= MAX_ZOOM ==> WheelZoom(WheelZoom(zoom, down), up) == zoom
  {
  }

  /** Degrees of centre movement per pixel dragged: `factor / 2 ** (zoom - 1)`. */
  function PanScale(factor: real, zoom: int): real {
    factor / Pow2(zoom - 1)
  }

  /** One level further in halves the movement per pixel. */
  lemma PanScaleHalves(factor: real, zoom: int)
    ensures PanScale(factor, zoom + 1) * 2.0 == PanScale(factor, zoom)
  {
    Pow2Succ(zoom - 1);
    var p := Pow2(zoom - 1);
    assert factor / (2.0 * p) * 2.0 == factor / p;
  }

  /**
   * The centre after the mouse moved from `from` to `to`: the longitude
   * decreases by dx * scale and the latitude increases by dy * scale.
   */
  function Pan(center: (real, real), from: (int, int), to: (int, int), scale: real): (real, real) {
    (center.0 - ((to.0 - from.0) as real) * scale, center.1 + ((to.1 - from.1) as real) * scale)
  }

  /** Two successive moves pan as far as one move over the whole distance. */
  lemma PanTelescopes(center: (real, real), p0: (int, int), p1: (int, int), p2: (int, int), scale: real)
    ensures Pan(Pan(center, p0, p1, scale), p1, p2, scale) == Pan(center, p0, p2, scale)
  {
    var a0, b0 := (p1.0 - p0.0) as real, (p2.0 - p1.0) as real;
    var a1, b1 := (p1.1 - p0.1) as real, (p2.1 - p1.1) as real;
    assert (p2.0 - p0.0) as real == a0 + b0 && (p2.1 - p0.1) as real == a1 + b1;
    var q := Pan(center, p0, p1, scale);
    var r := Pan(q, p1, p2, scale);
    assert q.0 == center.0 - a0 * scale && q.1 == center.1 + a1 * scale;
    assert r.0 == q.0 - b0 * scale && r.1 == q.1 + b1 * scale;
    assert r.0 == center.0 - (a0 + b0) * scale;
    assert r.1 == center.1 + (a1 + b1) * scale;
    var t := Pan(center, p0, p2, scale);
    assert t.0 == r.0 && t.1 == r.1;
  }

  /** Moving back to where the drag started restores the centre exactly. */
  lemma PanReturns(center: (real, real), p0: (int, int), p1: (int, int), scale: real)
    ensures Pan(Pan(center, p0, p1, scale), p1, p0, scale) == center
  {
    PanTelescopes(center, p0, p1, p0, scale);
  }

  /** With a positive scale, dragging right moves the centre west and dragging down moves it north. */
  lemma PanDirection(center: (real, real), from: (int, int), to: (int, int), scale: real)
    requires scale > 0.0
    ensures to.0 > from.0 ==> Pan(center, from, to, scale).0 < center.0
    ensures to.0 == from.0 ==> Pan(center, from, to, scale).0 == center.0
    ensures to.1 > from.1 ==> Pan(center, from, to, scale).1 > center.1
    ensures to.1 == from.1 ==> Pan(center, from, to, scale).1 == center.1
  {
    if to.0 > from.0 {
      assert (to.0 - from.0) as real * scale > 0.0;
    }
    if to.1 > from.1 {
      assert (to.1 - from.1) as real * scale > 0.0;
    }
  }
}
