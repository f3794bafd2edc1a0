/**
 * The marker overlay (marker_overlay.py): the widget keeps the current map
 * centre, zoom and size, and `update_markers` rebuilds its list of on-screen
 * markers from the sensors, their fixes and their power states. Painting is
 * not modelled; the marker list is what it paints.
 */
module MarkerOverlay {
  import opened Wrappers
  import opened Telemetry
  import opened Geodesy
  import opened Numerics
  import opened Listing

  datatype Colour = Rgb(red: int, green: int, blue: int)

  const GRAY := Rgb(150, 150, 150)
  const GREEN := Rgb(0, 200, 0)
  const RED := Rgb(200, 0, 0)

  /** One entry of `self.markers`: `(screen_x, screen_y, color, label)`; the label is `caption`. */
  datatype Marker = Marker(x: int, y: int, colour: Colour, caption: string)

  /** The map parameters `_gps_to_screen` reads: centre (lng, lat), zoom and size in pixels. */
  datatype MapParams = MapParams(centerLng: real, centerLat: real, zoom: int, width: int, height: int)

  /** Python's ZeroDivisionError, raised when the metres per pixel come out as zero. */
  datatype ZeroDivisionError = ZeroDivisionError

  /** The tri-state colour: gray for an unknown power state, green when on, red when off. */
  function MarkerColour(power: Option<bool>): (c: Colour)
    ensures c == GRAY <==> power.None?
    ensures c == GREEN <==> power == Some(true)
    ensures c == RED <==> power == Some(false)
  {
    match power
    case None => GRAY
    case Some(on) => if on then GREEN else RED
  }

  /** Pixel position of an east/north offset: east to the right, north up (smaller y). */
  function ScreenOf(p: MapParams, mpp: real, e: real, n: real): (int, int)
    requires mpp != 0.0
  {
    (Trunc(p.width as real / 2.0 + e / mpp), Trunc(p.height as real / 2.0 - n / mpp))
  }

  /** `_gps_to_screen(lng, lat)`; `None` where the division by the metres per pixel raises. */
  function GpsToScreen(m: MathLib, p: MapParams, lng: real, lat: real): Option<(int, int)> {
    var mpp := MetersPerPixel(m, p.centerLat, p.zoom);
    if mpp == 0.0 then None
    else
      var enu := GeodeticToEnu(m, lat, lng, 0.0, p.centerLat, p.centerLng, 0.0);
      Some(ScreenOf(p, mpp, enu.0, enu.1))
  }

  /** Both bounds inclusive: a marker on the right or bottom edge is kept. */
  predicate OnScreen(p: MapParams, xy: (int, int)) {
    0 <= xy.0 <= p.width && 0 <= xy.1 <= p.height
  }

  /** The marker one sensor contributes, if any. */
  function MarkerFor(m: MathLib, p: MapParams, gps: GpsData, power: PowerStatus, e: Entry): Option<Marker> {
    match GpsGet(gps, e.0)
    case None => None
    case Some(fix) =>
      match GpsToScreen(m, p, fix.lng, fix.lat)
      case None => None
      case Some(xy) =>
        if OnScreen(p, xy) then Some(Marker(xy.0, xy.1, MarkerColour(PowerGet(power, e.0)), e.1)) else None
  }

  function Rule(m: MathLib, p: MapParams, gps: GpsData, power: PowerStatus): Entry -> Option<Marker> {
    e => MarkerFor(m, p, gps, power, e)
  }

  predicate HasFix(gps: GpsData, sensors: seq<Entry>) {
    exists k :: 0 <= k < |sensors| && GpsGet(gps, sensors[k].0).Some?
  }

  /**
   * What `update_markers` leaves in `self.markers`: the markers of the
   * sensors, in order; or the error, raised at the first sensor with a fix,
   * when the metres per pixel are zero.
   */
  function Overlay(m: MathLib, p: MapParams, sensors: seq<Entry>, gps: GpsData, power: PowerStatus)
    : Result<seq<Marker>, ZeroDivisionError>
  {
    if MetersPerPixel(m, p.centerLat, p.zoom) == 0.0 && HasFix(gps, sensors) then Failure(ZeroDivisionError)
    else Success(FilterMap(Rule(m, p, gps, power), sensors))
  }

  /**
   * A sensor without a fix changes nothing: neither the markers nor whether
   * the division error is raised, so only sensors with a fix can trigger it.
   */
  lemma OverlayIgnoresUnfixed(m: MathLib, p: MapParams, sensors: seq<Entry>, gps: GpsData, power: PowerStatus, e: Entry)
    requires GpsGet(gps, e.0).None?
    ensures Overlay(m, p, sensors + [e], gps, power) == Overlay(m, p, sensors, gps, power)
  {
    var t := sensors + [e];
    assert HasFix(gps, t) <==> HasFix(gps, sensors) by {
      if HasFix(gps, t) {
        var k :| 0 <= k < |t| && GpsGet(gps, t[k].0).Some?;
        assert k < |sensors| && t[k] == sensors[k];
      }
      if HasFix(gps, sensors) {
        var k :| 0 <= k < |sensors| && GpsGet(gps, sensors[k].0).Some?;
        assert t[k] == sensors[k];
      }
    }
    var f := Rule(m, p, gps, power);
    FilterMapSnoc(f, sensors, e);
    NoFixNoMarker(m, p, gps, power, e);
    assert Opt(f(e)) == [];
    assert FilterMap(f, t) == FilterMap(f, sensors);
  }

  /**
   * Which sensors appear, in what order, with what colour and where: the j-th
   * marker belongs to the sensor at position `Sources(...)[j]`, those
   * positions increase, and a sensor appears exactly when it has a fix that
   * projects on screen; its marker carries the projected position, the
   * colour of its power state and its channel as the label.
   */
  lemma OverlayMarkers(m: MathLib, p: MapParams, sensors: seq<Entry>, gps: GpsData, power: PowerStatus)
    requires Overlay(m, p, sensors, gps, power).Success?
    ensures var ms, idx := Overlay(m, p, sensors, gps, power).value, Sources(Rule(m, p, gps, power), sensors);
      && |idx| == |ms| <= |sensors|
      && (forall j, k :: 0 <= j < k < |idx| ==> idx[j] < idx[k])
      && (forall j :: 0 <= j < |idx| ==>
            && idx[j] < |sensors|
            && var ip, fix := sensors[idx[j]].0, GpsGet(gps, sensors[idx[j]].0);
            && fix.Some?
            && GpsToScreen(m, p, fix.value.lng, fix.value.lat) == Some((ms[j].x, ms[j].y))
            && OnScreen(p, (ms[j].x, ms[j].y))
            && ms[j].colour == MarkerColour(PowerGet(power, ip))
            && ms[j].caption == sensors[idx[j]].1)
      && (forall k :: 0 <= k < |sensors| ==>
            (k in idx <==>
               var fix := GpsGet(gps, sensors[k].0);
               fix.Some? && var xy := GpsToScreen(m, p, fix.value.lng, fix.value.lat); xy.Some? && OnScreen(p, xy.value)))
  {
    var f := Rule(m, p, gps, power);
    FilterMapSources(f, sensors);
    forall k | 0 <= k < |sensors| ensures f(sensors[k]) == MarkerFor(m, p, gps, power, sensors[k]) {
    }
  }

  /** A sensor without a fix contributes no marker, whatever its power state. */
  lemma NoFixNoMarker(m: MathLib, p: MapParams, gps: GpsData, power: PowerStatus, e: Entry)
    requires GpsGet(gps, e.0).None?
    ensures Rule(m, p, gps, power)(e).None?
  {
  }

  /**
   * A fix at the map centre lands in the middle of the map: at
   * `(int(width / 2), int(height / 2))`, which is `(width // 2, height // 2)`
   * for a map of non-negative size.
   */
  lemma CentreLandsMidScreen(m: MathLib, p: MapParams)
    requires MetersPerPixel(m, p.centerLat, p.zoom) != 0.0
    ensures GpsToScreen(m, p, p.centerLng, p.centerLat)
      == Some((Trunc(p.width as real / 2.0), Trunc(p.height as real / 2.0)))
    ensures p.width >= 0 && p.height >= 0 ==>
      GpsToScreen(m, p, p.centerLng, p.centerLat) == Some((p.width / 2, p.height / 2))
  {
    ReferenceHasZeroOffset(m, p.centerLat, p.centerLng, 0.0);
    if p.width >= 0 && p.height >= 0 {
      TruncHalf(p.width);
      TruncHalf(p.height);
    }
  }

  /** With a positive scale, a point further east is never further left, and a point further north never lower. */
  lemma ScreenOrientation(p: MapParams, mpp: real, e1: real, n1: real, e2: real, n2: real)
    requires mpp > 0.0 && e1 <= e2 && n1 <= n2
    ensures ScreenOf(p, mpp, e1, n1).0 <= ScreenOf(p, mpp, e2, n2).0
    ensures ScreenOf(p, mpp, e2, n2).1 <= ScreenOf(p, mpp, e1, n1).1
  {
    assert e1 / mpp <= e2 / mpp;
    assert n1 / mpp <= n2 / mpp;
    TruncMonotone(p.width as real / 2.0 + e1 / mpp, p.width as real / 2.0 + e2 / mpp);
    TruncMonotone(p.height as real / 2.0 - n2 / mpp, p.height as real / 2.0 - n1 / mpp);
  }

  /** One more sensor appends its own contribution to the markers of those before it. */
  lemma OverlayStep(m: MathLib, p: MapParams, gps: GpsData, power: PowerStatus, sensors: seq<Entry>, i: nat)
    requires i < |sensors|
    ensures FilterMap(Rule(m, p, gps, power), sensors[..i + 1])
      == FilterMap(Rule(m, p, gps, power), sensors[..i]) + Opt(MarkerFor(m, p, gps, power, sensors[i]))
  {
    FilterMapSnoc(Rule(m, p, gps, power), sensors[..i], sensors[i]);
    assert sensors[..i + 1] == sensors[..i] + [sensors[i]];
  }

  /** A sensor with a fix under a zero scale makes the whole update fail. */
  lemma OverlayFailsAt(m: MathLib, p: MapParams, sensors: seq<Entry>, gps: GpsData, power: PowerStatus, i: nat)
    requires i < |sensors| && GpsGet(gps, sensors[i].0).Some?
    requires GpsToScreen(m, p, GpsGet(gps, sensors[i].0).value.lng, GpsGet(gps, sensors[i].0).value.lat).None?
    ensures Overlay(m, p, sensors, gps, power).Failure?
  {
    assert HasFix(gps, sensors);
  }

  /** Without a fix under a zero scale, the update yields the rule's markers. */
  lemma OverlaySucceeds(m: MathLib, p: MapParams, sensors: seq<Entry>, gps: GpsData, power: PowerStatus)
    requires MetersPerPixel(m, p.centerLat, p.zoom) == 0.0 ==>
      forall k :: 0 <= k < |sensors| ==> GpsGet(gps, sensors[k].0).None?
    ensures Overlay(m, p, sensors, gps, power) == Success(FilterMap(Rule(m, p, gps, power), sensors))
  {
  }

  class MarkerOverlay {
    var markers: seq<Marker>
    var mapCenter: (real, real)
    var mapZoom: int
    var mapSize: (int, int)

    function Params(): MapParams
      reads this
    {
      MapParams(mapCenter.0, mapCenter.1, mapZoom, mapSize.0, mapSize.1)
    }

    constructor ()
      ensures markers == [] && mapCenter == (127.1054328, 37.3595963) && mapZoom == 10 && mapSize == (800, 600)
    {
      markers := [];
      mapCenter := (127.1054328, 37.3595963);
      mapZoom := 10;
      mapSize := (800, 600);
    }

    /** Stores the centre, zoom and size; the markers are left as they are. */
    method SetMapParams(centerLng: real, centerLat: real, zoom: int, width: int, height: int)
      modifies this
      ensures mapCenter == (centerLng, centerLat) && mapZoom == zoom && mapSize == (width, height)
      ensures markers == old(markers)
    {
      mapCenter := (centerLng, centerLat);
      mapZoom := zoom;
      mapSize := (width, height);
    }

    /**
     * `update_markers`: the previous markers are discarded and the new list
     * depends only on the arguments and the map parameters. When the
     * projection divides by zero the error is returned, with the list
     * already emptied, as Python leaves it when the exception propagates.
     */
    method UpdateMarkers(m: MathLib, sensors: seq<Entry>, gps: GpsData, power: PowerStatus)
      returns (r: Result<(), ZeroDivisionError>)
      modifies this
      ensures Params() == old(Params())
      ensures r.Success? <==> Overlay(m, Params(), sensors, gps, power).Success?
      ensures r.Failure? <==> MetersPerPixel(m, Params().centerLat, Params().zoom) == 0.0 && HasFix(gps, sensors)
      ensures r.Success? ==> markers == Overlay(m, Params(), sensors, gps, power).value
      ensures r.Failure? ==> markers == []
    {
      markers := [];
      var params := Params();
      ghost var f := Rule(m, params, gps, power);
      ghost var mppZero := MetersPerPixel(m, params.centerLat, params.zoom) == 0.0;
      var i := 0;
      while i < |sensors|
        invariant 0 <= i <= |sensors|
        invariant Params() == params
        invariant markers == FilterMap(f, sensors[..i])
        invariant mppZero ==> forall k :: 0 <= k < i ==> GpsGet(gps, sensors[k].0).None?
      {
        var ip, channel := sensors[i].0, sensors[i].1;
        var pos := GpsGet(gps, ip);
        var pw := PowerGet(power, ip);
        OverlayStep(m, params, gps, power, sensors, i);
        if pos.Some? {
          var screen := GpsToScreen(m, params, pos.value.lng, pos.value.lat);
          if screen.None? {
            OverlayFailsAt(m, params, sensors, gps, power, i);
            markers := [];
            return Failure(ZeroDivisionError);
          }
          var x, y := screen.value.0, screen.value.1;
          if 0 <= x <= mapSize.0 && 0 <= y <= mapSize.1 {
            markers := markers + [Marker(x, y, MarkerColour(pw), channel)];
          }
        }
        i := i + 1;
      }
      assert sensors[..i] == sensors;
      OverlaySucceeds(m, params, sensors, gps, power);
      r := Success(());
    }
  }
}
