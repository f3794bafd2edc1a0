/**
 * The pan/zoom controller of map_view_controller.py: the mouse wheel steps
 * the zoom of a `StaticMap` within [1, 20] and starts a 300 ms single-shot
 * timer that clears `is_zooming`; a left-button drag pans the centre by
 * 0.5 / 2 ** (zoom - 1) degrees per pixel; the update callback runs after a
 * wheel event and after a left release. The timer is modelled by its state
 * and by the event of its expiry.
 */
module MapViewController {
  import opened Wrappers
  import opened Viewport
  import StaticMap

  /** The zoom debounce interval of this controller, in milliseconds. */
  const ZOOM_DEBOUNCE_MS: nat := 300
  /** The pan factor of this controller: degrees per pixel at zoom 1. */
  const PAN_FACTOR: real := 0.5

  /** The pan/zoom controller of map_view_controller.py, driving a `StaticMap`. */
  class MapViewController {
    const staticMap: StaticMap.StaticMap
    var lastPos: Option<(int, int)>
    var isDragging: bool
    var isZooming: bool
    /** Whether `_update_callback` is set to something callable. */
    var hasCallback: bool
    /** How many times the update callback has run. */
    var updates: nat
    /** The single-shot zoom timer: whether it is running, and its interval. */
    var timerActive: bool
    var timerInterval: nat

    /** A drag is in progress exactly when a last position is recorded. */
    ghost predicate Valid()
      reads this, staticMap
    {
      staticMap.Valid() && (isDragging <==> lastPos.Some?)
    }

    /** A new controller has no update callback until `set_update_callback`. */
    constructor (map_: StaticMap.StaticMap)
      requires map_.Valid()
      ensures Valid()
      ensures staticMap == map_ && lastPos.None? && !isDragging && !isZooming
      ensures !hasCallback && updates == 0 && !timerActive
    {
      staticMap := map_;
      lastPos, isDragging, isZooming := None, false, false;
      hasCallback, updates := false, 0;
      timerActive, timerInterval := false, 0;
    }

    method SetUpdateCallback(present: bool)
      modifies this
      ensures hasCallback == present
      ensures lastPos == old(lastPos) && isDragging == old(isDragging) && isZooming == old(isZooming)
      ensures updates == old(updates) && timerActive == old(timerActive) && timerInterval == old(timerInterval)
    {
      hasCallback := present;
    }

    /** `_trigger_update`: the callback runs if one is set. */
    method TriggerUpdate()
      modifies this
      ensures updates == old(updates) + (if hasCallback then 1 else 0)
      ensures lastPos == old(lastPos) && isDragging == old(isDragging) && isZooming == old(isZooming)
      ensures hasCallback == old(hasCallback) && timerActive == old(timerActive) && timerInterval == old(timerInterval)
    {
      if hasCallback {
        updates := updates + 1;
      }
    }

    /** Zooms one level in or out, clamped to [1, 20], starts the debounce timer and triggers the update. */
    method HandleWheelEvent(delta: int)
      requires Valid()
      modifies this, staticMap
      ensures Valid()
      ensures staticMap.params == old(staticMap.params)["level" := StaticMap.Num(WheelZoom(old(staticMap.params["level"].n), delta))]
      ensures staticMap.markers == old(staticMap.markers)
      ensures staticMap.clientId == old(staticMap.clientId) && staticMap.clientKey == old(staticMap.clientKey)
      ensures isZooming && timerActive && timerInterval == ZOOM_DEBOUNCE_MS
      ensures updates == old(updates) + (if hasCallback then 1 else 0)
      ensures lastPos == old(lastPos) && isDragging == old(isDragging) && hasCallback == old(hasCallback)
    {
      var current := staticMap.GetZoom();
      staticMap.SetZoom(WheelZoom(current, delta));
      isZooming := true;
      timerActive, timerInterval := true, ZOOM_DEBOUNCE_MS;
      TriggerUpdate();
    }

    /** `_on_zoom_finished`. */
    method OnZoomFinished()
      modifies this
      ensures !isZooming
      ensures lastPos == old(lastPos) && isDragging == old(isDragging) && hasCallback == old(hasCallback)
      ensures updates == old(updates) && timerActive == old(timerActive) && timerInterval == old(timerInterval)
    {
      isZooming := false;
    }

    /** The single-shot timer expires: it stops and calls `_on_zoom_finished`. */
    method ZoomTimerFires()
      requires Valid() && timerActive
      modifies this
      ensures Valid()
      ensures !isZooming && !timerActive
      ensures lastPos == old(lastPos) && isDragging == old(isDragging) && hasCallback == old(hasCallback)
      ensures updates == old(updates) && timerInterval == old(timerInterval)
    {
      timerActive := false;
      OnZoomFinished();
    }

    /** A left press starts a drag at the press position; any other button changes nothing. */
    method HandleMousePress(button: MouseButton, x: int, y: int)
      requires Valid()
      modifies this
      ensures Valid()
      ensures button == LeftButton ==> lastPos == Some((x, y)) && isDragging
      ensures button != LeftButton ==> lastPos == old(lastPos) && isDragging == old(isDragging)
      ensures isZooming == old(isZooming) && hasCallback == old(hasCallback) && updates == old(updates)
      ensures timerActive == old(timerActive) && timerInterval == old(timerInterval)
    {
      if button == LeftButton {
        lastPos := Some((x, y));
        isDragging := true;
      }
    }

    /**
     * While a last position is recorded, moves the centre by the mouse
     * movement scaled by `0.5 / 2 ** (zoom - 1)` and records the new
     * position; the zoom is not touched and no update is triggered.
     */
    method HandleMouseMove(x: int, y: int)
      requires Valid()
      modifies this, staticMap
      ensures Valid()
      ensures old(lastPos).None? ==> staticMap.params == old(staticMap.params) && lastPos == old(lastPos)
      ensures old(lastPos).Some? ==>
        var c, z := old(staticMap.params["center"]), old(staticMap.params["level"].n);
        var moved := Pan((c.lng, c.lat), old(lastPos).value, (x, y), PanScale(PAN_FACTOR, z));
        staticMap.params == old(staticMap.params)["center" := StaticMap.Point(moved.0, moved.1)] && lastPos == Some((x, y))
      ensures staticMap.markers == old(staticMap.markers)
      ensures staticMap.clientId == old(staticMap.clientId) && staticMap.clientKey == old(staticMap.clientKey)
      ensures isDragging == old(isDragging) && isZooming == old(isZooming) && hasCallback == old(hasCallback)
      ensures updates == old(updates) && timerActive == old(timerActive) && timerInterval == old(timerInterval)
    {
      if lastPos.Some? {
        var lon, lat := staticMap.GetCenter();
        var zoom := staticMap.GetZoom();
        var moved := Pan((lon, lat), lastPos.value, (x, y), PanScale(PAN_FACTOR, zoom));
        staticMap.SetCenter(moved.0, moved.1);
        lastPos := Some((x, y));
      }
    }

    /** A left release ends the drag and triggers the update; any other button changes nothing. */
    method HandleMouseRelease(button: MouseButton)
      requires Valid()
      modifies this
      ensures Valid()
      ensures button == LeftButton ==>
        lastPos.None? && !isDragging && updates == old(updates) + (if hasCallback then 1 else 0)
      ensures button != LeftButton ==> lastPos == old(lastPos) && isDragging == old(isDragging) && updates == old(updates)
      ensures isZooming == old(isZooming) && hasCallback == old(hasCallback)
      ensures timerActive == old(timerActive) && timerInterval == old(timerInterval)
    {
      if button == LeftButton {
        isDragging := false;
        lastPos := None;
        TriggerUpdate();
      }
    }
  }
}
