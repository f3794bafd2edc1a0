/**
 * The static map client (staticMap.py): `StaticMap` keeps the query
 * parameters of the map image request and the list of marker strings, and
 * the second pan/zoom controller drives it with its own constants (100 ms
 * zoom debounce, pan factor 0.3).
 *
 * The map centre is kept as the pair of numbers `setCenter` formats; since
 * Python's float text round-trips, `getCenter().split(",")` parsed with
 * `float` gives the same pair back. How a float is written inside a marker
 * string (`f"{lng} {lat}"`) is the uninterpreted function `show`.
 */
module StaticMap {
  import opened Wrappers
  import opened Text
  import opened Telemetry
  import opened Listing
  import opened Viewport

  /** A value of the `params` dictionary. */
  datatype Param = Str(s: string) | Num(n: int) | Point(lng: real, lat: real) | List(items: seq<string>)

  function InitialParams(): map<string, Param> {
    map["center" := Point(127.1054328, 37.3595963), "level" := Num(10), "maptype" := Str("basic"),
        "w" := Num(1620), "h" := Num(1080)]
  }

  /** Python's truth value of the `label` argument: `None` and `""` are false. */
  predicate HasLabel(labelText: Option<string>) {
    labelText.Some? && labelText.value != ""
  }

  /** The marker string `addMarker` builds, field by field as the source's f-strings write it. */
  function MarkerText(marker: string, size: string, color: string, labelText: Option<string>,
                      lng: real, lat: real, show: real -> string): string
  {
    "type:" + marker
    + ("|size:" + size
    + ("|color:" + color
    + ((if HasLabel(labelText) then "|label:" + labelText.value else "")
    + ("|pos:" + show(lng) + " " + show(lat)
    + "|viewSizeRatio:2.0"))))
  }

  /** The `key:value` fields of a marker, in order; the label field only for a true label. */
  function MarkerFields(marker: string, size: string, color: string, labelText: Option<string>,
                        lng: real, lat: real, show: real -> string): seq<string>
  {
    ["type:" + marker, "size:" + size, "color:" + color]
    + (if HasLabel(labelText) then ["label:" + labelText.value] else [])
    + ["pos:" + show(lng) + " " + show(lat), "viewSizeRatio:2.0"]
  }

  lemma FieldNamesHaveNoBar()
    ensures '|' !in "type:" && '|' !in "size:" && '|' !in "color:" && '|' !in "label:"
    ensures '|' !in "pos:" && '|' !in " " && '|' !in "viewSizeRatio:2.0"
    ensures "|size:"[1..] == "size:" && "|color:"[1..] == "color:" && "|label:"[1..] == "label:"
    ensures "|pos:"[1..] == "pos:" && "|viewSizeRatio:2.0"[1..] == "viewSizeRatio:2.0"
  {
  }

  /** `"|" + key + value + rest` with the bar dropped is `key + value + rest`. */
  lemma DropBar(bar: string, value: string, rest: string)
    requires |bar| > 0
    ensures (bar + value + rest)[1..] == bar[1..] + value + rest
  {
    DropFirst(bar + value, rest);
    DropFirst(bar, value);
  }

  /** The position field and the last field, split at the bar between them. */
  lemma SplitPosTail(a: string, b: string)
    requires '|' !in a && '|' !in b
    ensures Split(("|pos:" + a + " " + b + "|viewSizeRatio:2.0")[1..], "|")
      == ["pos:" + a + " " + b, "viewSizeRatio:2.0"]
  {
    FieldNamesHaveNoBar();
    var last := "|viewSizeRatio:2.0";
    DropFirst("|pos:" + a + " " + b, last);
    DropFirst("|pos:" + a + " ", b);
    DropFirst("|pos:" + a, " ");
    DropFirst("|pos:", a);
    var pos := "pos:" + a + " " + b;
    assert '|' !in pos;
    SplitPeel(pos, "|", last);
    SplitSingle(last[1..], "|");
  }

  /** The layout lemma's step for the fields before the position. */
  lemma SplitField(bar: string, value: string, rest: string, tail: seq<string>)
    requires |bar| > 0 && bar[0] == '|' && '|' !in bar[1..] && '|' !in value
    requires |rest| > 0 && rest[0] == '|' && Split(rest[1..], "|") == tail
    ensures Split((bar + value + rest)[1..], "|") == [bar[1..] + value] + tail
  {
    DropBar(bar, value, rest);
    assert '|' !in bar[1..] + value;
    SplitPeel(bar[1..] + value, "|", rest);
  }

  /**
   * The marker string is its fields joined by `|`: when no argument contains
   * a `|`, splitting it at `|` gives back exactly the fields, in order, with
   * the label field present exactly when the label is true.
   */
  lemma MarkerLayout(marker: string, size: string, color: string, labelText: Option<string>,
                     lng: real, lat: real, show: real -> string)
    requires '|' !in marker && '|' !in size && '|' !in color && '|' !in show(lng) && '|' !in show(lat)
    requires labelText.Some? ==> '|' !in labelText.value
    ensures Split(MarkerText(marker, size, color, labelText, lng, lat, show), "|")
      == MarkerFields(marker, size, color, labelText, lng, lat, show)
  {
    FieldNamesHaveNoBar();
    var t4 := "|pos:" + show(lng) + " " + show(lat) + "|viewSizeRatio:2.0";
    SplitPosTail(show(lng), show(lat));
    var tail4 := ["pos:" + show(lng) + " " + show(lat), "viewSizeRatio:2.0"];
    var t3, tail3;
    if HasLabel(labelText) {
      t3 := "|label:" + labelText.value + t4;
      SplitField("|label:", labelText.value, t4, tail4);
      tail3 := ["label:" + labelText.value] + tail4;
    } else {
      t3 := "" + t4;
      assert t3 == t4;
      tail3 := tail4;
    }
    var t2 := "|color:" + color + t3;
    SplitField("|color:", color, t3, tail3);
    var t1 := "|size:" + size + t2;
    SplitField("|size:", size, t2, ["color:" + color] + tail3);
    var f0 := "type:" + marker;
    assert '|' !in f0;
    SplitPeel(f0, "|", t1);
    assert MarkerText(marker, size, color, labelText, lng, lat, show) == f0 + t1;
    var fields := [f0] + (["size:" + size] + (["color:" + color] + tail3));
    assert Split(f0 + t1, "|") == fields;
    FieldsShape(marker, size, color, labelText, lng, lat, show, tail3);
  }

  lemma FieldsShape(marker: string, size: string, color: string, labelText: Option<string>,
                    lng: real, lat: real, show: real -> string, tail3: seq<string>)
    requires var tail4 := ["pos:" + show(lng) + " " + show(lat), "viewSizeRatio:2.0"];
      tail3 == if HasLabel(labelText) then ["label:" + labelText.value] + tail4 else tail4
    ensures ["type:" + marker] + (["size:" + size] + (["color:" + color] + tail3))
      == MarkerFields(marker, size, color, labelText, lng, lat, show)
  {
  }

  /** `"green" if power else "red"` with `power = power_status.get(ip, False)`. */
  function MarkerColour(power: PowerStatus, ip: string): (c: string)
    ensures c == "green" <==> PoweredOn(power, ip)
    ensures c == "red" <==> !PoweredOn(power, ip)
  {
    if PoweredOn(power, ip) then "green" else "red"
  }

  /** The marker `update_markers` adds for one sensor: a mid-size `t` marker at its fix, labelled with its channel. */
  function MarkerFor(show: real -> string, gps: GpsData, power: PowerStatus, e: Entry): Option<string> {
    match GpsGet(gps, e.0)
    case None => None
    case Some(fix) => Some(MarkerText("t", "mid", MarkerColour(power, e.0), Some(e.1), fix.lng, fix.lat, show))
  }

  function Rule(show: real -> string, gps: GpsData, power: PowerStatus): Entry -> Option<string> {
    e => MarkerFor(show, gps, power, e)
  }

  /** The marker list `update_markers` leaves behind. */
  function StaticMarkers(show: real -> string, sensors: seq<Entry>, gps: GpsData, power: PowerStatus): seq<string> {
    FilterMap(Rule(show, gps, power), sensors)
  }

  /** One more sensor appends its marker, if it has one, and nothing else. */
  lemma StaticMarkersStep(show: real -> string, sensors: seq<Entry>, gps: GpsData, power: PowerStatus, i: nat)
    requires i < |sensors|
    ensures StaticMarkers(show, sensors[..i + 1], gps, power)
      == StaticMarkers(show, sensors[..i], gps, power) + Opt(MarkerFor(show, gps, power, sensors[i]))
  {
    FilterMapSnoc(Rule(show, gps, power), sensors[..i], sensors[i]);
    assert sensors[..i + 1] == sensors[..i] + [sensors[i]];
  }

  /**
   * One marker per sensor with a fix, in sensor order, and none for the
   * others: the j-th marker is the `t`/`mid` marker of the sensor at
   * position `Sources(...)[j]`, green exactly when its power is on, with its
   * channel as the label and its fix as the position.
   */
  lemma StaticMarkersSpec(show: real -> string, sensors: seq<Entry>, gps: GpsData, power: PowerStatus)
    ensures var ms, idx := StaticMarkers(show, sensors, gps, power), Sources(Rule(show, gps, power), sensors);
      && |idx| == |ms| <= |sensors|
      && (forall j, k :: 0 <= j < k < |idx| ==> idx[j] < idx[k])
      && (forall j :: 0 <= j < |idx| ==>
            && idx[j] < |sensors|
            && var e := sensors[idx[j]];
            && GpsGet(gps, e.0).Some?
            && ms[j] == MarkerText("t", "mid", MarkerColour(power, e.0), Some(e.1),
                                   GpsGet(gps, e.0).value.lng, GpsGet(gps, e.0).value.lat, show))
      && (forall k :: 0 <= k < |sensors| ==> (k in idx <==> GpsGet(gps, sensors[k].0).Some?))
  {
    var f := Rule(show, gps, power);
    FilterMapSources(f, sensors);
    forall k | 0 <= k < |sensors| ensures f(sensors[k]) == MarkerFor(show, gps, power, sensors[k]) {
    }
  }

  /** Setting the `markers` entry leaves every other parameter as it was. */
  lemma SetMarkersKeepsOthers(params: map<string, Param>, v: Param)
    ensures params["markers" := v] - {"markers"} == params - {"markers"}
  {
  }

  class StaticMap {
    var clientId: Option<string>
    var clientKey: Option<string>
    var params: map<string, Param>
    var markers: seq<string>
    /** How the runtime writes a float; fixed for the life of the object. */
    const show: real -> string

    /**
     * The centre and the zoom are always present, and `params["markers"]`
     * is the marker list itself whenever that list is non-empty, and absent
     * otherwise.
     */
    ghost predicate Valid()
      reads this
    {
      && "center" in params && params["center"].Point?
      && "level" in params && params["level"].Num?
      && ("markers" in params <==> markers != [])
      && ("markers" in params ==> params["markers"] == List(markers))
    }

    constructor (show: real -> string)
      ensures Valid()
      ensures params == InitialParams() && markers == [] && clientId.None? && clientKey.None?
      ensures this.show == show
    {
      clientId, clientKey := None, None;
      params := InitialParams();
      markers := [];
      this.show := show;
    }

    method SetLoginInfo(id: string, key: string)
      modifies this
      ensures clientId == Some(id) && clientKey == Some(key)
      ensures params == old(params) && markers == old(markers)
    {
      clientId, clientKey := Some(id), Some(key);
    }

    method SetSize(width: int, height: int)
      requires Valid()
      modifies this
      ensures Valid()
      ensures params == old(params)["w" := Num(width)]["h" := Num(height)]
      ensures markers == old(markers) && clientId == old(clientId) && clientKey == old(clientKey)
    {
      params := params["w" := Num(width)]["h" := Num(height)];
    }

    method SetCenter(lng: real, lat: real)
      requires Valid()
      modifies this
      ensures Valid()
      ensures params == old(params)["center" := Point(lng, lat)]
      ensures markers == old(markers) && clientId == old(clientId) && clientKey == old(clientKey)
    {
      params := params["center" := Point(lng, lat)];
    }

    method SetZoom(level: int)
      requires Valid()
      modifies this
      ensures Valid()
      ensures params == old(params)["level" := Num(level)]
      ensures markers == old(markers) && clientId == old(clientId) && clientKey == old(clientKey)
    {
      params := params["level" := Num(level)];
    }

    method SetMaptype(maptype: string)
      requires Valid()
      modifies this
      ensures Valid()
      ensures params == old(params)["maptype" := Str(maptype)]
      ensures markers == old(markers) && clientId == old(clientId) && clientKey == old(clientKey)
    {
      params := params["maptype" := Str(maptype)];
    }

    method GetCenter() returns (lng: real, lat: real)
      requires Valid()
      ensures params["center"] == Point(lng, lat)
    {
      lng, lat := params["center"].lng, params["center"].lat;
    }

    method GetZoom() returns (level: int)
      requires Valid()
      ensures params["level"] == Num(level)
    {
      level := params["level"].n;
    }

    /** Appends one marker string and makes `params["markers"]` the list. */
    method AddMarker(lng: real, lat: real, marker: string := "d", size: string := "mid",
                     color: string := "red", labelText: Option<string> := None)
      requires Valid()
      modifies this
      ensures Valid()
      ensures markers == old(markers) + [MarkerText(marker, size, color, labelText, lng, lat, show)]
      ensures params == old(params)["markers" := List(markers)]
      ensures clientId == old(clientId) && clientKey == old(clientKey)
    {
      var mark := MarkerText(marker, size, color, labelText, lng, lat, show);
      markers := markers + [mark];
      params := params["markers" := List(markers)];
    }

    /** Empties the list and drops the `markers` key; applying it twice is the same as once. */
    method ClearMarkers()
      requires Valid()
      modifies this
      ensures Valid()
      ensures markers == [] && params == old(params) - {"markers"}
      ensures clientId == old(clientId) && clientKey == old(clientKey)
    {
      markers := [];
      if "markers" in params {
        params := params - {"markers"};
      }
    }

    /** `update_markers`: clears, then adds the marker of each sensor with a fix, in order. */
    method UpdateMarkers(sensors: seq<Entry>, gps: GpsData, power: PowerStatus)
      requires Valid()
      modifies this
      ensures Valid()
      ensures markers == StaticMarkers(show, sensors, gps, power)
      ensures params - {"markers"} == old(params) - {"markers"}
      ensures clientId == old(clientId) && clientKey == old(clientKey)
    {
      ClearMarkers();
      var i := 0;
      while i < |sensors|
        invariant 0 <= i <= |sensors|
        invariant Valid()
        invariant markers == StaticMarkers(show, sensors[..i], gps, power)
        invariant params - {"markers"} == old(params) - {"markers"}
        invariant clientId == old(clientId) && clientKey == old(clientKey)
      {
        var ip, channel := sensors[i].0, sensors[i].1;
        var pos := GpsGet(gps, ip);
        StaticMarkersStep(show, sensors, gps, power, i);
        if pos.Some? {
          var color := MarkerColour(power, ip);
          assert Opt(MarkerFor(show, gps, power, sensors[i]))
            == [MarkerText("t", "mid", color, Some(channel), pos.value.lng, pos.value.lat, show)];
          ghost var before := params;
          AddMarker(pos.value.lng, pos.value.lat, "t", "mid", color, Some(channel));
          SetMarkersKeepsOthers(before, List(markers));
        } else {
          assert Opt(MarkerFor(show, gps, power, sensors[i])) == [];
        }
        i := i + 1;
      }
      assert sensors[..i] == sensors;
    }
  }

  /** The zoom debounce interval of this controller, in milliseconds. */
  const ZOOM_DEBOUNCE_MS: nat := 100
  /** The pan factor of this controller: degrees per pixel at zoom 1. */
  const PAN_FACTOR: real := 0.3

  /** The pan/zoom controller of staticMap.py, driving a `StaticMap`. */
  class MapViewController {
    const staticMap: StaticMap
    var lastPos: Option<(int, int)>
    var isDragging: bool
    var isZooming: bool
    /** Whether `_update_callback` is set to something callable. */
    var hasCallback: bool
    /** How many times the update callback has run. */
    var updates: nat
    /** The single-shot zoom timer: whether it is running, and its interval. */
    var timerActive: bool
    var timerInterval: nat

    /** A drag is in progress exactly when a last position is recorded. */
    ghost predicate Valid()
      reads this, staticMap
    {
      staticMap.Valid() && (isDragging <==> lastPos.Some?)
    }

    constructor (map_: StaticMap, withCallback: bool)
      requires map_.Valid()
      ensures Valid()
      ensures staticMap == map_ && lastPos.None? && !isDragging && !isZooming
      ensures hasCallback == withCallback && updates == 0 && !timerActive
    {
      staticMap := map_;
      lastPos, isDragging, isZooming := None, false, false;
      hasCallback, updates := withCallback, 0;
      timerActive, timerInterval := false, 0;
    }

    method SetUpdateCallback(present: bool)
      modifies this
      ensures hasCallback == present
      ensures lastPos == old(lastPos) && isDragging == old(isDragging) && isZooming == old(isZooming)
      ensures updates == old(updates) && timerActive == old(timerActive) && timerInterval == old(timerInterval)
    {
      hasCallback := present;
    }

    /** `_trigger_update`: the callback runs if one is set. */
    method TriggerUpdate()
      modifies this
      ensures updates == old(updates) + (if hasCallback then 1 else 0)
      ensures lastPos == old(lastPos) && isDragging == old(isDragging) && isZooming == old(isZooming)
      ensures hasCallback == old(hasCallback) && timerActive == old(timerActive) && timerInterval == old(timerInterval)
    {
      if hasCallback {
        updates := updates + 1;
      }
    }

    /** Zooms one level in or out, clamped to [1, 20], starts the debounce timer and triggers the update. */
    method HandleWheelEvent(delta: int)
      requires Valid()
      modifies this, staticMap
      ensures Valid()
      ensures staticMap.params == old(staticMap.params)["level" := Num(WheelZoom(old(staticMap.params["level"].n), delta))]
      ensures staticMap.markers == old(staticMap.markers)
      ensures staticMap.clientId == old(staticMap.clientId) && staticMap.clientKey == old(staticMap.clientKey)
      ensures isZooming && timerActive && timerInterval == ZOOM_DEBOUNCE_MS
      ensures updates == old(updates) + (if hasCallback then 1 else 0)
      ensures lastPos == old(lastPos) && isDragging == old(isDragging) && hasCallback == old(hasCallback)
    {
      var current := staticMap.GetZoom();
      staticMap.SetZoom(WheelZoom(current, delta));
      isZooming := true;
      timerActive, timerInterval := true, ZOOM_DEBOUNCE_MS;
      TriggerUpdate();
    }

    /** `_on_zoom_finished`. */
    method OnZoomFinished()
      modifies this
      ensures !isZooming
      ensures lastPos == old(lastPos) && isDragging == old(isDragging) && hasCallback == old(hasCallback)
      ensures updates == old(updates) && timerActive == old(timerActive) && timerInterval == old(timerInterval)
    {
      isZooming := false;
    }

    /** The single-shot timer expires: it stops and calls `_on_zoom_finished`. */
    method ZoomTimerFires()
      requires Valid() && timerActive
      modifies this
      ensures Valid()
      ensures !isZooming && !timerActive
      ensures lastPos == old(lastPos) && isDragging == old(isDragging) && hasCallback == old(hasCallback)
      ensures updates == old(updates) && timerInterval == old(timerInterval)
    {
      timerActive := false;
      OnZoomFinished();
    }

    /** A left press starts a drag at the press position; any other button changes nothing. */
    method HandleMousePress(button: MouseButton, x: int, y: int)
      requires Valid()
      modifies this
      ensures Valid()
      ensures button == LeftButton ==> lastPos == Some((x, y)) && isDragging
      ensures button != LeftButton ==> lastPos == old(lastPos) && isDragging == old(isDragging)
      ensures isZooming == old(isZooming) && hasCallback == old(hasCallback) && updates == old(updates)
      ensures timerActive == old(timerActive) && timerInterval == old(timerInterval)
    {
      if button == LeftButton {
        lastPos := Some((x, y));
        isDragging := true;
      }
    }

    /**
     * While a last position is recorded, moves the centre by the mouse
     * movement scaled by `0.3 / 2 ** (zoom - 1)` and records the new
     * position; the zoom is not touched and no update is triggered.
     */
    method HandleMouseMove(x: int, y: int)
      requires Valid()
      modifies this, staticMap
      ensures Valid()
      ensures old(lastPos).None? ==> staticMap.params == old(staticMap.params) && lastPos == old(lastPos)
      ensures old(lastPos).Some? ==>
        var c, z := old(staticMap.params["center"]), old(staticMap.params["level"].n);
        var moved := Pan((c.lng, c.lat), old(lastPos).value, (x, y), PanScale(PAN_FACTOR, z));
        staticMap.params == old(staticMap.params)["center" := Point(moved.0, moved.1)] && lastPos == Some((x, y))
      ensures staticMap.markers == old(staticMap.markers)
      ensures staticMap.clientId == old(staticMap.clientId) && staticMap.clientKey == old(staticMap.clientKey)
      ensures isDragging == old(isDragging) && isZooming == old(isZooming) && hasCallback == old(hasCallback)
      ensures updates == old(updates) && timerActive == old(timerActive) && timerInterval == old(timerInterval)
    {
      if lastPos.Some? {
        var lon, lat := staticMap.GetCenter();
        var zoom := staticMap.GetZoom();
        var moved := Pan((lon, lat), lastPos.value, (x, y), PanScale(PAN_FACTOR, zoom));
        staticMap.SetCenter(moved.0, moved.1);
        lastPos := Some((x, y));
      }
    }

    /** A left release ends the drag and triggers the update; any other button changes nothing. */
    method HandleMouseRelease(button: MouseButton)
      requires Valid()
      modifies this
      ensures Valid()
      ensures button == LeftButton ==>
        lastPos.None? && !isDragging && updates == old(updates) + (if hasCallback then 1 else 0)
      ensures button != LeftButton ==> lastPos == old(lastPos) && isDragging == old(isDragging) && updates == old(updates)
      ensures isZooming == old(isZooming) && hasCallback == old(hasCallback)
      ensures timerActive == old(timerActive) && timerInterval == old(timerInterval)
    {
      if button == LeftButton {
        isDragging := false;
        lastPos := None;
        TriggerUpdate();
      }
    }
  }
}
