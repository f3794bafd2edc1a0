/**
 * The marker manager (marker_manager.py): rebuilds the marker list of a
 * shared `StaticMap` from the sensor data, with the same rule as
 * `StaticMap.update_markers`.
 */
module MarkerManager {
  import opened Wrappers
  import opened Telemetry
  import opened Listing
  import StaticMap
  import MarkerOverlay
  import Geodesy

  class MarkerManager {
    const staticMap: StaticMap.StaticMap

    constructor (staticMap: StaticMap.StaticMap)
      ensures this.staticMap == staticMap
    {
      this.staticMap := staticMap;
    }

    /**
     * Clears the map's markers before adding any, then adds, in sensor
     * order, one marker for each sensor with a fix; the other parameters of
     * the map are not touched.
     */
    method UpdateMarkers(sensors: seq<Entry>, gps: GpsData, power: PowerStatus)
      requires staticMap.Valid()
      modifies staticMap
      ensures staticMap.Valid()
      ensures staticMap.markers == StaticMap.StaticMarkers(staticMap.show, sensors, gps, power)
      ensures staticMap.params - {"markers"} == old(staticMap.params) - {"markers"}
      ensures staticMap.clientId == old(staticMap.clientId) && staticMap.clientKey == old(staticMap.clientKey)
    {
      staticMap.ClearMarkers();
      var show := staticMap.show;
      var i := 0;
      while i < |sensors|
        invariant 0 <= i <= |sensors|
        invariant staticMap.Valid()
        invariant staticMap.markers == StaticMap.StaticMarkers(show, sensors[..i], gps, power)
        invariant staticMap.params - {"markers"} == old(staticMap.params) - {"markers"}
        invariant staticMap.clientId == old(staticMap.clientId) && staticMap.clientKey == old(staticMap.clientKey)
      {
        var ip, channel := sensors[i].0, sensors[i].1;
        var pos := GpsGet(gps, ip);
        StaticMap.StaticMarkersStep(show, sensors, gps, power, i);
        if pos.Some? {
          var color := StaticMap.MarkerColour(power, ip);
          ghost var mark := StaticMap.MarkerText("t", "mid", color, Some(channel), pos.value.lng, pos.value.lat, show);
          assert Opt(StaticMap.MarkerFor(show, gps, power, sensors[i])) == [mark];
          ghost var before, prev := staticMap.params, staticMap.markers;
          staticMap.AddMarker(pos.value.lng, pos.value.lat, "t", "mid", color, Some(channel));
          assert staticMap.markers == prev + [mark];
          StaticMap.SetMarkersKeepsOthers(before, StaticMap.List(staticMap.markers));
        } else {
          assert Opt(StaticMap.MarkerFor(show, gps, power, sensors[i])) == [];
        }
        i := i + 1;
      }
      assert sensors[..i] == sensors;
    }
  }

  /**
   * The two views agree on what green means: a map marker is green exactly
   * when the overlay would draw the sensor green; every other power state,
   * the unknown one included, gives a red map marker, so gray never occurs.
   */
  lemma ColoursAgreeWithOverlay(power: PowerStatus, ip: string)
    ensures StaticMap.MarkerColour(power, ip) == "green"
      <==> MarkerOverlay.MarkerColour(PowerGet(power, ip)) == MarkerOverlay.GREEN
    ensures StaticMap.MarkerColour(power, ip) == "red"
      <==> MarkerOverlay.MarkerColour(PowerGet(power, ip)) in {MarkerOverlay.GRAY, MarkerOverlay.RED}
  {
  }

  /**
   * Every sensor the overlay draws also has a marker on the static map: the
   * overlay's sensors are those of the map that also project on screen.
   */
  lemma OverlaySensorsHaveMapMarkers(m: Geodesy.MathLib, p: MarkerOverlay.MapParams,
                                     show: real -> string, sensors: seq<Entry>, gps: GpsData, power: PowerStatus)
    requires MarkerOverlay.Overlay(m, p, sensors, gps, power).Success?
    ensures var shown := Sources(MarkerOverlay.Rule(m, p, gps, power), sensors);
      var mapped := Sources(StaticMap.Rule(show, gps, power), sensors);
      forall k :: k in shown ==> k in mapped
  {
    MarkerOverlay.OverlayMarkers(m, p, sensors, gps, power);
    StaticMap.StaticMarkersSpec(show, sensors, gps, power);
    var shown := Sources(MarkerOverlay.Rule(m, p, gps, power), sensors);
    forall k | k in shown ensures k in Sources(StaticMap.Rule(show, gps, power), sensors) {
      var j :| 0 <= j < |shown| && shown[j] == k;
    }
  }
}
