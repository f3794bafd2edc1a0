/**
 * The sensor data the map views are handed: the registered sensors
 * (`{ip: channel}`), the latest fix of each (`{ip: (lng, lat)}`) and the
 * power state of each (`{ip: True | False | None}`).
 */
module Telemetry {
  import opened Wrappers

  /** A fix as the GPS feed delivers it, in degrees; floats idealised as reals. */
  datatype Fix = Fix(lng: real, lat: real)

  /** One item of `sensors.items()`: an IP address and its channel label. */
  type Entry = (string, string)

  /** `gps_data`: a fix, or `None`, per IP address. */
  type GpsData = map<string, Option<Fix>>

  /** `power_status`: `True`, `False` or `None` per IP address. */
  type PowerStatus = map<string, Option<bool>>

  /** `gps_data.get(ip)`: `None` when the key is missing or holds `None`. */
  function GpsGet(gps: GpsData, ip: string): (r: Option<Fix>)
    ensures r.Some? <==> ip in gps && gps[ip].Some?
  {
    if ip in gps then gps[ip] else None
  }

  /** `power_status.get(ip)`: `None` when the key is missing or holds `None`. */
  function PowerGet(power: PowerStatus, ip: string): (r: Option<bool>)
    ensures r.Some? <==> ip in power && power[ip].Some?
  {
    if ip in power then power[ip] else None
  }

  /** The truth value Python gives `power_status.get(ip, False)`. */
  predicate PoweredOn(power: PowerStatus, ip: string) {
    ip in power && power[ip] == Some(true)
  }
}
