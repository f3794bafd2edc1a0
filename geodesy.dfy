/**
 * The map projection of marker_overlay.py: a fix is turned into east/north
 * offsets (metres) from the map centre, and those into pixels with the
 * metres-per-pixel of the zoom level. The floating-point library functions
 * (`math.sin`, `math.cos`, `math.radians`) and the ellipsoid conversion
 * `geodetic_to_ecef` are left uninterpreted: they are fields of `MathLib`,
 * and nothing is postulated about them. What is written out is the arithmetic
 * the source does on their results.
 */
module Geodesy {
  import opened Numerics

  /** A point in Earth-centred, Earth-fixed coordinates, or an (e, n, u) offset. */
  type Vec3 = (real, real, real)

  /** The uninterpreted functions the projection is built from. */
  datatype MathLib = MathLib(
    ecef: (real, real, real) -> Vec3,   // geodetic_to_ecef(lat, lon, alt)
    sin: real -> real,
    cos: real -> real,
    radians: real -> real)

  /** Ground resolution at the equator for zoom 0, in metres per pixel. */
  const EQUATOR_MPP: real := 156543.03392

  /** `ecef_to_enu`: the offset from the reference point, rotated into east/north/up. */
  function EcefToEnu(m: MathLib, x: real, y: real, z: real, refLat: real, refLon: real, refAlt: real): Vec3 {
    var r := m.ecef(refLat, refLon, refAlt);
    var dx, dy, dz := x - r.0, y - r.1, z - r.2;
    var latRad, lonRad := m.radians(refLat), m.radians(refLon);
    var sinLat, cosLat := m.sin(latRad), m.cos(latRad);
    var sinLon, cosLon := m.sin(lonRad), m.cos(lonRad);
    (-sinLon * dx + cosLon * dy,
     -sinLat * cosLon * dx - sinLat * sinLon * dy + cosLat * dz,
     cosLat * cosLon * dx + cosLat * sinLon * dy + sinLat * dz)
  }

  /** `geodetic_to_enu`: the fix converted to ECEF, then offset from the reference point. */
  function GeodeticToEnu(m: MathLib, lat: real, lon: real, alt: real, refLat: real, refLon: real, refAlt: real): Vec3 {
    var p := m.ecef(lat, lon, alt);
    EcefToEnu(m, p.0, p.1, p.2, refLat, refLon, refAlt)
  }

  /** `cal_meters_per_pixel`: the zoom is shifted by one before the power of two. */
  function MetersPerPixel(m: MathLib, lat: real, zoom: int): real {
    EQUATOR_MPP * m.cos(m.radians(lat)) / Pow2(zoom + 1)
  }

  /**
   * The reference point itself has a zero offset, whatever the library
   * functions compute: both ECEF conversions receive the same arguments, so
   * each difference is zero before it is rotated.
   */
  lemma ReferenceHasZeroOffset(m: MathLib, lat: real, lon: real, alt: real)
    ensures GeodeticToEnu(m, lat, lon, alt, lat, lon, alt) == (0.0, 0.0, 0.0)
  {
    var p := m.ecef(lat, lon, alt);
    assert GeodeticToEnu(m, lat, lon, alt, lat, lon, alt) == EcefToEnu(m, p.0, p.1, p.2, lat, lon, alt);
    var e := EcefToEnu(m, p.0, p.1, p.2, lat, lon, alt);
    assert e.0 == 0.0;
    assert e.1 == 0.0;
    assert e.2 == 0.0;
  }

  /** One zoom level more halves the metres per pixel. */
  lemma MetersPerPixelHalves(m: MathLib, lat: real, zoom: int)
    ensures MetersPerPixel(m, lat, zoom + 1) * 2.0 == MetersPerPixel(m, lat, zoom)
  {
    Pow2Succ(zoom + 1);
    var c := EQUATOR_MPP * m.cos(m.radians(lat));
    var p := Pow2(zoom + 1);
    assert Pow2(zoom + 2) == 2.0 * p;
    var q := c / p;
    assert q * p == c;
    assert (q / 2.0) * (2.0 * p) == q * p;
    assert c / (2.0 * p) == q / 2.0;
  }

  /**
   * Where the cosine of the latitude is positive, zooming in strictly lowers
   * the metres per pixel and keeps them positive.
   */
  lemma MetersPerPixelDecreases(m: MathLib, lat: real, zoom: int)
    requires m.cos(m.radians(lat)) > 0.0
    ensures 0.0 < MetersPerPixel(m, lat, zoom + 1) < MetersPerPixel(m, lat, zoom)
  {
  }
}
