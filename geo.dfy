/**
 * Positions and map regions. Latitudes and longitudes are JavaScript numbers
 * in the system; here they are `real`s that are only copied and compared
 * for equality, never computed with.
 */
module Geo {

  /** `{latitude, longitude}`: a map point, the path store's element and the live location. */
  datatype LatLng = LatLng(latitude: real, longitude: real)

  /** `Coord`: one tracked sample with the client timestamp taken when it was built. */
  datatype Coord = Coord(latitude: real, longitude: real, timestamp: int)

  /** The `{latitude, longitude}` projection the screens apply with `.map`. */
  function Position(c: Coord): (p: LatLng)
    ensures p.latitude == c.latitude && p.longitude == c.longitude
  {
    LatLng(c.latitude, c.longitude)
  }

  /** `Position` applied to every point, in order. */
  function Positions(cs: seq<Coord>): (ps: seq<LatLng>)
    ensures |ps| == |cs|
    ensures forall i :: 0 <= i < |cs| ==> ps[i] == Position(cs[i])
    decreases |cs|
  {
    if cs == [] then [] else [Position(cs[0])] + Positions(cs[1..])
  }

  /**
   * `LATITUDE_DELTA_DEFAULT` and `LONGITUDE_DELTA_DEFAULT`. Their values live
   * in a constants module that is not part of this model, so every region
   * function takes them as a parameter.
   */
  datatype Deltas = Deltas(latitudeDelta: real, longitudeDelta: real)

  /** A `react-native-maps` `Region`. */
  datatype Region = Region(latitude: real, longitude: real, latitudeDelta: real, longitudeDelta: real)

  /** The fallback map centre every screen uses (San Francisco). */
  const DefaultLatitude: real := 37.78825
  const DefaultLongitude: real := -122.4324

  /** A region centred on (`latitude`, `longitude`) with the default deltas. */
  function RegionAt(latitude: real, longitude: real, d: Deltas): (r: Region)
    ensures r.latitude == latitude && r.longitude == longitude
    ensures r.latitudeDelta == d.latitudeDelta && r.longitudeDelta == d.longitudeDelta
  {
    Region(latitude, longitude, d.latitudeDelta, d.longitudeDelta)
  }

  function DefaultRegion(d: Deltas): Region {
    RegionAt(DefaultLatitude, DefaultLongitude, d)
  }
}
