/** Locations as the directions provider reports them and as the map widget
    consumes them. Coordinates are copied, never computed with, so `real`
    stands in for the JavaScript number without any rounding concerns. */
module Geo {

  /** A provider location, `{ lat, lng }`. */
  datatype LatLng = LatLng(lat: real, lng: real)

  /** A map coordinate, `{ latitude, longitude }`. */
  datatype Coordinate = Coordinate(latitude: real, longitude: real)

  /** Converts a provider location to a map coordinate: `lat` becomes
      `latitude` and `lng` becomes `longitude`. */
  function ToCoordinate(p: LatLng): (c: Coordinate)
    ensures c.latitude == p.lat && c.longitude == p.lng
  {
    Coordinate(p.lat, p.lng)
  }
}
