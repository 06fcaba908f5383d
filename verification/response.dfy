/** The decoded body of a walking-directions response, reduced to the fields
    the route normaliser reads:
    `routes[] -> legs[] -> { distance.value, start_location, steps[].end_location }`. */
module DirectionsResponse {
  import opened Wrappers
  import opened Geo

  /** One provider step; only its end location is read. */
  datatype Step = Step(endLocation: LatLng)

  /** One leg of a route: `distance.value` in meters, the start location and the steps. */
  datatype Leg = Leg(distance: int, startLocation: LatLng, steps: seq<Step>)

  /** One alternative route offered by the provider. */
  datatype Route = Route(legs: seq<Leg>)

  /** The response body. `routes` is `None` when the field is missing or is not
      an array (both fail the `Array.isArray` test alike). */
  datatype Response = Response(routes: Option<seq<Route>>)

  /** The normaliser dereferences `legs[0]` of every route it visits. */
  predicate HasFirstLeg(route: Route) {
    |route.legs| >= 1
  }

  /** Every route in the list has a first leg. */
  predicate AllHaveFirstLeg(routes: seq<Route>) {
    forall i :: 0 <= i < |routes| ==> HasFirstLeg(routes[i])
  }

  /** A response the normaliser can process without throwing: if `routes` is an
      array, each of its routes has a first leg. */
  predicate WellFormed(response: Response) {
    response.routes.Some? ==> AllHaveFirstLeg(response.routes.value)
  }

  /** The guard of the normaliser: `routes` is an array with at least one element. */
  predicate HasRoutes(response: Response) {
    response.routes.Some? && |response.routes.value| >= 1
  }
}
