/** The state transitions of the `Directions` component that involve routes:
    storing the normalised list, requesting a map fit, resetting, and picking
    the route whose metrics are displayed. */
module DirectionsComponent {
  import opened Wrappers
  import opened Geo
  import opened DirectionsResponse
  import opened RouteNormaliser

  /** Component-local state: `allSteps` (the normalised routes), `steps` and
      `distance` (`null` is `None`). */
  datatype ComponentState = ComponentState(allSteps: seq<RouteEntry>, steps: seq<Coordinate>, distance: Option<int>)

  /** The state a freshly mounted component starts in: no routes, no
      coordinates, no distance, and therefore no active route. */
  function InitialState(): (s: ComponentState)
    ensures |s.allSteps| == 0 && |s.steps| == 0 && s.distance.None?
    ensures ActiveRoute(s) == ActiveRouteInfo(None, [])
  {
    ComponentState([], [], None)
  }

  /** Padding on every side of the map when it is fitted to a route. */
  const EDGE_PADDING: int := 15

  /** A call `map.fitToCoordinates(coordinates, { edgePadding, animated })`. */
  datatype FitRequest = FitRequest(coordinates: seq<Coordinate>, edgePadding: int, animated: bool)

  /** The guard of `fitMap`: a map reference exists and there are at least two
      coordinates to fit. */
  predicate FitRequested(mapPresent: bool, coordinates: seq<Coordinate>) {
    mapPresent && |coordinates| >= 2
  }

  /** `fitMap(coordinates)`: the request sent to the map, if any. */
  function FitMap(mapPresent: bool, coordinates: seq<Coordinate>): (req: Option<FitRequest>)
    ensures req.Some? <==> mapPresent && |coordinates| >= 2
    ensures req.Some? ==> req.value.coordinates == coordinates
    ensures req.Some? ==> req.value.edgePadding == 15 && req.value.animated
  {
    if FitRequested(mapPresent, coordinates) then Some(FitRequest(coordinates, EDGE_PADDING, true))
    else None
  }

  /** The effect of one call: the next state and the fit request it issues. */
  datatype Transition = Transition(state: ComponentState, fit: Option<FitRequest>)

  /** `updateDirectionSteps(response)`: on a response with routes, sets
      `allSteps` to the normalised list and fits the map to the first entry;
      otherwise changes nothing and requests nothing. */
  function UpdateDirectionSteps(s: ComponentState, mapPresent: bool, response: Response): (t: Transition)
    requires WellFormed(response)
    ensures !HasRoutes(response) ==> t.state == s && t.fit.None?
    ensures HasRoutes(response) ==> t.state.allSteps == NormaliseAll(response.routes.value)
    ensures t.state.steps == s.steps && t.state.distance == s.distance
    ensures HasRoutes(response) ==>
              (t.fit.Some? <==> mapPresent && |response.routes.value[0].legs[0].steps| >= 1)
    ensures t.fit.Some? ==> t.fit.value.coordinates == LegPath(response.routes.value[0].legs[0])
  {
    match Normalise(response)
    case None => Transition(s, None)
    case Some(allSteps) =>
      Transition(s.(allSteps := allSteps), FitMap(mapPresent, allSteps[0].steps))
  }

  /** `resetMap()`: clears `allSteps` and `steps` and sets `distance` to `null`,
      which returns the component to the state it was mounted in. */
  function ResetMap(s: ComponentState): (r: ComponentState)
    ensures r == InitialState()
  {
    ComponentState([], [], None)
  }

  /** The route `render` reads: `allSteps[0] || {}` with `steps || []`. */
  datatype ActiveRouteInfo = ActiveRouteInfo(distance: Option<int>, steps: seq<Coordinate>)

  /** The active route: the first entry of `allSteps`, or an empty record with
      no distance and no coordinates. */
  function ActiveRoute(s: ComponentState): (a: ActiveRouteInfo)
    ensures |s.allSteps| == 0 <==> a.distance.None?
    ensures |s.allSteps| == 0 ==> a.steps == []
    ensures |s.allSteps| > 0 ==> a.distance == Some(s.allSteps[0].distance) && a.steps == s.allSteps[0].steps
  {
    if |s.allSteps| > 0 then ActiveRouteInfo(Some(s.allSteps[0].distance), s.allSteps[0].steps)
    else ActiveRouteInfo(None, [])
  }

  /** After a successful update the active route is the provider's first route,
      its first-leg distance and polyline, and any fit targets exactly that polyline. */
  lemma ActiveAfterUpdate(s: ComponentState, mapPresent: bool, response: Response)
    requires WellFormed(response) && HasRoutes(response)
    ensures var t := UpdateDirectionSteps(s, mapPresent, response);
            var first := response.routes.value[0].legs[0];
            && ActiveRoute(t.state).distance == Some(first.distance)
            && ActiveRoute(t.state).steps == LegPath(first)
            && |ActiveRoute(t.state).steps| == |first.steps| + 1
            && (t.fit.Some? ==> t.fit.value.coordinates == ActiveRoute(t.state).steps)
  {
  }

  /** A response without routes leaves the active route exactly as it was. */
  lemma ActiveUnchangedWithoutRoutes(s: ComponentState, mapPresent: bool, response: Response)
    requires WellFormed(response) && !HasRoutes(response)
    ensures ActiveRoute(UpdateDirectionSteps(s, mapPresent, response).state) == ActiveRoute(s)
  {
  }

  /** After a reset there is no active route: no distance and no coordinates. */
  lemma ActiveAfterReset(s: ComponentState)
    ensures ActiveRoute(ResetMap(s)) == ActiveRouteInfo(None, [])
  {
  }

  /** `render` shows the route card (and hides the search box) when the active
      route's distance is truthy: present and non-zero. */
  predicate RouteCardShown(s: ComponentState)
    ensures RouteCardShown(s) <==> |s.allSteps| > 0 && s.allSteps[0].distance != 0
  {
    var a := ActiveRoute(s);
    a.distance.Some? && a.distance.value != 0
  }

  /** The route card is shown after a successful update exactly when the first
      route's first leg has a non-zero distance, and never after a reset. */
  lemma RouteCardAfterUpdate(s: ComponentState, mapPresent: bool, response: Response)
    requires WellFormed(response) && HasRoutes(response)
    ensures RouteCardShown(UpdateDirectionSteps(s, mapPresent, response).state)
            <==> response.routes.value[0].legs[0].distance != 0
    ensures !RouteCardShown(ResetMap(s))
  {
  }

  /** `render` draws the route polylines (inside a rendered map) when the
      active route has at least one coordinate. */
  predicate PolylinesDrawn(s: ComponentState)
    ensures PolylinesDrawn(s) <==> |s.allSteps| > 0 && |s.allSteps[0].steps| > 0
  {
    |ActiveRoute(s).steps| > 0
  }

  /** After a successful update the polylines are drawn, since every entry has
      at least its start coordinate; after a reset they are not. */
  lemma PolylinesAfterUpdate(s: ComponentState, mapPresent: bool, response: Response)
    requires WellFormed(response) && HasRoutes(response)
    ensures PolylinesDrawn(UpdateDirectionSteps(s, mapPresent, response).state)
    ensures !PolylinesDrawn(ResetMap(s))
  {
  }

  /** Legs after the first never affect an update: two responses whose routes
      agree on every first leg yield the same state and the same fit request. */
  lemma UpdateOnlyReadsFirstLegs(s: ComponentState, mapPresent: bool, r1: Response, r2: Response)
    requires WellFormed(r1) && WellFormed(r2)
    requires r1.routes.Some? <==> r2.routes.Some?
    requires r1.routes.Some? ==> |r1.routes.value| == |r2.routes.value|
    requires r1.routes.Some? ==> forall i :: 0 <= i < |r1.routes.value| ==>
               r1.routes.value[i].legs[0] == r2.routes.value[i].legs[0]
    ensures UpdateDirectionSteps(s, mapPresent, r1) == UpdateDirectionSteps(s, mapPresent, r2)
  {
    if r1.routes.Some? {
      OnlyFirstLegMatters(r1.routes.value, r2.routes.value);
    }
  }
}
