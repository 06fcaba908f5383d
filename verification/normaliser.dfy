/** The decoding half of `updateDirectionSteps`: each provider route becomes a
    `{ distance, steps }` record whose `steps` is the polyline of the route's
    first leg. */
module RouteNormaliser {
  import opened Wrappers
  import opened Geo
  import opened DirectionsResponse

  /** One normalised route: the first leg's reported distance and its polyline. */
  datatype RouteEntry = RouteEntry(distance: int, steps: seq<Coordinate>)

  /** The end location of every step, converted to map coordinates, in step order. */
  function EndCoordinates(steps: seq<Step>): (cs: seq<Coordinate>)
    ensures |cs| == |steps|
    ensures forall i :: 0 <= i < |steps| ==> cs[i] == ToCoordinate(steps[i].endLocation)
  {
    if steps == [] then []
    else [ToCoordinate(steps[0].endLocation)] + EndCoordinates(steps[1..])
  }

  /** The polyline of one leg: its start location followed by every step's end location. */
  function LegPath(leg: Leg): (path: seq<Coordinate>)
    ensures |path| == |leg.steps| + 1
    ensures path[0] == ToCoordinate(leg.startLocation)
    ensures forall i :: 0 <= i < |leg.steps| ==> path[i + 1] == ToCoordinate(leg.steps[i].endLocation)
  {
    [ToCoordinate(leg.startLocation)] + EndCoordinates(leg.steps)
  }

  /** The record built for one route; only `legs[0]` is consulted. Its distance
      is the leg's reported distance, and its polyline starts at the leg's start
      location and has one more coordinate than the leg has steps. */
  function Entry(route: Route): (e: RouteEntry)
    requires HasFirstLeg(route)
    ensures e.distance == route.legs[0].distance
    ensures |e.steps| == |route.legs[0].steps| + 1
    ensures e.steps[0] == ToCoordinate(route.legs[0].startLocation)
  {
    RouteEntry(route.legs[0].distance, LegPath(route.legs[0]))
  }

  /** The normalised list: one entry per route, in the order of `routes`. */
  function NormaliseAll(routes: seq<Route>): (entries: seq<RouteEntry>)
    requires AllHaveFirstLeg(routes)
    ensures |entries| == |routes|
    ensures forall i :: 0 <= i < |routes| ==> entries[i] == Entry(routes[i])
  {
    if routes == [] then []
    else [Entry(routes[0])] + NormaliseAll(routes[1..])
  }

  /** Each entry carries its route's first-leg distance and a polyline of one
      coordinate more than that leg has steps: the start, then each step's end. */
  lemma EntryShape(routes: seq<Route>, i: int)
    requires AllHaveFirstLeg(routes)
    requires 0 <= i < |routes|
    ensures NormaliseAll(routes)[i].distance == routes[i].legs[0].distance
    ensures |NormaliseAll(routes)[i].steps| == |routes[i].legs[0].steps| + 1
    ensures NormaliseAll(routes)[i].steps[0] == ToCoordinate(routes[i].legs[0].startLocation)
    ensures forall j :: 0 <= j < |routes[i].legs[0].steps| ==>
              NormaliseAll(routes)[i].steps[j + 1] == ToCoordinate(routes[i].legs[0].steps[j].endLocation)
  {
  }

  /** The accumulation in `updateDirectionSteps`: starting from an empty list,
      visit the routes in order and append each route's record; proved to build
      exactly the normalised list. */
  method ReduceRoutes(routes: seq<Route>) returns (allSteps: seq<RouteEntry>)
    requires AllHaveFirstLeg(routes)
    ensures allSteps == NormaliseAll(routes)
  {
    allSteps := [];
    var k := 0;
    while k < |routes|
      invariant 0 <= k <= |routes|
      invariant |allSteps| == k
      invariant forall j :: 0 <= j < k ==> allSteps[j] == Entry(routes[j])
    {
      var leg := routes[k].legs[0];
      var nextStep := RouteEntry(leg.distance, [ToCoordinate(leg.startLocation)] + EndCoordinates(leg.steps));
      allSteps := allSteps + [nextStep];
      k := k + 1;
    }
  }

  /** Normalisation neither filters nor reorders: it distributes over
      concatenation of route lists. */
  lemma NormaliseAllAppend(a: seq<Route>, b: seq<Route>)
    requires AllHaveFirstLeg(a) && AllHaveFirstLeg(b)
    ensures AllHaveFirstLeg(a + b)
    ensures NormaliseAll(a + b) == NormaliseAll(a) + NormaliseAll(b)
  {
    forall i | 0 <= i < |a + b|
      ensures HasFirstLeg((a + b)[i])
    {
      if i < |a| {
        assert (a + b)[i] == a[i];
      } else {
        assert (a + b)[i] == b[i - |a|];
      }
    }
    var whole := NormaliseAll(a + b);
    var parts := NormaliseAll(a) + NormaliseAll(b);
    forall i | 0 <= i < |whole|
      ensures whole[i] == parts[i]
    {
      if i < |a| {
        assert (a + b)[i] == a[i];
      } else {
        assert (a + b)[i] == b[i - |a|];
      }
    }
  }

  /** Legs after the first never affect the output: route lists that agree on
      every route's first leg normalise to the same list. */
  lemma OnlyFirstLegMatters(a: seq<Route>, b: seq<Route>)
    requires AllHaveFirstLeg(a) && AllHaveFirstLeg(b)
    requires |a| == |b|
    requires forall i :: 0 <= i < |a| ==> a[i].legs[0] == b[i].legs[0]
    ensures NormaliseAll(a) == NormaliseAll(b)
  {
  }

  /** The decode step of `updateDirectionSteps`: `None` when `routes` is missing,
      not an array or empty (the early return), otherwise the normalised list. */
  function Normalise(response: Response): (r: Option<seq<RouteEntry>>)
    requires WellFormed(response)
    ensures r.None? <==> !HasRoutes(response)
    ensures r.Some? ==> |r.value| == |response.routes.value| >= 1
    ensures r.Some? ==> r.value == NormaliseAll(response.routes.value)
  {
    if !HasRoutes(response) then None
    else Some(NormaliseAll(response.routes.value))
  }
}
