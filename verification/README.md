# Walking-directions route model

A Dafny model of the route-handling logic of a mobile walking-directions app.
The app fetches walking routes from a directions provider and draws them on a map.
It estimates steps and miles from the active route's distance.

The model covers two pieces:

- **The `Directions` component's route logic** (`src/components/Directions.js`):
  - `updateDirectionSteps` normalises a provider response into an ordered list of `{ distance, steps }` records.
    `steps` is the polyline of each route's first leg.
    The function stores the list as `allSteps` and asks the map to fit the first route.
  - `fitMap` decides whether a fit is requested.
  - `resetMap` clears the route state.
  - `render` picks the active route as `allSteps[0] || {}`.
- **The `directions` reducer** (`src/reducers/directions.js`): a two-action state machine over `{ searchedRouteOptions, activeRouteIndex }`.

Modules:

- `Wrappers` (`wrappers.dfy`): `Option`.
- `Geo` (`geo.dfy`): provider `{lat, lng}` and map `{latitude, longitude}` locations.
- `DirectionsResponse` (`response.dfy`): the decoded response (`routes → legs → distance, start location, steps`).
  It also holds the well-formedness predicates.
- `RouteNormaliser` (`normaliser.dfy`): the decoding half of `updateDirectionSteps`.
  It includes a loop that appends one record per route, as `updateDirectionSteps` does.
- `DirectionsComponent` (`component.dfy`): the component's state transitions.
  The map reference is a boolean parameter, `mapPresent`.
  A fit is returned as a `FitRequest` value instead of being performed.
- `DirectionsReducer` (`reducer.dfy`): the reducer, its initial state, and `ReduceAll`.
  `ReduceAll` is the store's sequential dispatch of a list of actions.

Behaviour the model keeps exactly as the code has it:

- A response whose `routes` is missing, not an array or empty is a no-op.
  The previous `allSteps` is kept and no fit is requested.
  An empty route list is not stored.
- A route without a first leg makes `updateDirectionSteps` throw.
  Every route having `legs[0]` is therefore a precondition (`WellFormed`), not a skip or error policy.
- The component's active route is always `allSteps[0]`, never an index-selected one.
- The reducer stores any index without a bounds check.
  It does not reset the index to 0 when new options arrive, so the index can name no option (`StaleIndexReachable`).
  Selecting the current index again is an ordinary update that yields the same state.

## Model

| member | source | states |
|---|---|---|
| `RouteNormaliser.EndCoordinates` | src/components/Directions.js:110-113 | one coordinate per step, in step order; coordinate i is step i's `end_location` with `lat→latitude`, `lng→longitude` |
| `RouteNormaliser.LegPath` | src/components/Directions.js:107-113 | a leg's polyline has `steps.length + 1` coordinates; coordinate 0 is `start_location` and coordinate i+1 is `steps[i].end_location` |
| `RouteNormaliser.Entry` | src/components/Directions.js:103-114 | a route's record carries its first leg's reported distance; its polyline starts at that leg's start location and has one more coordinate than the leg has steps |
| `RouteNormaliser.NormaliseAll` | src/components/Directions.js:102-117 | exactly one entry per input route, and entry i is built from route i: no filtering, no reordering |
| `RouteNormaliser.EntryShape` | src/components/Directions.js:103-113 | entry i's distance is route i's `legs[0].distance.value`; its coordinate list has `legs[0].steps.length + 1` elements, the start location and then each step's end location |
| `RouteNormaliser.ReduceRoutes` | src/components/Directions.js:102-117 | the accumulate-and-push loop builds exactly the normalised list |
| `RouteNormaliser.NormaliseAllAppend` | src/components/Directions.js:102-117 | normalising a concatenation of route lists concatenates the normalised lists, so output order mirrors input order |
| `RouteNormaliser.OnlyFirstLegMatters` | src/components/Directions.js:103-105 | route lists that agree on every route's first leg normalise to the same list; later legs never affect the output |
| `RouteNormaliser.Normalise` | src/components/Directions.js:98-117 | no result exactly when `routes` is missing, not an array or empty; otherwise a list as long as `routes` (at least one entry) that is the normalised list |
| `Geo.ToCoordinate` | src/components/Directions.js:108-112 | a provider location becomes a map coordinate with `lat→latitude` and `lng→longitude` |
| `DirectionsComponent.InitialState` | src/components/Directions.js:66-70 | the mounted component has no routes, no coordinates and a null distance, hence no active route |
| `DirectionsComponent.FitMap` | src/components/Directions.js:76-82 | a fit is requested exactly when a map reference exists and there are at least two coordinates; it targets those coordinates with padding 15, animated |
| `DirectionsComponent.UpdateDirectionSteps` | src/components/Directions.js:98-121 | without routes the state is unchanged and no fit is requested; with routes `allSteps` becomes the normalised list; `steps` and `distance` never change; a fit is requested exactly when a map exists and the first route's first leg has a step, and it targets that leg's polyline |
| `DirectionsComponent.ResetMap` | src/components/Directions.js:123-129 | resetting yields the mounted state (empty `allSteps` and `steps`, `distance` null) whatever the prior state, so it is idempotent |
| `DirectionsComponent.ActiveRoute` | src/components/Directions.js:149-150 | the active route has a distance exactly when `allSteps` is non-empty; then it is `allSteps[0]`, otherwise it has no coordinates |
| `DirectionsComponent.ActiveAfterUpdate` | src/components/Directions.js:98-121 | after a successful update the active route carries the first route's first-leg distance and polyline (`steps.length + 1` coordinates), and any fit targets that polyline |
| `DirectionsComponent.ActiveUnchangedWithoutRoutes` | src/components/Directions.js:99-100 | a response without routes leaves the active route as it was |
| `DirectionsComponent.ActiveAfterReset` | src/components/Directions.js:123-129 | after a reset the active route has no distance and no coordinates |
| `DirectionsComponent.RouteCardShown` | src/components/Directions.js:153-171 | the route card is shown (and the search box hidden) exactly when `allSteps` is non-empty and its first entry's distance is non-zero |
| `DirectionsComponent.PolylinesDrawn` | src/components/Directions.js:168 | polylines are drawn exactly when `allSteps` is non-empty and its first entry has at least one coordinate |
| `DirectionsComponent.PolylinesAfterUpdate` | src/components/Directions.js:98-121 | after a successful update the polylines are drawn (every entry has its start coordinate); after a reset they are not |
| `DirectionsComponent.RouteCardAfterUpdate` | src/components/Directions.js:153-171 | after a successful update the route card is shown exactly when the first route's first-leg distance is non-zero; after a reset it is never shown |
| `DirectionsComponent.UpdateOnlyReadsFirstLegs` | src/components/Directions.js:103-105 | responses that agree on every route's first leg give the same next state and the same fit request |
| `DirectionsReducer.InitialState` | src/reducers/directions.js:5-9 | the initial state has no route options and active index 0 |
| `DirectionsReducer.Reduce` | src/reducers/directions.js:11-20 | the index update stores its payload unchecked and keeps the options; the options update replaces the list and keeps the index (no reset to 0); other actions return the state unchanged |
| `DirectionsReducer.DirectionsReducer` | src/reducers/directions.js:11-20 | an undefined state is replaced by the initial state before the action applies; a defined state is reduced as is |
| `DirectionsReducer.ReduceIdempotent` | src/reducers/directions.js:13-16 | applying the same action twice gives the same state as applying it once |
| `DirectionsReducer.UpdatesCommute` | src/reducers/directions.js:13-16 | an index update and an options update commute |
| `DirectionsReducer.SelectionValidity` | src/reducers/directions.js:13-16 | after an index update the index is in range exactly when the payload is; after an options update, exactly when the old index fits the new list |
| `DirectionsReducer.StaleIndexReachable` | src/reducers/directions.js:5-16 | from the initial state, selecting index 1 and then receiving one option leaves index 1 with no option at that index |
| `DirectionsReducer.LastWriteWins` | src/reducers/directions.js:11-20 | after any sequence of actions each field holds the last payload written to it, or its starting value if none was written |
| `DirectionsReducer.OtherActionsPreserveState` | src/reducers/directions.js:17-18 | any number of unrecognised actions leave the state unchanged |

## Left out

- Rendering: the React and native-base tree, map polylines and markers, styles, device dimensions and map-region constants.
  This is presentation only.
  Two rendering conditions that read route state are modelled.
  The route-card condition (Directions.js lines 153 and 171) is `RouteCardShown`.
  The polyline condition at line 168 is `PolylinesDrawn`.
  The polyline list built at lines 140-148 (keys, dash pattern, width and colour per index) is left out as rendering.
  So is the condition at line 154 that renders the map only when the current location is known.
- RouteCardShown: when the first entry's distance is 0, the expression at line 171 evaluates to the number `0`, not `false`.
  The predicate says only that the card is not shown; what `render` then does with the value `0` is rendering behaviour it does not capture.
- `handleSelectLocation`: URL construction and the `fetch(...).then(...)` chain are network I/O.
  The model starts from an already-decoded response.
- The step estimate `Math.round(distance / STEPS_PER_METER)` and the mile figure `metersToMiles(distance).toFixed(2)` are left out.
  Both are floating-point display arithmetic, and `metersToMiles` is not part of this model.
  Both depend only on the active route's distance, which `ActiveRoute` determines.
- Malformed responses: a route without `legs[0]`, `distance` or `end_location` makes `updateDirectionSteps` throw.
  The datatypes make the fields present, and `WellFormed` requires the first leg.
- JavaScript truthiness beyond the cases above.
  A distance of `NaN` or a non-numeric one is not modelled: distances are integers.
- Dynamic action payloads: in the program any payload can reach either field.
  The model types the index payload as `int` and the options payload as a list.
- The reducer wiring (`combineReducers` in src/reducers/index.js) and Immutable.js `Map`/`List`.
  These are replaced by plain Dafny records and sequences.
- The pedometer props `currentStepCount` and `resetCurrentStepCount` are passed through with no logic.
