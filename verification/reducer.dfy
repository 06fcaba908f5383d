/** The `directions` slice of the store: the route options of the last search
    and the index of the route the user selected. */
module DirectionsReducer {
  import opened Wrappers

  /** `{ searchedRouteOptions, activeRouteIndex }`. The element type of the
      options list is left open: the reducer stores whatever it is given. */
  datatype State<O> = State(searchedRouteOptions: seq<O>, activeRouteIndex: int)

  /** The actions the reducer recognises, and every other action type. */
  datatype Action<O> =
    | ActiveIndexUpdate(index: int)
    | SearchedRouteOptionsUpdate(options: seq<O>)
    | Other(actionType: string)

  /** `initialStepsState`: no options, index 0. */
  function InitialState<O>(): (s: State<O>)
    ensures |s.searchedRouteOptions| == 0 && s.activeRouteIndex == 0
  {
    State([], 0)
  }

  /** One reducer step. `activeIndex.UPDATE` stores its payload without a bounds
      check; `searchedRouteOptions.UPDATE` replaces the list and keeps the index;
      anything else returns the state itself. */
  function Reduce<O>(s: State<O>, a: Action<O>): (r: State<O>)
    ensures a.ActiveIndexUpdate? ==>
              r.activeRouteIndex == a.index && r.searchedRouteOptions == s.searchedRouteOptions
    ensures a.SearchedRouteOptionsUpdate? ==>
              r.searchedRouteOptions == a.options && r.activeRouteIndex == s.activeRouteIndex
    ensures a.Other? ==> r == s
  {
    match a
    case ActiveIndexUpdate(i) => s.(activeRouteIndex := i)
    case SearchedRouteOptionsUpdate(options) => s.(searchedRouteOptions := options)
    case Other(_) => s
  }

  /** The exported reducer: an undefined state (`None`) defaults to the
      initial state. */
  function DirectionsReducer<O>(s: Option<State<O>>, a: Action<O>): (r: State<O>)
    ensures s.None? && a.Other? ==> r == InitialState()
    ensures s.None? && a.ActiveIndexUpdate? ==> r == State([], a.index)
    ensures s.None? && a.SearchedRouteOptionsUpdate? ==> r == State(a.options, 0)
    ensures s.Some? ==> r == Reduce(s.value, a)
  {
    Reduce(s.GetOr(InitialState()), a)
  }

  /** Applying the same action twice gives the state that applying it once gives. */
  lemma ReduceIdempotent<O>(s: State<O>, a: Action<O>)
    ensures Reduce(Reduce(s, a), a) == Reduce(s, a)
  {
  }

  /** The two updates touch disjoint fields, so their order does not matter. */
  lemma UpdatesCommute<O>(s: State<O>, i: int, options: seq<O>)
    ensures Reduce(Reduce(s, ActiveIndexUpdate(i)), SearchedRouteOptionsUpdate(options))
         == Reduce(Reduce(s, SearchedRouteOptionsUpdate(options)), ActiveIndexUpdate(i))
  {
  }

  /** The selected index names an existing option. */
  predicate ValidSelection<O>(s: State<O>) {
    0 <= s.activeRouteIndex < |s.searchedRouteOptions|
  }

  /** The reducer does not keep the selection valid: an index update yields a
      valid selection exactly when its payload is in range, and an options
      update exactly when the old index is in range of the new list. */
  lemma SelectionValidity<O>(s: State<O>, i: int, options: seq<O>)
    ensures ValidSelection(Reduce(s, ActiveIndexUpdate(i))) <==> 0 <= i < |s.searchedRouteOptions|
    ensures ValidSelection(Reduce(s, SearchedRouteOptionsUpdate(options)))
            <==> 0 <= s.activeRouteIndex < |options|
  {
  }

  /** From the initial state, selecting route 1 and then receiving a single
      option leaves an index that names no option: the index is not reset when
      new options arrive. */
  lemma StaleIndexReachable<O>(x: O)
    ensures var s := Reduce(Reduce(InitialState<O>(), ActiveIndexUpdate(1)), SearchedRouteOptionsUpdate([x]));
            s.activeRouteIndex == 1 && |s.searchedRouteOptions| == 1 && !ValidSelection(s)
  {
  }

  /** The store's state after dispatching `actions` in order. */
  function ReduceAll<O>(s: State<O>, actions: seq<Action<O>>): State<O>
    decreases |actions|
  {
    if |actions| == 0 then s else ReduceAll(Reduce(s, actions[0]), actions[1..])
  }

  /** The payload of the last `activeIndex.UPDATE` in `actions`, or `current` if there is none. */
  function LastIndex<O>(actions: seq<Action<O>>, current: int): int {
    if |actions| == 0 then current
    else if actions[|actions| - 1].ActiveIndexUpdate? then actions[|actions| - 1].index
    else LastIndex(actions[..|actions| - 1], current)
  }

  /** The payload of the last `searchedRouteOptions.UPDATE` in `actions`, or `current` if there is none. */
  function LastOptions<O>(actions: seq<Action<O>>, current: seq<O>): seq<O> {
    if |actions| == 0 then current
    else if actions[|actions| - 1].SearchedRouteOptionsUpdate? then actions[|actions| - 1].options
    else LastOptions(actions[..|actions| - 1], current)
  }

  /** Dispatching one more action is one more reducer step. */
  lemma {:induction false} ReduceAllSnoc<O>(s: State<O>, actions: seq<Action<O>>, a: Action<O>)
    ensures ReduceAll(s, actions + [a]) == Reduce(ReduceAll(s, actions), a)
    decreases |actions|
  {
    if |actions| == 0 {
      assert actions + [a] == [a];
      assert [a][1..] == [];
    } else {
      assert (actions + [a])[1..] == actions[1..] + [a];
      ReduceAllSnoc(Reduce(s, actions[0]), actions[1..], a);
    }
  }

  /** Each field is last-write-wins: after any sequence of actions the index is
      the last index payload and the options are the last options payload, each
      falling back to the starting value when no such action was dispatched. */
  lemma {:induction false} LastWriteWins<O>(s: State<O>, actions: seq<Action<O>>)
    ensures ReduceAll(s, actions).activeRouteIndex == LastIndex(actions, s.activeRouteIndex)
    ensures ReduceAll(s, actions).searchedRouteOptions == LastOptions(actions, s.searchedRouteOptions)
    decreases |actions|
  {
    if |actions| == 0 {
    } else {
      var init := actions[..|actions| - 1];
      var a := actions[|actions| - 1];
      assert actions == init + [a];
      ReduceAllSnoc(s, init, a);
      LastWriteWins(s, init);
    }
  }

  /** Actions of any other type, however many, leave the state exactly as it was. */
  lemma {:induction false} OtherActionsPreserveState<O>(s: State<O>, actions: seq<Action<O>>)
    requires forall i :: 0 <= i < |actions| ==> actions[i].Other?
    ensures ReduceAll(s, actions) == s
    decreases |actions|
  {
    if |actions| > 0 {
      OtherActionsPreserveState(Reduce(s, actions[0]), actions[1..]);
    }
  }
}
