/** A feature: one named slice of state, its reducers and its subscribers. */
module Features {
  import opened Wrappers
  import opened Reducers
  import opened Subscriptions

  /** A feature over states `S`, actions `A` and subscribers `C`.
      Change detection uses `==` on `S`, which for a class type `S` is
      reference identity. `log` records, in order, every call the feature
      makes on its subscribers and on its `StateChanged` event. */
  class Feature<S(==), A, C(==)> {
    const name: string
    var state: S
    var reducers: seq<Reducer<S, A>>
    var subscriptions: seq<C>
    var log: seq<Event<S, C>>

    /** A new feature whose state is the initial state and that has no
        reducers and no subscribers yet. */
    constructor (name: string, initial: S)
      ensures this.name == name && state == initial
      ensures reducers == [] && subscriptions == [] && log == []
    {
      this.name := name;
      state := initial;
      reducers := [];
      subscriptions := [];
      log := [];
    }

    /** The current state. */
    function GetState(): S
      reads this
    {
      state
    }

    /** Stores `value` in any case, and runs one notification pass exactly
        when `value` is distinct from the previous state. */
    method SetState(value: S, live: set<C>)
      modifies this
      ensures state == value
      ensures reducers == old(reducers) && subscriptions == old(subscriptions)
      ensures log == old(log) + ChangeNotification(old(state), value, old(subscriptions), live)
    {
      var stateHasChanged := state != value;
      state := value;
      if stateHasChanged {
        TriggerStateChangedCallbacks(value, live);
      }
    }

    /** Replaces the state from outside a reducer, through the same path. */
    method RestoreState(value: S, live: set<C>)
      modifies this
      ensures state == value
      ensures reducers == old(reducers) && subscriptions == old(subscriptions)
      ensures log == old(log) + ChangeNotification(old(state), value, old(subscriptions), live)
    {
      SetState(value, live);
    }

    /** Appends a reducer; an absent reducer throws and changes nothing. */
    method AddReducer(reducer: Option<Reducer<S, A>>) returns (r: Outcome)
      modifies this
      ensures reducer.None? ==> r == Fail(ArgumentNull("reducer")) && reducers == old(reducers)
      ensures reducer.Some? ==> r == Pass && reducers == old(reducers) + [reducer.value]
      ensures state == old(state) && subscriptions == old(subscriptions) && log == old(log)
    {
      if reducer.None? {
        return Fail(ArgumentNull("reducer"));
      }
      reducers := reducers + [reducer.value];
      r := Pass;
    }

    /** Folds the reducers that apply to `action` over the current state and
        stores the result. An absent action, or a reducer that throws, leaves
        state and log as they were. */
    method ReceiveDispatchNotificationFromStore(action: Option<A>, live: set<C>) returns (r: Outcome)
      modifies this
      ensures reducers == old(reducers) && subscriptions == old(subscriptions)
      ensures action.None? ==>
        r == Fail(ArgumentNull("action")) && state == old(state) && log == old(log)
      ensures action.Some? ==> match Dispatched(old(reducers), old(state), action.value)
        case Err(e) => r == Fail(e) && state == old(state) && log == old(log)
        case Ok(t) => (r == Pass && state == t &&
          log == old(log) + ChangeNotification(old(state), t, old(subscriptions), live))
    {
      if action.None? {
        return Fail(ArgumentNull("action"));
      }
      var a := action.value;
      var newState := state;
      var i := 0;
      while i < |reducers|
        invariant 0 <= i <= |reducers|
        invariant reducers == old(reducers) && subscriptions == old(subscriptions)
        invariant state == old(state) && log == old(log)
        invariant Fold(Applicable(reducers[..i], a), state, a) == Ok(newState)
      {
        var currentReducer := reducers[i];
        DispatchStep(reducers, i, state, a, newState);
        if currentReducer.shouldReduce(a) {
          var next := currentReducer.reduce(newState, a);
          if next.Err? {
            DispatchFailureIsFinal(reducers, i + 1, state, a, next.error);
            return Fail(next.error);
          }
          newState := next.value;
        }
        i := i + 1;
      }
      assert reducers[..i] == reducers;
      SetState(newState, live);
      r := Pass;
    }

    /** Appends one entry for `subscriber`; subscribing twice gives two. */
    method Subscribe(subscriber: C)
      modifies this
      ensures subscriptions == old(subscriptions) + [subscriber]
      ensures state == old(state) && reducers == old(reducers) && log == old(log)
    {
      subscriptions := subscriptions + [subscriber];
    }

    /** Removes the first entry whose live target is `subscriber`, if any. */
    method Unsubscribe(subscriber: C, live: set<C>)
      modifies this
      ensures subscriptions == Unsubscribed(old(subscriptions), subscriber, live)
      ensures state == old(state) && reducers == old(reducers) && log == old(log)
    {
      var index := FirstLiveIndex(subscriptions, subscriber, live);
      if index.Some? {
        subscriptions := subscriptions[..index.value] + subscriptions[index.value + 1..];
      }
    }

    /** Calls every live subscriber in list order, then raises `StateChanged`
        with the new state. Expired entries are skipped but stay in the list. */
    method TriggerStateChangedCallbacks(newState: S, live: set<C>)
      modifies this`log
      ensures log == old(log) + Notification(subscriptions, live, newState)
    {
      var observing := subscriptions;
      var subscribers: seq<C> := [];
      var i := 0;
      while i < |observing|
        invariant 0 <= i <= |observing|
        invariant subscribers == LiveTargets(observing[..i], live)
        invariant log == old(log) + Calls(subscribers)
      {
        var subscription := observing[i];
        NotificationStep<S, C>(observing, i, live);
        if subscription in live {
          subscribers := subscribers + [subscription];
          log := log + [HandleEvent(subscription)];
        }
        i := i + 1;
      }
      assert observing[..i] == observing;
      log := log + [StateChanged(newState)];
      assert Notification(observing, live, newState) == Calls(subscribers) + [StateChanged(newState)];
    }
  }
}
