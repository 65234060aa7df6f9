/** The counter feature of the threading test, run sequentially, and small
    client scenarios of a feature. */
module CounterScenarios {
  import opened Wrappers
  import opened Reducers
  import opened Subscriptions
  import opened Features

  /** Actions of the counter test; `Unrelated` is one no reducer handles. */
  datatype CounterAction = IncrementCounterAction | Unrelated

  /** The counter feature's only reducer: increments the counter by one. */
  function IncrementCounterReducer(): Reducer<int, CounterAction>
  {
    Reducer(a => a == IncrementCounterAction, (s: int, a: CounterAction) => Ok(s + 1))
  }

  /** `n` increment dispatches raise the counter by exactly `n`. */
  lemma {:induction false} IncrementsAddUp(s: int, n: nat)
    ensures DispatchedRepeatedly([IncrementCounterReducer()], s, IncrementCounterAction, n) == Ok(s + n)
  {
    if n != 0 {
      IncrementsAddUp(s, n - 1);
      assert Applicable([IncrementCounterReducer()], IncrementCounterAction) == [IncrementCounterReducer()];
    }
  }

  /** An action the counter reducer ignores leaves the counter as it is. */
  lemma UnrelatedActionKeepsCounter(s: int)
    ensures Dispatched([IncrementCounterReducer()], s, Unrelated) == Ok(s)
  {
  }

  /** The calls made by `n` increments from `s`: one notification pass per
      increment, announcing the counters `s + 1` to `s + n` in turn. */
  ghost function CounterNotifications<C>(subs: seq<C>, live: set<C>, s: int, n: nat): seq<Event<int, C>>
  {
    if n == 0 then [] else CounterNotifications(subs, live, s, n - 1) + Notification(subs, live, s + n)
  }

  /** Dispatches the increment action `n` times to a counter feature: the
      counter ends `n` higher, every dispatch succeeds, and each one makes a
      notification pass announcing the new counter. */
  method DispatchIncrements<C(==)>(f: Feature<int, CounterAction, C>, n: nat, live: set<C>)
    requires f.reducers == [IncrementCounterReducer()]
    modifies f
    ensures f.state == old(f.state) + n
    ensures Ok(f.state) == DispatchedRepeatedly(old(f.reducers), old(f.state), IncrementCounterAction, n)
    ensures f.log == old(f.log) + CounterNotifications(f.subscriptions, live, old(f.state), n)
    ensures f.reducers == old(f.reducers) && f.subscriptions == old(f.subscriptions)
  {
    var i := 0;
    while i < n
      invariant 0 <= i <= n
      invariant f.state == old(f.state) + i
      invariant Ok(f.state) == DispatchedRepeatedly(f.reducers, old(f.state), IncrementCounterAction, i)
      invariant f.log == old(f.log) + CounterNotifications(f.subscriptions, live, old(f.state), i)
      invariant f.reducers == old(f.reducers) && f.subscriptions == old(f.subscriptions)
    {
      IncrementsAddUp(f.state, 1);
      var r := f.ReceiveDispatchNotificationFromStore(Some(IncrementCounterAction), live);
      assert r == Pass;
      i := i + 1;
    }
  }

  /** Restoring the state just read changes nothing and notifies nobody. */
  method RestoreCurrentState<S(==), A, C(==)>(f: Feature<S, A, C>, live: set<C>)
    modifies f
    ensures f.state == old(f.state) && f.log == old(f.log)
    ensures f.reducers == old(f.reducers) && f.subscriptions == old(f.subscriptions)
  {
    f.RestoreState(f.GetState(), live);
  }

  /** An immutable counter state; two of them may be equal in content and
      still be distinct objects. */
  class CounterState {
    const counter: int
    constructor (counter: int)
      ensures this.counter == counter
    {
      this.counter := counter;
    }
  }

  /** A component that observes a feature. */
  class Component {
    constructor ()
    {
    }
  }

  /** Restoring a freshly allocated copy of the state counts as a change: the
      subscribed component is called, then `StateChanged` with the copy. A
      second subscriber that has been reclaimed is skipped. */
  method RestoringEqualCopyNotifies() returns (f: Feature<CounterState, CounterAction, Component>, observer: Component, copy: CounterState)
    ensures f.state == copy && f.state.counter == 0
    ensures f.log == [HandleEvent(observer), StateChanged(copy)]
  {
    var initial := new CounterState(0);
    f := new Feature("Counter", initial);
    observer := new Component();
    var reclaimed := new Component();
    f.Subscribe(observer);
    f.Subscribe(reclaimed);
    copy := new CounterState(initial.counter);
    f.RestoreState(copy, {observer});
    assert LiveTargets([observer, reclaimed], {observer}) == [observer];
  }

  /** Registration order decides the result: two reducers run first to last. */
  lemma ReducersRunInRegistrationOrder()
    ensures Dispatched([Reducer(a => true, (s: int, a: CounterAction) => Ok(s + 1)),
                        Reducer(a => true, (s: int, a: CounterAction) => Ok(s * 2))], 3, IncrementCounterAction) == Ok(8)
    ensures Dispatched([Reducer(a => true, (s: int, a: CounterAction) => Ok(s * 2)),
                        Reducer(a => true, (s: int, a: CounterAction) => Ok(s + 1))], 3, IncrementCounterAction) == Ok(7)
  {
  }
}
