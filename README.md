# Blazor.Fluxor feature state slice, modelled in Dafny

This project models `Feature<TState>` from Blazor.Fluxor. A feature is one named slice of an
application's state. It has three parts:

- an ordered list of reducers, each a predicate on actions plus a transform of the state;
- a weakly-held list of observing components;
- a `StateChanged` event.

When the store hands a feature an action, the feature keeps the reducers whose
`ShouldReduceStateForAction` accepts it. It folds them left to right over the current state,
then stores the result. The feature notifies only when the new state is a different reference
from the old one. Notifying means calling each living observer in list order and then raising
`StateChanged`.

Modules, one per concern:

- `Wrappers` (wrappers.dfy): `Option` for the source's nullable arguments, `Error` for the
  exceptions the feature lets escape, `Result`/`Outcome` for steps that may throw.
- `Reducers` (reducers.dfy): the `Reducer` record and the specification of dispatch.
  `Applicable` selects the reducers that apply, in registration order. `Fold` is the fail-fast
  left fold. `Dispatched` is the two combined, and `DispatchedRepeatedly` is n sequential
  dispatches.
- `Subscriptions` (subscriptions.dfy): the subscriber list as specification functions.
  `LiveTargets` is the targets that have not expired. `FirstLiveIndex` and `Unsubscribed`
  describe removal. `Notification` is one notification pass written as a list of calls (`Event`
  values). `ChangeNotification` is what a state assignment adds to that list: one pass when the
  old and new states differ, otherwise nothing.
- `Features` (feature.dfy): the class `Feature<S, A, C>`. Its fields `state`, `reducers` and
  `subscriptions` correspond to `_State`, `Reducers` and `ObservingComponents`. A `log` field
  records every call the feature makes on a subscriber (`HandleEventAsync`) and on its
  `StateChanged` event. Each method states its whole new state against the specification
  functions. The two `foreach` loops of the source are `while` loops that carry invariants.
- `CounterScenarios` (counter.dfy): the counter feature of the threading test, run
  sequentially. Also small client scenarios:
  - restoring the current state changes nothing;
  - restoring a structurally equal copy notifies;
  - registration order decides the result.

Modelling choices:

- **State identity.** The feature compares states with `==` on `S`. For a class type `S` this
  is reference identity, as `Object.ReferenceEquals` is in the source. The scenario
  `RestoringEqualCopyNotifies` instantiates `S` with an immutable class. It shows that two
  distinct objects with the same content count as a change.
- **Null arguments.** A null reducer or action is `None`. The resulting
  `ArgumentNullException` is `Fail(ArgumentNull(name))`, with the parameter name the source
  passes. `Subscribe` and `Unsubscribe` accept a null subscriber without complaint
  (src/Blazor.Fluxor/Feature.cs:92, 99). A weak reference to null never yields a target, so a
  null entry counts as expired: callers pass a `live` set that does not contain `null`. Such an
  entry is then never called (line 114) and never removed by `Unsubscribe`.
- **Reducer exceptions.** A reducer that throws returns `Err`. The loop in
  `ReceiveDispatchNotificationFromStore` stops at the first such reducer. Because the source
  assigns `State` only after the loop (src/Blazor.Fluxor/Feature.cs:86), a throwing reducer
  leaves state and notifications exactly as they were: the output of earlier reducers that
  succeeded is not committed either.
- **Weak references.** Each operation that inspects liveness takes a parameter `live`: the
  components the garbage collector has not reclaimed. An entry whose target is outside `live`
  is an expired weak reference.
- **No pruning.** The notification pass skips expired entries but does not remove them. The
  source builds `newStateChangedCallbacks` (src/Blazor.Fluxor/Feature.cs:107), but never fills
  it or assigns it back to `ObservingComponents`, although the comment at line 111 says the
  pass keeps only the entries that have not expired. The model follows the code:
  `TriggerStateChangedCallbacks` has only `log` in its frame (`modifies this`log`), so the
  subscriber list is the same after a pass.
- **Duplicate entries.** Subscribing twice gives two entries, and one `Unsubscribe` removes only
  one of them; `SubscribeTwiceUnsubscribeOnce` shows that the remaining entry is still called.

## Model

| member | source | states |
|---|---|---|
| `Features.Feature.constructor` | src/Blazor.Fluxor/Feature.cs:34-44 | a new feature holds the initial state, no reducers, no subscribers, and has made no calls |
| `Features.Feature.SetState` | src/Blazor.Fluxor/Feature.cs:54-64 | the new value is always stored; one notification pass over the previous subscriber list is appended exactly when the new value is distinct from the old one, so an equal-in-content but distinct object still notifies; reducers and subscribers are unchanged |
| `Features.Feature.RestoreState` | src/Blazor.Fluxor/Feature.cs:20 | restoring a state goes through the same path as the setter: always stored, notification iff distinct |
| `Features.Feature.AddReducer` | src/Blazor.Fluxor/Feature.cs:67-72 | a null reducer throws `ArgumentNullException("reducer")` and leaves the list unchanged; otherwise the reducer is appended with all earlier ones kept in order; state, subscribers and calls unchanged |
| `Features.Feature.ReceiveDispatchNotificationFromStore` | src/Blazor.Fluxor/Feature.cs:75-87 | a null action throws `ArgumentNullException("action")` before any reducer runs, with state and calls unchanged; otherwise the outcome is the left fold of the applicable reducers in registration order from the current state; a throwing reducer propagates its error and commits nothing; on success the fold's result is stored through the setter's notify-iff-distinct rule |
| `Features.Feature.Subscribe` | src/Blazor.Fluxor/Feature.cs:90-94 | exactly one entry is appended, even for a subscriber already present; nothing else changes |
| `Features.Feature.Unsubscribe` | src/Blazor.Fluxor/Feature.cs:97-102 | the list becomes `Unsubscribed(old list, subscriber, live)`: the first entry whose live target is the subscriber is removed, otherwise nothing changes; state, reducers and calls unchanged |
| `Features.Feature.TriggerStateChangedCallbacks` | src/Blazor.Fluxor/Feature.cs:104-127 | appends exactly one notification pass (the live subscribers in list order, then `StateChanged` with the new state); may change only the call log, so the subscriber list is not pruned |
| `Reducers.Applicable` | src/Blazor.Fluxor/Feature.cs:80 | the selection is no longer than the list, every selected reducer accepts the action, all reducers are kept when all accept and none when none accept (that an accepting reducer is selected is stated by the two lemmas below) |
| `Reducers.ApplicableMembership` | src/Blazor.Fluxor/Feature.cs:80 | a reducer is selected iff it is registered and accepts the action |
| `Reducers.ApplicableCount` | src/Blazor.Fluxor/Feature.cs:80 | an accepting reducer is selected once per registration, a rejecting one never |
| `Reducers.ApplicableConcat` | src/Blazor.Fluxor/Feature.cs:80 | selecting over a concatenation is the concatenation of the selections, so registration order is kept |
| `Reducers.FoldConcat` | src/Blazor.Fluxor/Feature.cs:82-85 | folding a concatenation folds the first part and continues from its result with the second; a throw in the first part is the result |
| `Reducers.DispatchedAfterAddReducer` | src/Blazor.Fluxor/Feature.cs:67-86 | a reducer added last runs last, on the output of the earlier reducers, and only if it accepts the action |
| `Reducers.DispatchFailureIsFinal` | src/Blazor.Fluxor/Feature.cs:82-86 | once a reducer throws, the error is the outcome of the whole dispatch, whatever reducers follow |
| `Reducers.NoApplicableReducerKeepsState` | src/Blazor.Fluxor/Feature.cs:80-86 | when no reducer accepts the action, dispatch yields the very same state, so the setter sends no notification |
| `Reducers.TwoApplicableReducersCompose` | src/Blazor.Fluxor/Feature.cs:82-85 | with two accepting reducers R1 then R2 the result is R2 applied to R1's output |
| `Subscriptions.LiveTargets` | src/Blazor.Fluxor/Feature.cs:112-121 | the targets called are no more than the entries, all of them alive, and all entries when none has expired |
| `Subscriptions.LiveTargetsConcat` | src/Blazor.Fluxor/Feature.cs:112-121 | the live targets of a concatenation are the concatenation of the live targets, so list order is kept |
| `Subscriptions.LiveTargetsMembership` | src/Blazor.Fluxor/Feature.cs:114 | a component is among the live targets iff it has an entry and has not been reclaimed |
| `Subscriptions.LiveTargetsCount` | src/Blazor.Fluxor/Feature.cs:112-121 | a living component occurs among the live targets, and so is called by a pass, as often as it has entries |
| `Subscriptions.FirstLiveIndex` | src/Blazor.Fluxor/Feature.cs:99 | the index found holds the subscriber, which is alive, and no earlier entry holds it; nothing is found iff the subscriber is reclaimed or has no entry |
| `Subscriptions.Unsubscribed` | src/Blazor.Fluxor/Feature.cs:99-101 | for a living subscriber with an entry, exactly the first entry holding it is removed, the rest in order; otherwise the list is unchanged |
| `Subscriptions.UnsubscribeRemovesOneOccurrence` | src/Blazor.Fluxor/Feature.cs:99-101 | unsubscribing a living component removes one of its entries if it has any and keeps every other entry |
| `Subscriptions.SubscribeThenUnsubscribe` | src/Blazor.Fluxor/Feature.cs:90-101 | subscribing a new component and then unsubscribing it restores the list |
| `Subscriptions.SubscribeTwiceUnsubscribeOnce` | src/Blazor.Fluxor/Feature.cs:90-101 | after two subscriptions and one unsubscribe one entry remains, and a later notification pass still calls it |
| `Subscriptions.UnsubscribedIsNotCalled` | src/Blazor.Fluxor/Feature.cs:97-121 | a component subscribed at most once is not called by any pass after it unsubscribes |
| `Subscriptions.NotificationMembership` | src/Blazor.Fluxor/Feature.cs:112-126 | a pass calls a component iff it has an entry and has not been reclaimed (so a reclaimed one is never called), and raises `StateChanged` with the new state exactly once |
| `CounterScenarios.IncrementsAddUp` | test/Blazor.Fluxor.UnitTests/StoreTests/ThreadingTests/Dispatch.cs:36-46 | n sequential increment dispatches against the counter reducer yield counter + n |
| `CounterScenarios.UnrelatedActionKeepsCounter` | src/Blazor.Fluxor/Feature.cs:80-86 | an action the counter reducer ignores leaves the counter unchanged |
| `CounterScenarios.DispatchIncrements` | test/Blazor.Fluxor.UnitTests/StoreTests/ThreadingTests/Dispatch.cs:39-48 | n increment dispatches on a counter feature give the state that `DispatchedRepeatedly` predicts, which is exactly n higher, and make one notification pass per dispatch, announcing each new counter value |
| `CounterScenarios.RestoreCurrentState` | src/Blazor.Fluxor/Feature.cs:17-20 | `RestoreState(GetState())` keeps the same state, makes no call, and changes nothing else |
| `CounterScenarios.RestoringEqualCopyNotifies` | src/Blazor.Fluxor/Feature.cs:57-63 | restoring a freshly allocated copy with the same content calls the living subscriber and then `StateChanged` with the copy; a reclaimed subscriber is skipped |
| `CounterScenarios.ReducersRunInRegistrationOrder` | src/Blazor.Fluxor/Feature.cs:80-86 | "+1 then *2" and "*2 then +1" yield different results from 3, so registration order is what decides |

`Features.Feature.GetState` (src/Blazor.Fluxor/Feature.cs:17) is the accessor of `state`.
`Reducers.Fold`, `Reducers.Dispatched`, `Subscriptions.Calls`, `Subscriptions.Notification` and
`Subscriptions.ChangeNotification` are the specification functions that the methods above are
proved against; the lemmas in the table state their properties.

## Left out

- `GetName` is abstract in the source. The model stores the name chosen at construction in a constant.
- `GetStateType` returns `typeof(TState)` by reflection. The model is typed throughout, so there is no run-time type tag to model.
- The object-typed boundary (`GetState` returns `object`; `RestoreState` casts `(TState)value`): modelled as typed only. The invalid-cast exception is a run-time type-system artefact.
- Features.Feature.SetState: when `TState` is a value type, `Object.ReferenceEquals` compares two fresh boxes and always reports a change. The model compares with `S`'s own equality, so for an `int` state an unchanged value does not notify. This matches the source for reference types only.
- Features.Feature.constructor: in the source the constructor runs the setter from a null backing field, and the setter raises `StateChanged(initial)` after a pass over the subscriber list. The model leaves this first raise out of the log, although every later raise is logged whether or not the event has handlers. Only an override of `GetInitialState`, which runs first (src/Blazor.Fluxor/Feature.cs:43), could have subscribed a component or added a handler by then; the model assumes none does and records no calls.
- `ShouldReduceStateForAction` is treated as a total, pure predicate; an exception from it is not modelled. The loop of `ReceiveDispatchNotificationFromStore` tests each reducer right before running it, as the lazy `Where` does; only the specification function `Dispatched` separates the selection from the fold, which for pure predicates gives the same result.
- `HandleEventAsync` with `EventCallbackWorkItem`, and the `StateChanged` handlers, are calls into code outside the feature. They are recorded as log entries; their effects and exceptions are not modelled. A `StateChanged` entry records the event being raised, which does nothing when it has no handlers.
- Garbage collection is a `live` set fixed for the length of one call. The model does not cover a component reclaimed partway through a pass, or `GC.KeepAlive`.
- Concurrency: the source takes no locks. Dispatch is modelled as sequential only, and the multi-threaded stress test appears only as its sequential analogue (`IncrementsAddUp`, `DispatchIncrements`).
- The store (feature registration, initialization gating, broadcast) is not part of this model.
- CounterScenarios.DispatchIncrements: the counter state is modelled by its integer value, not by a freshly allocated `CounterState` object per increment. The model's reducers are pure functions and cannot allocate. Every increment changes the value, so the notifications are the same.
- Features.Feature.Subscribe: the model is generic in the subscriber type and does not itself keep `null` out of `live`. It relies on callers to pass a `live` set without `null`, which is how a weak reference to null behaves.
- Subclasses that change the protected `Reducers` list directly, and reducers that change the feature while it enumerates, are not modelled.
- The sample applications (`ApiService.cs`, `Startup.cs`) are HTTP transport and hosting configuration, outside the feature.
