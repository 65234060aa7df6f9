/** The subscriber list of a feature and the calls one notification pass makes.
    Subscribers are held weakly: `live` is the set of subscribers that the
    garbage collector has not reclaimed, so an entry whose target is outside
    `live` is an expired weak reference. */
module Subscriptions {
  import opened Wrappers

  /** A call a feature makes on a collaborator during a notification pass. */
  datatype Event<S, C> =
    | HandleEvent(subscriber: C)  // subscriber.HandleEventAsync(...)
    | StateChanged(state: S)      // StateChanged?.Invoke(this, state)

  /** The targets of the entries of `subs` that have not expired, in list order. */
  function LiveTargets<C(==)>(subs: seq<C>, live: set<C>): (r: seq<C>)
    ensures |r| <= |subs|
    ensures forall k :: 0 <= k < |r| ==> r[k] in live
    ensures (forall k :: 0 <= k < |subs| ==> subs[k] in live) ==> r == subs
  {
    if subs == [] then []
    else (if subs[0] in live then [subs[0]] else []) + LiveTargets(subs[1..], live)
  }

  /** Live targets distribute over concatenation, so list order is kept. */
  lemma {:induction false} LiveTargetsConcat<C>(xs: seq<C>, ys: seq<C>, live: set<C>)
    ensures LiveTargets(xs + ys, live) == LiveTargets(xs, live) + LiveTargets(ys, live)
  {
    if xs == [] {
      assert xs + ys == ys;
    } else {
      assert (xs + ys)[1..] == xs[1..] + ys;
      LiveTargetsConcat(xs[1..], ys, live);
    }
  }

  /** The live targets are exactly the entries that have not expired. */
  lemma {:induction false} LiveTargetsMembership<C>(subs: seq<C>, c: C, live: set<C>)
    ensures c in LiveTargets(subs, live) <==> c in subs && c in live
  {
    if subs != [] {
      assert subs == [subs[0]] + subs[1..];
      LiveTargetsMembership(subs[1..], c, live);
    }
  }

  /** A live target occurs in the live targets as often as in the list. */
  lemma {:induction false} LiveTargetsCount<C>(subs: seq<C>, c: C, live: set<C>)
    requires c in live
    ensures multiset(LiveTargets(subs, live))[c] == multiset(subs)[c]
  {
    if subs != [] {
      assert subs == [subs[0]] + subs[1..];
      LiveTargetsCount(subs[1..], c, live);
    }
  }

  /** The index of the first entry whose live target is `c`, if there is one. */
  function FirstLiveIndex<C(==)>(subs: seq<C>, c: C, live: set<C>): (r: Option<nat>)
    ensures r.Some? ==> r.value < |subs| && subs[r.value] == c && c in live
    ensures r.Some? ==> forall j :: 0 <= j < r.value ==> subs[j] != c
    ensures r.None? <==> c !in live || c !in subs
  {
    if subs == [] then None
    else if subs[0] in live && subs[0] == c then Some(0)
    else match FirstLiveIndex(subs[1..], c, live)
      case None => None
      case Some(i) => Some(i + 1)
  }

  /** The list after unsubscribing `c`: the first entry whose live target is
      `c` is removed; without one the list is unchanged. */
  function Unsubscribed<C(==)>(subs: seq<C>, c: C, live: set<C>): (r: seq<C>)
    ensures c in live && c in subs ==> |r| == |subs| - 1
    ensures c in live && c in subs ==>
      exists i :: 0 <= i < |subs| && subs[i] == c && c !in subs[..i] && r == subs[..i] + subs[i + 1..]
    ensures !(c in live && c in subs) ==> r == subs
  {
    match FirstLiveIndex(subs, c, live)
    case None => subs
    case Some(i) => subs[..i] + subs[i + 1..]
  }

  /** Unsubscribing a live `c` removes exactly one occurrence of `c` when there
      is one, and keeps every other entry. */
  lemma UnsubscribeRemovesOneOccurrence<C>(subs: seq<C>, c: C, live: set<C>)
    requires c in live
    ensures multiset(Unsubscribed(subs, c, live)) ==
      if c in subs then multiset(subs) - multiset{c} else multiset(subs)
  {
    if c in subs {
      var i := FirstLiveIndex(subs, c, live).value;
      assert subs == subs[..i] + [subs[i]] + subs[i + 1..];
    }
  }

  /** Subscribing appends: unsubscribing right after a first subscription
      restores the list. */
  lemma SubscribeThenUnsubscribe<C>(subs: seq<C>, c: C, live: set<C>)
    requires c in live && c !in subs
    ensures Unsubscribed(subs + [c], c, live) == subs
  {
  }

  /** Subscribing twice leaves an entry after one unsubscribe, which the next
      notification pass still calls. */
  lemma SubscribeTwiceUnsubscribeOnce<C>(subs: seq<C>, c: C, live: set<C>)
    requires c in live && c !in subs
    ensures Unsubscribed(subs + [c, c], c, live) == subs + [c]
    ensures c in LiveTargets(Unsubscribed(subs + [c, c], c, live), live)
  {
    assert (subs + [c, c])[|subs|] == c;
    assert FirstLiveIndex(subs + [c, c], c, live) == Some(|subs|);
    assert (subs + [c, c])[..|subs|] == subs;
    assert (subs + [c, c])[|subs| + 1..] == [c];
    assert (subs + [c])[|subs|] == c;
    LiveTargetsMembership(subs + [c], c, live);
  }

  /** A subscriber registered at most once is not called after unsubscribing. */
  lemma UnsubscribedIsNotCalled<C>(subs: seq<C>, c: C, live: set<C>)
    requires c in live && multiset(subs)[c] <= 1
    ensures c !in LiveTargets(Unsubscribed(subs, c, live), live)
  {
    UnsubscribeRemovesOneOccurrence(subs, c, live);
    LiveTargetsMembership(Unsubscribed(subs, c, live), c, live);
  }

  /** The calls of `targets.HandleEventAsync`, one per target, in order. */
  function Calls<S, C>(targets: seq<C>): (r: seq<Event<S, C>>)
    ensures |r| == |targets|
    ensures forall k :: 0 <= k < |r| ==> r[k] == HandleEvent(targets[k])
  {
    seq(|targets|, k requires 0 <= k < |targets| => HandleEvent(targets[k]))
  }

  /** One notification pass: every live subscriber in list order, then the
      `StateChanged` event once with the new state. */
  function Notification<S, C(==)>(subs: seq<C>, live: set<C>, s: S): (r: seq<Event<S, C>>)
    ensures |r| == |LiveTargets(subs, live)| + 1
    ensures r[|r| - 1] == StateChanged(s)
    ensures forall k :: 0 <= k < |r| - 1 ==> r[k] == HandleEvent(LiveTargets(subs, live)[k])
  {
    Calls(LiveTargets(subs, live)) + [StateChanged(s)]
  }

  /** What a state assignment from `before` to `after` adds to the calls made:
      one notification pass if the two are distinct, nothing otherwise. */
  ghost function ChangeNotification<S, C>(before: S, after: S, subs: seq<C>, live: set<C>): seq<Event<S, C>>
  {
    if before != after then Notification(subs, live, after) else []
  }

  /** A pass calls a component exactly when it has an entry and has not been
      reclaimed, and raises `StateChanged` with the new state exactly once. */
  lemma NotificationMembership<S, C>(subs: seq<C>, live: set<C>, s: S, c: C)
    ensures HandleEvent(c) in Notification(subs, live, s) <==> c in subs && c in live
    ensures multiset(Notification(subs, live, s))[StateChanged(s)] == 1
  {
    var t := LiveTargets(subs, live);
    var calls := Calls<S, C>(t);
    assert Notification(subs, live, s) == calls + [StateChanged(s)];
    LiveTargetsMembership(subs, c, live);
    if c in t {
      var k :| 0 <= k < |t| && t[k] == c;
      assert calls[k] == HandleEvent(c);
    }
    assert StateChanged(s) !in calls;
    assert multiset(calls)[StateChanged(s)] == 0;
  }

  /** One step of the notification loop: entry `i` adds its target to the
      live targets and one call to the calls exactly when it has not expired. */
  lemma NotificationStep<S, C>(subs: seq<C>, i: nat, live: set<C>)
    requires i < |subs|
    ensures LiveTargets(subs[..i + 1], live) ==
      LiveTargets(subs[..i], live) + if subs[i] in live then [subs[i]] else []
    ensures Calls<S, C>(LiveTargets(subs[..i], live) + [subs[i]]) ==
      Calls<S, C>(LiveTargets(subs[..i], live)) + [HandleEvent(subs[i])]
  {
    assert subs[..i + 1] == subs[..i] + [subs[i]];
    LiveTargetsConcat(subs[..i], [subs[i]], live);
    assert [subs[i]][1..] == [];
  }
}
