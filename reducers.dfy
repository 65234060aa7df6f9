/** Reducers and the specification of how a feature folds them over an action. */
module Reducers {
  import opened Wrappers

  /** A reducer: a test that decides whether it applies to an action, and a
      transform from the old state and the action to the new state, which may
      throw. */
  datatype Reducer<!S, !A> = Reducer(shouldReduce: A -> bool, reduce: (S, A) -> Result<S>)

  /** The reducers of `rs` that apply to `a`, in registration order. */
  function Applicable<S, A>(rs: seq<Reducer<S, A>>, a: A): (r: seq<Reducer<S, A>>)
    ensures |r| <= |rs|
    ensures forall k :: 0 <= k < |r| ==> r[k].shouldReduce(a)
    ensures (forall k :: 0 <= k < |rs| ==> rs[k].shouldReduce(a)) ==> r == rs
    ensures (forall k :: 0 <= k < |rs| ==> !rs[k].shouldReduce(a)) ==> r == []
  {
    if rs == [] then []
    else (if rs[0].shouldReduce(a) then [rs[0]] else []) + Applicable(rs[1..], a)
  }

  /** A reducer is selected exactly when it is registered and accepts the action. */
  lemma {:induction false} ApplicableMembership<S, A>(rs: seq<Reducer<S, A>>, x: Reducer<S, A>, a: A)
    ensures x in Applicable(rs, a) <==> x in rs && x.shouldReduce(a)
  {
    if rs != [] {
      assert rs == [rs[0]] + rs[1..];
      ApplicableMembership(rs[1..], x, a);
    }
  }

  /** An accepting reducer is selected once per registration; a rejecting one never. */
  lemma {:induction false} ApplicableCount<S, A>(rs: seq<Reducer<S, A>>, x: Reducer<S, A>, a: A)
    ensures multiset(Applicable(rs, a))[x] == if x.shouldReduce(a) then multiset(rs)[x] else 0
  {
    if rs != [] {
      assert rs == [rs[0]] + rs[1..];
      ApplicableCount(rs[1..], x, a);
    }
  }

  /** Left fold of `rs` over `a` starting from `s`: each reducer receives the
      previous reducer's output, and the first one that throws stops the fold. */
  function Fold<S, A>(rs: seq<Reducer<S, A>>, s: S, a: A): Result<S>
  {
    if rs == [] then Ok(s)
    else match rs[0].reduce(s, a)
      case Err(e) => Err(e)
      case Ok(t) => Fold(rs[1..], t, a)
  }

  /** The outcome of dispatching `a` to a feature with reducers `rs` in state `s`. */
  function Dispatched<S, A>(rs: seq<Reducer<S, A>>, s: S, a: A): Result<S>
  {
    Fold(Applicable(rs, a), s, a)
  }

  /** The outcome of dispatching `a` `n` times in a row; a throw stops the run. */
  function DispatchedRepeatedly<S, A>(rs: seq<Reducer<S, A>>, s: S, a: A, n: nat): Result<S>
  {
    if n == 0 then Ok(s)
    else match DispatchedRepeatedly(rs, s, a, n - 1)
      case Err(e) => Err(e)
      case Ok(t) => Dispatched(rs, t, a)
  }

  /** Selecting the applicable reducers distributes over concatenation: the
      selection keeps registration order. */
  lemma {:induction false} ApplicableConcat<S, A>(xs: seq<Reducer<S, A>>, ys: seq<Reducer<S, A>>, a: A)
    ensures Applicable(xs + ys, a) == Applicable(xs, a) + Applicable(ys, a)
  {
    if xs == [] {
      assert xs + ys == ys;
    } else {
      var head := if xs[0].shouldReduce(a) then [xs[0]] else [];
      assert (xs + ys)[0] == xs[0];
      assert (xs + ys)[1..] == xs[1..] + ys;
      ApplicableConcat(xs[1..], ys, a);
      calc {
        Applicable(xs + ys, a);
        head + Applicable(xs[1..] + ys, a);
        head + (Applicable(xs[1..], a) + Applicable(ys, a));
        (head + Applicable(xs[1..], a)) + Applicable(ys, a);
      }
    }
  }

  /** Folding a concatenation folds the first part, then the second part from
      the intermediate state; a throw in the first part is final. */
  lemma {:induction false} FoldConcat<S, A>(xs: seq<Reducer<S, A>>, ys: seq<Reducer<S, A>>, s: S, a: A)
    ensures Fold(xs + ys, s, a) == match Fold(xs, s, a)
      case Err(e) => Err(e)
      case Ok(t) => Fold(ys, t, a)
  {
    if xs == [] {
      assert xs + ys == ys;
    } else {
      assert (xs + ys)[0] == xs[0];
      assert (xs + ys)[1..] == xs[1..] + ys;
      match xs[0].reduce(s, a)
      case Err(e) =>
      case Ok(t) => FoldConcat(xs[1..], ys, t, a);
    }
  }

  /** A reducer registered last runs last, on the state the earlier reducers
      produced, and only if it applies to the action. */
  lemma DispatchedAfterAddReducer<S, A>(rs: seq<Reducer<S, A>>, r: Reducer<S, A>, s: S, a: A)
    ensures Dispatched(rs + [r], s, a) == match Dispatched(rs, s, a)
      case Err(e) => Err(e)
      case Ok(t) => if r.shouldReduce(a) then r.reduce(t, a) else Ok(t)
  {
    ApplicableConcat(rs, [r], a);
    FoldConcat(Applicable(rs, a), Applicable([r], a), s, a);
    assert [r][1..] == [];
  }

  /** When no reducer applies, dispatch returns the very same state. */
  lemma NoApplicableReducerKeepsState<S, A>(rs: seq<Reducer<S, A>>, s: S, a: A)
    requires forall k :: 0 <= k < |rs| ==> !rs[k].shouldReduce(a)
    ensures Dispatched(rs, s, a) == Ok(s)
  {
  }

  /** Both of two applicable reducers run, the second on the first's output. */
  lemma TwoApplicableReducersCompose<S, A>(r1: Reducer<S, A>, r2: Reducer<S, A>, s: S, a: A)
    requires r1.shouldReduce(a) && r2.shouldReduce(a)
    ensures Dispatched([r1, r2], s, a) == match r1.reduce(s, a)
      case Err(e) => Err(e)
      case Ok(t) => r2.reduce(t, a)
  {
    DispatchedAfterAddReducer([r1], r2, s, a);
    assert [r1] + [r2] == [r1, r2];
    assert [r1][1..] == [];
    assert Applicable([r1], a) == [r1];
    match r1.reduce(s, a)
    case Err(e) =>
    case Ok(t) => assert Dispatched([r1], s, a) == Fold([], t, a) == Ok(t);
  }

  /** One step of the dispatch loop: reducer `i` extends the fold when it
      applies to the action, and is skipped otherwise. */
  lemma DispatchStep<S, A>(rs: seq<Reducer<S, A>>, i: nat, s: S, a: A, t: S)
    requires i < |rs| && Fold(Applicable(rs[..i], a), s, a) == Ok(t)
    ensures Fold(Applicable(rs[..i + 1], a), s, a) ==
      if rs[i].shouldReduce(a) then rs[i].reduce(t, a) else Ok(t)
  {
    assert rs[..i + 1] == rs[..i] + [rs[i]];
    ApplicableConcat(rs[..i], [rs[i]], a);
    FoldConcat(Applicable(rs[..i], a), Applicable([rs[i]], a), s, a);
    assert [rs[i]][1..] == [];
    if rs[i].shouldReduce(a) {
      match rs[i].reduce(t, a)
      case Err(e) =>
      case Ok(u) => assert Fold(Applicable([rs[i]], a), t, a) == Fold([], u, a);
    }
  }

  /** A throw in a prefix of the reducers is the outcome of the whole dispatch. */
  lemma DispatchFailureIsFinal<S, A>(rs: seq<Reducer<S, A>>, i: nat, s: S, a: A, e: Error)
    requires i <= |rs| && Fold(Applicable(rs[..i], a), s, a) == Err(e)
    ensures Dispatched(rs, s, a) == Err(e)
  {
    assert rs == rs[..i] + rs[i..];
    ApplicableConcat(rs[..i], rs[i..], a);
    FoldConcat(Applicable(rs[..i], a), Applicable(rs[i..], a), s, a);
  }
}
