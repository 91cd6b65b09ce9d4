/** Keyed operations: a key row and the operation's effects commit in one transaction, or neither does. */
module Idempotency {
  import opened Collections

  /** What an operation does to the state of the hotel: its effects and result, or an exception. */
  datatype Outcome<S, R> = Committed(state: S, result: R) | RolledBack

  /** A stored operation.  `request` is the text whose hash is stored. */
  datatype Operation<R> = Operation(propertyId: string, request: string, result: Option<R>, attempts: nat)

  /** One tenant's data: keys are unique per tenant, whatever the property. */
  datatype Store<S, R> = Store(state: S, operations: map<string, Operation<R>>)

  datatype Response<R> = Returned(result: R) | KeyConflict | InProgress | KeyRequired | Threw

  /** One call, with whatever effect its operation would have this time. */
  datatype Attempt<!S, !R> = Attempt(key: string, propertyId: string, request: string, effect: S -> Outcome<S, R>)

  predicate Blank(key: string) {
    forall i :: 0 <= i < |key| ==> key[i] == ' ' || key[i] == '\t' || key[i] == '\n' || key[i] == '\r'
  }

  function Perform<S, R>(store: Store<S, R>, a: Attempt<S, R>): (Store<S, R>, Response<R>) {
    if Blank(a.key) then (store, KeyRequired)
    else if a.key in store.operations then
      var operation := store.operations[a.key];
      if operation.propertyId != a.propertyId || operation.request != a.request then (store, KeyConflict)
      else
        (store.(operations := store.operations[a.key := operation.(attempts := operation.attempts + 1)]),
         if operation.result.Some? then Returned(operation.result.value) else InProgress)
    else
      match a.effect(store.state)
      case RolledBack => (store, Threw)
      case Committed(state, result) =>
        (Store(state, store.operations[a.key := Operation(a.propertyId, a.request, Some(result), 1)]), Returned(result))
  }

  /** The provider: its state and the operations table. */
  class Provider<S, R> {
    var state: S
    var operations: map<string, Operation<R>>

    constructor (state: S)
      ensures this.state == state && operations == map[]
    {
      this.state, operations := state, map[];
    }

    method WithIdempotency(a: Attempt<S, R>) returns (response: Response<R>)
      modifies this
      ensures (Store(state, operations), response) == Perform(old(Store(state, operations)), a)
    {
      if Blank(a.key) {
        return KeyRequired;
      }
      var stateBefore, operationsBefore := state, operations;
      if a.key !in operations {
        operations := operations[a.key := Operation(a.propertyId, a.request, None, 1)];
        var outcome := a.effect(state);
        match outcome
        case RolledBack =>
          state, operations := stateBefore, operationsBefore;
          return Threw;
        case Committed(after, result) =>
          state := after;
          operations := operations[a.key := operations[a.key].(result := Some(result))];
          assert operations == operationsBefore[a.key := Operation(a.propertyId, a.request, Some(result), 1)];
          return Returned(result);
      }
      var operation := operations[a.key];
      if operation.propertyId != a.propertyId || operation.request != a.request {
        return KeyConflict;
      }
      operations := operations[a.key := operation.(attempts := operation.attempts + 1)];
      return if operation.result.Some? then Returned(operation.result.value) else InProgress;
    }
  }

  function Run<S, R>(store: Store<S, R>, history: seq<Attempt<S, R>>): Store<S, R>
    decreases history
  {
    if history == [] then store else Run(Perform(store, history[0]).0, history[1..])
  }

  // ---------------------------------------------------------------- retries change nothing

  /** The attempt runs its operation to a commit. */
  ghost predicate Commits<S, R>(store: Store<S, R>, a: Attempt<S, R>) {
    !Blank(a.key) && a.key !in store.operations && a.effect(store.state).Committed?
  }

  /** The history with everything removed that did not commit: retries, conflicts and failures. */
  ghost function Effective<S, R>(store: Store<S, R>, history: seq<Attempt<S, R>>): seq<Attempt<S, R>>
    decreases history
  {
    if history == [] then []
    else
      (if Commits(store, history[0]) then [history[0]] else [])
      + Effective(Perform(store, history[0]).0, history[1..])
  }

  /** Effects applied one after the other, with no keys at all. */
  ghost function Replay<S, R>(state: S, attempts: seq<Attempt<S, R>>): S {
    if attempts == [] then state
    else
      match attempts[0].effect(state)
      case RolledBack => Replay(state, attempts[1..])
      case Committed(after, _) => Replay(after, attempts[1..])
  }

  /** Every stored operation has its result. */
  ghost predicate AllResolved<S, R>(store: Store<S, R>) {
    forall k :: k in store.operations ==> store.operations[k].result.Some?
  }

  lemma {:induction false} StaysResolved<S, R>(store: Store<S, R>, a: Attempt<S, R>)
    requires AllResolved(store)
    ensures AllResolved(Perform(store, a).0)
    ensures Perform(store, a).1 != InProgress
  {
  }

  /** The state is that of the committed attempts alone, each applied once, and no key commits twice. */
  lemma {:induction false} RunIsReplay<S, R>(store: Store<S, R>, history: seq<Attempt<S, R>>)
    ensures var effective := Effective(store, history);
            && Run(store, history).state == Replay(store.state, effective)
            && (forall i :: 0 <= i < |effective| ==> effective[i].key !in store.operations)
            && (forall i, j :: 0 <= i < j < |effective| ==> effective[i].key != effective[j].key)
    decreases history
  {
    if history != [] {
      var next := Perform(store, history[0]).0;
      RunIsReplay(next, history[1..]);
      assert forall k :: k in store.operations ==> k in next.operations;
      var effective := Effective(store, history);
      if Commits(store, history[0]) {
        assert effective[0] == history[0] && effective[1..] == Effective(next, history[1..]);
      } else {
        assert effective == Effective(next, history[1..]) && next.state == store.state;
      }
    }
  }

  /** What the retries left out of the history did to the table: only attempt counts. */
  ghost predicate SameButAttempts<S, R>(a: Store<S, R>, b: Store<S, R>) {
    && a.state == b.state && a.operations.Keys == b.operations.Keys
    && forall k :: k in a.operations ==> a.operations[k].(attempts := 0) == b.operations[k].(attempts := 0)
  }

  /** Removing every attempt that did not commit gives the same final state and the same stored results. */
  lemma {:induction false} RetriesAreInvisible<S, R>(store: Store<S, R>, other: Store<S, R>,
      history: seq<Attempt<S, R>>)
    requires SameButAttempts(store, other)
    ensures SameButAttempts(Run(store, history), Run(other, Effective(store, history)))
    decreases history
  {
    if history != [] {
      var next := Perform(store, history[0]).0;
      if Commits(store, history[0]) {
        RetriesAreInvisible(next, Perform(other, history[0]).0, history[1..]);
        assert Effective(store, history)[1..] == Effective(next, history[1..]);
      } else {
        assert SameButAttempts(next, other);
        RetriesAreInvisible(next, other, history[1..]);
        assert Effective(store, history) == Effective(next, history[1..]);
      }
    }
  }

  /** A stored operation keeps its request and result over any further history. */
  lemma {:induction false} OperationNeverChanges<S, R>(store: Store<S, R>, history: seq<Attempt<S, R>>, key: string)
    requires key in store.operations
    ensures key in Run(store, history).operations
    ensures var before, after := store.operations[key], Run(store, history).operations[key];
            after.(attempts := 0) == before.(attempts := 0) && after.attempts >= before.attempts
    decreases history
  {
    if history != [] {
      OperationNeverChanges(Perform(store, history[0]).0, history[1..], key);
    }
  }

  /** After a commit, whatever happens in between: the same request returns the first result, and the key
      with another request or property is refused; neither touches the state. */
  lemma {:induction false} RetryReturnsFirstResult<S, R>(
    store: Store<S, R>, first: Attempt<S, R>, between: seq<Attempt<S, R>>, again: Attempt<S, R>)
    requires Commits(store, first) && again.key == first.key
    ensures var later := Run(Perform(store, first).0, between);
            var answer := Perform(later, again);
            && answer.0.state == later.state
            && answer.1 == (if again.propertyId == first.propertyId && again.request == first.request
                            then Perform(store, first).1 else KeyConflict)
            && (answer.1 == KeyConflict ==> answer.0 == later)
  {
    OperationNeverChanges(Perform(store, first).0, between, first.key);
  }

  /** No caller is ever told that an operation is in progress: a key is visible only with its result. */
  lemma {:induction false} NeverInProgress<S, R>(store: Store<S, R>, history: seq<Attempt<S, R>>, a: Attempt<S, R>)
    requires AllResolved(store)
    ensures AllResolved(Run(store, history))
    ensures Perform(Run(store, history), a).1 != InProgress
    decreases history
  {
    if history == [] {
      StaysResolved(store, a);
    } else {
      StaysResolved(store, history[0]);
      NeverInProgress(Perform(store, history[0]).0, history[1..], a);
    }
  }
}
