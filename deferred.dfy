/**
 * A settle-once cell with three states (lib/deferred.ts): it starts PENDING,
 * and only the first `resolve` or `reject` takes effect.
 */
module Deferreds {
  import opened Common

  datatype State = PENDING | FULFILLED | REJECTED

  /**
   * The state after an attempt to settle a cell in state `s` towards `target`:
   * the guard `#state !== PENDING` makes any attempt on a settled cell a no-op.
   */
  function Settle(s: State, target: State): (r: State)
    requires target != PENDING
    ensures r != PENDING
    ensures s == PENDING ==> r == target
    ensures s != PENDING ==> r == s
  {
    if s == PENDING then target else s
  }

  /** A sequence of settlement attempts, applied in order. */
  function SettleAll(s: State, attempts: seq<State>): (r: State)
    requires forall i :: 0 <= i < |attempts| ==> attempts[i] != PENDING
    decreases |attempts|
  {
    if attempts == [] then s else SettleAll(Settle(s, attempts[0]), attempts[1..])
  }

  /** Whatever attempts follow, a pending cell ends in the state of the first one. */
  lemma {:induction false} FirstSettlementWins(attempts: seq<State>)
    requires forall i :: 0 <= i < |attempts| ==> attempts[i] != PENDING
    requires attempts != []
    ensures SettleAll(PENDING, attempts) == attempts[0]
  {
    SettledStaysPut(attempts[0], attempts[1..]);
  }

  /** A settled cell never changes again, and in particular never returns to PENDING. */
  lemma {:induction false} SettledStaysPut(s: State, attempts: seq<State>)
    requires s != PENDING
    requires forall i :: 0 <= i < |attempts| ==> attempts[i] != PENDING
    ensures SettleAll(s, attempts) == s
  {
    if attempts != [] {
      SettledStaysPut(Settle(s, attempts[0]), attempts[1..]);
    }
  }

  class Deferred<T> {
    var state: State
    /** The value the promise was fulfilled with (`undefined` is `None`). */
    var value: Option<T>
    /** The reason the promise was rejected with. */
    var reason: Option<Error>

    constructor ()
      ensures state == PENDING && value == None && reason == None
    {
      state := PENDING;
      value := None;
      reason := None;
    }

    method Reject(e: Error)
      modifies this
      ensures state == Settle(old(state), REJECTED)
      ensures old(state) == PENDING ==> reason == Some(e) && value == old(value)
      ensures old(state) != PENDING ==> unchanged(this)
    {
      if state != PENDING {
        return;
      }
      state := REJECTED;
      reason := Some(e);
    }

    method Resolve(v: Option<T>)
      modifies this
      ensures state == Settle(old(state), FULFILLED)
      ensures old(state) == PENDING ==> value == v && reason == old(reason)
      ensures old(state) != PENDING ==> unchanged(this)
    {
      if state != PENDING {
        return;
      }
      state := FULFILLED;
      value := v;
    }
  }
}
