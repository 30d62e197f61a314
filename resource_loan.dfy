/**
 * A loan (lib/resource_loan.ts): a Deferred bound to the pooled resource it
 * lends out, whose `reject` is overridden by a no-op, so that it can only be
 * resolved. The `extends Deferred` of the source is modelled by composition:
 * the loan owns the Deferred cell that its inherited methods act on.
 */
module ResourceLoans {
  import opened Common
  import opened Deferreds

  /** The two operations a loan offers, for reasoning about any run of them. */
  datatype LoanCall = CallResolve | CallReject

  /** The loan's state after a run of calls: `reject` never moves it. */
  function LoanRun(s: State, calls: seq<LoanCall>): State
    decreases |calls|
  {
    if calls == [] then s
    else LoanRun(if calls[0] == CallResolve then Settle(s, FULFILLED) else s, calls[1..])
  }

  /** Starting from PENDING, no run of calls ever makes a loan REJECTED. */
  lemma {:induction false} LoanNeverRejected(s: State, calls: seq<LoanCall>)
    requires s != REJECTED
    ensures LoanRun(s, calls) != REJECTED
    ensures CallResolve in calls ==> LoanRun(s, calls) == FULFILLED
    ensures CallResolve !in calls ==> LoanRun(s, calls) == s
    decreases |calls|
  {
    if calls != [] {
      var next := if calls[0] == CallResolve then Settle(s, FULFILLED) else s;
      LoanNeverRejected(next, calls[1..]);
      assert calls == [calls[0]] + calls[1..];
      if calls[0] == CallResolve {
        ResolvedLoanStaysFulfilled(calls[1..]);
      }
    }
  }

  /** Once fulfilled, a loan stays fulfilled whatever is called on it. */
  lemma {:induction false} ResolvedLoanStaysFulfilled(calls: seq<LoanCall>)
    ensures LoanRun(FULFILLED, calls) == FULFILLED
    decreases |calls|
  {
    if calls != [] {
      ResolvedLoanStaysFulfilled(calls[1..]);
    }
  }

  class ResourceLoan<T> {
    /** The resource this loan lends out; fixed for the loan's lifetime. */
    const pooledResource: T
    const creationTimestamp: int
    const deferred: Deferred<T>

    ghost predicate Valid()
      reads this, deferred
    {
      deferred.state != REJECTED
    }

    constructor (pooledResource: T, now: int)
      ensures Valid() && fresh(deferred)
      ensures deferred.state == PENDING
      ensures this.pooledResource == pooledResource && creationTimestamp == now
    {
      deferred := new Deferred();
      creationTimestamp := now;
      this.pooledResource := pooledResource;
    }

    /** The inherited `resolve()`, called by the pool with no value. */
    method Resolve()
      requires Valid()
      modifies deferred
      ensures Valid()
      ensures deferred.state == FULFILLED
      ensures old(deferred.state) == FULFILLED ==> deferred.value == old(deferred.value)
    {
      deferred.Resolve(None);
    }

    /** Loans can only be resolved: `reject` does nothing in every state. */
    method Reject(e: Error)
      requires Valid()
      ensures Valid()
      ensures deferred.state == old(deferred.state) && deferred.reason == old(deferred.reason)
    {
    }
  }
}
