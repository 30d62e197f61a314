/**
 * A borrower's pending request (lib/resource_request.ts): a Deferred with at
 * most one armed timeout. The timer service is not modelled; an armed timer is
 * recorded by a flag and the delay it was armed with, and the clock is the
 * parameter `now`.
 */
module ResourceRequests {
  import opened Common
  import opened Deferreds

  /** `setTimeout`'s validation of the delay (a non-numeric delay is not modelled). */
  function DelayError(ttl: int): (e: Option<Error>)
    ensures e.Some? <==> ttl <= 0
    ensures e.Some? ==> e.value == DelayNotPositive
  {
    if ttl <= 0 then Some(DelayNotPositive) else None
  }

  /** The delay handed to the timer: the time left of `ttl` after `age`, never negative. */
  function RemainingDelay(ttl: int, age: int): (d: int)
    ensures d >= 0
    ensures d >= ttl - age
    ensures d == 0 || d == ttl - age
  {
    if ttl - age > 0 then ttl - age else 0
  }

  /** A request armed at its creation instant waits for its whole ttl. */
  lemma FreshRequestWaitsWholeTtl(ttl: int)
    requires DelayError(ttl) == None
    ensures RemainingDelay(ttl, 0) == ttl
  {
  }

  /** The later the timer is (re)armed, the shorter the delay: the deadline stays put. */
  lemma DeadlineFixed(ttl: int, age: int)
    requires 0 <= age <= ttl
    ensures age + RemainingDelay(ttl, age) == ttl
  {
  }

  class ResourceRequest<T> {
    const creationTimestamp: int
    const deferred: Deferred<T>
    /** `#timeout !== null`: a timer is armed. */
    var timeoutArmed: bool
    /** The delay the armed timer was given. */
    var armedDelay: int
    /** The number of timers handed to the timer service and not yet cleared. */
    ghost var outstandingTimers: nat

    ghost predicate Valid()
      reads this, deferred
    {
      && outstandingTimers == (if timeoutArmed then 1 else 0)
      && (timeoutArmed ==> deferred.state == PENDING && armedDelay >= 0)
    }

    /** The constructor up to, not including, its call to `setTimeout`. */
    constructor (now: int)
      ensures Valid() && fresh(deferred)
      ensures deferred.state == PENDING && deferred.value == None && deferred.reason == None
      ensures creationTimestamp == now && !timeoutArmed
    {
      deferred := new Deferred();
      creationTimestamp := now;
      timeoutArmed := false;
      armedDelay := 0;
      outstandingTimers := 0;
    }

    /**
     * The whole constructor: with a ttl it arms a timer, and a non-positive ttl
     * makes it throw (`thrown`), in which case the caller never sees the request.
     */
    static method Create(ttl: Option<int>, now: int) returns (r: ResourceRequest<T>, thrown: Option<Error>)
      ensures fresh(r) && fresh(r.deferred) && r.Valid()
      ensures r.deferred.state == PENDING && r.creationTimestamp == now
      ensures ttl == None ==> thrown == None && !r.timeoutArmed
      ensures ttl.Some? ==> thrown == DelayError(ttl.value)
      ensures ttl.Some? && thrown == None ==> r.timeoutArmed && r.armedDelay == ttl.value
    {
      r := new ResourceRequest(now);
      thrown := None;
      if ttl.Some? {
        thrown := r.SetTimeout(ttl.value, now);
      }
    }

    method SetTimeout(delay: int, now: int) returns (thrown: Option<Error>)
      requires Valid()
      modifies this
      ensures Valid()
      ensures deferred.state != PENDING ==> thrown == None && unchanged(this)
      ensures deferred.state == PENDING ==> thrown == DelayError(delay)
      ensures deferred.state == PENDING && thrown.Some? ==> unchanged(this)
      ensures deferred.state == PENDING && thrown == None ==>
                timeoutArmed && armedDelay == RemainingDelay(delay, now - creationTimestamp)
    {
      thrown := None;
      if deferred.state != PENDING {
        return;
      }
      var ttl := delay;
      if ttl <= 0 {
        thrown := Some(DelayNotPositive);
        return;
      }
      var age := now - creationTimestamp;
      if timeoutArmed {
        RemoveTimeout();
      }
      timeoutArmed := true;
      armedDelay := if ttl - age > 0 then ttl - age else 0;
      outstandingTimers := outstandingTimers + 1;
    }

    method RemoveTimeout()
      requires Valid()
      modifies this
      ensures Valid() && !timeoutArmed && outstandingTimers == 0
      ensures armedDelay == old(armedDelay)
    {
      if timeoutArmed {
        outstandingTimers := outstandingTimers - 1;
      }
      timeoutArmed := false;
    }

    /** The timer's callback. */
    method FireTimeout()
      requires Valid()
      modifies this, deferred
      ensures Valid() && !timeoutArmed
      ensures deferred.state == Settle(old(deferred.state), REJECTED)
      ensures old(deferred.state) == PENDING ==> deferred.reason == Some(TimeoutError)
      ensures old(deferred.state) != PENDING ==> unchanged(deferred)
    {
      Reject(TimeoutError);
    }

    method Reject(e: Error)
      requires Valid()
      modifies this, deferred
      ensures Valid() && !timeoutArmed
      ensures deferred.state == Settle(old(deferred.state), REJECTED)
      ensures old(deferred.state) == PENDING ==> deferred.reason == Some(e)
      ensures old(deferred.state) != PENDING ==> unchanged(deferred)
    {
      RemoveTimeout();
      deferred.Reject(e);
    }

    method Resolve(v: T)
      requires Valid()
      modifies this, deferred
      ensures Valid() && !timeoutArmed
      ensures deferred.state == Settle(old(deferred.state), FULFILLED)
      ensures old(deferred.state) == PENDING ==> deferred.value == Some(v)
      ensures old(deferred.state) != PENDING ==> unchanged(deferred)
    {
      RemoveTimeout();
      deferred.Resolve(Some(v));
    }
  }
}
