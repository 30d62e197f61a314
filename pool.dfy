/**
 * The `Pool` class of lib/pool.ts with its fields updated in place and the
 * `for` loops of `_dispense`, `_ensureMinimum` and `_evict`. Every method is
 * proved to leave the fields as the matching step function of `PoolStates`
 * says, so whatever is proved about those functions holds of the class.
 */
module Pools {
  import opened Common
  import opened Seqs
  import opened Deferreds
  import opened ResourceRequests
  import opened ListIterators
  import opened Deques
  import opened PriorityQueues
  import opened DefaultEvictor
  import opened PoolDefaults
  import opened PoolStates

  class Pool {
    const config: PoolConfig
    var draining: bool
    var started: bool
    var waiting: seq<seq<Id>>
    var requests: map<Id, Request>
    var available: seq<Entry>
    var allObjects: set<Id>
    var resState: map<Id, ResourceState>
    var lastIdle: map<Id, int>
    var loans: set<Id>
    var creates: set<Id>
    var destroys: set<Id>
    var validations: map<Id, Id>
    var testOnBorrow: set<Id>
    var evictionCursor: IterState<Entry>
    var nextId: Id

    /** The fields, read as one state. */
    function State(): PoolState
      reads this
    {
      PoolState(draining, started, Clients(waiting, requests),
                Resources(available, allObjects, resState, lastIdle, loans, testOnBorrow, validations),
                creates, destroys, evictionCursor, nextId)
    }

    /** `new Pool(factory, options)`, with `options` already merged into `config`. */
    constructor (config: PoolConfig)
      ensures this.config == config && State() == Initial(config)
    {
      this.config := config;
      draining := false;
      started := false;
      waiting := seq(SlotCount(config.priorityRange), _ => []);
      requests := map[];
      available := [];
      allObjects := {};
      resState := map[];
      lastIdle := map[];
      loans := {};
      creates := {};
      destroys := {};
      validations := map[];
      testOnBorrow := {};
      evictionCursor := Unstarted();
      nextId := 0;
      new;
      if config.autostart {
        Start();
      }
    }

    method CreateResource()
      modifies this
      ensures State() == PoolStates.CreateResource(old(State()))
    {
      creates := creates + {nextId};
      nextId := nextId + 1;
    }

    method AddToAvailable(r: Id, now: int)
      modifies this
      ensures State() == PoolStates.AddToAvailable(config, old(State()), r, now)
    {
      var e := Entry(nextId, r);
      var avail := if config.fifo then Pushed(available, e) else Unshifted(available, e);
      resState, lastIdle, available, nextId := resState[r := IDLE], lastIdle[r := now], avail, nextId + 1;
    }

    method DispatchToNext(r: Id, now: int)
      modifies this
      ensures State() == PoolStates.DispatchToNext(config, old(State()), r, now)
    {
      var (next, rest) := Dequeued(waiting);
      waiting := rest;
      if next.None? || next.value !in requests || requests[next.value].state != PENDING {
        AddToAvailable(r, now);
        return;
      }
      loans, resState, requests :=
        loans + {r}, resState[r := ALLOCATED], requests[next.value := Request(FULFILLED, Some(r), false)];
    }

    method DispatchResource(now: int)
      modifies this
      ensures State() == PoolStates.DispatchResource(config, old(State()), now)
    {
      if |available| < 1 {
        return;
      }
      var r := available[0].res;
      available := available[1..];
      DispatchToNext(r, now);
    }

    method TestOnBorrow()
      modifies this
      ensures State() == PoolStates.TestOnBorrow(old(State()))
    {
      if |available| < 1 {
        return;
      }
      var r := available[0].res;
      available, resState, testOnBorrow, validations, nextId :=
        available[1..], resState[r := VALIDATION], testOnBorrow + {r}, validations[nextId := r], nextId + 1;
    }

    method Dispense(now: int)
      modifies this
      ensures State() == PoolStates.Dispense(config, old(State()), now)
    {
      var waitingCount := Pending(State());
      if waitingCount < 1 {
        return;
      }
      var toCreate := CreationsToStart(config, State());
      ghost var s0 := State();
      for i := 0 to toCreate
        invariant State() == CreateMany(s0, i)
      {
        CreateResource();
      }
      ghost var s1 := State();
      if config.testOnBorrow {
        var toTest := Iterations(Min(|available|, waitingCount - |testOnBorrow|));
        for i := 0 to toTest
          invariant State() == TestMany(s1, i)
        {
          TestOnBorrow();
        }
      } else {
        var toDispatch := Iterations(Min(|available|, waitingCount));
        for i := 0 to toDispatch
          invariant State() == DispatchMany(config, s1, i, now)
        {
          DispatchResource(now);
        }
      }
    }

    method EnsureMinimum()
      modifies this
      ensures State() == PoolStates.EnsureMinimum(config, old(State()))
    {
      if draining {
        return;
      }
      var shortfall := Iterations(MinShortfallAsWritten(config.min, Count(State())));
      ghost var s0 := State();
      for i := 0 to shortfall
        invariant State() == CreateMany(s0, i)
      {
        CreateResource();
      }
    }

    /** `_destroy`. */
    method DestroyResource(r: Id)
      modifies this
      ensures State() == PoolStates.DestroyResource(config, old(State()), r)
    {
      Discard(r);
      EnsureMinimum();
    }

    /** `_destroy` up to its call to `_ensureMinimum`. */
    method Discard(r: Id)
      modifies this
      ensures State() == Discarded(old(State()), r)
    {
      resState, allObjects, destroys, nextId := resState[r := INVALID], allObjects - {r}, destroys + {nextId}, nextId + 1;
    }

    method Start()
      modifies this
      ensures State() == PoolStates.Start(config, old(State()))
    {
      if draining || started {
        return;
      }
      started := true;
      EnsureMinimum();
    }

    method Acquire(priority: int, now: int) returns (o: Outcome<Id>)
      requires |waiting| >= 1
      modifies this
      ensures (State(), o) == PoolStates.Acquire(config, old(State()), priority, now)
    {
      if !started && !config.autostart {
        Start();
      }
      if draining {
        return Fail(PoolDraining);
      }
      if WaitingLimitReached(config, State()) {
        return Fail(MaxWaitingClientsExceeded);
      }
      if config.acquireTimeoutMillis.Some? && DelayError(config.acquireTimeoutMillis.value).Some? {
        return Fail(DelayNotPositive);
      }
      ghost var s := State();
      var id := nextId;
      requests := requests[id := Request(PENDING, None, config.acquireTimeoutMillis.Some?)];
      waiting := Enqueued(waiting, id, Some(priority));
      nextId := id + 1;
      assert State() == AddRequest(config, s, priority);
      Dispense(now);
      return Ok(id);
    }

    /** `isBorrowedResource`. */
    function IsBorrowed(r: Id): (b: bool)
      reads this
      ensures b <==> r in State().res.loans
    {
      r in loans
    }

    method Release(r: Id, now: int) returns (o: Outcome<()>)
      modifies this
      ensures (State(), o) == PoolStates.Release(config, old(State()), r, now)
    {
      if r !in loans {
        return Fail(NotPartOfPool);
      }
      loans := loans - {r};
      AddToAvailable(r, now);
      Dispense(now);
      return Ok(());
    }

    method Destroy(r: Id, now: int) returns (o: Outcome<()>)
      modifies this
      ensures (State(), o) == PoolStates.Destroy(config, old(State()), r, now)
    {
      if r !in loans {
        return Fail(NotPartOfPool);
      }
      loans := loans - {r};
      DestroyResource(r);
      Dispense(now);
      return Ok(());
    }

    method Drain()
      modifies this
      ensures State() == PoolStates.Drain(old(State()))
    {
      draining := true;
    }

    /** The `then` of the factory's `create` promise. */
    method Created(now: int)
      modifies this
      ensures State() == PoolStates.Created(config, old(State()), now)
    {
      var r := nextId;
      allObjects, nextId := allObjects + {r}, r + 1;
      AddToAvailable(r, now);
    }

    method CreateSucceeded(op: Id, now: int)
      modifies this
      ensures State() == PoolStates.CreateSucceeded(config, old(State()), op, now)
    {
      Created(now);
      creates := creates - {op};
      Dispense(now);
    }

    method CreateFailed(op: Id, now: int)
      modifies this
      ensures State() == PoolStates.CreateFailed(config, old(State()), op, now)
    {
      creates := creates - {op};
      Dispense(now);
    }

    method ValidationReturned(op: Id, isValid: Option<bool>, now: int)
      requires op in validations
      modifies this
      ensures State() == PoolStates.ValidationReturned(config, old(State()), op, isValid, now)
    {
      ghost var s := State();
      var r := validations[op];
      validations := validations - {op};
      testOnBorrow := testOnBorrow - {r};
      ghost var s1 := s.(res := s.res.(validations := s.res.validations - {op}, testOnBorrow := s.res.testOnBorrow - {r}));
      assert State() == s1;
      if isValid == Some(false) {
        resState := resState[r := INVALID];
        assert State() == s1.(res := s1.res.(resState := s1.res.resState[r := INVALID]));
        DestroyResource(r);
        Dispense(now);
      } else {
        DispatchToNext(r, now);
      }
    }

    method ValidationRejected(op: Id)
      modifies this
      ensures State() == PoolStates.ValidationRejected(old(State()), op)
    {
      validations := validations - {op};
    }

    method DestroySettled(op: Id)
      modifies this
      ensures State() == PoolStates.DestroySettled(old(State()), op)
    {
      destroys := destroys - {op};
    }

    method RequestTimedOut(id: Id)
      requires id in requests && requests[id].timer
      modifies this
      ensures State() == PoolStates.RequestTimedOut(old(State()), id)
    {
      var rq := requests[id];
      if rq.state != PENDING {
        requests := requests[id := rq.(timer := false)];
        return;
      }
      requests := requests[id := Request(REJECTED, rq.value, false)];
      var w := waiting;
      waiting := seq(|w|, j requires 0 <= j < |w| => Without(w[j], id));
    }

    /** One pass of the loop of `_evict`. */
    method EvictStep(now: int) returns (pass: EvictPass)
      modifies this
      ensures (State(), pass) == PoolStates.EvictStep(config, old(State()), now)
    {
      var (cursor, step) := Stepped(available, false, evictionCursor);
      if step.Done? && |available| < 1 {
        evictionCursor := Unstarted();
        return Stop;
      }
      if step.Done? {
        evictionCursor := Unstarted();
        return Restart;
      }
      ghost var s := State();
      evictionCursor := cursor;
      var r := step.value.res;
      var shouldEvict := DefaultEvictor.Evict(EvictionConfigOf(config), LastIdleTime(State(), r), |available|, now);
      if shouldEvict {
        available := RemoveAtCursor(available, evictionCursor);
        assert State() == s.(evictionCursor := cursor, res := s.res.(available := RemoveAtCursor(s.res.available, cursor)));
        DestroyResource(r);
      }
      return Checked;
    }

    method Evict(now: int)
      modifies this
      ensures State() == EvictRun(config, old(State()), now)
    {
      var testsToRun := Iterations(Min(config.numTestsPerEvictionRun, |available|));
      var run := 0;
      while run < testsToRun
        invariant run <= testsToRun
        invariant EvictFrom(config, State(), testsToRun, run, now) == EvictRun(config, old(State()), now)
        decreases EvictMeasure(State(), testsToRun, run)
      {
        var pass := EvictStep(now);
        if pass == Stop {
          return;
        }
        if pass == Checked {
          run := run + 1;
        }
      }
    }
  }
}
