/**
 * What the operations of lib/pool.ts do, stated over the step functions of
 * `PoolStates`: the error paths of `release` and `destroy`, where a released
 * resource goes, whom `_dispense` serves and how many creations it starts,
 * what a validation decides, how a request's timeout ends, and what `_evict`
 * and `_ensureMinimum` may change.
 */
module PoolProperties {
  import opened Common
  import opened Seqs
  import opened Deferreds
  import opened ListIterators
  import opened Deques
  import opened PriorityQueues
  import opened DefaultEvictor
  import opened PoolDefaults
  import opened PoolStates
  import opened PoolInvariants
  import opened PoolSafety

  // ---- release and destroy -------------------------------------------------

  /** A value with no loan is "not currently part of this pool": both calls reject and change nothing. */
  lemma NotBorrowedRejected(c: PoolConfig, s: PoolState, r: Id, now: int)
    requires r !in s.res.loans
    ensures Release(c, s, r, now) == (s, Fail(NotPartOfPool))
    ensures Destroy(c, s, r, now) == (s, Fail(NotPartOfPool))
  {
  }

  /**
   * With nobody waiting, `release` ends the loan, marks the resource idle and
   * puts it at the tail of the available deque (`fifo`) or at its head; a
   * second `release` of the same resource then rejects.
   */
  lemma ReleaseWithoutWaiters(c: PoolConfig, s: PoolState, r: Id, now: int)
    requires r in s.res.loans && Pending(s) == 0
    ensures var (t, o) := Release(c, s, r, now);
            && o == Ok(())
            && t.res.loans == s.res.loans - {r}
            && t.res.resState[r] == IDLE && t.res.lastIdle[r] == now
            && AvailableResources(t.res.available)
               == (if c.fifo then AvailableResources(s.res.available) + [r] else [r] + AvailableResources(s.res.available))
            && Count(t) == Count(s)
            && Release(c, t, r, now).1 == Fail(NotPartOfPool)
  {
    AvailableEnds(s.res.available, Entry(s.nextId, r));
  }

  /**
   * `destroy` ends the loan, takes the resource out of `_allObjects` (so it
   * cannot be lent again) and starts exactly one new destroy operation.
   */
  lemma DestroyRemoves(c: PoolConfig, s: PoolState, r: Id, now: int)
    requires Inv(c, s) && r in s.res.loans
    ensures var (t, o) := Destroy(c, s, r, now);
            && o == Ok(())
            && t.res.allObjects == s.res.allObjects - {r}
            && r !in t.res.loans
            && |t.destroys| == |s.destroys| + 1
  {
    var s1 := s.(res := s.res.(loans := s.res.loans - {r}));
    var s2 := DestroyResource(c, s1, r);
    DestroyStartsOne(c, s1, r);
    UnlendKeeps(s.res, r);
    DestroyResourceKeeps(c, s1, r, {r});
    assert {r} - {r} == {};
    DispenseKeeps(c, s2, now);
  }

  /** `_destroy` starts one destroy operation under a new id. */
  lemma DestroyStartsOne(c: PoolConfig, s: PoolState, r: Id)
    requires IdsFresh(s)
    ensures |DestroyResource(c, s, r).destroys| == |s.destroys| + 1
  {
    EnsureMinimumKeeps(c, Discarded(s, r));
    assert s.nextId !in s.destroys;
  }

  // ---- dispatch ---------------------------------------------------------------

  /**
   * `_dispatchPooledResourceToNextWaitingClient`: with a client waiting, the
   * first request in priority order is fulfilled with the resource, which goes
   * on loan, and leaves the queue; with none, the resource goes back to the
   * available deque and no loan is made.
   */
  lemma DispatchServesFirst(c: PoolConfig, s: PoolState, r: Id, now: int)
    requires RequestsTracked(s.clients)
    ensures var t, w := DispatchToNext(c, s, r, now), Flatten(s.clients.waiting);
            && (w == [] ==>
                  && t.res.loans == s.res.loans
                  && AvailableResources(t.res.available)
                     == (if c.fifo then AvailableResources(s.res.available) + [r] else [r] + AvailableResources(s.res.available)))
            && (w != [] ==>
                  && t.clients.requests == s.clients.requests[w[0] := Request(FULFILLED, Some(r), false)]
                  && Flatten(t.clients.waiting) == w[1..]
                  && t.res.loans == s.res.loans + {r}
                  && t.res.available == s.res.available)
  {
    DequeuedTracked(s.clients);
    AvailableEnds(s.res.available, Entry(s.nextId, r));
  }

  // ---- dispense ------------------------------------------------------------------

  /** `_dispense` is a no-op when no client waits. */
  lemma DispenseWithoutWaiters(c: PoolConfig, s: PoolState, now: int)
    requires Pending(s) < 1
    ensures Dispense(c, s, now) == s
  {
  }

  /**
   * `_dispense` starts `min(spareResourceCapacity, waiting - potentiallyAllocable)`
   * creations when that is positive, and none otherwise.
   */
  lemma DispenseCreates(c: PoolConfig, s: PoolState, now: int)
    requires Inv(c, s)
    ensures |Dispense(c, s, now).creates| == |s.creates| + (if Pending(s) < 1 then 0 else CreationsToStart(c, s))
    ensures Dispense(c, s, now).res.allObjects == s.res.allObjects
  {
    DispenseKeeps(c, s, now);
    var waitingCount := Pending(s);
    if waitingCount >= 1 {
      var n := CreationsToStart(c, s);
      var s1 := CreateMany(s, n);
      CreateManyCount(s, n);
      CreateManyFresh(s, n);
      if c.testOnBorrow {
        TestManyKeeps(s1, Iterations(Min(|s1.res.available|, waitingCount - |s1.res.testOnBorrow|)), {});
      } else {
        DispatchManyKeeps(c, s1, Iterations(Min(|s1.res.available|, waitingCount)), {}, now);
      }
    }
  }

  /** So `_dispense` alone never takes `allObjects.size` plus the creations under way above `max`. */
  lemma DispenseRespectsMax(c: PoolConfig, s: PoolState, now: int)
    requires Inv(c, s) && c.max.Some? && Count(s) <= c.max.value
    ensures Count(Dispense(c, s, now)) <= c.max.value
  {
    DispenseCreates(c, s, now);
  }

  /** One `_dispatchResource` with a resource available and a client waiting makes one loan. */
  lemma DispatchResourceLends(c: PoolConfig, s: PoolState, now: int)
    requires RequestsTracked(s.clients) && ResourcesTracked(s.res, {})
    requires |s.res.available| >= 1 && Pending(s) >= 1
    ensures var t := DispatchResource(c, s, now);
            && |t.res.loans| == |s.res.loans| + 1
            && |t.res.available| == |s.res.available| - 1
            && Pending(t) == Pending(s) - 1
  {
    var r := s.res.available[0].res;
    assert r in AvailableResources(s.res.available);
    var s1 := s.(res := s.res.(available := s.res.available[1..]));
    SumLengthsIsSize(s.clients.waiting);
    DispatchServesFirst(c, s1, r, now);
    SumLengthsIsSize(DispatchToNext(c, s1, r, now).clients.waiting);
  }

  lemma {:induction false} DispatchManyLends(c: PoolConfig, s: PoolState, n: nat, now: int)
    requires RequestsTracked(s.clients) && ResourcesTracked(s.res, {}) && IdsFresh(s)
    ensures var t := DispatchMany(c, s, n, now);
            RequestsTracked(t.clients) && ResourcesTracked(t.res, {}) && IdsFresh(t)
    ensures var t := DispatchMany(c, s, n, now);
            n <= |s.res.available| && n <= Pending(s) ==>
            && |t.res.loans| == |s.res.loans| + n
            && |t.res.available| == |s.res.available| - n
            && Pending(t) == Pending(s) - n
  {
    if n > 0 {
      DispatchManyLends(c, s, n - 1, now);
      DispatchResourceKeeps(c, DispatchMany(c, s, n - 1, now), {}, now);
      if n <= |s.res.available| && n <= Pending(s) {
        DispatchResourceLends(c, DispatchMany(c, s, n - 1, now), now);
      }
    }
  }

  /** One `_testOnBorrow` with a resource available puts one more resource under test. */
  lemma TestOnBorrowMoves(s: PoolState)
    requires ResourcesTracked(s.res, {}) && |s.res.available| >= 1
    ensures |TestOnBorrow(s).res.testOnBorrow| == |s.res.testOnBorrow| + 1
    ensures |TestOnBorrow(s).res.available| == |s.res.available| - 1
  {
    assert s.res.available[0].res in AvailableResources(s.res.available);
  }

  lemma {:induction false} TestManyMoves(s: PoolState, n: nat)
    requires ResourcesTracked(s.res, {}) && IdsFresh(s) && n <= |s.res.available|
    ensures |TestMany(s, n).res.testOnBorrow| == |s.res.testOnBorrow| + n
    ensures |TestMany(s, n).res.available| == |s.res.available| - n
  {
    if n > 0 {
      TestManyMoves(s, n - 1);
      TestManyKeeps(s, n - 1, {});
      TestOnBorrowMoves(TestMany(s, n - 1));
    }
  }

  /**
   * Without test-on-borrow, `_dispense` hands out `min(available, waiting)`
   * resources; with it, it moves `min(available, waiting - inTest)` into test.
   */
  lemma DispenseHandsOut(c: PoolConfig, s: PoolState, now: int)
    requires Inv(c, s) && Pending(s) >= 1
    ensures !c.testOnBorrow ==>
              |Dispense(c, s, now).res.loans| == |s.res.loans| + Min(|s.res.available|, Pending(s))
    ensures c.testOnBorrow ==>
              |Dispense(c, s, now).res.testOnBorrow|
              == |s.res.testOnBorrow| + Iterations(Min(|s.res.available|, Pending(s) - |s.res.testOnBorrow|))
  {
    var n := CreationsToStart(c, s);
    var s1 := CreateMany(s, n);
    CreateManyFresh(s, n);
    if c.testOnBorrow {
      TestManyMoves(s1, Iterations(Min(|s1.res.available|, Pending(s) - |s1.res.testOnBorrow|)));
    } else {
      DispatchManyLends(c, s1, Iterations(Min(|s1.res.available|, Pending(s))), now);
    }
  }

  // ---- validation -------------------------------------------------------------------

  /**
   * A validation result of exactly `false` destroys the resource under test;
   * any other result hands it on, so it stays in the pool.
   */
  lemma ValidationDecides(c: PoolConfig, s: PoolState, op: Id, isValid: Option<bool>, now: int)
    requires Inv(c, s) && op in s.res.validations
    ensures var r := s.res.validations[op];
            r in ValidationReturned(c, s, op, isValid, now).res.allObjects <==> isValid != Some(false)
  {
    var r := s.res.validations[op];
    var s1 := s.(res := s.res.(validations := s.res.validations - {op}, testOnBorrow := s.res.testOnBorrow - {r}));
    EndTestKeeps(s.res, op);
    if isValid == Some(false) {
      var s2 := s1.(res := s1.res.(resState := s1.res.resState[r := INVALID]));
      DestroyResourceKeeps(c, s2, r, {r});
      assert {r} - {r} == {};
      DispenseKeeps(c, DestroyResource(c, s2, r), now);
    } else {
      DispatchToNextFresh(c, s1, r, now);
    }
  }

  // ---- acquire ------------------------------------------------------------------------

  /** `acquire` rejects while draining, and changes nothing. */
  lemma AcquireWhileDraining(c: PoolConfig, s: PoolState, priority: int, now: int)
    requires |s.clients.waiting| >= 1 && s.draining
    ensures Acquire(c, s, priority, now) == (s, Fail(PoolDraining))
  {
  }

  /** The state `acquire` reaches before its guards: `start` runs first unless the pool started or autostarts. */
  function AcquireStarted(c: PoolConfig, s: PoolState): (s0: PoolState)
    ensures s.started || c.autostart ==> s0 == s
    ensures s0.started || c.autostart || s0.draining
  {
    if !s.started && !c.autostart then Start(c, s) else s
  }

  /**
   * When no resource is spare or available and `maxWaitingClients` requests
   * already wait, `acquire` rejects with the waiting-clients error and
   * enqueues nothing: the state is the one `start` left.
   */
  lemma AcquireWhenFull(c: PoolConfig, s: PoolState, priority: int, now: int)
    requires |s.clients.waiting| >= 1
    ensures var s0 := AcquireStarted(c, s);
            !s0.draining && WaitingLimitReached(c, s0) ==>
              Acquire(c, s, priority, now) == (s0, Fail(MaxWaitingClientsExceeded))
  {
  }

  /**
   * A set `acquireTimeoutMillis` that is not positive makes the request's
   * timer refuse its delay: `acquire` fails with that error and enqueues
   * nothing.
   */
  lemma AcquireTimeoutNotPositive(c: PoolConfig, s: PoolState, priority: int, now: int)
    requires |s.clients.waiting| >= 1
    requires c.acquireTimeoutMillis.Some? && c.acquireTimeoutMillis.value <= 0
    ensures var s0 := AcquireStarted(c, s);
            !s0.draining && !WaitingLimitReached(c, s0) ==>
              Acquire(c, s, priority, now) == (s0, Fail(DelayNotPositive))
  {
  }

  /**
   * `acquire` fails exactly when one of its three guards holds, and a failed
   * call leaves the state `start` left; an accepted one names the next id.
   */
  lemma AcquireFailsOnlyOnGuards(c: PoolConfig, s: PoolState, priority: int, now: int)
    requires |s.clients.waiting| >= 1
    ensures var s0, (t, o) := AcquireStarted(c, s), Acquire(c, s, priority, now);
            && (o.Fail? <==> s0.draining || WaitingLimitReached(c, s0) ||
                             (c.acquireTimeoutMillis.Some? && c.acquireTimeoutMillis.value <= 0))
            && (o.Fail? ==> t == s0)
            && (o.Ok? ==> o.value == s0.nextId)
  {
  }

  /** Requests are only ever settled by being fulfilled: each one is unchanged or fulfilled. */
  ghost predicate OnlyFulfilled(a: map<Id, Request>, b: map<Id, Request>) {
    forall id :: id in a ==> id in b && (b[id] == a[id] || b[id].state == FULFILLED)
  }

  lemma {:induction false} DispatchManyFulfils(c: PoolConfig, s: PoolState, n: nat, now: int)
    ensures OnlyFulfilled(s.clients.requests, DispatchMany(c, s, n, now).clients.requests)
  {
    if n > 0 {
      DispatchManyFulfils(c, s, n - 1, now);
    }
  }

  lemma {:induction false} TestManyClients(s: PoolState, n: nat)
    ensures TestMany(s, n).clients == s.clients
  {
    if n > 0 {
      TestManyClients(s, n - 1);
    }
  }

  /** `_dispense` settles no request other than by fulfilling it. */
  lemma DispenseFulfils(c: PoolConfig, s: PoolState, now: int)
    ensures OnlyFulfilled(s.clients.requests, Dispense(c, s, now).clients.requests)
  {
    var waitingCount := Pending(s);
    if waitingCount >= 1 {
      var s1 := CreateMany(s, CreationsToStart(c, s));
      if c.testOnBorrow {
        TestManyClients(s1, Iterations(Min(|s1.res.available|, waitingCount - |s1.res.testOnBorrow|)));
      } else {
        DispatchManyFulfils(c, s1, Iterations(Min(|s1.res.available|, waitingCount)), now);
      }
    }
  }

  /**
   * An accepted `acquire` registers a new request, one the pool did not know,
   * which is then either pending in the queue or already fulfilled.
   */
  lemma AcquireRegisters(c: PoolConfig, s: PoolState, priority: int, now: int)
    requires Inv(c, s) && Acquire(c, s, priority, now).1.Ok?
    ensures var (t, o) := Acquire(c, s, priority, now);
            && o.value !in s.clients.requests
            && o.value in t.clients.requests
            && (t.clients.requests[o.value].state == PENDING || t.clients.requests[o.value].state == FULFILLED)
            && (t.clients.requests[o.value].state == PENDING ==> o.value in Flatten(t.clients.waiting))
  {
    var s0 := if !s.started && !c.autostart then Start(c, s) else s;
    StartKeeps(c, s);
    EnsureMinimumKeeps(c, s.(started := true));
    var s1 := AddRequest(c, s0, priority);
    DispenseFulfils(c, s1, now);
    AcquireKeeps(c, s, priority, now);
  }

  // ---- a request's timer ---------------------------------------------------------------

  /** Only a pending request has a timer, so one that fires finds its request in the queue. */
  lemma TimedRequestQueued(c: PoolConfig, s: PoolState, id: Id)
    requires Inv(c, s) && id in s.clients.requests && s.clients.requests[id].timer
    ensures id in Flatten(s.clients.waiting)
  {
  }

  /**
   * A firing timeout rejects its request and drops its timer, takes exactly
   * that request out of the queue, and leaves every other request alone.
   */
  lemma TimeoutRejects(c: PoolConfig, s: PoolState, id: Id)
    requires Inv(c, s) && id in s.clients.requests && s.clients.requests[id].timer
    ensures var t := RequestTimedOut(s, id);
            && t.clients.requests == s.clients.requests[id := Request(REJECTED, s.clients.requests[id].value, false)]
            && Flatten(t.clients.waiting) == Without(Flatten(s.clients.waiting), id)
            && Pending(t) == Pending(s) - 1
            && t.res == s.res
  {
    FlattenWithout(s.clients.waiting, id);
    WithoutNoDups(Flatten(s.clients.waiting), id);
    SumLengthsIsSize(s.clients.waiting);
    SumLengthsIsSize(RequestTimedOut(s, id).clients.waiting);
  }

  // ---- ensureMinimum and start ------------------------------------------------

  /**
   * `_ensureMinimum` as written: outside a drain, a positive `min` starts
   * `min` more creations whatever the count and whatever `max`; an unset,
   * zero or negative `min` starts none. While draining it does nothing.
   */
  lemma EnsureMinimumAddsMin(c: PoolConfig, s: PoolState)
    requires IdsFresh(s)
    ensures s.draining ==> EnsureMinimum(c, s) == s
    ensures var t, added := EnsureMinimum(c, s), if !s.draining && c.min.Some? && c.min.value > 0 then c.min.value else 0;
            && |t.creates| == |s.creates| + added
            && Count(t) == Count(s) + added
  {
    if !s.draining {
      CreateManyCount(s, Iterations(MinShortfallAsWritten(c.min, Count(s))));
    }
  }

  /**
   * So `_destroy` of a counted resource, outside a drain and with a positive
   * `min`, leaves the count `min - 1` above where it was: with `min` and `max`
   * both 2 and two resources, destroying one starts two creations and takes
   * the count to 3, above `max`.
   */
  lemma DestroyOvershootsMax(c: PoolConfig, s: PoolState, r: Id)
    requires IdsFresh(s) && r in s.res.allObjects && !s.draining && c.min.Some? && c.min.value > 0
    ensures Count(DestroyResource(c, s, r)) == Count(s) - 1 + c.min.value
    ensures c.max == c.min && c.min.value >= 2 && Count(s) == c.max.value ==>
              Count(DestroyResource(c, s, r)) > c.max.value
  {
    EnsureMinimumAddsMin(c, Discarded(s, r));
  }

  /**
   * `_ensureMinimum`, read as intended, tops the pool up to `min` and never
   * beyond: the count afterwards is the larger of `min` and the count before.
   * While draining it does nothing.
   */
  lemma EnsureMinimumTopsUp(c: PoolConfig, s: PoolState)
    requires IdsFresh(s)
    ensures s.draining ==> EnsureMinimumIntended(c, s) == s
    ensures !s.draining ==>
              Count(EnsureMinimumIntended(c, s)) == if c.min.Some? && c.min.value > Count(s) then c.min.value else Count(s)
  {
    if !s.draining {
      CreateManyCount(s, Iterations(MinShortfall(c.min, Count(s))));
    }
  }

  /**
   * With the intended top-up, `_destroy` never takes the count above `max`
   * when `min` is at most `max` and the count was within `max`.
   */
  lemma DestroyIntendedWithinMax(c: PoolConfig, s: PoolState, r: Id)
    requires IdsFresh(s) && r in s.res.allObjects && c.max.Some? && Count(s) <= c.max.value
    requires c.min.Some? ==> c.min.value <= c.max.value
    ensures Count(EnsureMinimumIntended(c, Discarded(s, r))) <= c.max.value
  {
    EnsureMinimumTopsUp(c, Discarded(s, r));
  }

  /**
   * `min || 0 - count` as written: a non-zero `min` is taken whole, whatever
   * the count, so `min` more creations start even when the pool already holds
   * `min` or more resources.
   */
  lemma MinShortfallAsWrittenIgnoresCount(min: int, count: int)
    requires min != 0
    ensures MinShortfallAsWritten(Some(min), count) == min
  {
  }

  /** With `min` 2 and five resources, the code as written starts two creations; as intended, none. */
  lemma MinShortfallCounterexample()
    ensures Iterations(MinShortfallAsWritten(Some(2), 5)) == 2
    ensures Iterations(MinShortfall(Some(2), 5)) == 0
  {
  }

  /** `start` is a no-op when draining or already started. */
  lemma StartOnce(c: PoolConfig, s: PoolState)
    requires s.draining || s.started
    ensures Start(c, s) == s
  {
  }

  // ---- eviction --------------------------------------------------------------------------

  /**
   * One pass of `_evict` that checks a resource: an evicted one leaves both
   * the available deque and `_allObjects`; one kept leaves the resources as
   * they were.
   */
  lemma EvictStepEvicts(c: PoolConfig, s: PoolState, now: int)
    requires Inv(c, s)
    ensures var (cursor, step) := Stepped(s.res.available, false, s.evictionCursor);
            var t := EvictStep(c, s, now).0;
            step.Yield? ==>
              if Evict(EvictionConfigOf(c), LastIdleTime(s, step.value.res), |s.res.available|, now) then
                step.value.res !in t.res.allObjects && step.value.res !in AvailableResources(t.res.available)
              else t.res == s.res
  {
    var (cursor, step) := Stepped(s.res.available, false, s.evictionCursor);
    YieldsListNodes(s.res.available, false, s.evictionCursor);
    if step.Yield? && Evict(EvictionConfigOf(c), LastIdleTime(s, step.value.res), |s.res.available|, now) {
      var s1 := s.(evictionCursor := cursor);
      assert RemoveAtCursor(s1.res.available, cursor) == Without(s.res.available, step.value);
      AvailableWithout(s.res.available, step.value);
      EnsureMinimumFrame(c, Discarded(s1.(res := s1.res.(available := Without(s.res.available, step.value))), step.value.res));
    }
  }

  /** What one pass may change: at most one idle resource leaves; loans, tests and clients stay. */
  lemma EvictStepSpares(c: PoolConfig, s: PoolState, now: int)
    ensures var (t, pass) := EvictStep(c, s, now);
            && t.res.allObjects <= s.res.allObjects
            && |s.res.allObjects - t.res.allObjects| <= (if pass == Checked then 1 else 0)
            && t.res.loans == s.res.loans && t.res.testOnBorrow == s.res.testOnBorrow
            && t.clients == s.clients
  {
    var (cursor, step) := Stepped(s.res.available, false, s.evictionCursor);
    if step.Yield? && Evict(EvictionConfigOf(c), LastIdleTime(s, step.value.res), |s.res.available|, now) {
      var s1 := s.(evictionCursor := cursor);
      var s2 := s1.(res := s1.res.(available := RemoveAtCursor(s1.res.available, cursor)));
      EnsureMinimumFrame(c, Discarded(s2, step.value.res));
      assert s.res.allObjects - (s.res.allObjects - {step.value.res}) <= {step.value.res};
    }
  }

  /** Sets that shrink in steps lose at most the sum of what each step loses. */
  lemma LossAdds(a: set<Id>, b: set<Id>, d: set<Id>)
    requires d <= b <= a
    ensures |a - d| == |a - b| + |b - d|
  {
    assert a - d == (a - b) + (b - d);
    assert (a - b) !! (b - d);
  }

  lemma {:induction false} EvictFromSpares(c: PoolConfig, s: PoolState, testsToRun: nat, run: nat, now: int)
    requires run <= testsToRun
    ensures var t := EvictFrom(c, s, testsToRun, run, now);
            && t.res.allObjects <= s.res.allObjects
            && |s.res.allObjects - t.res.allObjects| <= testsToRun - run
            && t.res.loans == s.res.loans && t.res.testOnBorrow == s.res.testOnBorrow
            && t.clients == s.clients
    decreases EvictMeasure(s, testsToRun, run)
  {
    if run < testsToRun {
      EvictStepSpares(c, s, now);
      var (s1, pass) := EvictStep(c, s, now);
      if pass == Restart {
        EvictFromSpares(c, s1, testsToRun, run, now);
        LossAdds(s.res.allObjects, s1.res.allObjects, EvictFrom(c, s1, testsToRun, run, now).res.allObjects);
      } else if pass == Checked {
        EvictFromSpares(c, s1, testsToRun, run + 1, now);
        LossAdds(s.res.allObjects, s1.res.allObjects, EvictFrom(c, s1, testsToRun, run + 1, now).res.allObjects);
      }
    }
  }

  /**
   * `_evict` destroys at most `min(numTestsPerEvictionRun, available)`
   * resources, all of them idle: loans, resources under test and waiting
   * clients are left alone.
   */
  lemma EvictRunSpares(c: PoolConfig, s: PoolState, now: int)
    requires Inv(c, s)
    ensures var t := EvictRun(c, s, now);
            && t.res.allObjects <= s.res.allObjects
            && |s.res.allObjects - t.res.allObjects| <= TestsToRun(c, s)
            && (forall r :: r in s.res.allObjects && r !in t.res.allObjects ==> r in AvailableResources(s.res.available))
            && t.res.loans == s.res.loans && t.res.testOnBorrow == s.res.testOnBorrow
            && t.clients == s.clients
  {
    EvictFromSpares(c, s, TestsToRun(c, s), 0, now);
    EvictRunKeeps(c, s, now);
  }
}
