/**
 * The bookkeeping of lib/pool.ts as a state and one function per step. A step
 * is the synchronous code the pool runs between two `await` points. The
 * factory's `create`, `destroy` and `validate` run outside the pool; each of
 * their outcomes is a step of its own, as is a request's timer firing.
 * Resources, requests, list nodes and tracked operations are opaque ids drawn
 * from one counter, and the clock is the parameter `now`.
 *
 * The containers are the values the container modules specify: the waiting
 * clients are the slots of a priority queue, and the available resources are
 * the entries of a deque. The eviction iterator is an iterator state over
 * those entries.
 */
module PoolStates {
  import opened Common
  import opened Seqs
  import opened Deferreds
  import opened ResourceRequests
  import opened ListIterators
  import opened Deques
  import opened PriorityQueues
  import opened DefaultEvictor
  import opened PoolDefaults

  /** Resources, requests, list nodes and tracked operations are named by ids drawn from one counter. */
  type Id = nat

  /** The states of a pooled resource (lib/pooled_resource.ts is not part of this model). */
  datatype ResourceState = IDLE | ALLOCATED | VALIDATION | INVALID

  /** A node of the available deque holding resource `res`; every insertion makes a new node. */
  datatype Entry = Entry(node: Id, res: Id)

  /** A client's request: its settle-once state, what it was fulfilled with, and whether its timer is armed. */
  datatype Request = Request(state: State, value: Option<Id>, timer: bool)

  /** The waiting clients and every request the pool has made. */
  datatype Clients = Clients(
    /** `_waitingClientsQueue`: request ids, one sequence per priority slot. */
    waiting: seq<seq<Id>>,
    requests: map<Id, Request>)

  /** What the pool knows of its resources. */
  datatype Resources = Resources(
    /** `_availableObjects`. */
    available: seq<Entry>,
    /** `_allObjects`. */
    allObjects: set<Id>,
    /** The state and `lastIdleTime` of each `PooledResource`. */
    resState: map<Id, ResourceState>,
    lastIdle: map<Id, int>,
    /** The keys of `_resourceLoans`. */
    loans: set<Id>,
    /** `_testOnBorrowResources`. */
    testOnBorrow: set<Id>,
    /** `_validationOperations`, each with the resource under test. */
    validations: map<Id, Id>)

  datatype PoolState = PoolState(
    draining: bool,
    started: bool,
    clients: Clients,
    res: Resources,
    /** `_factoryCreateOperations`. */
    creates: set<Id>,
    /** `_factoryDestroyOperations`. */
    destroys: set<Id>,
    /** The state of `_evictionIterator`. */
    evictionCursor: IterState<Entry>,
    /** The next unused id. */
    nextId: Id)

  /** `Math.min` and the bound of a `for (i = 0; n > i; i++)` loop: a negative bound runs no iteration. */
  function Min(a: int, b: int): (m: int)
    ensures m <= a && m <= b && (m == a || m == b)
  {
    if a < b then a else b
  }

  function Iterations(n: int): (k: nat)
    ensures n <= 0 ==> k == 0
    ensures n > 0 ==> k == n
  {
    if n > 0 then n else 0
  }

  /** The resources held by the available deque, in order. */
  function AvailableResources(es: seq<Entry>): (rs: seq<Id>)
    ensures |rs| == |es|
    ensures forall i :: 0 <= i < |es| ==> rs[i] == es[i].res
  {
    seq(|es|, i requires 0 <= i < |es| => es[i].res)
  }

  // ---- getters ---------------------------------------------------------

  /** `_count`, `size`: created resources plus those being created. */
  function Count(s: PoolState): int {
    |s.res.allObjects| + |s.creates|
  }

  /** `_potentiallyAllocableResourceCount`; `_testOnReturnResources` is never filled, so it adds nothing. */
  function PotentiallyAllocable(s: PoolState): int {
    |s.res.available| + |s.res.testOnBorrow| + |s.creates|
  }

  /** `spareResourceCapacity`; with no `max` it is JavaScript's `NaN` (`None`). */
  function Spare(c: PoolConfig, s: PoolState): (r: Option<int>)
    ensures c.max.Some? <==> r.Some?
    ensures r.Some? ==> r.value + Count(s) == c.max.value
  {
    if c.max.None? then None else Some(c.max.value - Count(s))
  }

  /** `pending`: the waiting clients, counted as the priority queue's `length` counts them. */
  function Pending(s: PoolState): int {
    SumLengths(s.clients.waiting)
  }

  function LastIdleTime(s: PoolState, r: Id): Option<int> {
    if r in s.res.lastIdle then Some(s.res.lastIdle[r]) else None
  }

  // ---- primitive steps -------------------------------------------------

  /** `_createResource` up to its `await`: one more tracked create operation. */
  function CreateResource(s: PoolState): PoolState {
    s.(creates := s.creates + {s.nextId}, nextId := s.nextId + 1)
  }

  /** The loop `for (i = 0; n > i; i++) this._createResource()`. */
  function CreateMany(s: PoolState, n: nat): (r: PoolState)
    ensures forall i :: i in r.creates <==> i in s.creates || s.nextId <= i < s.nextId + n
    ensures r.nextId == s.nextId + n
    ensures r == s.(creates := r.creates, nextId := r.nextId)
  {
    if n == 0 then s else CreateResource(CreateMany(s, n - 1))
  }

  /** `_addPooledResourceToAvailableObjects`: `idle()`, then a new node at the tail (`fifo`) or the head. */
  function AddToAvailable(c: PoolConfig, s: PoolState, r: Id, now: int): PoolState {
    var e := Entry(s.nextId, r);
    s.(res := s.res.(resState := s.res.resState[r := IDLE],
                     lastIdle := s.res.lastIdle[r := now],
                     available := if c.fifo then Pushed(s.res.available, e) else Unshifted(s.res.available, e)),
       nextId := s.nextId + 1)
  }

  /**
   * `_dispatchPooledResourceToNextWaitingClient`: the next request gets the
   * resource on loan, or the resource goes back to the available deque when
   * there is no request or it is no longer pending.
   */
  function DispatchToNext(c: PoolConfig, s: PoolState, r: Id, now: int): PoolState {
    var (next, rest) := Dequeued(s.clients.waiting);
    if next.None? || next.value !in s.clients.requests || s.clients.requests[next.value].state != PENDING then
      AddToAvailable(c, s.(clients := s.clients.(waiting := rest)), r, now)
    else
      s.(clients := Clients(rest, s.clients.requests[next.value := Request(FULFILLED, Some(r), false)]),
         res := s.res.(loans := s.res.loans + {r}, resState := s.res.resState[r := ALLOCATED]))
  }

  /** `_dispatchResource`. */
  function DispatchResource(c: PoolConfig, s: PoolState, now: int): PoolState {
    if |s.res.available| < 1 then s
    else DispatchToNext(c, s.(res := s.res.(available := s.res.available[1..])), s.res.available[0].res, now)
  }

  function DispatchMany(c: PoolConfig, s: PoolState, n: nat, now: int): PoolState {
    if n == 0 then s else DispatchResource(c, DispatchMany(c, s, n - 1, now), now)
  }

  /** `_testOnBorrow` up to its `await`: the head resource goes into test under a tracked validation. */
  function TestOnBorrow(s: PoolState): PoolState {
    if |s.res.available| < 1 then s
    else
      var r := s.res.available[0].res;
      s.(res := s.res.(available := s.res.available[1..],
                       resState := s.res.resState[r := VALIDATION],
                       testOnBorrow := s.res.testOnBorrow + {r},
                       validations := s.res.validations[s.nextId := r]),
         nextId := s.nextId + 1)
  }

  function TestMany(s: PoolState, n: nat): PoolState {
    if n == 0 then s else TestOnBorrow(TestMany(s, n - 1))
  }

  /** The number of creations `_dispense` starts: `min(spare, shortfall)`, none when that is `NaN` or below 1. */
  function CreationsToStart(c: PoolConfig, s: PoolState): (n: nat)
    ensures n <= Iterations(Pending(s) - PotentiallyAllocable(s))
    ensures c.max.Some? ==> n <= Iterations(Spare(c, s).value)
    ensures c.max.None? ==> n == 0
  {
    var shortfall := Pending(s) - PotentiallyAllocable(s);
    match Spare(c, s)
    case None => 0
    case Some(spare) => Iterations(Min(spare, shortfall))
  }

  /** `_dispense`. */
  function Dispense(c: PoolConfig, s: PoolState, now: int): PoolState {
    var waitingCount := Pending(s);
    if waitingCount < 1 then s
    else
      var s1 := CreateMany(s, CreationsToStart(c, s));
      if c.testOnBorrow then
        TestMany(s1, Iterations(Min(|s1.res.available|, waitingCount - |s1.res.testOnBorrow|)))
      else
        DispatchMany(c, s1, Iterations(Min(|s1.res.available|, waitingCount)), now)
  }

  /**
   * The number of resources `_ensureMinimum` sets out to create, read as
   * intended: `(min || 0) - count`.
   */
  function MinShortfall(min: Option<int>, count: int): (n: int)
    ensures min.None? || min == Some(0) ==> n == -count
    ensures min.Some? ==> n == min.value - count
  {
    (if min.Some? then min.value else 0) - count
  }

  /**
   * The same expression as lib/pool.ts writes it, `min || 0 - count`, which
   * JavaScript reads as `min || (0 - count)`.
   */
  function MinShortfallAsWritten(min: Option<int>, count: int): (n: int)
    ensures min.Some? && min.value != 0 ==> n == min.value
    ensures min.None? || min == Some(0) ==> n == -count
  {
    if min.Some? && min.value != 0 then min.value else 0 - count
  }

  /**
   * `_ensureMinimum` as lib/pool.ts runs it: outside a drain, it starts as
   * many creations as `MinShortfallAsWritten` says.
   */
  function EnsureMinimum(c: PoolConfig, s: PoolState): (t: PoolState)
    ensures s.draining ==> t == s
    ensures t == s.(creates := t.creates, nextId := t.nextId)
    ensures !s.draining && c.min.Some? && c.min.value != 0 ==> t.nextId == s.nextId + Iterations(c.min.value)
    ensures !s.draining && (c.min.None? || c.min == Some(0)) ==> t == s
    ensures forall i :: i in t.creates <==> i in s.creates || s.nextId <= i < t.nextId
  {
    if s.draining then s else CreateMany(s, Iterations(MinShortfallAsWritten(c.min, Count(s))))
  }

  /**
   * `_ensureMinimum` with the shortfall read as intended. It stands beside
   * the pool's steps, which use `EnsureMinimum`.
   */
  function EnsureMinimumIntended(c: PoolConfig, s: PoolState): PoolState {
    if s.draining then s else CreateMany(s, Iterations(MinShortfall(c.min, Count(s))))
  }

  /**
   * `_destroy`: invalidate, drop from `_allObjects`, track the factory's
   * destroy under a new id, then `_ensureMinimum`, whose creations take the
   * ids after it.
   */
  function DestroyResource(c: PoolConfig, s: PoolState, r: Id): (t: PoolState)
    ensures t.clients == s.clients && t.evictionCursor == s.evictionCursor
    ensures t.draining == s.draining && t.started == s.started
    ensures t.res == s.res.(resState := s.res.resState[r := INVALID], allObjects := s.res.allObjects - {r})
    ensures t.destroys == s.destroys + {s.nextId}
    ensures forall i :: i in t.creates <==> i in s.creates || s.nextId < i < t.nextId
    ensures t.nextId == s.nextId + 1 +
              if s.draining then 0
              else Iterations(MinShortfallAsWritten(c.min, |s.res.allObjects - {r}| + |s.creates|))
  {
    EnsureMinimum(c, Discarded(s, r))
  }

  /** `_destroy` up to its call to `_ensureMinimum`. */
  function Discarded(s: PoolState, r: Id): PoolState {
    s.(res := s.res.(resState := s.res.resState[r := INVALID], allObjects := s.res.allObjects - {r}),
       destroys := s.destroys + {s.nextId},
       nextId := s.nextId + 1)
  }

  /** `start`; scheduling the eviction timer is not part of this model. */
  function Start(c: PoolConfig, s: PoolState): PoolState {
    if s.draining || s.started then s
    else EnsureMinimum(c, s.(started := true))
  }

  /** The state the constructor builds, before its call to `start`. */
  function Empty(c: PoolConfig): (s: PoolState)
    ensures |s.clients.waiting| == SlotCount(c.priorityRange)
  {
    PoolState(false, false, Clients(seq(SlotCount(c.priorityRange), _ => []), map[]),
              Resources([], {}, map[], map[], {}, {}, map[]), {}, {}, Unstarted(), 0)
  }

  /** `new Pool(factory, options)`. */
  function Initial(c: PoolConfig): PoolState {
    if c.autostart then Start(c, Empty(c)) else Empty(c)
  }

  // ---- the public operations ----------------------------------------------

  /** The rejection guard of `acquire` for a full pool. */
  predicate WaitingLimitReached(c: PoolConfig, s: PoolState) {
    && (match Spare(c, s) case None => false case Some(spare) => spare < 1)
    && |s.res.available| < 1
    && c.maxWaitingClients.Some?
    && Pending(s) >= c.maxWaitingClients.value
  }

  /**
   * A new `ResourceRequest`, its timer armed when `acquireTimeoutMillis` is
   * set, enqueued under `priority`.
   */
  function AddRequest(c: PoolConfig, s: PoolState, priority: int): PoolState
    requires |s.clients.waiting| >= 1
  {
    var id := s.nextId;
    s.(clients := Clients(Enqueued(s.clients.waiting, id, Some(priority)),
                          s.clients.requests[id := Request(PENDING, None, c.acquireTimeoutMillis.Some?)]),
       nextId := id + 1)
  }

  /**
   * `acquire(priority)`: the id of the new request, or the error the call
   * rejects with (or, for a bad `acquireTimeoutMillis`, throws).
   */
  function Acquire(c: PoolConfig, s: PoolState, priority: int, now: int): (PoolState, Outcome<Id>)
    requires |s.clients.waiting| >= 1
  {
    var s0 := if !s.started && !c.autostart then Start(c, s) else s;
    if s0.draining then (s0, Fail(PoolDraining))
    else if WaitingLimitReached(c, s0) then (s0, Fail(MaxWaitingClientsExceeded))
    else if c.acquireTimeoutMillis.Some? && DelayError(c.acquireTimeoutMillis.value).Some? then (s0, Fail(DelayNotPositive))
    else (Dispense(c, AddRequest(c, s0, priority), now), Ok(s0.nextId))
  }

  /** `release(resource)`. */
  function Release(c: PoolConfig, s: PoolState, r: Id, now: int): (PoolState, Outcome<()>) {
    if r !in s.res.loans then (s, Fail(NotPartOfPool))
    else
      var s1 := AddToAvailable(c, s.(res := s.res.(loans := s.res.loans - {r})), r, now);
      (Dispense(c, s1, now), Ok(()))
  }

  /** `destroy(resource)`. */
  function Destroy(c: PoolConfig, s: PoolState, r: Id, now: int): (PoolState, Outcome<()>) {
    if r !in s.res.loans then (s, Fail(NotPartOfPool))
    else
      var s1 := DestroyResource(c, s.(res := s.res.(loans := s.res.loans - {r})), r);
      (Dispense(c, s1, now), Ok(()))
  }

  /** `drain()` up to its first `await`. */
  function Drain(s: PoolState): PoolState {
    s.(draining := true)
  }

  // ---- what happens after an await ---------------------------------------

  /** The resource the factory created, under the next id, in `_allObjects` and on the available deque. */
  function Created(c: PoolConfig, s: PoolState, now: int): PoolState {
    var r := s.nextId;
    AddToAvailable(c, s.(res := s.res.(allObjects := s.res.allObjects + {r}), nextId := r + 1), r, now)
  }

  /** The factory's `create` fulfilled: the create operation is done, then `_dispense`. */
  function CreateSucceeded(c: PoolConfig, s: PoolState, op: Id, now: int): PoolState {
    var s1 := Created(c, s, now);
    Dispense(c, s1.(creates := s1.creates - {op}), now)
  }

  /** The factory's `create` rejected. */
  function CreateFailed(c: PoolConfig, s: PoolState, op: Id, now: int): PoolState {
    Dispense(c, s.(creates := s.creates - {op}), now)
  }

  /**
   * A validation resolved with `isValid` (`None` when the factory has no
   * `validate`): exactly `false` destroys the resource, anything else hands it on.
   */
  function ValidationReturned(c: PoolConfig, s: PoolState, op: Id, isValid: Option<bool>, now: int): PoolState
    requires op in s.res.validations
  {
    var r := s.res.validations[op];
    var s1 := s.(res := s.res.(validations := s.res.validations - {op}, testOnBorrow := s.res.testOnBorrow - {r}));
    if isValid == Some(false) then
      Dispense(c, DestroyResource(c, s1.(res := s1.res.(resState := s1.res.resState[r := INVALID])), r), now)
    else
      DispatchToNext(c, s1, r, now)
  }

  /**
   * A validation rejected: the operation is no longer tracked, and since no
   * handler deals with the rejection the resource stays in test.
   */
  function ValidationRejected(s: PoolState, op: Id): PoolState {
    s.(res := s.res.(validations := s.res.validations - {op}))
  }

  /** The factory's `destroy` settled. */
  function DestroySettled(s: PoolState, op: Id): PoolState {
    s.(destroys := s.destroys - {op})
  }

  /**
   * A request's timer fired. A pending request rejects with a `TimeoutError`,
   * and the rejection handler its queue registered takes it out of that
   * queue; a settled one only drops its timer.
   */
  function RequestTimedOut(s: PoolState, id: Id): PoolState
    requires id in s.clients.requests && s.clients.requests[id].timer
  {
    var w, rq := s.clients.waiting, s.clients.requests[id];
    if rq.state != PENDING then s.(clients := s.clients.(requests := s.clients.requests[id := rq.(timer := false)]))
    else
      s.(clients := Clients(seq(|w|, j requires 0 <= j < |w| => Without(w[j], id)),
                            s.clients.requests[id := Request(REJECTED, rq.value, false)]))
  }

  // ---- eviction ------------------------------------------------------------

  /** The measure that bounds the eviction loop: each check, or each restart of the cursor, lowers it. */
  function EvictMeasure(s: PoolState, testsToRun: nat, run: nat): nat
    requires run <= testsToRun
  {
    2 * (testsToRun - run) + (if s.evictionCursor.started || s.evictionCursor.done then 1 else 0)
  }

  /** How one pass of the loop of `_evict` ends: leave, `continue` after a reset, or one check done. */
  datatype EvictPass = Stop | Restart | Checked

  /** One pass of the loop of `_evict`: advance the cursor, then reset it or check the resource under it. */
  function EvictStep(c: PoolConfig, s: PoolState, now: int): (r: (PoolState, EvictPass))
    ensures r.1 != Checked ==> r.0 == s.(evictionCursor := Unstarted())
    ensures r.1 == Restart ==> s.evictionCursor.started || s.evictionCursor.done
    ensures r.1 == Stop <==> |s.res.available| == 0
    ensures r.1 != Stop ==> |s.res.available| >= 1
  {
    YieldsListNodes(s.res.available, false, s.evictionCursor);
    var (cursor, step) := Stepped(s.res.available, false, s.evictionCursor);
    if step.Done? && |s.res.available| < 1 then (s.(evictionCursor := Unstarted()), Stop)
    else if step.Done? then (s.(evictionCursor := Unstarted()), Restart)
    else
      var r := step.value.res;
      var s1 := s.(evictionCursor := cursor);
      if Evict(EvictionConfigOf(c), LastIdleTime(s, r), |s.res.available|, now) then
        (DestroyResource(c, s1.(res := s1.res.(available := RemoveAtCursor(s1.res.available, cursor))), r), Checked)
      else (s1, Checked)
  }

  /** The loop of `_evict` from the point where `run` of `testsToRun` checks are done. */
  function EvictFrom(c: PoolConfig, s: PoolState, testsToRun: nat, run: nat, now: int): PoolState
    requires run <= testsToRun
    decreases EvictMeasure(s, testsToRun, run)
  {
    if run == testsToRun then s
    else
      var (s1, pass) := EvictStep(c, s, now);
      match pass
      case Stop => s1
      case Restart => EvictFrom(c, s1, testsToRun, run, now)
      case Checked => EvictFrom(c, s1, testsToRun, run + 1, now)
  }

  /** The number of checks `_evict` runs. */
  function TestsToRun(c: PoolConfig, s: PoolState): nat {
    Iterations(Min(c.numTestsPerEvictionRun, |s.res.available|))
  }

  /** `_evict`. */
  function EvictRun(c: PoolConfig, s: PoolState, now: int): PoolState {
    EvictFrom(c, s, TestsToRun(c, s), 0, now)
  }
}
