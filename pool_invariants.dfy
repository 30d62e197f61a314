/**
 * What the pool's bookkeeping keeps true between steps. Every resource of
 * `_allObjects` is in exactly one place: the available deque, the loans, the
 * resources under test, or the hands of the step that is running. A request
 * is pending exactly when it waits in the priority queue, and only a pending
 * request has an armed timer. Every id in use is below the counter.
 */
module PoolInvariants {
  import opened Common
  import opened Seqs
  import opened Deferreds
  import opened ListIterators
  import opened Deques
  import opened PriorityQueues
  import opened PoolDefaults
  import opened PoolStates

  /** A request waits in the priority queue at most once. */
  ghost predicate QueueDistinct(cl: Clients) {
    NoDups(Flatten(cl.waiting))
  }

  /** A request is in the queue exactly when it is still pending, and only a pending request has a timer. */
  ghost predicate QueueMatchesPending(cl: Clients) {
    && (forall id :: id in Flatten(cl.waiting) ==> id in cl.requests && cl.requests[id].state == PENDING)
    && (forall id :: id in cl.requests && cl.requests[id].state == PENDING ==> id in Flatten(cl.waiting))
    && (forall id :: id in cl.requests && cl.requests[id].timer ==> cl.requests[id].state == PENDING)
  }

  ghost predicate RequestsTracked(cl: Clients) {
    QueueDistinct(cl) && QueueMatchesPending(cl)
  }

  /**
   * Every resource of `_allObjects` is in exactly one place: available (once),
   * on loan, under test, or in `out`, the hands of the step that is running.
   */
  ghost predicate Partitioned(rs: Resources, out: set<Id>) {
    var avail := AvailableResources(rs.available);
    && NoDups(avail)
    && (forall r :: r in avail ==> r !in rs.loans && r !in rs.testOnBorrow && r !in out)
    && rs.loans !! rs.testOnBorrow && rs.loans !! out && rs.testOnBorrow !! out
    && (forall r :: r in rs.allObjects <==> r in avail || r in rs.loans || r in rs.testOnBorrow || r in out)
  }

  /** The `PooledResource` states agree with where the resources are. */
  ghost predicate StatesAgree(rs: Resources) {
    && (forall r :: r in AvailableResources(rs.available) ==> r in rs.resState && rs.resState[r] == IDLE && r in rs.lastIdle)
    && (forall r :: r in rs.loans ==> r in rs.resState && rs.resState[r] == ALLOCATED)
    && (forall r :: r in rs.testOnBorrow ==> r in rs.resState && rs.resState[r] == VALIDATION)
  }

  /** Each tracked validation tests its own resource, which is under test. */
  ghost predicate ValidationsAgree(rs: Resources) {
    && (forall op :: op in rs.validations ==> rs.validations[op] in rs.testOnBorrow)
    && (forall op1, op2 :: op1 in rs.validations && op2 in rs.validations && op1 != op2 ==>
          rs.validations[op1] != rs.validations[op2])
  }

  ghost predicate ResourcesTracked(rs: Resources, out: set<Id>) {
    Partitioned(rs, out) && StatesAgree(rs) && ValidationsAgree(rs)
  }

  /** Every id in use is below the counter, so the next one drawn is new. */
  ghost predicate IdsFresh(s: PoolState) {
    && (forall r :: r in s.res.allObjects ==> r < s.nextId)
    && (forall op :: op in s.creates ==> op < s.nextId)
    && (forall op :: op in s.destroys ==> op < s.nextId)
    && (forall op :: op in s.res.validations ==> op < s.nextId)
    && (forall id :: id in s.clients.requests ==> id < s.nextId)
  }

  /** What holds of the pool between any two steps. */
  ghost predicate Inv(c: PoolConfig, s: PoolState) {
    && |s.clients.waiting| == SlotCount(c.priorityRange)
    && RequestsTracked(s.clients)
    && ResourcesTracked(s.res, {})
    && IdsFresh(s)
  }

  /** The elements of a sequence, as a set. */
  function Elements(xs: seq<Id>): (r: set<Id>)
    ensures forall x :: x in r <==> x in xs
  {
    if xs == [] then {} else {xs[0]} + Elements(xs[1..])
  }

  /** A sequence without duplicates has as many distinct elements as positions. */
  lemma {:induction false} DistinctCount(xs: seq<Id>)
    requires NoDups(xs)
    ensures |Elements(xs)| == |xs|
  {
    if xs != [] {
      var rest := xs[1..];
      assert NoDups(rest);
      DistinctCount(rest);
      assert xs[0] !in rest;
      assert xs[0] !in Elements(rest);
    }
  }

  /**
   * Every resource of the pool is available, borrowed or under test, and in
   * one of them only: the counting getters add up to `_allObjects.size`.
   */
  lemma ResourcesBalance(rs: Resources)
    requires Partitioned(rs, {})
    ensures |rs.allObjects| == |rs.available| + |rs.loans| + |rs.testOnBorrow|
  {
    var avail := AvailableResources(rs.available);
    var a := Elements(avail);
    DistinctCount(avail);
    PartitionCovers(rs);
    DisjointUnionSize(a, rs.loans, rs.testOnBorrow);
  }

  /** A partition with nothing in hand splits `_allObjects` into the available, lent and tested resources. */
  lemma PartitionCovers(rs: Resources)
    requires Partitioned(rs, {})
    ensures var a := Elements(AvailableResources(rs.available));
            && rs.allObjects == a + rs.loans + rs.testOnBorrow
            && a !! rs.loans && a !! rs.testOnBorrow && rs.loans !! rs.testOnBorrow
  {
    var a := Elements(AvailableResources(rs.available));
    forall x ensures x in rs.allObjects <==> x in a || x in rs.loans || x in rs.testOnBorrow {
    }
  }

  /** Three pairwise disjoint sets: the size of their union is the sum of their sizes. */
  lemma DisjointUnionSize(a: set<Id>, b: set<Id>, c: set<Id>)
    requires a !! b && a !! c && b !! c
    ensures |a + b + c| == |a| + |b| + |c|
  {
    assert |a + b| == |a| + |b|;
    assert (a + b) !! c;
  }

  // ---- the available deque -----------------------------------------------

  lemma AvailableEnds(es: seq<Entry>, e: Entry)
    ensures AvailableResources(Pushed(es, e)) == AvailableResources(es) + [e.res]
    ensures AvailableResources(Unshifted(es, e)) == [e.res] + AvailableResources(es)
    ensures |es| >= 1 ==> AvailableResources(es[1..]) == AvailableResources(es)[1..]
  {
  }

  // ---- the primitive steps keep the partition --------------------------------

  /** Putting a resource in hand back on the available deque. */
  lemma AddToAvailableKeeps(c: PoolConfig, s: PoolState, r: Id, out: set<Id>, now: int)
    requires ResourcesTracked(s.res, out) && r in out
    ensures ResourcesTracked(AddToAvailable(c, s, r, now).res, out - {r})
  {
    var t := AddToAvailable(c, s, r, now);
    var avail := AvailableResources(s.res.available);
    AvailableEnds(s.res.available, Entry(s.nextId, r));
    AppendNoDups(avail, r);
    assert forall x :: x in AvailableResources(t.res.available) <==> x in avail || x == r;
  }

  /** Taking the next request out of the queue: it is the first of the flattened queue, the rest stay. */
  lemma DequeuedTracked(cl: Clients)
    requires RequestsTracked(cl)
    ensures var (next, rest) := Dequeued(cl.waiting);
            && (next.None? <==> Flatten(cl.waiting) == [])
            && (next.Some? ==> next.value in cl.requests && cl.requests[next.value].state == PENDING)
            && (next.None? ==> rest == cl.waiting)
            && |rest| == |cl.waiting|
            && (next.Some? ==> Flatten(rest) == Flatten(cl.waiting)[1..] && next.value == Flatten(cl.waiting)[0])
  {
    DequeueTakesFlatFront(cl.waiting);
    var (next, rest) := Dequeued(cl.waiting);
    if next.Some? {
      assert next.value in Flatten(cl.waiting);
    }
  }

  /** The request that gets a resource leaves the queue fulfilled; the others are untouched. */
  lemma FulfilNextKeeps(cl: Clients, r: Id)
    requires RequestsTracked(cl) && Dequeued(cl.waiting).0.Some?
    ensures var (next, rest) := Dequeued(cl.waiting);
            RequestsTracked(Clients(rest, cl.requests[next.value := Request(FULFILLED, Some(r), false)]))
  {
    DequeuedTracked(cl);
    var (next, rest) := Dequeued(cl.waiting);
    var w := Flatten(cl.waiting);
    TailNoDups(w);
    forall id | id in cl.requests && cl.requests[id].state == PENDING && id != next.value
      ensures id in Flatten(rest)
    {
      var k :| 0 <= k < |w| && w[k] == id;
      assert k != 0;
      assert w[1..][k - 1] == id;
    }
  }

  /** Lending the resource in hand. */
  lemma LendKeeps(rs: Resources, r: Id, out: set<Id>)
    requires ResourcesTracked(rs, out) && r in out
    ensures ResourcesTracked(rs.(loans := rs.loans + {r}, resState := rs.resState[r := ALLOCATED]), out - {r})
  {
  }

  /** `_dispatchPooledResourceToNextWaitingClient` with resource `r` in hand. */
  lemma DispatchToNextKeeps(c: PoolConfig, s: PoolState, r: Id, out: set<Id>, now: int)
    requires RequestsTracked(s.clients) && ResourcesTracked(s.res, out) && r in out
    ensures RequestsTracked(DispatchToNext(c, s, r, now).clients)
    ensures ResourcesTracked(DispatchToNext(c, s, r, now).res, out - {r})
    ensures |DispatchToNext(c, s, r, now).clients.waiting| == |s.clients.waiting|
  {
    DequeuedTracked(s.clients);
    var (next, rest) := Dequeued(s.clients.waiting);
    if next.None? {
      assert s.(clients := s.clients.(waiting := rest)) == s;
      AddToAvailableKeeps(c, s, r, out, now);
    } else {
      FulfilNextKeeps(s.clients, r);
      LendKeeps(s.res, r, out);
    }
  }

  lemma DispatchToNextFresh(c: PoolConfig, s: PoolState, r: Id, now: int)
    requires IdsFresh(s)
    ensures var t := DispatchToNext(c, s, r, now);
            IdsFresh(t) && t.res.allObjects == s.res.allObjects && t.creates == s.creates && t.destroys == s.destroys
  {
  }

  /** Shifting the head of the available deque puts its resource in hand. */
  lemma ShiftKeeps(rs: Resources, out: set<Id>)
    requires ResourcesTracked(rs, out) && |rs.available| >= 1
    ensures rs.available[0].res !in out
    ensures ResourcesTracked(rs.(available := rs.available[1..]), out + {rs.available[0].res})
  {
    var avail := AvailableResources(rs.available);
    AvailableEnds(rs.available, rs.available[0]);
    TailNoDups(avail);
    assert forall x :: x in avail <==> x == avail[0] || x in avail[1..];
  }

  /** `_dispatchResource`. */
  lemma DispatchResourceKeeps(c: PoolConfig, s: PoolState, out: set<Id>, now: int)
    requires RequestsTracked(s.clients) && ResourcesTracked(s.res, out) && IdsFresh(s)
    ensures var t := DispatchResource(c, s, now);
            RequestsTracked(t.clients) && ResourcesTracked(t.res, out) && IdsFresh(t)
    ensures var t := DispatchResource(c, s, now);
            |t.clients.waiting| == |s.clients.waiting| && t.res.allObjects == s.res.allObjects && t.creates == s.creates && t.destroys == s.destroys
  {
    if |s.res.available| >= 1 {
      var r := s.res.available[0].res;
      ShiftKeeps(s.res, out);
      var s1 := s.(res := s.res.(available := s.res.available[1..]));
      DispatchToNextKeeps(c, s1, r, out + {r}, now);
      DispatchToNextFresh(c, s1, r, now);
      assert out + {r} - {r} == out;
    }
  }

  lemma {:induction false} DispatchManyKeeps(c: PoolConfig, s: PoolState, n: nat, out: set<Id>, now: int)
    requires RequestsTracked(s.clients) && ResourcesTracked(s.res, out) && IdsFresh(s)
    ensures var t := DispatchMany(c, s, n, now);
            RequestsTracked(t.clients) && ResourcesTracked(t.res, out) && IdsFresh(t)
    ensures var t := DispatchMany(c, s, n, now);
            |t.clients.waiting| == |s.clients.waiting| && t.res.allObjects == s.res.allObjects && t.creates == s.creates && t.destroys == s.destroys
  {
    if n > 0 {
      DispatchManyKeeps(c, s, n - 1, out, now);
      DispatchResourceKeeps(c, DispatchMany(c, s, n - 1, now), out, now);
    }
  }

  /** `_testOnBorrow`: the head resource goes under test with a new validation. */
  lemma TestOnBorrowKeeps(s: PoolState, out: set<Id>)
    requires ResourcesTracked(s.res, out) && IdsFresh(s)
    ensures var t := TestOnBorrow(s);
            t.clients == s.clients && ResourcesTracked(t.res, out) && IdsFresh(t)
    ensures var t := TestOnBorrow(s);
            t.res.allObjects == s.res.allObjects && t.creates == s.creates && t.destroys == s.destroys
  {
    if |s.res.available| >= 1 {
      var r := s.res.available[0].res;
      ShiftKeeps(s.res, out);
      var rs1 := s.res.(available := s.res.available[1..]);
      var t := TestOnBorrow(s);
      assert t.res == rs1.(resState := rs1.resState[r := VALIDATION], testOnBorrow := rs1.testOnBorrow + {r},
                           validations := rs1.validations[s.nextId := r]);
      assert r !in s.res.testOnBorrow;
    }
  }

  lemma {:induction false} TestManyKeeps(s: PoolState, n: nat, out: set<Id>)
    requires ResourcesTracked(s.res, out) && IdsFresh(s)
    ensures var t := TestMany(s, n);
            t.clients == s.clients && ResourcesTracked(t.res, out) && IdsFresh(t)
    ensures var t := TestMany(s, n);
            t.res.allObjects == s.res.allObjects && t.creates == s.creates && t.destroys == s.destroys
  {
    if n > 0 {
      TestManyKeeps(s, n - 1, out);
      TestOnBorrowKeeps(TestMany(s, n - 1), out);
    }
  }

  // ---- creating and destroying -------------------------------------------

  /** The creations draw their ids from the counter. */
  lemma CreateManyFresh(s: PoolState, n: nat)
    requires IdsFresh(s)
    ensures IdsFresh(CreateMany(s, n))
  {
  }

  /** Each creation draws a new id, so `n` of them add `n` to the tracked create operations. */
  lemma {:induction false} CreateManyCount(s: PoolState, n: nat)
    requires forall op :: op in s.creates ==> op < s.nextId
    ensures |CreateMany(s, n).creates| == |s.creates| + n
  {
    if n > 0 {
      CreateManyCount(s, n - 1);
      var t := CreateMany(s, n - 1);
      assert t.nextId !in t.creates;
    }
  }

  /** `_ensureMinimum` only starts creations. */
  lemma EnsureMinimumFrame(c: PoolConfig, s: PoolState)
    ensures var t := EnsureMinimum(c, s);
            t == s.(creates := t.creates, nextId := t.nextId) && t.nextId >= s.nextId
  {
  }

  lemma EnsureMinimumKeeps(c: PoolConfig, s: PoolState)
    requires IdsFresh(s)
    ensures var t := EnsureMinimum(c, s);
            && t == s.(creates := t.creates, nextId := t.nextId)
            && IdsFresh(t)
  {
    if !s.draining {
      CreateManyFresh(s, Iterations(MinShortfallAsWritten(c.min, Count(s))));
    }
  }

  /**
   * `_destroy` of the resource in hand: it leaves `_allObjects` and the hands
   * of the running step, and every other resource stays where it was.
   */
  lemma DestroyResourceKeeps(c: PoolConfig, s: PoolState, r: Id, out: set<Id>)
    requires ResourcesTracked(s.res, out) && IdsFresh(s) && r in out
    ensures var t := DestroyResource(c, s, r);
            ResourcesTracked(t.res, out - {r}) && IdsFresh(t) && t.clients == s.clients
  {
    var s1 := s.(res := s.res.(resState := s.res.resState[r := INVALID], allObjects := s.res.allObjects - {r}),
                 destroys := s.destroys + {s.nextId},
                 nextId := s.nextId + 1);
    EnsureMinimumKeeps(c, s1);
  }

  /** `_dispense` when nothing is in hand: the queue, the partition and the ids stay consistent. */
  lemma DispenseKeeps(c: PoolConfig, s: PoolState, now: int)
    requires RequestsTracked(s.clients) && ResourcesTracked(s.res, {}) && IdsFresh(s)
    ensures var t := Dispense(c, s, now);
            && RequestsTracked(t.clients) && ResourcesTracked(t.res, {}) && IdsFresh(t)
            && |t.clients.waiting| == |s.clients.waiting|
            && t.res.allObjects == s.res.allObjects && t.destroys == s.destroys
  {
    var waitingCount := Pending(s);
    if waitingCount >= 1 {
      var n := CreationsToStart(c, s);
      var s1 := CreateMany(s, n);
      CreateManyFresh(s, n);
      if c.testOnBorrow {
        TestManyKeeps(s1, Iterations(Min(|s1.res.available|, waitingCount - |s1.res.testOnBorrow|)), {});
      } else {
        DispatchManyKeeps(c, s1, Iterations(Min(|s1.res.available|, waitingCount)), {}, now);
      }
    }
  }
}
