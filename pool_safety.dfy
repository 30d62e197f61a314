/**
 * Every operation of the pool, and every continuation that runs after one of
 * its awaits, keeps the invariant of `PoolInvariants`. Together with the
 * constructor establishing it, this is the invariant of every reachable
 * state of the pool.
 */
module PoolSafety {
  import opened Common
  import opened Seqs
  import opened Deferreds
  import opened ListIterators
  import opened PriorityQueues
  import opened DefaultEvictor
  import opened PoolDefaults
  import opened PoolStates
  import opened PoolInvariants

  // ---- construction --------------------------------------------------------

  lemma EmptyInv(c: PoolConfig)
    ensures Inv(c, Empty(c))
  {
    FlattenEmpty(Empty(c).clients.waiting);
  }

  /** `start` only starts creations. */
  lemma StartKeeps(c: PoolConfig, s: PoolState)
    requires Inv(c, s)
    ensures Inv(c, Start(c, s))
  {
    if !s.draining && !s.started {
      EnsureMinimumKeeps(c, s.(started := true));
    }
  }

  /** The pool the constructor builds satisfies the invariant. */
  lemma InitialInv(c: PoolConfig)
    ensures Inv(c, Initial(c))
  {
    EmptyInv(c);
    StartKeeps(c, Empty(c));
  }

  // ---- acquire ---------------------------------------------------------------

  /** Where `enqueue` puts a request in the flattened queue: after the first `k` requests. */
  lemma EnqueuedFlat<R>(w: seq<seq<R>>, x: R, p: Option<int>)
    requires |w| >= 1
    ensures var f, k := Flatten(w), |Flatten(w[..Normalize(p, |w|) + 1])|;
            k <= |f| && Flatten(Enqueued(w, x, p)) == f[..k] + [x] + f[k..]
  {
    var k := Normalize(p, |w|);
    EnqueuePlacesAfterLowerSlots(w, x, p);
    assert w[..k + 1] + w[k + 1..] == w;
    FlattenAppend(w[..k + 1], w[k + 1..]);
  }

  /** A new request waits once in the queue, pending, and the queue is one longer. */
  lemma AddRequestKeeps(c: PoolConfig, s: PoolState, priority: int)
    requires RequestsTracked(s.clients) && IdsFresh(s) && |s.clients.waiting| >= 1
    ensures var t := AddRequest(c, s, priority);
            && RequestsTracked(t.clients) && IdsFresh(t) && t.res == s.res
            && |t.clients.waiting| == |s.clients.waiting|
            && Pending(t) == Pending(s) + 1
  {
    var w, id := s.clients.waiting, s.nextId;
    var t := AddRequest(c, s, priority);
    var f := Flatten(w);
    var k := |Flatten(w[..Normalize(Some(priority), |w|) + 1])|;
    EnqueuedFlat(w, id, Some(priority));
    assert id !in f;
    InsertNoDups(f, k, id);
    assert f == f[..k] + f[k..];
    assert forall x :: x in Flatten(t.clients.waiting) <==> x in f || x == id;
    SumLengthsIsSize(w);
    SumLengthsIsSize(t.clients.waiting);
  }

  lemma AcquireKeeps(c: PoolConfig, s: PoolState, priority: int, now: int)
    requires Inv(c, s)
    ensures Inv(c, Acquire(c, s, priority, now).0)
  {
    var s0 := if !s.started && !c.autostart then Start(c, s) else s;
    StartKeeps(c, s);
    if !s0.draining && !WaitingLimitReached(c, s0)
       && !(c.acquireTimeoutMillis.Some? && c.acquireTimeoutMillis.value <= 0)
    {
      AddRequestKeeps(c, s0, priority);
      DispenseKeeps(c, AddRequest(c, s0, priority), now);
    }
  }

  // ---- release and destroy -------------------------------------------------

  /** Taking a resource off loan puts it in hand. */
  lemma UnlendKeeps(rs: Resources, r: Id)
    requires ResourcesTracked(rs, {}) && r in rs.loans
    ensures ResourcesTracked(rs.(loans := rs.loans - {r}), {r})
  {
  }

  lemma ReleaseKeeps(c: PoolConfig, s: PoolState, r: Id, now: int)
    requires Inv(c, s)
    ensures Inv(c, Release(c, s, r, now).0)
  {
    if r in s.res.loans {
      var s1 := s.(res := s.res.(loans := s.res.loans - {r}));
      UnlendKeeps(s.res, r);
      AddToAvailableKeeps(c, s1, r, {r}, now);
      assert {r} - {r} == {};
      DispenseKeeps(c, AddToAvailable(c, s1, r, now), now);
    }
  }

  lemma DestroyKeeps(c: PoolConfig, s: PoolState, r: Id, now: int)
    requires Inv(c, s)
    ensures Inv(c, Destroy(c, s, r, now).0)
  {
    if r in s.res.loans {
      var s1 := s.(res := s.res.(loans := s.res.loans - {r}));
      UnlendKeeps(s.res, r);
      DestroyResourceKeeps(c, s1, r, {r});
      assert {r} - {r} == {};
      DispenseKeeps(c, DestroyResource(c, s1, r), now);
    }
  }

  lemma DrainKeeps(c: PoolConfig, s: PoolState)
    requires Inv(c, s)
    ensures Inv(c, Drain(s))
  {
  }

  // ---- the factory's answers -------------------------------------------------

  /** The created resource joins `_allObjects` and goes on the available deque. */
  lemma CreatedTracked(c: PoolConfig, s: PoolState, now: int)
    requires ResourcesTracked(s.res, {}) && IdsFresh(s)
    ensures ResourcesTracked(Created(c, s, now).res, {})
  {
    var r := s.nextId;
    NewResourceKeeps(s.res, r);
    AddToAvailableSettles(c, s.(res := s.res.(allObjects := s.res.allObjects + {r}), nextId := r + 1), r, now);
  }

  /** The created resource takes the next id. */
  lemma CreatedFresh(c: PoolConfig, s: PoolState, now: int)
    requires IdsFresh(s)
    ensures IdsFresh(Created(c, s, now)) && Created(c, s, now).clients == s.clients
  {
  }

  lemma CreateSucceededKeeps(c: PoolConfig, s: PoolState, op: Id, now: int)
    requires Inv(c, s)
    ensures Inv(c, CreateSucceeded(c, s, op, now))
  {
    var s1 := Created(c, s, now);
    CreatedTracked(c, s, now);
    CreatedFresh(c, s, now);
    DispenseKeeps(c, s1.(creates := s1.creates - {op}), now);
  }

  /** Putting the one resource in hand on the available deque. */
  lemma AddToAvailableSettles(c: PoolConfig, s: PoolState, r: Id, now: int)
    requires ResourcesTracked(s.res, {r})
    ensures ResourcesTracked(AddToAvailable(c, s, r, now).res, {})
  {
    AddToAvailableKeeps(c, s, r, {r}, now);
    assert {r} - {r} == {};
  }

  /** A resource new to `_allObjects` starts in the hands of the running step. */
  lemma NewResourceKeeps(rs: Resources, r: Id)
    requires ResourcesTracked(rs, {}) && r !in rs.allObjects
    ensures ResourcesTracked(rs.(allObjects := rs.allObjects + {r}), {r})
  {
  }

  lemma CreateFailedKeeps(c: PoolConfig, s: PoolState, op: Id, now: int)
    requires Inv(c, s)
    ensures Inv(c, CreateFailed(c, s, op, now))
  {
    DispenseKeeps(c, s.(creates := s.creates - {op}), now);
  }

  /** The end of a validation puts the resource under test in hand. */
  lemma EndTestKeeps(rs: Resources, op: Id)
    requires ResourcesTracked(rs, {}) && op in rs.validations
    ensures var r := rs.validations[op];
            ResourcesTracked(rs.(validations := rs.validations - {op}, testOnBorrow := rs.testOnBorrow - {r}), {r})
  {
  }

  lemma ValidationReturnedKeeps(c: PoolConfig, s: PoolState, op: Id, isValid: Option<bool>, now: int)
    requires Inv(c, s) && op in s.res.validations
    ensures Inv(c, ValidationReturned(c, s, op, isValid, now))
  {
    var r := s.res.validations[op];
    var s1 := s.(res := s.res.(validations := s.res.validations - {op}, testOnBorrow := s.res.testOnBorrow - {r}));
    EndTestKeeps(s.res, op);
    assert {r} - {r} == {};
    if isValid == Some(false) {
      var s2 := s1.(res := s1.res.(resState := s1.res.resState[r := INVALID]));
      DestroyResourceKeeps(c, s2, r, {r});
      DispenseKeeps(c, DestroyResource(c, s2, r), now);
    } else {
      DispatchToNextKeeps(c, s1, r, {r}, now);
      DispatchToNextFresh(c, s1, r, now);
    }
  }

  lemma ValidationRejectedKeeps(c: PoolConfig, s: PoolState, op: Id)
    requires Inv(c, s)
    ensures Inv(c, ValidationRejected(s, op))
  {
  }

  lemma DestroySettledKeeps(c: PoolConfig, s: PoolState, op: Id)
    requires Inv(c, s)
    ensures Inv(c, DestroySettled(s, op))
  {
  }

  // ---- a request's timer -------------------------------------------------------

  /** Taking a request out of every slot takes it out of the flattened queue. */
  lemma {:induction false} FlattenWithout<R>(w: seq<seq<R>>, x: R)
    ensures Flatten(seq(|w|, j requires 0 <= j < |w| => Without(w[j], x))) == Without(Flatten(w), x)
  {
    if |w| > 0 {
      var v := seq(|w|, j requires 0 <= j < |w| => Without(w[j], x));
      var u := w[1..];
      assert v[1..] == seq(|u|, j requires 0 <= j < |u| => Without(u[j], x));
      FlattenWithout(u, x);
      WithoutAppend(w[0], Flatten(u), x);
    }
  }

  lemma RequestTimedOutKeeps(c: PoolConfig, s: PoolState, id: Id)
    requires Inv(c, s) && id in s.clients.requests && s.clients.requests[id].timer
    ensures Inv(c, RequestTimedOut(s, id))
  {
    FlattenWithout(s.clients.waiting, id);
    WithoutNoDups(Flatten(s.clients.waiting), id);
  }

  // ---- eviction --------------------------------------------------------------

  /** Distinct resources make distinct entries. */
  lemma EntriesDistinct(es: seq<Entry>)
    requires NoDups(AvailableResources(es))
    ensures NoDups(es)
  {
    var all := AvailableResources(es);
    forall i, j | 0 <= i < j < |es| ensures es[i] != es[j] {
      assert all[i] != all[j];
    }
  }

  lemma AvailableCut(es: seq<Entry>, k: nat)
    requires k < |es|
    ensures AvailableResources(es[..k] + es[k + 1..]) == AvailableResources(es)[..k] + AvailableResources(es)[k + 1..]
  {
    CutAtIndex(es, k);
    CutAtIndex(AvailableResources(es), k);
  }

  /** The available deque without one of its entries holds the other resources, once each. */
  lemma AvailableWithout(es: seq<Entry>, e: Entry)
    requires e in es && NoDups(AvailableResources(es))
    ensures var a := AvailableResources(Without(es, e));
            NoDups(a) && forall x :: x in a <==> x in AvailableResources(es) && x != e.res
  {
    var all := AvailableResources(es);
    EntriesDistinct(es);
    WithoutAt(es, e);
    var k := IndexOf(es, e);
    AvailableCut(es, k);
    CutNoDups(all, k);
    CutMembers(all, k);
  }

  /** An evicted resource is taken off the available deque into the hands of `_evict`. */
  lemma EvictTakeKeeps(rs: Resources, e: Entry)
    requires ResourcesTracked(rs, {}) && e in rs.available
    ensures ResourcesTracked(rs.(available := Without(rs.available, e)), {e.res})
  {
    AvailableWithout(rs.available, e);
    assert e.res in AvailableResources(rs.available);
  }

  /** The resource under the cursor is evicted: taken off the deque, then destroyed. */
  lemma EvictOneKeeps(c: PoolConfig, s: PoolState, e: Entry)
    requires Inv(c, s) && e in s.res.available
    ensures Inv(c, DestroyResource(c, s.(res := s.res.(available := Without(s.res.available, e))), e.res))
  {
    EvictTakeKeeps(s.res, e);
    DestroyResourceKeeps(c, s.(res := s.res.(available := Without(s.res.available, e))), e.res, {e.res});
    assert {e.res} - {e.res} == {};
  }

  /** One pass of the eviction loop. */
  lemma EvictStepKeeps(c: PoolConfig, s: PoolState, now: int)
    requires Inv(c, s)
    ensures Inv(c, EvictStep(c, s, now).0)
  {
    var (cursor, step) := Stepped(s.res.available, false, s.evictionCursor);
    YieldsListNodes(s.res.available, false, s.evictionCursor);
    if step.Yield? {
      var s1 := s.(evictionCursor := cursor);
      if Evict(EvictionConfigOf(c), LastIdleTime(s, step.value.res), |s.res.available|, now) {
        assert RemoveAtCursor(s1.res.available, cursor) == Without(s.res.available, step.value);
        EvictOneKeeps(c, s1, step.value);
      }
    }
  }

  lemma {:induction false} EvictFromKeeps(c: PoolConfig, s: PoolState, testsToRun: nat, run: nat, now: int)
    requires run <= testsToRun && Inv(c, s)
    ensures Inv(c, EvictFrom(c, s, testsToRun, run, now))
    decreases EvictMeasure(s, testsToRun, run)
  {
    if run < testsToRun {
      EvictStepKeeps(c, s, now);
      var (s1, pass) := EvictStep(c, s, now);
      if pass == Restart {
        EvictFromKeeps(c, s1, testsToRun, run, now);
      } else if pass == Checked {
        EvictFromKeeps(c, s1, testsToRun, run + 1, now);
      }
    }
  }

  lemma EvictRunKeeps(c: PoolConfig, s: PoolState, now: int)
    requires Inv(c, s)
    ensures Inv(c, EvictRun(c, s, now))
  {
    EvictFromKeeps(c, s, TestsToRun(c, s), 0, now);
  }
}
