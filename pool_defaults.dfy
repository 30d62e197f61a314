/**
 * The default configuration of lib/pool_defaults.ts. A `null` default is an
 * absent option (`None`). The pool reads an absent option as JavaScript reads
 * `undefined`.
 */
module PoolDefaults {
  import opened Common
  import opened DefaultEvictor
  import opened PriorityQueues

  /** The options the pool reads, with the types the defaults give them. */
  datatype PoolConfig = PoolConfig(
    fifo: bool,
    priorityRange: int,
    testOnBorrow: bool,
    testOnReturn: bool,
    autostart: bool,
    evictionRunIntervalMillis: int,
    numTestsPerEvictionRun: int,
    softIdleTimeoutMillis: int,
    idleTimeoutMillis: int,
    acquireTimeoutMillis: Option<int>,
    destroyTimeoutMillis: Option<int>,
    maxWaitingClients: Option<int>,
    min: Option<int>,
    max: Option<int>)

  /** `new PoolDefaults()`. */
  const Defaults: PoolConfig := PoolConfig(
    fifo := true,
    priorityRange := 1,
    testOnBorrow := false,
    testOnReturn := false,
    autostart := true,
    evictionRunIntervalMillis := 0,
    numTestsPerEvictionRun := 3,
    softIdleTimeoutMillis := -1,
    idleTimeoutMillis := 30000,
    acquireTimeoutMillis := None,
    destroyTimeoutMillis := None,
    maxWaitingClients := None,
    min := None,
    max := None)

  /** The object `_evict` hands to the evictor. */
  function EvictionConfigOf(c: PoolConfig): (e: EvictionConfig)
    ensures e.softIdleTimeoutMillis == c.softIdleTimeoutMillis && e.idleTimeoutMillis == c.idleTimeoutMillis
    ensures e.min == c.min
  {
    EvictionConfig(c.softIdleTimeoutMillis, c.idleTimeoutMillis, c.min)
  }

  /** `_scheduleEvictorRun` arms its timer only for a positive interval. */
  predicate EvictionScheduled(c: PoolConfig) {
    c.evictionRunIntervalMillis > 0
  }

  /** By default the wait queue has a single slot, so every priority lands in it. */
  lemma DefaultsSingleSlot(priority: Option<int>)
    ensures SlotCount(Defaults.priorityRange) == 1
    ensures Normalize(priority, SlotCount(Defaults.priorityRange)) == 0
  {
  }

  /** By default requests are served first in, first out, and no resource is tested. */
  lemma DefaultsFifoUntested()
    ensures Defaults.fifo && !Defaults.testOnBorrow && !Defaults.testOnReturn && Defaults.autostart
  {
  }

  /** By default no eviction run is ever scheduled. */
  lemma DefaultsNeverScheduleEviction()
    ensures !EvictionScheduled(Defaults) && Defaults.numTestsPerEvictionRun == 3
  {
  }

  /**
   * Under the default timeouts the soft rule is off, and a resource is evicted
   * exactly when it has been idle for more than 30 seconds.
   */
  lemma DefaultsEvictAfterIdleTimeout(lastIdleTime: Option<int>, availableObjectsCount: int, now: int)
    ensures Evict(EvictionConfigOf(Defaults), lastIdleTime, availableObjectsCount, now)
            <==> IdleTime(lastIdleTime, now) > 30000
  {
    SoftRuleDisabled(EvictionConfigOf(Defaults), lastIdleTime, availableObjectsCount, now);
  }

  /** The timeouts, the waiting limit and the pool bounds have no defaults. */
  lemma DefaultsLeaveLimitsUnset()
    ensures Defaults.acquireTimeoutMillis.None? && Defaults.destroyTimeoutMillis.None?
    ensures Defaults.maxWaitingClients.None? && Defaults.min.None? && Defaults.max.None?
  {
  }
}
