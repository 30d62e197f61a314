/**
 * The eviction rule of lib/default_evictor.ts: whether an idle resource should
 * be destroyed, decided from how long it has been idle, the pool's idle
 * timeouts and `min`, and how many resources are available. The clock is the
 * parameter `now`.
 */
module DefaultEvictor {
  import opened Common

  /**
   * The configuration `evict` reads. An unset `min` compares like JavaScript's
   * `undefined`: no comparison with it holds.
   */
  datatype EvictionConfig = EvictionConfig(softIdleTimeoutMillis: int, idleTimeoutMillis: int, min: Option<int>)

  /** `x < n` for a number `x` that may be unset. */
  predicate SetAndBelow(x: Option<int>, n: int) {
    x.Some? && x.value < n
  }

  /** How long a resource has been idle; one never marked idle counts from time 0. */
  function IdleTime(lastIdleTime: Option<int>, now: int): (t: int)
    ensures lastIdleTime.None? ==> t == now
    ensures lastIdleTime.Some? ==> t + lastIdleTime.value == now
  {
    now - (if lastIdleTime.Some? && lastIdleTime.value != 0 then lastIdleTime.value else 0)
  }

  /** The soft rule: past a positive soft timeout, while more than `min` are available. */
  predicate SoftRule(config: EvictionConfig, idleTime: int, availableObjectsCount: int) {
    && config.softIdleTimeoutMillis > 0
    && config.softIdleTimeoutMillis < idleTime
    && SetAndBelow(config.min, availableObjectsCount)
  }

  /** The hard rule: strictly past the idle timeout, whatever `min` says. */
  predicate HardRule(config: EvictionConfig, idleTime: int) {
    config.idleTimeoutMillis < idleTime
  }

  /** `DefaultEvictor.evict`. */
  function Evict(config: EvictionConfig, lastIdleTime: Option<int>, availableObjectsCount: int, now: int): (r: bool)
    ensures HardRule(config, IdleTime(lastIdleTime, now)) ==> r
    ensures r && config.softIdleTimeoutMillis <= 0 ==> HardRule(config, IdleTime(lastIdleTime, now))
  {
    var idleTime := IdleTime(lastIdleTime, now);
    if config.softIdleTimeoutMillis > 0 && config.softIdleTimeoutMillis < idleTime
       && SetAndBelow(config.min, availableObjectsCount) then
      true
    else if config.idleTimeoutMillis < idleTime then
      true
    else
      false
  }

  /** A resource is evicted exactly when the soft rule or the hard rule applies. */
  lemma EvictExactlyByRules(config: EvictionConfig, lastIdleTime: Option<int>, availableObjectsCount: int, now: int)
    ensures var t := IdleTime(lastIdleTime, now);
            Evict(config, lastIdleTime, availableObjectsCount, now) <==> SoftRule(config, t, availableObjectsCount) || HardRule(config, t)
  {
  }

  /** The hard rule ignores `min` and the available count. */
  lemma HardRuleIgnoresMin(config: EvictionConfig, lastIdleTime: Option<int>, n1: int, n2: int, now: int)
    requires HardRule(config, IdleTime(lastIdleTime, now))
    ensures Evict(config, lastIdleTime, n1, now) && Evict(config.(min := None), lastIdleTime, n2, now)
  {
  }

  /** The comparison is strict: idle for exactly the idle timeout is not enough on its own. */
  lemma ExactTimeoutKept(config: EvictionConfig, lastIdleTime: Option<int>, availableObjectsCount: int, now: int)
    requires IdleTime(lastIdleTime, now) == config.idleTimeoutMillis
    requires !SoftRule(config, config.idleTimeoutMillis, availableObjectsCount)
    ensures !Evict(config, lastIdleTime, availableObjectsCount, now)
  {
  }

  /** A soft timeout that is not positive switches the soft rule off entirely. */
  lemma SoftRuleDisabled(config: EvictionConfig, lastIdleTime: Option<int>, availableObjectsCount: int, now: int)
    requires config.softIdleTimeoutMillis <= 0
    ensures Evict(config, lastIdleTime, availableObjectsCount, now) <==> HardRule(config, IdleTime(lastIdleTime, now))
  {
  }

  /**
   * Waiting longer never saves a resource: evicted at one instant, it is
   * evicted at every later one, all else equal.
   */
  lemma EvictMonotone(config: EvictionConfig, lastIdleTime: Option<int>, availableObjectsCount: int, now1: int, now2: int)
    requires now1 <= now2
    requires Evict(config, lastIdleTime, availableObjectsCount, now1)
    ensures Evict(config, lastIdleTime, availableObjectsCount, now2)
  {
  }
}
