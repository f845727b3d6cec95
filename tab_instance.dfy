/**
 * One browser tab open on a URL node (`TabInstance` in native/src/tracker.rs).
 * `timeActive` is focus time accrued in the current drain cycle and not yet folded into
 * the node; `lastOpened` is present exactly while the tab is focused ("live") and holds
 * the moment from which its focus time is still uncounted.
 */
module TabInstances {
  import opened Wrappers
  import opened Primitives

  /** `u64::saturating_sub`: the time from `since` to `now`, zero if the clock went backwards. */
  function Elapsed(since: nat, now: nat): (d: nat)
    ensures now >= since ==> since + d == now
    ensures now <= since ==> d == 0
  {
    if now >= since then now - since else 0
  }

  datatype TabInstance = TabInstance(tabId: u32, timeActive: nat, lastOpened: Option<nat>)
  {
    /** `is_active`: the tab is focused. */
    predicate IsActive(): (live: bool)
      ensures live <==> lastOpened.Some?
    {
      lastOpened.Some?
    }

    /**
     * Focus time this instance owes its node at `now`: what it has accrued plus,
     * when live, the still-open interval since `lastOpened`.
     */
    function Pending(now: nat): nat {
      timeActive + (if lastOpened.Some? then Elapsed(lastOpened.value, now) else 0)
    }

    /**
     * Stop-drain (`accumulate_time`, used on unfocus and close): the open interval is
     * folded into `timeActive` and the tab becomes dormant. A dormant tab is unchanged.
     */
    function StopDrain(now: nat): (r: TabInstance)
      ensures r.tabId == tabId && !r.IsActive()
      ensures r.timeActive == Pending(now)
      ensures r.Pending(now) == Pending(now)
      ensures !IsActive() ==> r == this
    {
      match lastOpened
      case None => this
      case Some(since) => TabInstance(tabId, timeActive + Elapsed(since, now), None)
    }

    /**
     * Cycle-drain (`accumulate_and_reset`, used by report and serialise): hands back all
     * the time owed at `now` and zeroes it, while a live tab stays live, counting from `now`.
     */
    function CycleDrain(now: nat): (r: (TabInstance, nat))
      ensures r.1 == Pending(now)
      ensures r.0.tabId == tabId && r.0.timeActive == 0
      ensures r.0.lastOpened == if IsActive() then Some(now) else None
      ensures r.0.Pending(now) == 0
    {
      match lastOpened
      case None => (this.(timeActive := 0), timeActive)
      case Some(since) => (TabInstance(tabId, 0, Some(now)), timeActive + Elapsed(since, now))
    }
  }

  /** `TabInstance::new`: a freshly focused tab with nothing accrued. */
  function NewInstance(tabId: u32, timestamp: nat): (r: TabInstance)
    ensures r.tabId == tabId && r.timeActive == 0 && r.lastOpened == Some(timestamp)
    ensures r.IsActive() && r.Pending(timestamp) == 0
  {
    TabInstance(tabId, 0, Some(timestamp))
  }

  /**
   * Draining at an intermediate moment loses and duplicates nothing: with a clock that does
   * not run backwards, what a cycle-drain at `t1` hands back plus what is owed afterwards at
   * `t2` is exactly what was owed at `t2` without the drain.
   */
  lemma CycleDrainSplits(i: TabInstance, t1: nat, t2: nat)
    requires i.IsActive() ==> i.lastOpened.value <= t1
    requires t1 <= t2
    ensures i.CycleDrain(t1).1 + i.CycleDrain(t1).0.Pending(t2) == i.Pending(t2)
  {
  }

  /**
   * After a stop-drain the time owed stays what it was at the stop: no further time accrues,
   * so later it is no more than what the undrained tab would owe.
   */
  lemma StopDrainFreezes(i: TabInstance, t1: nat, t2: nat)
    requires t1 <= t2
    ensures i.StopDrain(t1).Pending(t2) == i.Pending(t1)
    ensures i.Pending(t1) <= i.Pending(t2)
  {
  }
}
