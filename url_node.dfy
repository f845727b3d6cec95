/**
 * One node of the usage trie (`UrlNode` in native/src/tracker.rs): the URL segment it stands
 * for, the focus time already folded in, the tabs open on exactly this URL, and the child
 * nodes keyed by the next segment.
 */
module UrlNodes {
  import opened Wrappers
  import opened Primitives
  import opened TabInstances

  datatype UrlNode = UrlNode(
    subPart: string,
    aggregateTime: nat,
    instances: seq<TabInstance>,
    children: map<string, UrlNode>)

  /** `UrlNode::new`. */
  function NewNode(subPart: string): (n: UrlNode)
    ensures n.subPart == subPart && n.aggregateTime == 0 && n.instances == [] && n.children == map[]
  {
    UrlNode(subPart, 0, [], map[])
  }

  /** At most one instance per tab id, the invariant `add_tab_instance` keeps. */
  ghost predicate UniqueTabIds(s: seq<TabInstance>) {
    forall i, j :: 0 <= i < j < |s| ==> s[i].tabId != s[j].tabId
  }

  /** Position of the first instance of `tabId`: what the searches in `find_tab_instance` and `remove_tab_instance` find. */
  function IndexOf(s: seq<TabInstance>, tabId: u32): (r: Option<nat>)
    ensures r.Some? ==> r.value < |s| && s[r.value].tabId == tabId
    ensures r.Some? ==> forall j :: 0 <= j < r.value ==> s[j].tabId != tabId
    ensures r.None? <==> forall j :: 0 <= j < |s| ==> s[j].tabId != tabId
  {
    if s == [] then None
    else if s[0].tabId == tabId then Some(0)
    else match IndexOf(s[1..], tabId)
      case None => None
      case Some(k) => Some(k + 1)
  }

  /** Total time owed by the instances at `now` (summed from the back, the way a loop meets them). */
  function SumPending(s: seq<TabInstance>, now: nat): nat {
    if s == [] then 0 else SumPending(s[..|s| - 1], now) + s[|s| - 1].Pending(now)
  }

  /** Number of live instances. */
  function CountActive(s: seq<TabInstance>): nat {
    if s == [] then 0 else CountActive(s[..|s| - 1]) + (if s[|s| - 1].IsActive() then 1 else 0)
  }

  /** All the time a node has recorded by `now`: folded in, or still owed by its instances. */
  function RecordedTime(n: UrlNode, now: nat): nat {
    n.aggregateTime + SumPending(n.instances, now)
  }

  lemma {:induction false} SumPendingAppend(a: seq<TabInstance>, b: seq<TabInstance>, now: nat)
    ensures SumPending(a + b, now) == SumPending(a, now) + SumPending(b, now)
    decreases |b|
  {
    if b == [] {
      assert a + b == a;
    } else {
      assert (a + b)[..|a + b| - 1] == a + b[..|b| - 1];
      SumPendingAppend(a, b[..|b| - 1], now);
    }
  }

  /** Replacing one instance changes the sum by exactly the difference of the two. */
  lemma SumPendingUpdate(s: seq<TabInstance>, k: nat, x: TabInstance, now: nat)
    requires k < |s|
    ensures SumPending(s[k := x], now) + s[k].Pending(now) == SumPending(s, now) + x.Pending(now)
  {
    assert s == s[..k] + [s[k]] + s[k + 1..];
    assert s[k := x] == s[..k] + [x] + s[k + 1..];
    SumPendingAppend(s[..k] + [s[k]], s[k + 1..], now);
    SumPendingAppend(s[..k], [s[k]], now);
    SumPendingAppend(s[..k] + [x], s[k + 1..], now);
    SumPendingAppend(s[..k], [x], now);
    assert SumPending([x], now) == x.Pending(now) by { assert [x][..0] == []; }
    assert SumPending([s[k]], now) == s[k].Pending(now) by { assert [s[k]][..0] == []; }
  }

  /** `Vec::swap_remove`: the last element takes the place of the removed one. */
  function SwapRemove(s: seq<TabInstance>, k: nat): (r: seq<TabInstance>)
    requires k < |s|
    ensures |r| == |s| - 1
    ensures forall j :: 0 <= j < |r| ==> r[j] == if j == k then s[|s| - 1] else s[j]
  {
    s[k := s[|s| - 1]][..|s| - 1]
  }

  /** Swap-removal takes away exactly the one element, whatever the order of the rest. */
  lemma SwapRemoveMultiset(s: seq<TabInstance>, k: nat)
    requires k < |s|
    ensures multiset(SwapRemove(s, k)) + multiset{s[k]} == multiset(s)
  {
    var last := |s| - 1;
    if k == last {
      assert s == SwapRemove(s, k) + [s[k]];
    } else {
      assert s == s[..k] + [s[k]] + s[k + 1..last] + [s[last]];
      assert SwapRemove(s, k) == s[..k] + [s[last]] + s[k + 1..last];
    }
  }

  /** Time is conserved when an instance is swap-removed and handed to the caller. */
  lemma SwapRemoveSumPending(s: seq<TabInstance>, k: nat, now: nat)
    requires k < |s|
    ensures SumPending(SwapRemove(s, k), now) + s[k].Pending(now) == SumPending(s, now)
  {
    var last := |s| - 1;
    SumPendingUpdate(s, k, s[last], now);
    var u := s[k := s[last]];
    assert u[..last] == SwapRemove(s, k);
    assert u == SwapRemove(s, k) + [s[last]];
    SumPendingAppend(SwapRemove(s, k), [s[last]], now);
    assert SumPending([s[last]], now) == s[last].Pending(now) by { assert [s[last]][..0] == []; }
  }

  /**
   * `add_tab_instance`: the tab ends up live on this node. A dormant instance of the tab is
   * re-focused from `timestamp`, a live one is left as it is, and an unknown tab is appended
   * as a new live instance.
   */
  function AddInstance(n: UrlNode, tabId: u32, timestamp: nat): (r: UrlNode)
    ensures r.subPart == n.subPart && r.aggregateTime == n.aggregateTime && r.children == n.children
    ensures IndexOf(r.instances, tabId).Some?
    ensures r.instances[IndexOf(r.instances, tabId).value].IsActive()
    ensures IndexOf(n.instances, tabId).None? ==>
      r.instances == n.instances + [NewInstance(tabId, timestamp)]
    ensures IndexOf(n.instances, tabId).Some? ==>
      var k := IndexOf(n.instances, tabId).value;
      && IndexOf(r.instances, tabId) == Some(k)
      && (n.instances[k].IsActive() ==> r.instances == n.instances)
      && (!n.instances[k].IsActive() ==>
            r.instances == n.instances[k := n.instances[k].(lastOpened := Some(timestamp))])
  {
    match IndexOf(n.instances, tabId)
    case Some(k) =>
      if n.instances[k].lastOpened.None? then
        var refocused := n.instances[k].(lastOpened := Some(timestamp));
        assert n.instances[k := refocused][k].tabId == tabId;
        n.(instances := n.instances[k := refocused])
      else
        n
    case None =>
      var added := NewInstance(tabId, timestamp);
      assert (n.instances + [added])[|n.instances|].tabId == tabId;
      n.(instances := n.instances + [added])
  }

  /** Focusing records no time by itself, and keeps the node's tab ids unique. */
  lemma AddInstanceConserves(n: UrlNode, tabId: u32, timestamp: nat)
    ensures SumPending(AddInstance(n, tabId, timestamp).instances, timestamp) == SumPending(n.instances, timestamp)
    ensures UniqueTabIds(n.instances) ==> UniqueTabIds(AddInstance(n, tabId, timestamp).instances)
  {
    match IndexOf(n.instances, tabId)
    case Some(k) =>
      if n.instances[k].lastOpened.None? {
        SumPendingUpdate(n.instances, k, n.instances[k].(lastOpened := Some(timestamp)), timestamp);
      }
    case None =>
      var added := NewInstance(tabId, timestamp);
      SumPendingAppend(n.instances, [added], timestamp);
      assert SumPending([added], timestamp) == 0 by { assert [added][..0] == []; }
  }

  /**
   * `remove_tab_instance`: the first instance of `tabId` is swap-removed and returned;
   * when there is none, nothing changes. The other instances stay, as a multiset.
   */
  function RemoveInstance(n: UrlNode, tabId: u32): (r: (UrlNode, Option<TabInstance>))
    ensures r.1.None? <==> IndexOf(n.instances, tabId).None?
    ensures r.1.None? ==> r.0 == n
    ensures r.1.Some? ==>
      var k := IndexOf(n.instances, tabId).value;
      && r.1.value == n.instances[k]
      && r.0 == n.(instances := SwapRemove(n.instances, k))
      && multiset(r.0.instances) + multiset{r.1.value} == multiset(n.instances)
    ensures UniqueTabIds(n.instances) ==> UniqueTabIds(r.0.instances) && IndexOf(r.0.instances, tabId).None?
  {
    match IndexOf(n.instances, tabId)
    case None => (n, None)
    case Some(k) =>
      SwapRemoveMultiset(n.instances, k);
      (n.(instances := SwapRemove(n.instances, k)), Some(n.instances[k]))
  }

  /** Closing an instance loses no time: what stays owed plus what the removed instance owes is what was owed. */
  lemma RemoveInstanceConserves(n: UrlNode, tabId: u32, now: nat)
    requires RemoveInstance(n, tabId).1.Some?
    ensures SumPending(RemoveInstance(n, tabId).0.instances, now) + RemoveInstance(n, tabId).1.value.Pending(now)
         == SumPending(n.instances, now)
  {
    SwapRemoveSumPending(n.instances, IndexOf(n.instances, tabId).value, now);
  }

  /** Every instance cycle-drained at `now`. */
  function DrainedInstances(s: seq<TabInstance>, now: nat): seq<TabInstance> {
    seq(|s|, j requires 0 <= j < |s| => s[j].CycleDrain(now).0)
  }

  lemma {:induction false} DrainedInstancesOweNothing(s: seq<TabInstance>, now: nat)
    ensures SumPending(DrainedInstances(s, now), now) == 0
    decreases |s|
  {
    if s != [] {
      assert DrainedInstances(s, now)[..|s| - 1] == DrainedInstances(s[..|s| - 1], now);
      DrainedInstancesOweNothing(s[..|s| - 1], now);
    }
  }

  lemma {:induction false} DrainedInstancesKeepActive(s: seq<TabInstance>, now: nat)
    ensures CountActive(DrainedInstances(s, now)) == CountActive(s)
    decreases |s|
  {
    if s != [] {
      assert DrainedInstances(s, now)[..|s| - 1] == DrainedInstances(s[..|s| - 1], now);
      DrainedInstancesKeepActive(s[..|s| - 1], now);
    }
  }

  /**
   * A node after `accumulate_all_instances`: every instance cycle-drained and the sum of
   * what they handed back folded into `aggregateTime`. Nothing is left owed, nothing recorded
   * is lost, and every tab keeps its id and its live or dormant state.
   */
  function DrainNode(n: UrlNode, now: nat): (r: UrlNode)
    ensures r.subPart == n.subPart && r.children == n.children
    ensures r.aggregateTime == RecordedTime(n, now)
    ensures SumPending(r.instances, now) == 0
    ensures |r.instances| == |n.instances|
    ensures forall j :: 0 <= j < |n.instances| ==>
      && r.instances[j].tabId == n.instances[j].tabId
      && r.instances[j].timeActive == 0
      && r.instances[j].lastOpened == (if n.instances[j].IsActive() then Some(now) else None)
    ensures CountActive(r.instances) == CountActive(n.instances)
    ensures UniqueTabIds(n.instances) ==> UniqueTabIds(r.instances)
  {
    DrainedInstancesOweNothing(n.instances, now);
    DrainedInstancesKeepActive(n.instances, now);
    n.(aggregateTime := n.aggregateTime + SumPending(n.instances, now),
       instances := DrainedInstances(n.instances, now))
  }

  /** A second drain at the same moment changes nothing: everything owed was already handed back. */
  lemma DrainNodeIdempotent(n: UrlNode, now: nat)
    ensures DrainNode(DrainNode(n, now), now) == DrainNode(n, now)
  {
    var d := DrainNode(n, now);
    assert DrainedInstances(d.instances, now) == d.instances;
  }

  lemma {:induction false} DrainedInstancesSplit(s: seq<TabInstance>, t1: nat, t2: nat)
    requires t1 <= t2
    requires forall j :: 0 <= j < |s| && s[j].IsActive() ==> s[j].lastOpened.value <= t1
    ensures SumPending(s, t1) + SumPending(DrainedInstances(s, t1), t2) == SumPending(s, t2)
    decreases |s|
  {
    if s != [] {
      var last := s[|s| - 1];
      assert DrainedInstances(s, t1)[..|s| - 1] == DrainedInstances(s[..|s| - 1], t1);
      DrainedInstancesSplit(s[..|s| - 1], t1, t2);
      CycleDrainSplits(last, t1, t2);
    }
  }

  /**
   * Reports and checkpoints taken in between do not change the total: with a clock that does
   * not run backwards, draining at `t1` and again at `t2` folds in exactly what a single drain
   * at `t2` would.
   */
  lemma DrainNodeTwice(n: UrlNode, t1: nat, t2: nat)
    requires t1 <= t2
    requires forall j :: 0 <= j < |n.instances| && n.instances[j].IsActive() ==> n.instances[j].lastOpened.value <= t1
    ensures DrainNode(DrainNode(n, t1), t2).aggregateTime == DrainNode(n, t2).aggregateTime
  {
    DrainedInstancesSplit(n.instances, t1, t2);
  }

  /** `find_tab_instance`: the position of the tab's instance, if it is on this node. */
  method FindTabInstance(node: UrlNode, tabId: u32) returns (pos: Option<nat>)
    ensures pos == IndexOf(node.instances, tabId)
  {
    var i := 0;
    while i < |node.instances|
      invariant i <= |node.instances|
      invariant forall j :: 0 <= j < i ==> node.instances[j].tabId != tabId
    {
      if node.instances[i].tabId == tabId {
        return Some(i);
      }
      i := i + 1;
    }
    return None;
  }

  /** `add_tab_instance`, in place on the node's instance list. */
  method AddTabInstance(node: UrlNode, tabId: u32, timestamp: nat) returns (r: UrlNode)
    ensures r == AddInstance(node, tabId, timestamp)
  {
    var existing := FindTabInstance(node, tabId);
    match existing {
      case Some(k) =>
        r := node;
        if node.instances[k].lastOpened.None? {
          r := node.(instances := node.instances[k := node.instances[k].(lastOpened := Some(timestamp))]);
        }
      case None =>
        r := node.(instances := node.instances + [NewInstance(tabId, timestamp)]);
    }
  }

  /** `remove_tab_instance`: find the position, then `swap_remove` it. */
  method RemoveTabInstance(node: UrlNode, tabId: u32) returns (r: UrlNode, removed: Option<TabInstance>)
    ensures (r, removed) == RemoveInstance(node, tabId)
  {
    var pos := FindTabInstance(node, tabId);
    match pos {
      case Some(k) =>
        var instances := node.instances;
        var last := |instances| - 1;
        removed := Some(instances[k]);
        instances := instances[k := instances[last]];
        instances := instances[..last];
        r := node.(instances := instances);
      case None =>
        r, removed := node, None;
    }
  }

  /**
   * `accumulate_all_instances`: cycle-drains each instance in turn, counting the live ones
   * beforehand, and folds the total into the node. Returns the new aggregate, the number of
   * live instances and the number of instances.
   */
  method AccumulateAllInstances(node: UrlNode, currentTime: nat)
    returns (r: UrlNode, aggregateTime: nat, activeInstances: nat, totalInstances: nat)
    ensures r == DrainNode(node, currentTime)
    ensures aggregateTime == r.aggregateTime
    ensures activeInstances == CountActive(node.instances)
    ensures totalInstances == |node.instances|
  {
    var totalTime := 0;
    var activeCount := 0;
    var instances := node.instances;
    for j := 0 to |instances|
      invariant |instances| == |node.instances|
      invariant instances[..j] == DrainedInstances(node.instances, currentTime)[..j]
      invariant instances[j..] == node.instances[j..]
      invariant totalTime == SumPending(node.instances[..j], currentTime)
      invariant activeCount == CountActive(node.instances[..j])
    {
      assert node.instances[..j + 1][..j] == node.instances[..j];
      if instances[j].IsActive() {
        activeCount := activeCount + 1;
      }
      var drained := instances[j].CycleDrain(currentTime);
      instances := instances[j := drained.0];
      totalTime := totalTime + drained.1;
    }
    assert instances == DrainedInstances(node.instances, currentTime);
    assert node.instances[..|node.instances|] == node.instances;
    r := node.(aggregateTime := node.aggregateTime + totalTime, instances := instances);
    aggregateTime, activeInstances, totalInstances := r.aggregateTime, activeCount, |instances|;
  }
}
