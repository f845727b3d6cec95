/**
 * Checkpoint snapshots (`SerializedUrlNode`, `SerializedSession` in native/src/tracker.rs):
 * the trie with or without its tab instances, and the way back from a snapshot to a trie.
 */
module Serialization {
  import opened Wrappers
  import opened TabInstances
  import opened UrlNodes
  import opened UrlTree

  datatype SerializedUrlNode = SerializedUrlNode(
    subPart: string,
    aggregateTime: nat,
    instances: Option<seq<TabInstance>>,
    children: map<string, SerializedUrlNode>)

  datatype SerializedSession = SerializedSession(sessionName: string, data: map<string, SerializedUrlNode>)

  /** `From<&mut UrlNode>`: the subtree with a copy of every node's instances. */
  function FromNode(n: UrlNode): (s: SerializedUrlNode)
    ensures s.instances == Some(n.instances)
    decreases n
  {
    SerializedUrlNode(n.subPart, n.aggregateTime, Some(n.instances),
      map k | k in n.children :: FromNode(n.children[k]))
  }

  /** The conversion as `From<&mut UrlNode>` performs it: one insertion per child, recursively. */
  method SerializeNode(node: UrlNode) returns (s: SerializedUrlNode)
    ensures s == FromNode(node)
    decreases node
  {
    var children: map<string, SerializedUrlNode> := map[];
    var pending := node.children.Keys;
    while pending != {}
      invariant pending <= node.children.Keys
      invariant children.Keys == node.children.Keys - pending
      invariant forall k :: k in children ==> children[k] == FromNode(node.children[k])
      decreases pending
    {
      var k :| k in pending;
      var child := SerializeNode(node.children[k]);
      children := children[k := child];
      pending := pending - {k};
    }
    s := SerializedUrlNode(node.subPart, node.aggregateTime, Some(node.instances), children);
  }

  /** `SerializedUrlNode::without_instances`: the subtree with no instance list anywhere. */
  function WithoutInstances(n: UrlNode): (s: SerializedUrlNode)
    ensures s.instances == None
    decreases n
  {
    SerializedUrlNode(n.subPart, n.aggregateTime, None,
      map k | k in n.children :: WithoutInstances(n.children[k]))
  }

  /**
   * `into_url_node`: back to a node; a fresh session drops every instance, otherwise the
   * recorded instances are kept (none when the snapshot has no list).
   */
  function IntoUrlNode(s: SerializedUrlNode, freshSession: bool): (n: UrlNode)
    ensures n.subPart == s.subPart && n.aggregateTime == s.aggregateTime
    ensures n.instances == if freshSession || s.instances.None? then [] else s.instances.value
    decreases s
  {
    UrlNode(s.subPart, s.aggregateTime,
      if freshSession then [] else (match s.instances case Some(i) => i case None => []),
      map k | k in s.children :: IntoUrlNode(s.children[k], freshSession))
  }

  /** A top-level node's snapshot, with or without its instances. */
  function Snapshot(n: UrlNode, includeTabs: bool): SerializedUrlNode {
    if includeTabs then FromNode(n) else WithoutInstances(n)
  }

  /** The serialised root map (`serialize_with_tabs` / `serialize_without_tabs` after the drain). */
  function SerializeMap(m: map<string, UrlNode>, includeTabs: bool): map<string, SerializedUrlNode> {
    map k | k in m :: Snapshot(m[k], includeTabs)
  }

  /** `Tracker::from_serialized`'s root: every top-level snapshot turned back into a node. */
  function RestoreMap(data: map<string, SerializedUrlNode>, freshSession: bool): map<string, UrlNode> {
    map k | k in data :: IntoUrlNode(data[k], freshSession)
  }

  /** The same trie with every instance list emptied. */
  function ClearInstances(n: UrlNode): UrlNode
    decreases n
  {
    UrlNode(n.subPart, n.aggregateTime, [], map k | k in n.children :: ClearInstances(n.children[k]))
  }

  /** Every top-level node with its instances emptied. */
  function ClearMap(m: map<string, UrlNode>): map<string, UrlNode> {
    map k | k in m :: ClearInstances(m[k])
  }

  /** Restoring a snapshot taken with its instances, without a fresh session, gives back the very same node. */
  lemma {:induction false} RestoreWithTabs(n: UrlNode)
    ensures IntoUrlNode(FromNode(n), false) == n
    decreases n
  {
    forall k | k in n.children ensures IntoUrlNode(FromNode(n.children[k]), false) == n.children[k] {
      RestoreWithTabs(n.children[k]);
    }
    var s := FromNode(n);
    assert (map k | k in s.children :: IntoUrlNode(s.children[k], false)) == n.children;
  }

  /** Restoring a snapshot that omits the instances, or restoring as a fresh session, gives the same tree with no instances. */
  lemma {:induction false} RestoreDropsTabs(n: UrlNode, includeTabs: bool, freshSession: bool)
    requires !includeTabs || freshSession
    ensures IntoUrlNode(if includeTabs then FromNode(n) else WithoutInstances(n), freshSession) == ClearInstances(n)
    decreases n
  {
    forall k | k in n.children
      ensures IntoUrlNode(if includeTabs then FromNode(n.children[k]) else WithoutInstances(n.children[k]), freshSession)
           == ClearInstances(n.children[k])
    {
      RestoreDropsTabs(n.children[k], includeTabs, freshSession);
    }
    var s := if includeTabs then FromNode(n) else WithoutInstances(n);
    assert (map k | k in s.children :: IntoUrlNode(s.children[k], freshSession))
        == (map k | k in n.children :: ClearInstances(n.children[k]));
  }

  /**
   * Serialise then restore, on the whole root map: with tabs and not fresh the trie comes back
   * unchanged; in every other combination it comes back with the same nodes and the same times
   * but no instances.
   */
  lemma RestoreSerialized(m: map<string, UrlNode>, includeTabs: bool, freshSession: bool)
    ensures includeTabs && !freshSession ==> RestoreMap(SerializeMap(m, includeTabs), freshSession) == m
    ensures !includeTabs || freshSession ==>
      RestoreMap(SerializeMap(m, includeTabs), freshSession) == ClearMap(m)
  {
    if includeTabs && !freshSession {
      forall k | k in m ensures IntoUrlNode(FromNode(m[k]), false) == m[k] {
        RestoreWithTabs(m[k]);
      }
    } else {
      forall k | k in m
        ensures IntoUrlNode(if includeTabs then FromNode(m[k]) else WithoutInstances(m[k]), freshSession)
             == ClearInstances(m[k])
      {
        RestoreDropsTabs(m[k], includeTabs, freshSession);
      }
    }
  }

  /** Emptying the instance lists keeps every node, with its key, name and time. */
  lemma {:induction false} ClearInstancesAt(m: map<string, UrlNode>, q: seq<string>)
    ensures NodeAt(ClearMap(m), q).Some? <==> NodeAt(m, q).Some?
    ensures NodeAt(m, q).Some? ==>
      var c := NodeAt(ClearMap(m), q).value;
      && c.subPart == NodeAt(m, q).value.subPart
      && c.aggregateTime == NodeAt(m, q).value.aggregateTime
      && c.instances == []
    decreases |q|
  {
    if q != [] && q[0] in m && |q| > 1 {
      ClearInstancesAt(m[q[0]].children, q[1..]);
      assert ClearMap(m)[q[0]].children == ClearMap(m[q[0]].children);
    }
  }
}
