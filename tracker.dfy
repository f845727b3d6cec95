/**
 * The tracker (`Tracker` in native/src/tracker.rs): a session name and the root map of the
 * usage trie, updated in place by the tab events, the report and the serialisations. The
 * clock is a parameter `now` of every operation that reads it.
 */
module Tracking {
  import opened Wrappers
  import opened Primitives
  import opened UrlNodes
  import opened UrlTree
  import opened Serialization
  import opened Reporting
  import opened UrlParsing
  import opened TrackerEvents

  /** The snapshots taken so far: one per key in `done`, of the node `nodes` now holds there. */
  ghost predicate Converted(data: map<string, SerializedUrlNode>, nodes: map<string, UrlNode>, done: set<string>, includeTabs: bool) {
    && data.Keys == done
    && forall k :: k in data ==> k in nodes && data[k] == Snapshot(nodes[k], includeTabs)
  }

  /** One more top-level node converted. */
  lemma ConvertedStep(data: map<string, SerializedUrlNode>, nodes: map<string, UrlNode>, done: set<string>, includeTabs: bool,
                      key: string, node: UrlNode)
    requires Converted(data, nodes, done, includeTabs) && key !in done
    ensures Converted(data[key := Snapshot(node, includeTabs)], nodes[key := node], done + {key}, includeTabs)
  {
  }

  /** Once every top-level node is drained and converted, the loop has built the whole snapshot. */
  lemma SerializedAll(root: map<string, UrlNode>, nodes: map<string, UrlNode>, data: map<string, SerializedUrlNode>,
                      includeTabs: bool, now: nat)
    requires DrainingChildren(nodes, root, {}, now) && Converted(data, nodes, root.Keys, includeTabs)
    ensures nodes == DrainMap(root, now)
    ensures data == SerializeMap(nodes, includeTabs)
  {
    DrainingDone(nodes, root, now);
    assert data.Keys == nodes.Keys;
    SnapshotsAgree(data, nodes, includeTabs);
  }

  lemma SnapshotsAgree(data: map<string, SerializedUrlNode>, nodes: map<string, UrlNode>, includeTabs: bool)
    requires data.Keys == nodes.Keys && forall k :: k in data ==> data[k] == Snapshot(nodes[k], includeTabs)
    ensures data == SerializeMap(nodes, includeTabs)
  {
  }

  class Tracker {
    var root: map<string, UrlNode>
    const sessionName: string

    /** `Tracker::new`: an empty trie. */
    constructor (sessionName: string)
      ensures this.sessionName == sessionName && root == map[]
    {
      this.sessionName := sessionName;
      root := map[];
    }

    /** `Tracker::from_serialized`: the trie rebuilt from a snapshot's root map. */
    constructor FromSerialized(sessionName: string, data: map<string, SerializedUrlNode>, freshSession: bool)
      ensures this.sessionName == sessionName && root == RestoreMap(data, freshSession)
    {
      this.sessionName := sessionName;
      root := RestoreMap(data, freshSession);
    }

    /**
     * `find_or_create_node`: every missing node on the path is created; the node at the end is
     * handed back (callers write their change back with `SetAt`). The path is never empty: it
     * comes from `parse_url_parts`.
     */
    method FindOrCreateNode(urlParts: seq<string>) returns (node: UrlNode)
      requires urlParts != []
      modifies this
      ensures root == CreatePath(old(root), urlParts)
      ensures NodeAt(root, urlParts) == Some(node)
    {
      root := CreatePath(root, urlParts);
      node := NodeAt(root, urlParts).value;
    }

    /** `track_tab_focused`: a URL error changes nothing; otherwise the tab is live at the URL's node. */
    method TrackTabFocused(url: UrlText, tabId: u32, now: nat) returns (r: Result<(), TrackerError>)
      modifies this
      ensures ParseUrlParts(url).Err? ==> r == Err(ParseUrlParts(url).error) && root == old(root)
      ensures ParseUrlParts(url).Ok? ==> r == Ok(()) && root == Focused(old(root), ParseUrlParts(url).value, tabId, now)
    {
      var parsed := ParseUrlParts(url);
      if parsed.Err? {
        return Err(parsed.error);
      }
      var urlParts := parsed.value;
      var node := FindOrCreateNode(urlParts);
      node := AddTabInstance(node, tabId, now);
      root := SetAt(root, urlParts, node);
      r := Ok(());
    }

    /** `track_tab_unfocused`: an error changes nothing; otherwise the tab's instance is stop-drained. */
    method TrackTabUnfocused(url: UrlText, tabId: u32, now: nat) returns (r: Result<(), TrackerError>)
      modifies this
      ensures ParseUrlParts(url).Err? ==> r == Err(ParseUrlParts(url).error) && root == old(root)
      ensures ParseUrlParts(url).Ok? ==>
        var outcome := Unfocused(old(root), ParseUrlParts(url).value, tabId, now);
        && (outcome.Err? ==> r == Err(outcome.error) && root == old(root))
        && (outcome.Ok? ==> r == Ok(()) && root == outcome.value)
    {
      var parsed := ParseUrlParts(url);
      if parsed.Err? {
        return Err(parsed.error);
      }
      var urlParts := parsed.value;
      var found := FindNode(root, urlParts);
      if found.None? {
        return Err(TabNotFound(tabId));
      }
      var node := found.value;
      var pos := FindTabInstance(node, tabId);
      if pos.None? {
        return Err(TabNotFound(tabId));
      }
      var k := pos.value;
      node := node.(instances := node.instances[k := node.instances[k].StopDrain(now)]);
      root := SetAt(root, urlParts, node);
      r := Ok(());
    }

    /**
     * `track_tab_closed`: an error changes nothing; otherwise the tab's instance is removed and
     * its stop-drained time added to the node's aggregate.
     */
    method TrackTabClosed(url: UrlText, tabId: u32, now: nat) returns (r: Result<(), TrackerError>)
      modifies this
      ensures ParseUrlParts(url).Err? ==> r == Err(ParseUrlParts(url).error) && root == old(root)
      ensures ParseUrlParts(url).Ok? ==>
        var outcome := Closed(old(root), ParseUrlParts(url).value, tabId, now);
        && (outcome.Err? ==> r == Err(outcome.error) && root == old(root))
        && (outcome.Ok? ==> r == Ok(()) && root == outcome.value)
    {
      var parsed := ParseUrlParts(url);
      if parsed.Err? {
        return Err(parsed.error);
      }
      var urlParts := parsed.value;
      var found := FindNode(root, urlParts);
      if found.None? {
        return Err(TabNotFound(tabId));
      }
      var node, removed := RemoveTabInstance(found.value, tabId);
      if removed.None? {
        return Err(TabNotFound(tabId));
      }
      var instance := removed.value.StopDrain(now);
      node := node.(aggregateTime := node.aggregateTime + instance.timeActive);
      root := SetAt(root, urlParts, node);
      r := Ok(());
    }

    /**
     * `collect_tracking_data`: the walk from the root with an empty path buffer. Every node is
     * drained, and the result is a report of the trie as it was.
     */
    method CollectTrackingData(currentTime: nat) returns (result: seq<TrackingData>)
      modifies this
      ensures root == DrainMap(old(root), currentTime)
      ensures IsReport(result, old(root), currentTime)
    {
      var pathBuffer: string := "";
      ghost var origins;
      result, pathBuffer, root, origins :=
        CollectRecursive([], currentTime, pathBuffer, root, [], UrlNode("", 0, [], root));
    }

    /** `get_tracking_data`: the report at the current time. */
    method GetTrackingData(now: nat) returns (result: seq<TrackingData>)
      modifies this
      ensures root == DrainMap(old(root), now)
      ensures IsReport(result, old(root), now)
    {
      result := CollectTrackingData(now);
    }

    /** `serialize_with_tabs`: each top-level node drained, then converted with its instances. */
    method SerializeWithTabs(currentTime: nat) returns (data: map<string, SerializedUrlNode>)
      modifies this
      ensures root == DrainMap(old(root), currentTime)
      ensures data == SerializeMap(root, true)
    {
      var nodes := root;
      data := map[];
      var keys := nodes.Keys;
      while keys != {}
        invariant root == old(root)
        invariant DrainingChildren(nodes, root, keys, currentTime)
        invariant Converted(data, nodes, root.Keys - keys, true)
        decreases keys
      {
        var key :| key in keys;
        var node := UpdateNodeTimes(nodes[key], currentTime);
        var snapshot := SerializeNode(node);
        DrainingStep(nodes, root, keys, currentTime, key);
        ConvertedStep(data, nodes, root.Keys - keys, true, key, node);
        assert root.Keys - (keys - {key}) == (root.Keys - keys) + {key};
        nodes := nodes[key := node];
        data := data[key := snapshot];
        keys := keys - {key};
      }
      SerializedAll(root, nodes, data, true, currentTime);
      root := nodes;
    }

    /** `serialize_without_tabs`: each top-level node drained, then converted without instances. */
    method SerializeWithoutTabs(currentTime: nat) returns (data: map<string, SerializedUrlNode>)
      modifies this
      ensures root == DrainMap(old(root), currentTime)
      ensures data == SerializeMap(root, false)
    {
      var nodes := root;
      data := map[];
      var keys := nodes.Keys;
      while keys != {}
        invariant root == old(root)
        invariant DrainingChildren(nodes, root, keys, currentTime)
        invariant Converted(data, nodes, root.Keys - keys, false)
        decreases keys
      {
        var key :| key in keys;
        var node := UpdateNodeTimes(nodes[key], currentTime);
        var snapshot := WithoutInstances(node);
        assert snapshot == Snapshot(node, false);
        DrainingStep(nodes, root, keys, currentTime, key);
        ConvertedStep(data, nodes, root.Keys - keys, false, key, node);
        assert root.Keys - (keys - {key}) == (root.Keys - keys) + {key};
        nodes := nodes[key := node];
        data := data[key := snapshot];
        keys := keys - {key};
      }
      SerializedAll(root, nodes, data, false, currentTime);
      root := nodes;
    }

    /**
     * `serialize_session`: the snapshot under this tracker's name, taken after draining every
     * node at `now`, with or without the instances.
     */
    method SerializeSession(includeTabs: bool, now: nat) returns (s: SerializedSession)
      modifies this
      ensures root == DrainMap(old(root), now)
      ensures s == SerializedSession(sessionName, SerializeMap(root, includeTabs))
    {
      var data;
      if includeTabs {
        data := SerializeWithTabs(now);
      } else {
        data := SerializeWithoutTabs(now);
      }
      s := SerializedSession(sessionName, data);
    }
  }
}
