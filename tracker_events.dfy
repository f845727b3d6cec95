/**
 * What the three tab events do to the usage trie (`track_tab_focused`, `track_tab_unfocused`
 * and `track_tab_closed` in native/src/tracker.rs, once the URL has been split into keys), as
 * functions of the root map, with what each preserves: the shape of the trie away from the
 * URL's path, every other node's data, and the time recorded at every node.
 */
module TrackerEvents {
  import opened Wrappers
  import opened Primitives
  import opened TabInstances
  import opened UrlNodes
  import opened UrlTree
  import opened Reporting
  import opened UrlParsing

  /** Focus: create the path as needed and make the tab live at its last node. */
  function Focused(root: map<string, UrlNode>, parts: seq<string>, tabId: u32, now: nat): (r: map<string, UrlNode>)
    requires parts != []
    ensures NodeAt(r, parts).Some?
  {
    var m := CreatePath(root, parts);
    SetAt(m, parts, AddInstance(NodeAt(m, parts).value, tabId, now))
  }

  /** Unfocus: stop-drain the tab's instance at the URL's node; the tab must be there. */
  function Unfocused(root: map<string, UrlNode>, parts: seq<string>, tabId: u32, now: nat): (r: Result<map<string, UrlNode>, TrackerError>)
    ensures r.Err? ==> r.error == TabNotFound(tabId)
  {
    match NodeAt(root, parts)
    case None => Err(TabNotFound(tabId))
    case Some(n) =>
      match IndexOf(n.instances, tabId)
      case None => Err(TabNotFound(tabId))
      case Some(k) => Ok(SetAt(root, parts, n.(instances := n.instances[k := n.instances[k].StopDrain(now)])))
  }

  /** Close: remove the tab's instance from the URL's node and fold its time into the node. */
  function Closed(root: map<string, UrlNode>, parts: seq<string>, tabId: u32, now: nat): (r: Result<map<string, UrlNode>, TrackerError>)
    ensures r.Err? <==> NodeAt(root, parts).None? || IndexOf(NodeAt(root, parts).value.instances, tabId).None?
    ensures r.Err? ==> r.error == TabNotFound(tabId)
    ensures r.Ok? ==>
      var n := NodeAt(root, parts).value;
      var inst := n.instances[IndexOf(n.instances, tabId).value];
      && NodeAt(r.value, parts).Some?
      && NodeAt(r.value, parts).value.aggregateTime == n.aggregateTime + inst.Pending(now)
      && multiset(NodeAt(r.value, parts).value.instances) + multiset{inst} == multiset(n.instances)
  {
    match NodeAt(root, parts)
    case None => Err(TabNotFound(tabId))
    case Some(n) =>
      var (rest, removed) := RemoveInstance(n, tabId);
      match removed
      case None => Err(TabNotFound(tabId))
      case Some(inst) => Ok(SetAt(root, parts, rest.(aggregateTime := rest.aggregateTime + inst.StopDrain(now).timeActive)))
  }

  /** Every node's instances carry distinct tab ids. */
  ghost predicate TabsUnique(m: map<string, UrlNode>) {
    forall q :: NodeAt(m, q).Some? ==> UniqueTabIds(NodeAt(m, q).value.instances)
  }

  /**
   * Focus creates exactly the missing nodes on the path, each empty and named by its key, and
   * leaves the tab live at the path's node.
   */
  lemma FocusShape(root: map<string, UrlNode>, parts: seq<string>, tabId: u32, now: nat, q: seq<string>)
    requires parts != []
    ensures NodeAt(Focused(root, parts, tabId, now), q).Some? <==> NodeAt(root, q).Some? || IsPrefixPath(q, parts)
    ensures q != parts && NodeAt(root, q).None? && IsPrefixPath(q, parts) ==>
      var c := NodeAt(Focused(root, parts, tabId, now), q).value;
      c.aggregateTime == 0 && c.instances == [] && c.subPart == q[|q| - 1]
    ensures
      var n := NodeAt(Focused(root, parts, tabId, now), parts).value;
      IndexOf(n.instances, tabId).Some? && n.instances[IndexOf(n.instances, tabId).value].IsActive()
  {
    var m := CreatePath(root, parts);
    var n := AddInstance(NodeAt(m, parts).value, tabId, now);
    assert Focused(root, parts, tabId, now) == SetAt(m, parts, n);
    CreatePathFacts(root, parts, q);
    SetAtElsewhere(m, parts, n, q);
  }

  /**
   * Focus changes the data of no existing node other than the path's, changes no existing
   * node's recorded time, and keeps instance ids unique at every existing node.
   */
  lemma FocusKeepsData(root: map<string, UrlNode>, parts: seq<string>, tabId: u32, now: nat, q: seq<string>)
    requires parts != [] && NodeAt(root, q).Some?
    ensures NodeAt(Focused(root, parts, tabId, now), q).Some?
    ensures q != parts ==> SameData(NodeAt(Focused(root, parts, tabId, now), q).value, NodeAt(root, q).value)
    ensures RecordedTime(NodeAt(Focused(root, parts, tabId, now), q).value, now) == RecordedTime(NodeAt(root, q).value, now)
    ensures UniqueTabIds(NodeAt(root, q).value.instances) ==>
      UniqueTabIds(NodeAt(Focused(root, parts, tabId, now), q).value.instances)
  {
    var m := CreatePath(root, parts);
    var before := NodeAt(m, parts).value;
    var n := AddInstance(before, tabId, now);
    AddInstanceConserves(before, tabId, now);
    var r := Focused(root, parts, tabId, now);
    assert r == SetAt(m, parts, n);
    CreatePathFacts(root, parts, q);
    SetAtElsewhere(m, parts, n, q);
    if q == parts {
      assert NodeAt(r, q).value == n;
      assert SameData(before, NodeAt(root, q).value);
    }
  }

  /**
   * Unfocus fails with `TabNotFound` exactly when the node or the tab is missing. Otherwise it
   * keeps the shape of the trie and every other node's data, leaves the tab dormant holding
   * all the time it owed, and changes no node's recorded time.
   */
  lemma UnfocusEffect(root: map<string, UrlNode>, parts: seq<string>, tabId: u32, now: nat, q: seq<string>)
    ensures Unfocused(root, parts, tabId, now).Err? <==>
      NodeAt(root, parts).None? || IndexOf(NodeAt(root, parts).value.instances, tabId).None?
    ensures Unfocused(root, parts, tabId, now).Ok? ==>
      var r := Unfocused(root, parts, tabId, now).value;
      var old_ := NodeAt(root, parts).value;
      var k := IndexOf(old_.instances, tabId).value;
      && (NodeAt(r, q).Some? <==> NodeAt(root, q).Some?)
      && (q != parts && NodeAt(root, q).Some? ==> SameData(NodeAt(r, q).value, NodeAt(root, q).value))
      && NodeAt(r, parts).value.instances == old_.instances[k := old_.instances[k].StopDrain(now)]
      && !NodeAt(r, parts).value.instances[k].IsActive()
      && NodeAt(r, parts).value.instances[k].timeActive == old_.instances[k].Pending(now)
      && (NodeAt(root, q).Some? ==> RecordedTime(NodeAt(r, q).value, now) == RecordedTime(NodeAt(root, q).value, now))
      && (NodeAt(root, q).Some? && UniqueTabIds(NodeAt(root, q).value.instances) ==>
            UniqueTabIds(NodeAt(r, q).value.instances))
  {
    if Unfocused(root, parts, tabId, now).Ok? {
      var old_ := NodeAt(root, parts).value;
      var k := IndexOf(old_.instances, tabId).value;
      var stopped := old_.instances[k].StopDrain(now);
      var n := old_.(instances := old_.instances[k := stopped]);
      SetAtElsewhere(root, parts, n, q);
      SumPendingUpdate(old_.instances, k, stopped, now);
      if q == parts && UniqueTabIds(old_.instances) {
        assert forall j :: 0 <= j < |n.instances| ==> n.instances[j].tabId == old_.instances[j].tabId;
      }
    }
  }

  /**
   * Close fails with `TabNotFound` exactly when the node or the tab is missing. Otherwise it
   * keeps the shape of the trie and every other node's data, removes one instance of the tab
   * from the node (the tab is then gone when ids were unique), adds the time that instance owed
   * to the node's aggregate, and changes no node's recorded time.
   */
  lemma CloseEffect(root: map<string, UrlNode>, parts: seq<string>, tabId: u32, now: nat, q: seq<string>)
    ensures Closed(root, parts, tabId, now).Err? <==>
      NodeAt(root, parts).None? || IndexOf(NodeAt(root, parts).value.instances, tabId).None?
    ensures Closed(root, parts, tabId, now).Ok? ==>
      var r := Closed(root, parts, tabId, now).value;
      var old_ := NodeAt(root, parts).value;
      var inst := old_.instances[IndexOf(old_.instances, tabId).value];
      && (NodeAt(r, q).Some? <==> NodeAt(root, q).Some?)
      && (q != parts && NodeAt(root, q).Some? ==> SameData(NodeAt(r, q).value, NodeAt(root, q).value))
      && multiset(NodeAt(r, parts).value.instances) + multiset{inst} == multiset(old_.instances)
      && NodeAt(r, parts).value.aggregateTime == old_.aggregateTime + inst.Pending(now)
      && (UniqueTabIds(old_.instances) ==> IndexOf(NodeAt(r, parts).value.instances, tabId).None?)
      && (NodeAt(root, q).Some? ==> RecordedTime(NodeAt(r, q).value, now) == RecordedTime(NodeAt(root, q).value, now))
      && (NodeAt(root, q).Some? && UniqueTabIds(NodeAt(root, q).value.instances) ==>
            UniqueTabIds(NodeAt(r, q).value.instances))
  {
    if Closed(root, parts, tabId, now).Ok? {
      var old_ := NodeAt(root, parts).value;
      var (rest, removed) := RemoveInstance(old_, tabId);
      var n := rest.(aggregateTime := rest.aggregateTime + removed.value.StopDrain(now).timeActive);
      SetAtElsewhere(root, parts, n, q);
      RemoveInstanceConserves(old_, tabId, now);
    }
  }

  /** Focus keeps instance ids unique at every node and, given well-formed keys, keeps the trie's keys well-formed. */
  lemma FocusPreserves(root: map<string, UrlNode>, parts: seq<string>, tabId: u32, now: nat)
    requires parts != []
    ensures TabsUnique(root) ==> TabsUnique(Focused(root, parts, tabId, now))
    ensures TreeKeysOk(root) && AllKeysOk(parts) ==> TreeKeysOk(Focused(root, parts, tabId, now))
  {
    var r := Focused(root, parts, tabId, now);
    forall q | NodeAt(r, q).Some?
      ensures TabsUnique(root) ==> UniqueTabIds(NodeAt(r, q).value.instances)
      ensures TreeKeysOk(root) && AllKeysOk(parts) ==> AllKeysOk(q)
    {
      FocusShape(root, parts, tabId, now, q);
      if NodeAt(root, q).Some? {
        FocusKeepsData(root, parts, tabId, now, q);
      }
      CreatePathFacts(root, parts, q);
      var m := CreatePath(root, parts);
      if q == parts && TabsUnique(root) {
        if NodeAt(root, parts).Some? {
          assert SameData(NodeAt(m, parts).value, NodeAt(root, parts).value);
        }
      }
      if NodeAt(root, q).None? && AllKeysOk(parts) {
        assert forall i :: 0 <= i < |q| ==> q[i] == parts[i];
      }
    }
  }

  /** Unfocus and close keep instance ids unique at every node and keep the trie's keys. */
  lemma UnfocusClosePreserve(root: map<string, UrlNode>, parts: seq<string>, tabId: u32, now: nat)
    ensures Unfocused(root, parts, tabId, now).Ok? ==>
      (TabsUnique(root) ==> TabsUnique(Unfocused(root, parts, tabId, now).value))
      && (TreeKeysOk(root) ==> TreeKeysOk(Unfocused(root, parts, tabId, now).value))
    ensures Closed(root, parts, tabId, now).Ok? ==>
      (TabsUnique(root) ==> TabsUnique(Closed(root, parts, tabId, now).value))
      && (TreeKeysOk(root) ==> TreeKeysOk(Closed(root, parts, tabId, now).value))
  {
    if Unfocused(root, parts, tabId, now).Ok? {
      forall q | NodeAt(Unfocused(root, parts, tabId, now).value, q).Some?
        ensures TabsUnique(root) ==> UniqueTabIds(NodeAt(Unfocused(root, parts, tabId, now).value, q).value.instances)
        ensures TreeKeysOk(root) ==> AllKeysOk(q)
      {
        UnfocusEffect(root, parts, tabId, now, q);
      }
    }
    if Closed(root, parts, tabId, now).Ok? {
      forall q | NodeAt(Closed(root, parts, tabId, now).value, q).Some?
        ensures TabsUnique(root) ==> UniqueTabIds(NodeAt(Closed(root, parts, tabId, now).value, q).value.instances)
        ensures TreeKeysOk(root) ==> AllKeysOk(q)
      {
        CloseEffect(root, parts, tabId, now, q);
      }
    }
  }
}
