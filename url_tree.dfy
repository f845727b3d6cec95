/**
 * The usage trie as a whole: a map from host to `UrlNode`, each node's children keyed by the
 * next path segment (`Tracker::root` and the nested `children` maps in native/src/tracker.rs).
 * A path is the sequence of keys from the root map down to a node.
 */
module UrlTree {
  import opened Wrappers
  import opened UrlNodes

  /** The node reached by following `keys` from `m`; no node for the empty path. */
  function NodeAt(m: map<string, UrlNode>, keys: seq<string>): Option<UrlNode>
    decreases |keys|
  {
    if keys == [] || keys[0] !in m then None
    else if |keys| == 1 then Some(m[keys[0]])
    else NodeAt(m[keys[0]].children, keys[1..])
  }

  /** Two nodes hold the same data of their own (their children may differ). */
  ghost predicate SameData(a: UrlNode, b: UrlNode) {
    a.subPart == b.subPart && a.aggregateTime == b.aggregateTime && a.instances == b.instances
  }

  /** Both tries have a node at exactly the same paths. */
  ghost predicate SameShape(a: map<string, UrlNode>, b: map<string, UrlNode>) {
    forall q :: NodeAt(a, q).Some? <==> NodeAt(b, q).Some?
  }

  /** `q` is a non-empty prefix of `keys`. */
  ghost predicate IsPrefixPath(q: seq<string>, keys: seq<string>) {
    0 < |q| <= |keys| && q == keys[..|q|]
  }

  /**
   * The trie with the node at `keys` (which must exist) replaced by `n`: what writing through
   * the `&mut UrlNode` that `find_node` or `find_or_create_node` hands out does.
   */
  function SetAt(m: map<string, UrlNode>, keys: seq<string>, n: UrlNode): (r: map<string, UrlNode>)
    requires NodeAt(m, keys).Some?
    ensures NodeAt(r, keys) == Some(n)
    ensures r.Keys == m.Keys
    decreases |keys|
  {
    if |keys| == 1 then m[keys[0] := n]
    else m[keys[0] := m[keys[0]].(children := SetAt(m[keys[0]].children, keys[1..], n))]
  }

  /**
   * Writing new data into one node, keeping its children, leaves the shape of the trie and
   * every other node's data (its ancestors' included) as they were.
   */
  lemma {:induction false} SetAtElsewhere(m: map<string, UrlNode>, keys: seq<string>, n: UrlNode, q: seq<string>)
    requires NodeAt(m, keys).Some? && n.children == NodeAt(m, keys).value.children
    ensures NodeAt(SetAt(m, keys, n), q).Some? <==> NodeAt(m, q).Some?
    ensures q != keys && NodeAt(m, q).Some? ==> SameData(NodeAt(SetAt(m, keys, n), q).value, NodeAt(m, q).value)
    decreases |keys|
  {
    var r := SetAt(m, keys, n);
    if q == [] || q[0] != keys[0] {
    } else if |keys| == 1 {
      if |q| > 1 {
        assert NodeAt(r, q) == NodeAt(n.children, q[1..]);
      }
    } else if |q| > 1 {
      SetAtElsewhere(m[keys[0]].children, keys[1..], n, q[1..]);
      assert q[1..] != keys[1..] ==> q != keys by {
        if q == keys { assert q[1..] == keys[1..]; }
      }
      assert q == keys ==> q[1..] == keys[1..];
    }
  }

  /** The same over all paths: the trie keeps its shape. */
  lemma SetAtSameShape(m: map<string, UrlNode>, keys: seq<string>, n: UrlNode)
    requires NodeAt(m, keys).Some? && n.children == NodeAt(m, keys).value.children
    ensures SameShape(SetAt(m, keys, n), m)
  {
    forall q ensures NodeAt(SetAt(m, keys, n), q).Some? <==> NodeAt(m, q).Some? {
      SetAtElsewhere(m, keys, n, q);
    }
  }

  /**
   * The trie after `find_or_create_node(keys)`: every missing node on the path created, each
   * keyed and named by its segment, with no time and no instances.
   */
  function CreatePath(m: map<string, UrlNode>, keys: seq<string>): (r: map<string, UrlNode>)
    requires keys != []
    ensures NodeAt(r, keys).Some?
    decreases |keys|
  {
    var node := if keys[0] in m then m[keys[0]] else NewNode(keys[0]);
    if |keys| == 1 then m[keys[0] := node]
    else m[keys[0] := node.(children := CreatePath(node.children, keys[1..]))]
  }

  /**
   * What `find_or_create_node` does to the trie: nodes that existed keep their data, every
   * prefix of `keys` now has a node, and the only new nodes lie on that path and are empty,
   * with `subPart` equal to their key.
   */
  lemma {:induction false} CreatePathFacts(m: map<string, UrlNode>, keys: seq<string>, q: seq<string>)
    requires keys != []
    ensures NodeAt(m, q).Some? ==>
      NodeAt(CreatePath(m, keys), q).Some? && SameData(NodeAt(CreatePath(m, keys), q).value, NodeAt(m, q).value)
    ensures IsPrefixPath(q, keys) ==> NodeAt(CreatePath(m, keys), q).Some?
    ensures NodeAt(m, q).None? && NodeAt(CreatePath(m, keys), q).Some? ==>
      && IsPrefixPath(q, keys)
      && NodeAt(CreatePath(m, keys), q).value.aggregateTime == 0
      && NodeAt(CreatePath(m, keys), q).value.instances == []
      && NodeAt(CreatePath(m, keys), q).value.subPart == q[|q| - 1]
    decreases |keys|
  {
    var r := CreatePath(m, keys);
    if q == [] || q[0] != keys[0] {
    } else {
      var node := if keys[0] in m then m[keys[0]] else NewNode(keys[0]);
      if |q| == 1 {
        assert q == keys[..1];
      } else if |keys| == 1 {
        assert NodeAt(r, q) == NodeAt(node.children, q[1..]);
        if keys[0] !in m {
          assert NodeAt(node.children, q[1..]) == None;
        }
      } else {
        CreatePathFacts(node.children, keys[1..], q[1..]);
        assert NodeAt(r, q) == NodeAt(CreatePath(node.children, keys[1..]), q[1..]);
        if keys[0] !in m {
          assert NodeAt(node.children, q[1..]) == None;
        }
        if |q| <= |keys| {
          assert keys[..|q|][1..] == keys[1..][..|q| - 1];
          assert keys[..|q|] == [keys[0]] + keys[1..][..|q| - 1];
          assert q == [q[0]] + q[1..];
        }
        assert IsPrefixPath(q, keys) <==> IsPrefixPath(q[1..], keys[1..]);
      }
    }
  }

  /** Once the path exists, `find_or_create_node` creates nothing. */
  lemma {:induction false} CreatePathExisting(m: map<string, UrlNode>, keys: seq<string>)
    requires keys != [] && NodeAt(m, keys).Some?
    ensures CreatePath(m, keys) == m
    decreases |keys|
  {
    if |keys| > 1 {
      CreatePathExisting(m[keys[0]].children, keys[1..]);
      assert m[keys[0]].(children := m[keys[0]].children) == m[keys[0]];
    }
  }

  /** `find_node`: follows the keys without creating anything; no node for a missing key. */
  method FindNode(root: map<string, UrlNode>, urlParts: seq<string>) returns (r: Option<UrlNode>)
    ensures r == NodeAt(root, urlParts)
  {
    var current := root;
    for i := 0 to |urlParts|
      invariant NodeAt(root, urlParts) == NodeAt(current, urlParts[i..]) || i == |urlParts|
      invariant i == |urlParts| ==> urlParts == []
    {
      var part := urlParts[i];
      if part !in current {
        return None;
      }
      var node := current[part];
      if i == |urlParts| - 1 {
        return Some(node);
      }
      assert urlParts[i..][1..] == urlParts[i + 1..];
      current := node.children;
    }
    return None;
  }

  /**
   * The node after `update_node_times`: drained itself and, recursively, every node below it.
   */
  function DrainTree(n: UrlNode, now: nat): UrlNode
    decreases n
  {
    DrainNode(n, now).(children := map k | k in n.children :: DrainTree(n.children[k], now))
  }

  /** Every top-level node drained (what both serialisations do first). */
  function DrainMap(m: map<string, UrlNode>, now: nat): map<string, UrlNode> {
    map k | k in m :: DrainTree(m[k], now)
  }

  /**
   * Draining the whole trie creates and removes no node and drains each node exactly as
   * `accumulate_all_instances` would; in particular no node's recorded time changes.
   */
  lemma {:induction false} DrainMapAt(m: map<string, UrlNode>, now: nat, q: seq<string>)
    ensures NodeAt(DrainMap(m, now), q).Some? <==> NodeAt(m, q).Some?
    ensures NodeAt(m, q).Some? ==>
      && SameData(NodeAt(DrainMap(m, now), q).value, DrainNode(NodeAt(m, q).value, now))
      && RecordedTime(NodeAt(DrainMap(m, now), q).value, now) == RecordedTime(NodeAt(m, q).value, now)
    decreases |q|
  {
    if q != [] && q[0] in m && |q| > 1 {
      DrainMapAt(m[q[0]].children, now, q[1..]);
      assert DrainMap(m, now)[q[0]].children == DrainMap(m[q[0]].children, now);
    }
  }

  /**
   * Part way through draining a node's children: the keys still `pending` hold the original
   * child, every other key its drained subtree.
   */
  ghost predicate DrainingChildren(children: map<string, UrlNode>, original: map<string, UrlNode>, pending: set<string>, now: nat) {
    && children.Keys == original.Keys
    && pending <= original.Keys
    && (forall k :: k in pending ==> children[k] == original[k])
    && (forall k :: k in original && k !in pending ==> children[k] == DrainTree(original[k], now))
  }

  lemma DrainingStep(children: map<string, UrlNode>, original: map<string, UrlNode>, pending: set<string>, now: nat, k: string)
    requires DrainingChildren(children, original, pending, now) && k in pending
    ensures DrainingChildren(children[k := DrainTree(original[k], now)], original, pending - {k}, now)
  {
  }

  lemma DrainingDone(children: map<string, UrlNode>, original: map<string, UrlNode>, now: nat)
    requires DrainingChildren(children, original, {}, now)
    ensures children == DrainMap(original, now)
  {
  }

  /** `update_node_times`: drain this node, then every child, recursively. */
  method UpdateNodeTimes(node: UrlNode, currentTime: nat) returns (r: UrlNode)
    ensures r == DrainTree(node, currentTime)
    decreases node
  {
    var drained, _, _, _ := AccumulateAllInstances(node, currentTime);
    var children := drained.children;
    var pending := children.Keys;
    while pending != {}
      invariant DrainingChildren(children, node.children, pending, currentTime)
      decreases pending
    {
      var k :| k in pending;
      DrainingStep(children, node.children, pending, currentTime, k);
      var child := UpdateNodeTimes(children[k], currentTime);
      children := children[k := child];
      pending := pending - {k};
    }
    DrainingDone(children, node.children, currentTime);
    r := drained.(children := children);
  }
}
