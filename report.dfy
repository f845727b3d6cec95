/**
 * The flattened report (`TrackingData`, `collect_recursive` in native/src/tracker.rs): a
 * depth-first walk that drains every node and emits one entry per node whose aggregate time
 * is positive, under the `/`-joined path of keys from the root.
 */
module Reporting {
  import opened Wrappers
  import opened Primitives
  import opened TabInstances
  import opened UrlNodes
  import opened UrlTree

  datatype TrackingData = TrackingData(path: string, aggregateTime: nat, totalInstances: nat, activeInstances: nat)

  /** One key pushed on the path buffer: preceded by `/` unless the buffer is empty. */
  function ExtendPath(buffer: string, key: string): string {
    if buffer == [] then key else buffer + "/" + key
  }

  /** The path buffer's contents at the node reached by `keys`. */
  function JoinPath(keys: seq<string>): string {
    if keys == [] then "" else ExtendPath(JoinPath(keys[..|keys| - 1]), keys[|keys| - 1])
  }

  /** Every path to a node of the trie is made of well-formed keys. */
  ghost predicate TreeKeysOk(m: map<string, UrlNode>) {
    forall q :: NodeAt(m, q).Some? ==> AllKeysOk(q)
  }

  /** A node is reported when, once drained, it has time recorded. */
  ghost predicate Reported(n: UrlNode, now: nat) {
    DrainNode(n, now).aggregateTime > 0
  }

  /**
   * The entry for the node `n` at key path `keys`: its time after the drain, its instance
   * count, and the number of instances that were live when the report was taken.
   */
  ghost function Entry(keys: seq<string>, n: UrlNode, now: nat): TrackingData {
    TrackingData(JoinPath(keys), DrainNode(n, now).aggregateTime, |n.instances|, CountActive(n.instances))
  }

  lemma {:induction false} JoinPathNonEmpty(keys: seq<string>)
    requires AllKeysOk(keys) && keys != []
    ensures |JoinPath(keys)| >= |keys[|keys| - 1]| > 0
  {
  }

  /** The joined path holds a `/` exactly when it has more than one key. */
  lemma {:induction false} JoinPathSlash(keys: seq<string>)
    requires AllKeysOk(keys) && keys != []
    ensures '/' in JoinPath(keys) <==> |keys| > 1
  {
    var init := keys[..|keys| - 1];
    var last := keys[|keys| - 1];
    if |keys| > 1 {
      JoinPathNonEmpty(init);
      var s := JoinPath(init) + "/" + last;
      assert s[|JoinPath(init)|] == '/';
    } else {
      assert JoinPath(keys) == last;
    }
  }

  /** Of two splits of one string at a `/`, the longer last part holds the other's `/`. */
  lemma SlashInLongerTail(s1: string, x: string, s2: string, y: string)
    ensures s1 + "/" + x == s2 + "/" + y && |x| < |y| ==> '/' in y
    ensures s1 + "/" + x == s2 + "/" + y && |y| < |x| ==> '/' in x
  {
    var s := s1 + "/" + x;
    if s == s2 + "/" + y && |x| < |y| {
      assert y[|y| - |x| - 1] == s[|s| - |x| - 1];
    }
    if s == s2 + "/" + y && |y| < |x| {
      assert x[|x| - |y| - 1] == s[|s| - |y| - 1];
    }
  }

  /** Two strings that end in `/` and a `/`-free last part split the same way. */
  lemma SplitAtLastSlash(s1: string, x: string, s2: string, y: string)
    requires s1 + "/" + x == s2 + "/" + y
    requires '/' !in x && '/' !in y
    ensures s1 == s2 && x == y
  {
    var s := s1 + "/" + x;
    if |x| != |y| {
      SlashInLongerTail(s1, x, s2, y);
    }
    assert x == s[|s| - |x|..] == y;
    assert s1 == s[..|s1|] == s2;
  }

  /** With well-formed keys, distinct nodes never share a reported path. */
  lemma {:induction false} JoinPathInjective(a: seq<string>, b: seq<string>)
    requires AllKeysOk(a) && AllKeysOk(b)
    requires JoinPath(a) == JoinPath(b)
    ensures a == b
    decreases |a|
  {
    if a == [] {
      if b != [] { JoinPathNonEmpty(b); }
    } else if b == [] {
      JoinPathNonEmpty(a);
    } else {
      JoinPathSlash(a);
      JoinPathSlash(b);
      var a', x := a[..|a| - 1], a[|a| - 1];
      var b', y := b[..|b| - 1], b[|b| - 1];
      if |a| == 1 {
        assert a == [x] && b == [y];
      } else {
        JoinPathNonEmpty(a');
        JoinPathNonEmpty(b');
        SplitAtLastSlash(JoinPath(a'), x, JoinPath(b'), y);
        JoinPathInjective(a', b');
        assert a == a' + [x] && b == b' + [y];
      }
    }
  }

  lemma CancelPrefix(prefix: seq<string>, a: seq<string>, b: seq<string>)
    ensures prefix + a == prefix + b ==> a == b
  {
    if prefix + a == prefix + b {
      assert a == (prefix + a)[|prefix|..];
    }
  }

  /** Entries for distinct nodes of a well-formed trie carry distinct paths. */
  lemma DistinctPaths(prefix: seq<string>, nodes: map<string, UrlNode>, o1: seq<string>, o2: seq<string>)
    requires AllKeysOk(prefix) && TreeKeysOk(nodes)
    requires NodeAt(nodes, o1).Some? && NodeAt(nodes, o2).Some? && o1 != o2
    ensures JoinPath(prefix + o1) != JoinPath(prefix + o2)
  {
    if JoinPath(prefix + o1) == JoinPath(prefix + o2) {
      JoinPathInjective(prefix + o1, prefix + o2);
      CancelPrefix(prefix, o1, o2);
    }
  }

  /**
   * `result[base..]` lists, in order, the entries of the nodes at key paths `origins` below
   * `nodes`, each of them reported.
   */
  ghost predicate Listed(result: seq<TrackingData>, base: nat, prefix: seq<string>, nodes: map<string, UrlNode>,
                         origins: seq<seq<string>>, now: nat)
  {
    && |result| == base + |origins|
    && forall i :: 0 <= i < |origins| ==>
      && NodeAt(nodes, origins[i]).Some?
      && Reported(NodeAt(nodes, origins[i]).value, now)
      && result[base + i] == Entry(prefix + origins[i], NodeAt(nodes, origins[i]).value, now)
  }

  /** Every reported node below `nodes` whose first key is in `done` appears in `origins`. */
  ghost predicate Covered(nodes: map<string, UrlNode>, origins: seq<seq<string>>, now: nat, done: set<string>) {
    forall q :: NodeAt(nodes, q).Some? && q[0] in done && Reported(NodeAt(nodes, q).value, now) ==> q in origins
  }

  ghost predicate NoRepeats(origins: seq<seq<string>>) {
    forall i, j :: 0 <= i < j < |origins| ==> origins[i] != origins[j]
  }

  /** All first keys of `origins` lie in `done`. */
  ghost predicate Under(origins: seq<seq<string>>, done: set<string>) {
    forall i :: 0 <= i < |origins| ==> origins[i] != [] && origins[i][0] in done
  }

  /** Key paths below a child, seen from its parent's map. */
  ghost function Lift(key: string, origins: seq<seq<string>>): (r: seq<seq<string>>)
    ensures |r| == |origins| && forall i :: 0 <= i < |r| ==> r[i] == [key] + origins[i]
  {
    seq(|origins|, i requires 0 <= i < |origins| => [key] + origins[i])
  }

  /** The node at `[key] + q` in `nodes` is the node at `q` below `nodes[key]`. */
  lemma NodeAtLift(nodes: map<string, UrlNode>, key: string, q: seq<string>)
    requires key in nodes && q != []
    ensures NodeAt(nodes, [key] + q) == NodeAt(nodes[key].children, q)
  {
    assert ([key] + q)[1..] == q;
  }

  /** The listing below a child, seen from its parent's map. */
  lemma ListedLift(result: seq<TrackingData>, base: nat, prefix: seq<string>, nodes: map<string, UrlNode>,
                   key: string, childOrigins: seq<seq<string>>, now: nat)
    requires key in nodes
    requires Listed(result, base, prefix + [key], nodes[key].children, childOrigins, now)
    ensures Listed(result, base, prefix, nodes, Lift(key, childOrigins), now)
  {
    var lifted := Lift(key, childOrigins);
    forall i | 0 <= i < |lifted|
      ensures NodeAt(nodes, lifted[i]) == NodeAt(nodes[key].children, childOrigins[i])
      ensures prefix + lifted[i] == (prefix + [key]) + childOrigins[i]
    {
      NodeAtLift(nodes, key, childOrigins[i]);
    }
  }

  /** Two consecutive listings make one. */
  lemma ListedConcat(result: seq<TrackingData>, base: nat, prefix: seq<string>, nodes: map<string, UrlNode>,
                     o1: seq<seq<string>>, o2: seq<seq<string>>, now: nat)
    requires |result| == base + |o1| + |o2|
    requires Listed(result[..base + |o1|], base, prefix, nodes, o1, now)
    requires Listed(result, base + |o1|, prefix, nodes, o2, now)
    ensures Listed(result, base, prefix, nodes, o1 + o2, now)
  {
    var front := result[..base + |o1|];
    assert forall j :: 0 <= j < |front| ==> front[j] == result[j];
  }

  /** One iteration of the walk keeps the listing. */
  lemma ListedStep(result: seq<TrackingData>, base: nat, prefix: seq<string>, nodes: map<string, UrlNode>,
                   origins: seq<seq<string>>, now: nat, key: string, own: seq<seq<string>>,
                   mid: seq<TrackingData>, childResult: seq<TrackingData>, childOrigins: seq<seq<string>>)
    requires key in nodes
    requires Listed(result, base, prefix, nodes, origins, now)
    requires Reported(nodes[key], now) ==> own == [[key]] && mid == result + [Entry(prefix + [key], nodes[key], now)]
    requires !Reported(nodes[key], now) ==> own == [] && mid == result
    requires mid <= childResult
    requires Listed(childResult, |mid|, prefix + [key], nodes[key].children, childOrigins, now)
    ensures Listed(childResult, base, prefix, nodes, origins + own + Lift(key, childOrigins), now)
  {
    assert Listed(mid, base, prefix, nodes, origins + own, now) by {
      if Reported(nodes[key], now) {
        assert NodeAt(nodes, [key]) == Some(nodes[key]);
        ListedConcat(mid, base, prefix, nodes, origins, own, now);
      }
    }
    ListedLift(childResult, |mid|, prefix, nodes, key, childOrigins, now);
    assert childResult[..|mid|] == mid;
    ListedConcat(childResult, base, prefix, nodes, origins + own, Lift(key, childOrigins), now);
  }

  /** One iteration of the walk covers the reported nodes below `key`. */
  lemma CoveredStep(nodes: map<string, UrlNode>, origins: seq<seq<string>>, now: nat, done: set<string>,
                    key: string, own: seq<seq<string>>, childOrigins: seq<seq<string>>)
    requires key in nodes
    requires Covered(nodes, origins, now, done)
    requires Reported(nodes[key], now) ==> own == [[key]]
    requires Covered(nodes[key].children, childOrigins, now, nodes[key].children.Keys)
    ensures Covered(nodes, origins + own + Lift(key, childOrigins), now, done + {key})
  {
    var all := origins + own + Lift(key, childOrigins);
    forall q | NodeAt(nodes, q).Some? && q[0] in done + {key} && Reported(NodeAt(nodes, q).value, now)
      ensures q in all
    {
      if q[0] in done {
        assert q in origins;
      } else if |q| == 1 {
        assert q == [key];
        assert all[|origins|] == q;
      } else {
        NodeAtLift(nodes, key, q[1..]);
        assert [key] + q[1..] == q;
        var c :| 0 <= c < |childOrigins| && childOrigins[c] == q[1..];
        assert all[|origins| + |own| + c] == q;
      }
    }
  }

  /** One iteration of the walk adds no key path twice. */
  lemma NoRepeatsStep(origins: seq<seq<string>>, done: set<string>, key: string, own: seq<seq<string>>,
                      childOrigins: seq<seq<string>>)
    requires key !in done
    requires NoRepeats(origins) && Under(origins, done)
    requires own == [] || own == [[key]]
    requires NoRepeats(childOrigins) && forall i :: 0 <= i < |childOrigins| ==> childOrigins[i] != []
    ensures NoRepeats(origins + own + Lift(key, childOrigins))
    ensures Under(origins + own + Lift(key, childOrigins), done + {key})
  {
    var all := origins + own + Lift(key, childOrigins);
    var n := |origins| + |own|;
    forall i, j | 0 <= i < j < |all| ensures all[i] != all[j] {
      if i >= n {
        assert all[i][1..] == childOrigins[i - n];
        assert all[j][1..] == childOrigins[j - n];
      } else if i >= |origins| {
        assert |all[j]| > 1;
      } else if j >= |origins| {
        assert all[j][0] == key;
      }
    }
  }

  /** A listing without repeated key paths in a well-formed trie has no repeated path. */
  lemma ListedPathsDistinct(result: seq<TrackingData>, base: nat, prefix: seq<string>, nodes: map<string, UrlNode>,
                            origins: seq<seq<string>>, now: nat)
    requires Listed(result, base, prefix, nodes, origins, now) && NoRepeats(origins)
    ensures AllKeysOk(prefix) && TreeKeysOk(nodes) ==>
      forall i, j :: base <= i < j < |result| ==> result[i].path != result[j].path
  {
    if AllKeysOk(prefix) && TreeKeysOk(nodes) {
      forall i, j | base <= i < j < |result| ensures result[i].path != result[j].path {
        DistinctPaths(prefix, nodes, origins[i - base], origins[j - base]);
      }
    }
  }

  /** The state of `collect_recursive`'s loop once the nodes under the keys in `done` are walked. */
  ghost predicate Walked(result: seq<TrackingData>, result': seq<TrackingData>, prefix: seq<string>,
                         nodes: map<string, UrlNode>, nodes': map<string, UrlNode>,
                         origins: seq<seq<string>>, done: set<string>, now: nat)
  {
    && done <= nodes.Keys && nodes'.Keys == nodes.Keys
    && (forall k :: k in nodes && k !in done ==> nodes'[k] == nodes[k])
    && (forall k :: k in done ==> nodes'[k] == DrainTree(nodes[k], now))
    && result <= result'
    && Listed(result', |result|, prefix, nodes, origins, now)
    && Covered(nodes, origins, now, done)
    && NoRepeats(origins) && Under(origins, done)
  }

  /** One pass of the loop, as `CollectNode` performs it, extends the walked state by one key. */
  lemma WalkedStep(result: seq<TrackingData>, result': seq<TrackingData>, prefix: seq<string>,
                   nodes: map<string, UrlNode>, nodes': map<string, UrlNode>,
                   origins: seq<seq<string>>, done: set<string>, now: nat,
                   key: string, node': UrlNode, own: seq<seq<string>>, mid: seq<TrackingData>,
                   childResult: seq<TrackingData>, childOrigins: seq<seq<string>>)
    requires Walked(result, result', prefix, nodes, nodes', origins, done, now)
    requires key in nodes && key !in done
    requires node' == DrainTree(nodes[key], now)
    requires Reported(nodes[key], now) ==> own == [[key]] && mid == result' + [Entry(prefix + [key], nodes[key], now)]
    requires !Reported(nodes[key], now) ==> own == [] && mid == result'
    requires mid <= childResult
    requires Listed(childResult, |mid|, prefix + [key], nodes[key].children, childOrigins, now)
    requires Covered(nodes[key].children, childOrigins, now, nodes[key].children.Keys)
    requires NoRepeats(childOrigins) && forall i :: 0 <= i < |childOrigins| ==> childOrigins[i] != []
    ensures Walked(result, childResult, prefix, nodes, nodes'[key := node'],
                   origins + own + Lift(key, childOrigins), done + {key}, now)
  {
    ListedStep(result', |result|, prefix, nodes, origins, now, key, own, mid, childResult, childOrigins);
    CoveredStep(nodes, origins, now, done, key, own, childOrigins);
    NoRepeatsStep(origins, done, key, own, childOrigins);
  }

  /** Once every key is walked, every node is drained and the listing is complete. */
  lemma WalkedAll(result: seq<TrackingData>, result': seq<TrackingData>, prefix: seq<string>,
                  nodes: map<string, UrlNode>, nodes': map<string, UrlNode>,
                  origins: seq<seq<string>>, now: nat)
    requires Walked(result, result', prefix, nodes, nodes', origins, nodes.Keys, now)
    ensures nodes' == DrainMap(nodes, now)
    ensures AllKeysOk(prefix) && TreeKeysOk(nodes) ==>
      forall i, j :: |result| <= i < j < |result'| ==> result'[i].path != result'[j].path
  {
    ListedPathsDistinct(result', |result|, prefix, nodes, origins, now);
  }

  /**
   * `collect_recursive`: for each node of `nodes` (in the map's unspecified order) the body of
   * the loop, `CollectNode`, records the node and walks its children. `origins` names, for each
   * appended entry, the key path of its node below `nodes` (ghost bookkeeping; `owner` only
   * witnesses termination).
   *
   * Every node is drained, including those not reported; an entry is appended exactly for the
   * nodes whose drained aggregate is positive, each once; the path buffer is given back as it
   * came; and in a well-formed trie no path repeats.
   */
  method CollectRecursive(
    result: seq<TrackingData>, currentTime: nat, pathBuffer: string, nodes: map<string, UrlNode>,
    ghost prefix: seq<string>, ghost owner: UrlNode)
    returns (result': seq<TrackingData>, pathBuffer': string, nodes': map<string, UrlNode>,
             ghost origins: seq<seq<string>>)
    requires nodes == owner.children
    requires pathBuffer == JoinPath(prefix)
    decreases owner, 0
    ensures pathBuffer' == pathBuffer
    ensures nodes' == DrainMap(nodes, currentTime)
    ensures result <= result'
    ensures Listed(result', |result|, prefix, nodes, origins, currentTime)
    ensures Covered(nodes, origins, currentTime, nodes.Keys)
    ensures NoRepeats(origins)
    ensures forall i :: 0 <= i < |origins| ==> origins[i] != []
    ensures AllKeysOk(prefix) && TreeKeysOk(nodes) ==>
      forall i, j :: |result| <= i < j < |result'| ==> result'[i].path != result'[j].path
  {
    result', pathBuffer', nodes', origins := result, pathBuffer, nodes, [];
    var keys := nodes.Keys;
    ghost var done: set<string> := {};
    while keys != {}
      invariant keys == nodes.Keys - done
      invariant pathBuffer' == pathBuffer
      invariant Walked(result, result', prefix, nodes, nodes', origins, done, currentTime)
      decreases keys
    {
      var key :| key in keys;
      ghost var start := result';
      var node;
      ghost var own, mid, childOrigins;
      result', pathBuffer', node, own, mid, childOrigins :=
        CollectNode(result', currentTime, pathBuffer', key, nodes'[key], prefix, owner);
      WalkedStep(result, start, prefix, nodes, nodes', origins, done, currentTime,
                 key, node, own, mid, result', childOrigins);
      nodes' := nodes'[key := node];
      origins := origins + own + Lift(key, childOrigins);
      done := done + {key};
      keys := keys - {key};
    }
    WalkedAll(result, result', prefix, nodes, nodes', origins, currentTime);
  }

  /**
   * One pass of `collect_recursive`'s loop: the key is pushed on the path buffer, the node is
   * drained by `accumulate_all_instances`, an entry is appended when its aggregate is positive,
   * the children are walked, and the buffer is truncated to its length before the push.
   * `own` and `childOrigins` say which nodes were listed, `mid` is the result before the walk.
   */
  method CollectNode(
    result: seq<TrackingData>, currentTime: nat, pathBuffer: string, key: string, node: UrlNode,
    ghost prefix: seq<string>, ghost owner: UrlNode)
    returns (result': seq<TrackingData>, pathBuffer': string, node': UrlNode,
             ghost own: seq<seq<string>>, ghost mid: seq<TrackingData>, ghost childOrigins: seq<seq<string>>)
    requires key in owner.children && node == owner.children[key]
    requires pathBuffer == JoinPath(prefix)
    decreases node, 1
    ensures pathBuffer' == pathBuffer
    ensures node' == DrainTree(node, currentTime)
    ensures Reported(node, currentTime) ==> own == [[key]] && mid == result + [Entry(prefix + [key], node, currentTime)]
    ensures !Reported(node, currentTime) ==> own == [] && mid == result
    ensures mid <= result'
    ensures Listed(result', |mid|, prefix + [key], node.children, childOrigins, currentTime)
    ensures Covered(node.children, childOrigins, currentTime, node.children.Keys)
    ensures NoRepeats(childOrigins) && forall i :: 0 <= i < |childOrigins| ==> childOrigins[i] != []
  {
    var originalLen := |pathBuffer|;
    pathBuffer' := pathBuffer;
    if pathBuffer' != [] {
      pathBuffer' := pathBuffer' + "/";
    }
    pathBuffer' := pathBuffer' + key;
    assert pathBuffer' == JoinPath(prefix + [key]) by {
      assert (prefix + [key])[..|prefix|] == prefix;
    }
    var drained, aggregateTime, activeInstances, totalInstances := AccumulateAllInstances(node, currentTime);
    result', own := result, [];
    if aggregateTime > 0 {
      result' := result' + [TrackingData(pathBuffer', aggregateTime, totalInstances, activeInstances)];
      own := [[key]];
    }
    mid := result';
    var childNodes;
    result', pathBuffer', childNodes, childOrigins :=
      CollectRecursive(result', currentTime, pathBuffer', drained.children, prefix + [key], node);
    pathBuffer' := pathBuffer'[..originalLen];
    node' := drained.(children := childNodes);
  }

  /**
   * `result` is a report of the trie `root` at `now`: one entry for each reported node, each
   * entry once, in some order (the walk follows the maps' unspecified iteration order).
   */
  ghost predicate IsReport(result: seq<TrackingData>, root: map<string, UrlNode>, now: nat) {
    exists origins :: Listed(result, 0, [], root, origins, now) && Covered(root, origins, now, root.Keys) && NoRepeats(origins)
  }

  /** Every entry of a report is the entry of some node, and no entry has zero time. */
  lemma ReportEntry(result: seq<TrackingData>, root: map<string, UrlNode>, now: nat, i: nat)
    requires IsReport(result, root, now) && i < |result|
    ensures result[i].aggregateTime > 0
    ensures exists q :: NodeAt(root, q).Some? && result[i] == Entry(q, NodeAt(root, q).value, now)
  {
    var origins :| Listed(result, 0, [], root, origins, now) && Covered(root, origins, now, root.Keys) && NoRepeats(origins);
    var q := origins[i];
    assert [] + q == q;
  }

  /** Every node with time recorded, once drained, has its entry in the report. */
  lemma ReportComplete(result: seq<TrackingData>, root: map<string, UrlNode>, now: nat, q: seq<string>)
    requires IsReport(result, root, now)
    requires NodeAt(root, q).Some? && Reported(NodeAt(root, q).value, now)
    ensures Entry(q, NodeAt(root, q).value, now) in result
  {
    var origins :| Listed(result, 0, [], root, origins, now) && Covered(root, origins, now, root.Keys) && NoRepeats(origins);
    var i :| 0 <= i < |origins| && origins[i] == q;
    assert [] + q == q;
    assert result[i] == Entry(q, NodeAt(root, q).value, now);
  }

  /** In a trie with well-formed keys no path is reported twice. */
  lemma ReportPathsDistinct(result: seq<TrackingData>, root: map<string, UrlNode>, now: nat)
    requires IsReport(result, root, now) && TreeKeysOk(root)
    ensures forall i, j :: 0 <= i < j < |result| ==> result[i].path != result[j].path
  {
    var origins :| Listed(result, 0, [], root, origins, now) && Covered(root, origins, now, root.Keys) && NoRepeats(origins);
    ListedPathsDistinct(result, 0, [], root, origins, now);
    assert AllKeysOk([]);
  }

  /** A sequence without repeats holds each of its elements exactly once. */
  lemma {:induction false} DistinctCounts<T>(s: seq<T>, x: T)
    requires forall i, j :: 0 <= i < j < |s| ==> s[i] != s[j]
    ensures multiset(s)[x] == if x in s then 1 else 0
  {
    if s != [] {
      var t := s[..|s| - 1];
      assert s == t + [s[|s| - 1]];
      DistinctCounts(t, x);
      assert s[|s| - 1] !in t;
    }
  }

  /** `f` applied to every element of `s`, in order. */
  ghost function MapSeq<A, B>(f: A -> B, s: seq<A>): (r: seq<B>)
    ensures |r| == |s| && forall i :: 0 <= i < |s| ==> r[i] == f(s[i])
  {
    seq(|s|, i requires 0 <= i < |s| => f(s[i]))
  }

  /** Mapping distributes over concatenation. */
  lemma MapSeqConcat<A, B>(f: A -> B, a: seq<A>, b: seq<A>)
    ensures MapSeq(f, a + b) == MapSeq(f, a) + MapSeq(f, b)
  {
  }

  /** Mapping a sequence with one more element adds that element's image to the multiset. */
  lemma MapSeqInsert<A, B>(f: A -> B, s: seq<A>, j: nat)
    requires j < |s|
    ensures multiset(MapSeq(f, s)) == multiset(MapSeq(f, s[..j] + s[j + 1..])) + multiset{f(s[j])}
  {
    var front, x, back := s[..j], s[j], s[j + 1..];
    assert s == front + [x] + back;
    MapSeqConcat(f, front, [x]);
    MapSeqConcat(f, front + [x], back);
    MapSeqConcat(f, front, back);
    assert MapSeq(f, [x]) == [f(x)];
    var ff, fb := MapSeq(f, front), MapSeq(f, back);
    calc {
      multiset(MapSeq(f, s));
      multiset(ff + [f(x)] + fb);
      multiset(ff + fb) + multiset{f(x)};
    }
  }

  /** Taking out the element at `j` takes one occurrence of it out of the multiset. */
  lemma RemoveAtMultiset<A>(b: seq<A>, j: nat)
    requires j < |b|
    ensures multiset(b[..j] + b[j + 1..]) == multiset(b) - multiset{b[j]}
  {
    assert b == b[..j] + [b[j]] + b[j + 1..];
  }

  /** Sequences holding the same elements as often keep doing so once mapped. */
  lemma {:induction false} MapSeqMultiset<A, B>(f: A -> B, a: seq<A>, b: seq<A>)
    requires multiset(a) == multiset(b)
    ensures multiset(MapSeq(f, a)) == multiset(MapSeq(f, b))
    decreases |a|
  {
    if a == [] {
      assert |b| == |multiset(b)| == 0;
    } else {
      var i := |a| - 1;
      assert a[i] in multiset(b);
      var j :| 0 <= j < |b| && b[j] == a[i];
      RemoveAtMultiset(a, i);
      RemoveAtMultiset(b, j);
      MapSeqMultiset(f, a[..i] + a[i + 1..], b[..j] + b[j + 1..]);
      MapSeqInsert(f, a, i);
      MapSeqInsert(f, b, j);
    }
  }

  /** The entry of the node at key path `q`, for a path that leads to a node. */
  ghost function EntryAt(root: map<string, UrlNode>, now: nat, q: seq<string>): TrackingData {
    match NodeAt(root, q)
    case Some(n) => Entry(q, n, now)
    case None => TrackingData("", 0, 0, 0)
  }

  /** Two duplicate-free lists of the reported nodes hold the same key paths, each once. */
  lemma SameOrigins(root: map<string, UrlNode>, now: nat, r1: seq<TrackingData>, o1: seq<seq<string>>,
                    r2: seq<TrackingData>, o2: seq<seq<string>>)
    requires Listed(r1, 0, [], root, o1, now) && Covered(root, o1, now, root.Keys) && NoRepeats(o1)
    requires Listed(r2, 0, [], root, o2, now) && Covered(root, o2, now, root.Keys) && NoRepeats(o2)
    ensures multiset(o1) == multiset(o2)
  {
    forall q ensures multiset(o1)[q] == multiset(o2)[q] {
      DistinctCounts(o1, q);
      DistinctCounts(o2, q);
    }
  }

  /** A report is the entries of its list of origins, in that list's order. */
  lemma ReportIsMapped(result: seq<TrackingData>, root: map<string, UrlNode>, now: nat, origins: seq<seq<string>>)
    requires Listed(result, 0, [], root, origins, now)
    ensures result == MapSeq(q => EntryAt(root, now, q), origins)
  {
    forall i | 0 <= i < |result|
      ensures result[i] == EntryAt(root, now, origins[i])
    {
      assert [] + origins[i] == origins[i];
    }
  }

  /**
   * The report is determined up to order: any two reports of the same trie at the same moment
   * hold the same entries, each as often.
   */
  lemma ReportsAgree(r1: seq<TrackingData>, r2: seq<TrackingData>, root: map<string, UrlNode>, now: nat)
    requires IsReport(r1, root, now) && IsReport(r2, root, now)
    ensures multiset(r1) == multiset(r2)
  {
    var o1 :| Listed(r1, 0, [], root, o1, now) && Covered(root, o1, now, root.Keys) && NoRepeats(o1);
    var o2 :| Listed(r2, 0, [], root, o2, now) && Covered(root, o2, now, root.Keys) && NoRepeats(o2);
    SameOrigins(root, now, r1, o1, r2, o2);
    ReportIsMapped(r1, root, now, o1);
    ReportIsMapped(r2, root, now, o2);
    MapSeqMultiset(q => EntryAt(root, now, q), o1, o2);
  }
}
