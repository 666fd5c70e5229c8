/** `KnowledgeGraph.find_learning_path`: breadth-first search over the
    adjacency lists, checked against a functional definition of walks.

    Two details of the source shape the contract. The test
    `next_node == end_node` runs before the visited check and the start is
    never compared with the end before the loop, so a result always has at
    least one edge: from a topic to itself the search finds a cycle or
    nothing, never the one-element path. And the search indexes `graph`
    with every dequeued topic, so a destination that was never added as a
    node raises `KeyError` once it is dequeued. */
module PathSearch {
  import opened Wrappers
  import opened KnowledgeGraph

  type Adjacency = map<Topic, seq<Topic>>

  predicate Edge(adj: Adjacency, u: Topic, t: Topic) {
    u in adj && t in adj[u]
  }

  /** A non-empty sequence of topics each joined to the next by an edge. */
  predicate IsWalk(adj: Adjacency, w: seq<Topic>) {
    |w| >= 1 && forall i :: 0 <= i < |w| - 1 ==> Edge(adj, w[i], w[i + 1])
  }

  predicate WalkFromTo(adj: Adjacency, w: seq<Topic>, s: Topic, e: Topic) {
    IsWalk(adj, w) && w[0] == s && w[|w| - 1] == e
  }

  /** A learning path from `s` to `e`: a walk with at least one edge. */
  predicate IsLearningPath(adj: Adjacency, p: seq<Topic>, s: Topic, e: Topic) {
    |p| >= 2 && WalkFromTo(adj, p, s, e)
  }

  ghost predicate IsShortestLearningPath(adj: Adjacency, p: seq<Topic>, s: Topic, e: Topic) {
    IsLearningPath(adj, p, s, e) && forall q :: IsLearningPath(adj, q, s, e) ==> |p| <= |q|
  }

  ghost predicate NoLearningPath(adj: Adjacency, s: Topic, e: Topic) {
    forall q :: !IsLearningPath(adj, q, s, e)
  }

  ghost predicate Reachable(adj: Adjacency, s: Topic, x: Topic) {
    exists w :: WalkFromTo(adj, w, s, x)
  }

  /** Every topic reachable from `s` has an adjacency list of its own. */
  ghost predicate ReachableAreNodes(adj: Adjacency, s: Topic) {
    forall w :: IsWalk(adj, w) && w[0] == s ==> w[|w| - 1] in adj
  }

  datatype Search =
    | Path(topics: seq<Topic>)     // the list returned
    | NoPath                       // `None`
    | UnknownVertex(node: Topic)   // `KeyError` from `self.graph[vertex]`

  function Targets(adj: Adjacency): set<Topic> {
    set u, t | u in adj.Keys && t in adj[u] :: t
  }

  /** Topic `u` has been expanded: each destination is visited, differs from
      the end topic, and lies at most one layer below `u`. */
  ghost predicate Expanded(adj: Adjacency, e: Topic, level: map<Topic, int>, u: Topic) {
    u in adj && u in level
    && forall t :: t in adj[u] ==> t != e && t in level && level[t] <= level[u] + 1
  }

  lemma WalkSnoc(adj: Adjacency, w: seq<Topic>, t: Topic)
    requires IsWalk(adj, w) && Edge(adj, w[|w| - 1], t)
    ensures IsWalk(adj, w + [t])
  {
    var w' := w + [t];
    forall i | 0 <= i < |w'| - 1
      ensures Edge(adj, w'[i], w'[i + 1])
    {
      if i < |w| - 1 {
        assert w'[i] == w[i] && w'[i + 1] == w[i + 1];
      }
    }
  }

  lemma WalkPrefix(adj: Adjacency, w: seq<Topic>, n: nat)
    requires IsWalk(adj, w) && 1 <= n <= |w|
    ensures IsWalk(adj, w[..n])
  {
    var w' := w[..n];
    forall i | 0 <= i < |w'| - 1
      ensures Edge(adj, w'[i], w'[i + 1])
    {
      assert w'[i] == w[i] && w'[i + 1] == w[i + 1];
    }
  }

  /** The layering argument of breadth-first search: if every visited topic
      on a layer below `k` has been expanded, then every walk from the start
      with fewer than `k` topics ends at an expanded topic whose layer is no
      more than the walk's length. */
  lemma {:induction false} ShortWalkEndsExpanded(
    adj: Adjacency, s: Topic, e: Topic, level: map<Topic, int>, k: int, w: seq<Topic>)
    requires s in level && level[s] == 1
    requires forall x :: x in level && level[x] < k ==> Expanded(adj, e, level, x)
    requires IsWalk(adj, w) && w[0] == s && |w| < k
    ensures w[|w| - 1] in level && level[w[|w| - 1]] <= |w| && Expanded(adj, e, level, w[|w| - 1])
    decreases |w|
  {
    if |w| > 1 {
      WalkPrefix(adj, w, |w| - 1);
      ShortWalkEndsExpanded(adj, s, e, level, k, w[..|w| - 1]);
      assert Edge(adj, w[|w| - 2], w[|w| - 1]);
    }
  }

  /** No learning path from `s` to `e` has fewer than `k + 1` topics. */
  lemma PathsAreLong(
    adj: Adjacency, s: Topic, e: Topic, level: map<Topic, int>, k: int, q: seq<Topic>)
    requires s in level && level[s] == 1
    requires forall x :: x in level && level[x] < k ==> Expanded(adj, e, level, x)
    requires IsLearningPath(adj, q, s, e)
    ensures |q| >= k + 1
  {
    if |q| < k + 1 {
      WalkPrefix(adj, q, |q| - 1);
      ShortWalkEndsExpanded(adj, s, e, level, k, q[..|q| - 1]);
      assert false;
    }
  }

  /** The state of the search, shared by both loops. `order` lists the
      visited topics in discovery order and `pos` inverts it; the first `head`
      of them have been dequeued and the queue holds the rest, each with the
      walk by which it was discovered. `level[x]` is the number of topics on
      that walk; levels never decrease along `order`. */
  ghost predicate Discovery(
    adj: Adjacency, s: Topic, visited: set<Topic>, queue: seq<(Topic, seq<Topic>)>,
    order: seq<Topic>, head: int, pos: map<Topic, int>, level: map<Topic, int>)
  {
    && 0 <= head && |order| == head + |queue|
    && |order| > 0 && order[0] == s && s in level && level[s] == 1
    && visited == pos.Keys && visited == level.Keys
    && visited <= Targets(adj) + {s}
    && (forall x :: x in pos ==> 0 <= pos[x] < |order| && order[pos[x]] == x)
    && (forall i :: 0 <= i < |order| ==> order[i] in pos && pos[order[i]] == i)
    && (forall i, j :: 0 <= i <= j < |order| ==> level[order[i]] <= level[order[j]])
    && (forall i :: 0 <= i < |queue| ==>
          queue[i].0 == order[head + i] && |queue[i].1| == level[queue[i].0]
          && WalkFromTo(adj, queue[i].1, s, queue[i].0))
  }

  /** Between two dequeues: the dequeued topics are expanded and the queue
      spans at most two consecutive layers. */
  ghost predicate SearchInv(
    adj: Adjacency, s: Topic, e: Topic, visited: set<Topic>, queue: seq<(Topic, seq<Topic>)>,
    order: seq<Topic>, head: int, pos: map<Topic, int>, level: map<Topic, int>)
  {
    && Discovery(adj, s, visited, queue, order, head, pos, level)
    && (forall i :: 0 <= i < head ==> Expanded(adj, e, level, order[i]))
    && (|queue| > 0 ==> level[order[|order| - 1]] <= level[order[head]] + 1)
  }

  /** While the destinations `adj[v][..j]` of the last dequeued topic `v`
      are scanned: `v` is on layer `|path|`, every earlier topic is expanded,
      no visited topic is more than one layer below `v`, and the scanned
      destinations are visited, on at most the next layer, and not the end. */
  ghost predicate ScanInv(
    adj: Adjacency, s: Topic, e: Topic, v: Topic, path: seq<Topic>, j: int,
    visited: set<Topic>, queue: seq<(Topic, seq<Topic>)>,
    order: seq<Topic>, head: int, pos: map<Topic, int>, level: map<Topic, int>)
  {
    && Discovery(adj, s, visited, queue, order, head, pos, level)
    && v in adj && 0 <= j <= |adj[v]|
    && head >= 1 && order[head - 1] == v && level[v] == |path|
    && WalkFromTo(adj, path, s, v)
    && (forall i :: 0 <= i < head - 1 ==> Expanded(adj, e, level, order[i]))
    && (forall x :: x in level ==> level[x] <= |path| + 1)
    && (forall i :: 0 <= i < j ==>
          adj[v][i] != e && adj[v][i] in level && level[adj[v][i]] <= |path| + 1)
  }

  lemma SearchStart(adj: Adjacency, s: Topic, e: Topic)
    ensures SearchInv(adj, s, e, {s}, [(s, [s])], [s], 0, map[s := 0], map[s := 1])
  {
  }

  lemma ScanStart(
    adj: Adjacency, s: Topic, e: Topic, visited: set<Topic>, queue: seq<(Topic, seq<Topic>)>,
    order: seq<Topic>, head: int, pos: map<Topic, int>, level: map<Topic, int>)
    requires SearchInv(adj, s, e, visited, queue, order, head, pos, level)
    requires |queue| > 0 && queue[0].0 in adj
    ensures ScanInv(adj, s, e, queue[0].0, queue[0].1, 0, visited, queue[1..],
                    order, head + 1, pos, level)
  {
    forall x | x in level
      ensures level[x] <= |queue[0].1| + 1
    {
      assert level[order[pos[x]]] <= level[order[|order| - 1]];
    }
    forall i | 0 <= i < |queue[1..]|
      ensures queue[1..][i] == queue[i + 1]
    {
    }
  }

  /** Scanning an already visited destination other than the end topic. */
  lemma ScanSkip(
    adj: Adjacency, s: Topic, e: Topic, v: Topic, path: seq<Topic>, j: int,
    visited: set<Topic>, queue: seq<(Topic, seq<Topic>)>,
    order: seq<Topic>, head: int, pos: map<Topic, int>, level: map<Topic, int>)
    requires ScanInv(adj, s, e, v, path, j, visited, queue, order, head, pos, level)
    requires j < |adj[v]| && adj[v][j] != e && adj[v][j] in visited
    ensures ScanInv(adj, s, e, v, path, j + 1, visited, queue, order, head, pos, level)
  {
  }

  lemma TargetsContain(adj: Adjacency, u: Topic, t: Topic)
    requires Edge(adj, u, t)
    ensures t in Targets(adj)
  {
    assert u in adj.Keys && t in adj[u];
  }

  /** Scanning a new destination other than the end topic discovers it on
      the layer after `v` and enqueues it with its walk. */
  lemma ScanDiscover(
    adj: Adjacency, s: Topic, e: Topic, v: Topic, path: seq<Topic>, j: int,
    visited: set<Topic>, queue: seq<(Topic, seq<Topic>)>,
    order: seq<Topic>, head: int, pos: map<Topic, int>, level: map<Topic, int>)
    requires ScanInv(adj, s, e, v, path, j, visited, queue, order, head, pos, level)
    requires j < |adj[v]| && adj[v][j] != e && adj[v][j] !in visited
    ensures var t := adj[v][j];
            ScanInv(adj, s, e, v, path, j + 1, visited + {t}, queue + [(t, path + [t])],
                    order + [t], head, pos[t := |order|], level[t := |path| + 1])
  {
    var t := adj[v][j];
    TargetsContain(adj, v, t);
    WalkSnoc(adj, path, t);
    DiscoverStep(adj, s, visited, queue, order, head, pos, level, t, path + [t]);
    var order', level' := order + [t], level[t := |path| + 1];
    forall i | 0 <= i < head - 1
      ensures Expanded(adj, e, level', order'[i])
    {
      assert order'[i] == order[i];
    }
  }

  /** Discovering a new topic `t` by a walk no shorter than any recorded one
      appends it to the order and the queue and keeps the discovery
      bookkeeping. */
  lemma DiscoverStep(
    adj: Adjacency, s: Topic, visited: set<Topic>, queue: seq<(Topic, seq<Topic>)>,
    order: seq<Topic>, head: int, pos: map<Topic, int>, level: map<Topic, int>,
    t: Topic, w: seq<Topic>)
    requires Discovery(adj, s, visited, queue, order, head, pos, level)
    requires t !in visited && t in Targets(adj) && WalkFromTo(adj, w, s, t)
    requires forall x :: x in level ==> level[x] <= |w|
    ensures Discovery(adj, s, visited + {t}, queue + [(t, w)], order + [t], head,
                      pos[t := |order|], level[t := |w|])
  {
    var queue', order', level' := queue + [(t, w)], order + [t], level[t := |w|];
    forall i | 0 <= i < |queue'|
      ensures queue'[i].0 == order'[head + i] && |queue'[i].1| == level'[queue'[i].0]
              && WalkFromTo(adj, queue'[i].1, s, queue'[i].0)
    {
      if i < |queue| {
        assert queue'[i] == queue[i] && order'[head + i] == order[head + i];
      }
    }
    forall i, i' | 0 <= i <= i' < |order'|
      ensures level'[order'[i]] <= level'[order'[i']]
    {
      if i' < |order| {
        assert order'[i] == order[i] && order'[i'] == order[i'];
      }
    }
  }

  /** Once every destination of `v` is scanned, `v` is expanded. */
  lemma ScanFinish(
    adj: Adjacency, s: Topic, e: Topic, v: Topic, path: seq<Topic>,
    visited: set<Topic>, queue: seq<(Topic, seq<Topic>)>,
    order: seq<Topic>, head: int, pos: map<Topic, int>, level: map<Topic, int>)
    requires v in adj
    requires ScanInv(adj, s, e, v, path, |adj[v]|, visited, queue, order, head, pos, level)
    ensures SearchInv(adj, s, e, visited, queue, order, head, pos, level)
  {
    forall t | t in adj[v]
      ensures t != e && t in level && level[t] <= level[v] + 1
    {
      var i :| 0 <= i < |adj[v]| && adj[v][i] == t;
    }
    if |queue| > 0 {
      assert level[order[head - 1]] <= level[order[head]];
    }
  }

  /** Meeting the end topic while scanning `v` yields a shortest path. */
  lemma ScanFound(
    adj: Adjacency, s: Topic, e: Topic, v: Topic, path: seq<Topic>, j: int,
    visited: set<Topic>, queue: seq<(Topic, seq<Topic>)>,
    order: seq<Topic>, head: int, pos: map<Topic, int>, level: map<Topic, int>)
    requires ScanInv(adj, s, e, v, path, j, visited, queue, order, head, pos, level)
    requires j < |adj[v]| && adj[v][j] == e
    ensures IsShortestLearningPath(adj, path + [e], s, e)
  {
    var k := |path|;
    forall x | x in level && level[x] < k
      ensures Expanded(adj, e, level, x)
    {
      assert order[pos[x]] == x;
    }
    forall q | IsLearningPath(adj, q, s, e)
      ensures |path + [e]| <= |q|
    {
      PathsAreLong(adj, s, e, level, k, q);
    }
    WalkSnoc(adj, path, e);
  }

  /** An empty queue means every topic reachable from the start has been
      expanded, so no edge leads to the end topic. */
  lemma SearchExhausted(
    adj: Adjacency, s: Topic, e: Topic, visited: set<Topic>,
    order: seq<Topic>, head: int, pos: map<Topic, int>, level: map<Topic, int>)
    requires SearchInv(adj, s, e, visited, [], order, head, pos, level)
    ensures NoLearningPath(adj, s, e) && ReachableAreNodes(adj, s)
  {
    forall x | x in level
      ensures Expanded(adj, e, level, x)
    {
      assert order[pos[x]] == x;
    }
    forall q
      ensures !IsLearningPath(adj, q, s, e)
    {
      if IsLearningPath(adj, q, s, e) {
        PathsAreLong(adj, s, e, level, |q|, q);
        assert false;
      }
    }
    forall w | IsWalk(adj, w) && w[0] == s
      ensures w[|w| - 1] in adj
    {
      ShortWalkEndsExpanded(adj, s, e, level, |w| + 1, w);
    }
  }

  lemma RemoveOne(universe: set<Topic>, visited: set<Topic>, t: Topic)
    requires t in universe && t !in visited
    ensures |universe - (visited + {t})| == |universe - visited| - 1
  {
    assert universe - (visited + {t}) == (universe - visited) - {t};
  }

  /** The loop of `find_learning_path` (from the `visited` set on), with
      its queue of (topic, path) pairs popped from the front. */
  method Bfs(adj: Adjacency, s: Topic, e: Topic) returns (r: Search)
    ensures r.Path? ==> IsShortestLearningPath(adj, r.topics, s, e)
    ensures r.NoPath? ==> NoLearningPath(adj, s, e) && ReachableAreNodes(adj, s)
    ensures r.UnknownVertex? ==> r.node !in adj && Reachable(adj, s, r.node)
  {
    var visited: set<Topic> := {s};
    var queue: seq<(Topic, seq<Topic>)> := [(s, [s])];
    ghost var order: seq<Topic> := [s];
    ghost var head := 0;
    ghost var pos: map<Topic, int> := map[s := 0];
    ghost var level: map<Topic, int> := map[s := 1];
    ghost var universe := Targets(adj) + {s};
    SearchStart(adj, s, e);
    while |queue| > 0
      invariant SearchInv(adj, s, e, visited, queue, order, head, pos, level)
      invariant visited <= universe
      decreases |universe - visited| + |queue|
    {
      var v := queue[0].0;
      var path := queue[0].1;
      if v !in adj {
        assert WalkFromTo(adj, path, s, v);
        return UnknownVertex(v);
      }
      ScanStart(adj, s, e, visited, queue, order, head, pos, level);
      queue := queue[1..];
      head := head + 1;
      var succ := adj[v];
      ghost var measure := |universe - visited| + |queue|;
      var j := 0;
      while j < |succ|
        invariant ScanInv(adj, s, e, v, path, j, visited, queue, order, head, pos, level)
        invariant visited <= universe
        invariant |universe - visited| + |queue| == measure
      {
        var t := succ[j];
        if t == e {
          ScanFound(adj, s, e, v, path, j, visited, queue, order, head, pos, level);
          return Path(path + [t]);
        }
        if t in visited {
          ScanSkip(adj, s, e, v, path, j, visited, queue, order, head, pos, level);
        } else {
          ScanDiscover(adj, s, e, v, path, j, visited, queue, order, head, pos, level);
          RemoveOne(universe, visited, t);
          visited := visited + {t};
          queue := queue + [(t, path + [t])];
          pos := pos[t := |order|];
          level := level[t := |path| + 1];
          order := order + [t];
        }
        j := j + 1;
      }
      ScanFinish(adj, s, e, v, path, visited, queue, order, head, pos, level);
    }
    SearchExhausted(adj, s, e, visited, order, head, pos, level);
    return NoPath;
  }

  /** `find_learning_path(start, end)` as written: `None` when either
      endpoint was never added; otherwise the search above, which may raise
      `KeyError` on a destination that is not a node. */
  method FindLearningPath(g: Graph, s: Topic, e: Topic) returns (r: Search)
    ensures s !in g.adj || e !in g.adj ==> r == NoPath
    ensures r.Path? ==> IsShortestLearningPath(g.adj, r.topics, s, e)
    ensures r.NoPath? && s in g.adj && e in g.adj ==>
              NoLearningPath(g.adj, s, e) && ReachableAreNodes(g.adj, s)
    ensures r.UnknownVertex? ==> r.node !in g.adj && Reachable(g.adj, s, r.node)
  {
    if s !in g.adj || e !in g.adj {
      return NoPath;
    }
    r := Bfs(g.adj, s, e);
  }

  /** Every destination that is not yet a node gets an empty adjacency list. */
  function Close(adj: Adjacency): (c: Adjacency)
    ensures c.Keys == adj.Keys + Targets(adj)
    ensures forall u :: u in adj ==> c[u] == adj[u]
    ensures forall u :: u in c && u !in adj ==> c[u] == []
  {
    map x | x in adj.Keys + Targets(adj) :: if x in adj then adj[x] else []
  }

  /** Closing the adjacency adds no edge and removes none. */
  lemma CloseKeepsEdges(adj: Adjacency)
    ensures forall u, t :: Edge(Close(adj), u, t) <==> Edge(adj, u, t)
  {
  }

  lemma CloseKeepsPaths(adj: Adjacency, s: Topic, e: Topic)
    ensures forall q :: IsLearningPath(Close(adj), q, s, e) <==> IsLearningPath(adj, q, s, e)
  {
    CloseKeepsEdges(adj);
  }

  /** In the closed adjacency every topic reachable from a node is a node. */
  lemma ClosedReachableAreNodes(adj: Adjacency, s: Topic)
    requires s in adj
    ensures ReachableAreNodes(Close(adj), s)
  {
    var c := Close(adj);
    forall w | IsWalk(c, w) && w[0] == s
      ensures w[|w| - 1] in c
    {
      if |w| > 1 {
        assert Edge(c, w[|w| - 2], w[|w| - 1]);
        TargetsContain(adj, w[|w| - 2], w[|w| - 1]);
      }
    }
  }

  /** `find_learning_path` with the evident intent that a destination which
      is not a node simply has no outgoing edges: the same search, run on the
      closed adjacency. It returns a shortest learning path when one exists
      and `None` exactly when none does. */
  method FindLearningPathTotal(g: Graph, s: Topic, e: Topic) returns (r: Option<seq<Topic>>)
    ensures s !in g.adj || e !in g.adj ==> r == None
    ensures r.Some? ==> IsShortestLearningPath(g.adj, r.value, s, e)
    ensures r.None? && s in g.adj && e in g.adj ==> NoLearningPath(g.adj, s, e)
  {
    if s !in g.adj || e !in g.adj {
      return None;
    }
    ClosedReachableAreNodes(g.adj, s);
    CloseKeepsPaths(g.adj, s, e);
    var res := Bfs(Close(g.adj), s, e);
    assert !res.UnknownVertex?;
    if res.Path? {
      return Some(res.topics);
    }
    return None;
  }

  /** When every destination is a node, the search never raises. */
  lemma NodeTargetsReachNodes(adj: Adjacency, s: Topic)
    requires s in adj
    requires forall u, t :: Edge(adj, u, t) ==> t in adj
    ensures ReachableAreNodes(adj, s)
  {
    forall w | IsWalk(adj, w) && w[0] == s
      ensures w[|w| - 1] in adj
    {
      if |w| > 1 {
        assert Edge(adj, w[|w| - 2], w[|w| - 1]);
      }
    }
  }

  /** The second topic of a walk is a destination of the first. */
  lemma FirstStep(adj: Adjacency, w: seq<Topic>)
    requires IsWalk(adj, w) && |w| >= 2
    ensures w[0] in adj && w[1] in adj[w[0]]
  {
    assert Edge(adj, w[0], w[1]);
  }

  /** Only the last topic of a walk may lack an adjacency list. */
  lemma InnerWalkTopicsAreNodes(adj: Adjacency, w: seq<Topic>)
    requires IsWalk(adj, w)
    ensures forall i :: 0 <= i < |w| - 1 ==> w[i] in adj
  {
    forall i | 0 <= i < |w| - 1
      ensures w[i] in adj
    {
      assert Edge(adj, w[i], w[i + 1]);
    }
  }

  /** A topic without destinations starts no learning path. */
  lemma NoEdgesNoPath(adj: Adjacency, s: Topic, e: Topic)
    requires s in adj && adj[s] == []
    ensures NoLearningPath(adj, s, e)
  {
    forall q
      ensures !IsLearningPath(adj, q, s, e)
    {
      if IsLearningPath(adj, q, s, e) {
        FirstStep(adj, q);
      }
    }
  }
}
