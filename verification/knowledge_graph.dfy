/** The topic graph of the adaptive learning system
    (`KnowledgeGraph` in adaptive_learning_system.py).

    The Python object holds three dictionaries: `graph` (node -> list of
    destinations), `node_weights` (node -> weight) and `edge_types`
    (source -> destination -> kind). Python dictionaries iterate in
    insertion order, which `get_prerequisites` exposes; the model therefore
    keeps the node insertion order explicitly in `nodes`. */
module KnowledgeGraph {
  import opened Seqs

  type Topic = string

  const Related: string := "related"
  const Prerequisite: string := "prerequisite"

  datatype Graph = Graph(
    nodes: seq<Topic>,                        // insertion order of `graph`
    adj: map<Topic, seq<Topic>>,              // `graph`
    weights: map<Topic, real>,                // `node_weights`
    kinds: map<Topic, map<Topic, string>>)    // `edge_types`

  /** The representation invariant the three dictionaries keep: the
      insertion order lists each node once, the weight table has exactly the
      nodes as keys, `edge_types` only has entries for nodes that have
      outgoing edges, and `edge_types[f]` has a key `t` iff `t` occurs in
      `graph[f]`. */
  predicate Valid(g: Graph) {
    && Distinct(g.nodes)
    && Elems(g.nodes) == g.adj.Keys
    && g.weights.Keys == g.adj.Keys
    && (forall f :: f in g.adj && |g.adj[f]| > 0 ==> f in g.kinds)
    && (forall f :: f in g.kinds ==> f in g.adj && g.kinds[f].Keys == Elems(g.adj[f]))
  }

  /** `f -> n` is an edge whose recorded kind is "prerequisite". */
  predicate IsPrerequisiteOf(g: Graph, f: Topic, n: Topic) {
    f in g.adj && n in g.adj[f] && f in g.kinds && n in g.kinds[f]
    && g.kinds[f][n] == Prerequisite
  }

  function Empty(): (g: Graph)
    ensures Valid(g)
    ensures g.adj == map[] && g.nodes == []
  {
    Graph([], map[], map[], map[])
  }

  /** `add_node`: a new node starts with no destinations and the given
      weight; a node that already exists is left exactly as it was. */
  function AddNode(g: Graph, n: Topic, w: real := 1.0): (r: Graph)
    requires Valid(g)
    ensures Valid(r)
    ensures r.adj.Keys == g.adj.Keys + {n}
    ensures n in g.adj ==> r == g
    ensures n !in g.adj ==> r.nodes == g.nodes + [n] && r.adj[n] == [] && r.weights[n] == w
    ensures forall x :: x in g.adj ==> r.adj[x] == g.adj[x] && r.weights[x] == g.weights[x]
    ensures r.kinds == g.kinds
  {
    if n in g.adj then g
    else
      InsertNodeValid(g, n, w);
      InsertNode(g, n, w)
  }

  /** The dictionaries after `add_node` of a new node. */
  function InsertNode(g: Graph, n: Topic, w: real): (r: Graph)
    requires n !in g.adj
    ensures r.nodes == g.nodes + [n] && r.adj == g.adj[n := []]
    ensures r.weights == g.weights[n := w] && r.kinds == g.kinds
  {
    Graph(g.nodes + [n], g.adj[n := []], g.weights[n := w], g.kinds)
  }

  lemma InsertNodeValid(g: Graph, n: Topic, w: real)
    requires Valid(g) && n !in g.adj
    ensures Valid(InsertNode(g, n, w))
  {
    var r := InsertNode(g, n, w);
    ElemsSnoc(g.nodes, n);
    assert n !in g.nodes;
    assert Distinct(r.nodes) by {
      forall i, j | 0 <= i < j < |r.nodes|
        ensures r.nodes[i] != r.nodes[j]
      {
        if j == |g.nodes| {
          assert r.nodes[i] == g.nodes[i];
        }
      }
    }
  }

  /** `add_edge`: from an unknown source the call changes nothing; from a
      known source `to` is appended to that source's list (duplicates are
      kept), the recorded kind of `from -> to` becomes `kind` (the last
      write wins), and nothing else changes. `to` need not be a node. */
  function AddEdge(g: Graph, from: Topic, to: Topic, kind: string := Related): (r: Graph)
    requires Valid(g)
    ensures Valid(r)
    ensures from !in g.adj ==> r == g
    ensures r.nodes == g.nodes && r.adj.Keys == g.adj.Keys && r.weights == g.weights
    ensures from in g.adj ==> r.adj[from] == g.adj[from] + [to] && r.kinds[from][to] == kind
    ensures forall x :: x in g.adj && x != from ==> r.adj[x] == g.adj[x]
    ensures forall x :: x in g.kinds && x != from ==> x in r.kinds && r.kinds[x] == g.kinds[x]
    ensures from in g.kinds ==>
              forall t :: t in g.kinds[from] && t != to ==> r.kinds[from][t] == g.kinds[from][t]
  {
    if from !in g.adj then g
    else
      AppendEdgeValid(g, from, to, kind);
      AppendEdgeFrame(g, from, to, kind);
      AppendEdge(g, from, to, kind)
  }

  /** The dictionaries after `add_edge` from a known source. */
  function AppendEdge(g: Graph, from: Topic, to: Topic, kind: string): Graph
    requires from in g.adj
  {
    var old_kinds := if from in g.kinds then g.kinds[from] else map[];
    Graph(g.nodes, g.adj[from := g.adj[from] + [to]], g.weights,
          g.kinds[from := old_kinds[to := kind]])
  }

  lemma AppendEdgeValid(g: Graph, from: Topic, to: Topic, kind: string)
    requires Valid(g) && from in g.adj
    ensures Valid(AppendEdge(g, from, to, kind))
  {
    ElemsSnoc(g.adj[from], to);
  }

  lemma AppendEdgeFrame(g: Graph, from: Topic, to: Topic, kind: string)
    requires from in g.adj
    ensures var r := AppendEdge(g, from, to, kind);
      && r.nodes == g.nodes && r.adj.Keys == g.adj.Keys && r.weights == g.weights
      && r.adj[from] == g.adj[from] + [to] && r.kinds[from][to] == kind
      && (forall x :: x in g.adj && x != from ==> r.adj[x] == g.adj[x])
      && (forall x :: x in g.kinds && x != from ==> x in r.kinds && r.kinds[x] == g.kinds[x])
      && (from in g.kinds ==>
            forall t :: t in g.kinds[from] && t != to ==> r.kinds[from][t] == g.kinds[from][t])
  {
  }

  lemma ElemsSnoc(s: seq<Topic>, x: Topic)
    ensures Elems(s + [x]) == Elems(s) + {x}
  {
  }

  /** The scan of `get_prerequisites` over a suffix `ns` of the node order. */
  function PrerequisiteScan(g: Graph, ns: seq<Topic>, n: Topic): (r: seq<Topic>)
    requires Valid(g)
    requires forall x :: x in ns ==> x in g.adj
    ensures SubSeq(r, ns)
    ensures forall f :: f in r <==> f in ns && IsPrerequisiteOf(g, f, n)
    ensures Distinct(ns) ==> Distinct(r)
    decreases |ns|
  {
    if ns == [] then []
    else
      var rest := PrerequisiteScan(g, ns[1..], n);
      var f := ns[0];
      if n in g.adj[f] && g.kinds[f][n] == Prerequisite then
        assert forall x :: x in ns[1..] ==> x in ns;
        [f] + rest
      else rest
  }

  /** `get_prerequisites(n)`: exactly the sources of a "prerequisite" edge
      into `n`, each once, in node-insertion order. Under `Valid` the
      lookup `edge_types[from_node][node]` never fails. */
  function GetPrerequisites(g: Graph, n: Topic): (r: seq<Topic>)
    requires Valid(g)
    ensures forall f :: f in r <==> IsPrerequisiteOf(g, f, n)
    ensures Distinct(r)
    ensures SubSeq(r, g.nodes)
  {
    PrerequisiteScan(g, g.nodes, n)
  }

  /** Adding a node twice is the same as adding it once, whatever weight
      the second call passes. */
  lemma AddNodeIdempotent(g: Graph, n: Topic, w: real, w': real)
    requires Valid(g)
    ensures AddNode(AddNode(g, n, w), n, w') == AddNode(g, n, w)
  {
  }

  /** An edge from a topic that was never added leaves the graph unchanged,
      and in particular creates no adjacency entry for it. */
  lemma AddEdgeFromUnknownIsNoOp(g: Graph, from: Topic, to: Topic, kind: string)
    requires Valid(g) && from !in g.adj
    ensures AddEdge(g, from, to, kind) == g
    ensures from !in AddEdge(g, from, to, kind).adj
  {
  }

  /** Nodes A and B with a prerequisite edge A -> B, as the source's own
      test builds them. */
  function TwoTopicGraph(): (g: Graph)
    ensures Valid(g)
  {
    AddEdge(AddNode(AddNode(Empty(), "A"), "B"), "A", "B", Prerequisite)
  }

  predicate TwoTopicShape(g: Graph) {
    && g.nodes == ["A", "B"] && "A" in g.adj && "B" in g.adj
    && g.adj["A"] == ["B"] && g.adj["B"] == []
    && "A" in g.kinds && "B" in g.kinds["A"] && g.kinds["A"]["B"] == Prerequisite
  }

  lemma TwoTopicGraphShape()
    ensures TwoTopicShape(TwoTopicGraph())
  {
    assert "A" != "B" by { assert "A"[0] != "B"[0]; }
    var g0 := Empty();
    var g1 := AddNode(g0, "A");
    assert g1.nodes == ["A"] && g1.adj["A"] == [];
    var g2 := AddNode(g1, "B");
    assert g2.nodes == ["A", "B"] && g2.adj["A"] == [] && g2.adj["B"] == [];
    var g3 := AddEdge(g2, "A", "B", Prerequisite);
    assert g3.adj["A"] == [] + ["B"];
  }

  /** In that graph the prerequisites of B are [A] and those of A are []. */
  lemma PrerequisiteExample(g: Graph)
    requires Valid(g) && TwoTopicShape(g)
    ensures GetPrerequisites(g, "B") == ["A"]
    ensures GetPrerequisites(g, "A") == []
  {
    assert "A" != "B" by { assert "A"[0] != "B"[0]; }
    assert g.nodes[1..] == ["B"] && g.nodes[1..][1..] == [];
    assert PrerequisiteScan(g, ["B"], "B") == [];
    assert PrerequisiteScan(g, ["B"], "A") == [];
  }

  lemma BuiltPrerequisiteExample()
    ensures GetPrerequisites(TwoTopicGraph(), "B") == ["A"]
    ensures GetPrerequisites(TwoTopicGraph(), "A") == []
  {
    TwoTopicGraphShape();
    PrerequisiteExample(TwoTopicGraph());
  }
}
