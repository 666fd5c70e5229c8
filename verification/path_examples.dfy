/** Concrete searches over small graphs built with `add_node` and
    `add_edge`, including the cases the source's own test exercises. */
module PathExamples {
  import opened Wrappers
  import opened KnowledgeGraph
  import opened PathSearch

  lemma Distinct4()
    ensures "A" != "B" && "A" != "C" && "B" != "C"
    ensures "X" != "A" && "X" != "B" && "X" != "C"
  {
    assert "A"[0] != "B"[0] && "A"[0] != "C"[0] && "B"[0] != "C"[0];
    assert "X"[0] != "A"[0] && "X"[0] != "B"[0] && "X"[0] != "C"[0];
  }

  /** A -> B -> C, all three added as nodes. */
  function ChainGraph(): (g: Graph)
    ensures Valid(g)
  {
    AddEdge(AddEdge(ThreeTopics(), "A", "B"), "B", "C")
  }

  /** A, B and C added as nodes, with no edges yet. */
  function ThreeTopics(): (g: Graph)
    ensures Valid(g)
    ensures g.adj.Keys == {"A", "B", "C"}
    ensures g.adj["A"] == [] && g.adj["B"] == [] && g.adj["C"] == []
  {
    Distinct4();
    var g := TwoTopics();
    assert "C" !in g.adj;
    var r := AddNode(g, "C");
    assert r.adj.Keys == {"A", "B"} + {"C"};
    r
  }

  /** A and B added as nodes, with no edges yet. */
  function TwoTopics(): (g: Graph)
    ensures Valid(g)
    ensures g.adj.Keys == {"A", "B"}
    ensures g.adj["A"] == [] && g.adj["B"] == []
  {
    Distinct4();
    AddNode(AddNode(Empty(), "A"), "B")
  }

  predicate ChainShape(adj: Adjacency) {
    && adj.Keys == {"A", "B", "C"}
    && adj["A"] == ["B"] && adj["B"] == ["C"] && adj["C"] == []
  }

  lemma ChainGraphShape()
    ensures ChainShape(ChainGraph().adj)
  {
    Distinct4();
    var g3 := ThreeTopics();
    var g4 := AddEdge(g3, "A", "B");
    assert g4.adj["A"] == [] + ["B"];
    var g5 := AddEdge(g4, "B", "C");
    assert g5.adj["B"] == [] + ["C"];
  }

  /** The only learning path from A to C with at most three topics. */
  lemma ChainPaths(adj: Adjacency)
    requires ChainShape(adj)
    ensures IsLearningPath(adj, ["A", "B", "C"], "A", "C")
    ensures ReachableAreNodes(adj, "A")
    ensures forall q :: IsLearningPath(adj, q, "A", "C") && |q| <= 3 ==> q == ["A", "B", "C"]
  {
    Distinct4();
    NodeTargetsReachNodes(adj, "A");
    forall q | IsLearningPath(adj, q, "A", "C") && |q| <= 3
      ensures q == ["A", "B", "C"]
    {
      assert Edge(adj, q[0], q[1]);
      assert q[1] == "B";
      assert |q| == 3;
      assert q == [q[0], q[1], q[2]];
    }
  }

  /** Whatever `FindLearningPath` promises pins its answer on the chain. */
  lemma ChainOutcome(adj: Adjacency, r: Search)
    requires ChainShape(adj)
    requires r.Path? ==> IsShortestLearningPath(adj, r.topics, "A", "C")
    requires r.NoPath? ==> NoLearningPath(adj, "A", "C")
    requires r.UnknownVertex? ==> r.node !in adj && Reachable(adj, "A", r.node)
    ensures r == Path(["A", "B", "C"])
  {
    ChainPaths(adj);
  }

  /** A -> B, B -> C: the search from A to C returns [A, B, C]. */
  method ChainExample() returns (r: Search)
    ensures r == Path(["A", "B", "C"])
  {
    var g := ChainGraph();
    ChainGraphShape();
    r := FindLearningPath(g, "A", "C");
    ChainOutcome(g.adj, r);
  }

  /** A and B are nodes; the only edge leads from A to X, which was never
      added as a node. */
  function DanglingGraph(): (g: Graph)
    ensures Valid(g)
  {
    AddEdge(TwoTopics(), "A", "X")
  }

  predicate DanglingShape(adj: Adjacency) {
    adj.Keys == {"A", "B"} && adj["A"] == ["X"] && adj["B"] == []
  }

  lemma DanglingGraphShape()
    ensures DanglingShape(DanglingGraph().adj)
  {
    Distinct4();
    var g3 := AddEdge(TwoTopics(), "A", "X");
    assert g3.adj["A"] == [] + ["X"];
  }

  /** From A only X is reachable, and X has no adjacency list. */
  lemma DanglingWalks(adj: Adjacency)
    requires DanglingShape(adj)
    ensures NoLearningPath(adj, "A", "B")
    ensures forall x :: Reachable(adj, "A", x) && x !in adj ==> x == "X"
    ensures Reachable(adj, "A", "X") && "X" !in adj
  {
    Distinct4();
    forall w | IsWalk(adj, w) && w[0] == "A" && |w| >= 2
      ensures w[1] == "X" && |w| == 2
    {
      FirstStep(adj, w);
      InnerWalkTopicsAreNodes(adj, w);
    }
    assert WalkFromTo(adj, ["A", "X"], "A", "X");
  }

  /** The search from A to B raises `KeyError('X')` when it dequeues X,
      although the evidently intended answer is `None`. */
  method DanglingExample() returns (r: Search, fixed: Option<seq<Topic>>)
    ensures r == UnknownVertex("X")
    ensures fixed == None
  {
    var g := DanglingGraph();
    DanglingGraphShape();
    DanglingWalks(g.adj);
    r := FindLearningPath(g, "A", "B");
    fixed := FindLearningPathTotal(g, "A", "B");
  }

  /** A single node A: the search from A to itself finds no cycle, so it
      returns `None` rather than the one-topic path [A]. */
  method LoneTopicExample() returns (r: Search)
    ensures r == NoPath
  {
    var g := AddNode(Empty(), "A");
    assert g.adj.Keys == {"A"} && g.adj["A"] == [];
    NodeTargetsReachNodes(g.adj, "A");
    NoEdgesNoPath(g.adj, "A", "A");
    r := FindLearningPath(g, "A", "A");
  }
}
