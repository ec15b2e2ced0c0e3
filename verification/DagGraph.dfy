/** Workflow graphs: nodes that run a command, edges that may carry a condition, and their paths (sova/core/dag.py). */
module DagGraph {
  import opened Basics

  type Id = string

  datatype Node = Node(id: Id, command: string)

  /** Edges may be parallel, and may name nodes that do not exist. */
  datatype Edge = Edge(source: Id, target: Id, condition: Option<string>)

  datatype Graph = Graph(nodes: seq<Node>, edges: seq<Edge>)

  function Ids(g: Graph): set<Id> {
    set i | 0 <= i < |g.nodes| :: g.nodes[i].id
  }

  predicate Known(g: Graph, e: Edge) {
    e.source in Ids(g) && e.target in Ids(g)
  }

  ghost predicate Arc(g: Graph, a: Id, b: Id) {
    exists i :: 0 <= i < |g.edges| && g.edges[i].source == a && g.edges[i].target == b && Known(g, g.edges[i])
  }

  /** A nonempty walk along known edges. */
  ghost predicate Path(g: Graph, p: seq<Id>) {
    && p != []
    && (forall i | 0 <= i < |p| :: p[i] in Ids(g))
    && (forall i | 0 <= i < |p| - 1 :: Arc(g, p[i], p[i + 1]))
  }

  ghost predicate Leads(g: Graph, p: seq<Id>, a: Id, b: Id) {
    Path(g, p) && p[0] == a && p[|p| - 1] == b
  }

  ghost predicate Reaches(g: Graph, a: Id, b: Id) {
    exists p :: Leads(g, p, a, b)
  }

  ghost predicate OnCycle(g: Graph, a: Id) {
    exists p :: Leads(g, p, a, a) && |p| > 1
  }

  /** On a cycle, or reachable from one. */
  ghost predicate Blocked(g: Graph, n: Id) {
    exists c :: OnCycle(g, c) && Reaches(g, c, n)
  }

  ghost predicate Acyclic(g: Graph) {
    forall n :: !OnCycle(g, n)
  }

  /** Each element's predecessors all come before it. */
  ghost predicate Ordered(g: Graph, order: seq<Id>) {
    forall i, a | 0 <= i < |order| && Arc(g, a, order[i]) :: a in order[..i]
  }

  /** Going back along a path from a placed node one meets only placed nodes, ever earlier. */
  lemma {:induction false} PathsGoBack(g: Graph, order: seq<Id>, p: seq<Id>, last: nat) returns (first: nat)
    requires Ordered(g, order) && Path(g, p) && last < |order| && order[last] == p[|p| - 1]
    ensures first + |p| - 1 <= last && order[first] == p[0]
    decreases |p|
  {
    if |p| == 1 {
      return last;
    }
    var front := p[..|p| - 1];
    assert Arc(g, p[|p| - 2], p[|p| - 1]);
    assert p[|p| - 2] in order[..last];
    var before :| 0 <= before < last && order[before] == p[|p| - 2];
    assert Path(g, front) by {
      forall i | 0 <= i < |front| - 1 ensures Arc(g, front[i], front[i + 1]) { assert Arc(g, p[i], p[i + 1]); }
    }
    first := PathsGoBack(g, order, front, before);
  }

  /** No placed node is on a cycle or reachable from one. */
  lemma PlacedIsNotBlocked(g: Graph, order: seq<Id>, n: Id)
    requires Ordered(g, order) && Distinct(order) && n in order
    ensures !Blocked(g, n)
  {
    if Blocked(g, n) {
      var c :| OnCycle(g, c) && Reaches(g, c, n);
      var p :| Leads(g, p, c, n);
      var round :| Leads(g, round, c, c) && |round| > 1;
      var at :| 0 <= at < |order| && order[at] == n;
      var i := PathsGoBack(g, order, p, at);
      var j := PathsGoBack(g, order, round, i);
    }
  }

  lemma {:induction false} DistinctFits(xs: seq<Id>, s: set<Id>)
    requires Distinct(xs) && forall i | 0 <= i < |xs| :: xs[i] in s
    ensures |xs| <= |s|
    decreases |xs|
  {
    if xs != [] {
      var last := xs[|xs| - 1];
      DistinctFits(xs[..|xs| - 1], s - {last});
    }
  }

  /** Every member has a predecessor among the members. */
  ghost predicate Stuck(g: Graph, nodes: set<Id>) {
    nodes <= Ids(g) && forall t {:trigger HasPredecessorIn(g, nodes, t)} | t in nodes :: HasPredecessorIn(g, nodes, t)
  }

  ghost predicate HasPredecessorIn(g: Graph, nodes: set<Id>, t: Id) {
    exists a :: a in nodes && Arc(g, a, t)
  }

  lemma PathSnoc(g: Graph, p: seq<Id>, n: Id)
    requires Path(g, p) && Arc(g, p[|p| - 1], n) && n in Ids(g)
    ensures Path(g, p + [n])
  {
    var q := p + [n];
    forall i | 0 <= i < |q| - 1 ensures Arc(g, q[i], q[i + 1]) {
      if i < |p| - 1 { assert Arc(g, p[i], p[i + 1]); }
    }
  }

  /** From every stuck node one can walk back any distance. */
  lemma {:induction false} WalkBack(g: Graph, nodes: set<Id>, n: Id, length: nat) returns (p: seq<Id>)
    requires Stuck(g, nodes) && n in nodes
    ensures Path(g, p) && |p| == length + 1 && p[length] == n && forall i | 0 <= i <= length :: p[i] in nodes
    decreases length
  {
    if length == 0 {
      return [n];
    }
    assert HasPredecessorIn(g, nodes, n);
    var a :| a in nodes && Arc(g, a, n);
    p := WalkBack(g, nodes, a, length - 1);
    PathSnoc(g, p, n);
    p := p + [n];
  }

  lemma SubPath(g: Graph, p: seq<Id>, i: nat, j: nat)
    requires Path(g, p) && i < j <= |p|
    ensures Path(g, p[i..j])
  {
    var q := p[i..j];
    forall k | 0 <= k < |q| - 1 ensures Arc(g, q[k], q[k + 1]) { assert Arc(g, p[i + k], p[i + k + 1]); }
  }

  lemma Repeats(p: seq<Id>, nodes: set<Id>) returns (i: nat, j: nat)
    requires |p| > |nodes| && forall i | 0 <= i < |p| :: p[i] in nodes
    ensures i < j < |p| && p[i] == p[j]
  {
    if Distinct(p) { DistinctFits(p, nodes); }
    i, j :| 0 <= i < j < |p| && p[i] == p[j];
  }

  /** So a stuck node is on a cycle or reachable from one. */
  lemma StuckIsBlocked(g: Graph, nodes: set<Id>, n: Id)
    requires Stuck(g, nodes) && n in nodes
    ensures Blocked(g, n)
  {
    var p := WalkBack(g, nodes, n, |nodes|);
    var i, j := Repeats(p, nodes);
    SubPath(g, p, i, j + 1);
    SubPath(g, p, i, |p|);
    assert Leads(g, p[i..j + 1], p[i], p[i]) && |p[i..j + 1]| > 1;
    assert Leads(g, p[i..|p|], p[i], n);
    assert OnCycle(g, p[i]) && Reaches(g, p[i], n);
  }

  /** A node on a cycle is blocked, so a graph with no blocked node is acyclic. */
  lemma NothingBlockedIsAcyclic(g: Graph)
    ensures Acyclic(g) <==> forall n :: !Blocked(g, n)
  {
    forall n | OnCycle(g, n) ensures Blocked(g, n) {
      var p :| Leads(g, p, n, n) && |p| > 1;
      assert Reaches(g, n, n);
    }
  }
}
