/** Kahn's algorithm over a graph with parallel edges (sova/core/dag.py, `_topological_sort`). */
module DagSort {
  import opened Basics
  import opened DagGraph

  /** The order, or the nodes named in the error. */
  datatype SortResult = Sorted(order: seq<Id>) | Cyclic(nodes: set<Id>)

  /** How many known edges lead into `n` from nodes outside `done`. */
  function InDegree(g: Graph, edges: seq<Edge>, done: set<Id>, n: Id): nat {
    if edges == [] then 0
    else
      var e := edges[|edges| - 1];
      InDegree(g, edges[..|edges| - 1], done, n)
      + if Known(g, e) && e.target == n && e.source !in done then 1 else 0
  }

  /** The targets of n's known edges, one entry per edge. */
  function Targets(g: Graph, edges: seq<Edge>, n: Id): seq<Id> {
    if edges == [] then []
    else
      var front, e := Targets(g, edges[..|edges| - 1], n), edges[|edges| - 1];
      if Known(g, e) && e.source == n then front + [e.target] else front
  }

  function Occurrences(xs: seq<Id>, x: Id): nat {
    if xs == [] then 0 else (if xs[0] == x then 1 else 0) + Occurrences(xs[1..], x)
  }

  lemma {:induction false} OccurrencesSnoc(xs: seq<Id>, y: Id, x: Id)
    ensures Occurrences(xs + [y], x) == Occurrences(xs, x) + if y == x then 1 else 0
  {
    if xs == [] {
      assert ([] + [y])[1..] == [];
    } else {
      OccurrencesSnoc(xs[1..], y, x);
      assert (xs + [y])[1..] == xs[1..] + [y];
    }
  }

  lemma {:induction false} OccurrencesIn(xs: seq<Id>, x: Id)
    ensures Occurrences(xs, x) > 0 <==> x in xs
  {
    if xs != [] { OccurrencesIn(xs[1..], x); }
  }

  /** Placing `n` takes away exactly its own edges from every in-degree. */
  lemma {:induction false} InDegreeDrops(g: Graph, edges: seq<Edge>, done: set<Id>, n: Id, t: Id)
    requires n !in done
    ensures InDegree(g, edges, done, t) == InDegree(g, edges, done + {n}, t) + Occurrences(Targets(g, edges, n), t)
  {
    if edges != [] {
      var front, e := edges[..|edges| - 1], edges[|edges| - 1];
      InDegreeDrops(g, front, done, n, t);
      if Known(g, e) && e.source == n { OccurrencesSnoc(Targets(g, front, n), e.target, t); }
    }
  }

  lemma {:induction false} InDegreeIsPositive(g: Graph, edges: seq<Edge>, done: set<Id>, n: Id)
    ensures InDegree(g, edges, done, n) > 0 <==>
            exists i :: 0 <= i < |edges| && Known(g, edges[i]) && edges[i].target == n && edges[i].source !in done
  {
    if edges != [] {
      var front := edges[..|edges| - 1];
      InDegreeIsPositive(g, front, done, n);
      if InDegree(g, front, done, n) > 0 {
        var i :| 0 <= i < |front| && Known(g, front[i]) && front[i].target == n && front[i].source !in done;
        assert edges[i] == front[i];
      }
    }
  }

  /** A node of in-degree zero has every predecessor in `done`. */
  lemma ZeroMeansReady(g: Graph, done: set<Id>, n: Id)
    ensures InDegree(g, g.edges, done, n) == 0 <==> forall a | Arc(g, a, n) :: a in done
  {
    InDegreeIsPositive(g, g.edges, done, n);
  }

  lemma {:induction false} TargetsAreNodes(g: Graph, edges: seq<Edge>, n: Id)
    ensures forall t | t in Targets(g, edges, n) :: t in Ids(g)
  {
    if edges != [] { TargetsAreNodes(g, edges[..|edges| - 1], n); }
  }

  lemma EdgeSnoc(g: Graph, edges: seq<Edge>, e: Edge, n: Id)
    ensures InDegree(g, edges + [e], {}, n) == InDegree(g, edges, {}, n) + if Known(g, e) && e.target == n then 1 else 0
    ensures Targets(g, edges + [e], n) ==
            if Known(g, e) && e.source == n then Targets(g, edges, n) + [e.target] else Targets(g, edges, n)
  {
    assert (edges + [e])[..|edges|] == edges;
  }

  /** The counters and lists agree with the edges seen so far. */
  ghost predicate Counted(g: Graph, edges: seq<Edge>, inDegree: map<Id, int>, adjacency: map<Id, seq<Id>>) {
    && inDegree.Keys == adjacency.Keys == Ids(g)
    && (forall n | n in Ids(g) :: inDegree[n] == InDegree(g, edges, {}, n))
    && (forall n | n in Ids(g) :: adjacency[n] == Targets(g, edges, n))
  }

  lemma CountKnown(g: Graph, edges: seq<Edge>, e: Edge, inDegree: map<Id, int>, adjacency: map<Id, seq<Id>>)
    requires Counted(g, edges, inDegree, adjacency) && Known(g, e)
    ensures Counted(g, edges + [e], inDegree[e.target := inDegree[e.target] + 1],
                    adjacency[e.source := adjacency[e.source] + [e.target]])
  {
    forall n | n in Ids(g)
      ensures inDegree[e.target := inDegree[e.target] + 1][n] == InDegree(g, edges + [e], {}, n)
      ensures adjacency[e.source := adjacency[e.source] + [e.target]][n] == Targets(g, edges + [e], n)
    {
      EdgeSnoc(g, edges, e, n);
    }
  }

  lemma SkipUnknown(g: Graph, edges: seq<Edge>, e: Edge, inDegree: map<Id, int>, adjacency: map<Id, seq<Id>>)
    requires Counted(g, edges, inDegree, adjacency) && !Known(g, e)
    ensures Counted(g, edges + [e], inDegree, adjacency)
  {
    forall n | n in Ids(g) ensures InDegree(g, edges + [e], {}, n) == inDegree[n] && Targets(g, edges + [e], n) == adjacency[n] {
      EdgeSnoc(g, edges, e, n);
    }
  }

  /** The counters and lists built from the edges. */
  method CountEdges(g: Graph) returns (inDegree: map<Id, int>, adjacency: map<Id, seq<Id>>)
    ensures Counted(g, g.edges, inDegree, adjacency)
  {
    inDegree := map n | n in Ids(g) :: 0;
    adjacency := map n | n in Ids(g) :: [];
    var i := 0;
    while i < |g.edges|
      invariant 0 <= i <= |g.edges| && Counted(g, g.edges[..i], inDegree, adjacency)
    {
      var e := g.edges[i];
      assert g.edges[..i + 1] == g.edges[..i] + [e];
      if Known(g, e) {
        CountKnown(g, g.edges[..i], e, inDegree, adjacency);
        adjacency := adjacency[e.source := adjacency[e.source] + [e.target]];
        inDegree := inDegree[e.target := inDegree[e.target] + 1];
      } else {
        SkipUnknown(g, g.edges[..i], e, inDegree, adjacency);
      }
      i := i + 1;
    }
    assert g.edges[..i] == g.edges;
  }

  /** Kahn's invariant: what is placed, what is ready, and how many open edges every node still has. */
  ghost predicate Kahn(g: Graph, placed: seq<Id>, queue: seq<Id>, inDegree: map<Id, int>) {
    var done := Elements(placed);
    && Distinct(placed) && Distinct(queue) && Ordered(g, placed)
    && done <= Ids(g) && inDegree.Keys == Ids(g)
    && (forall n | n in Ids(g) :: inDegree[n] == InDegree(g, g.edges, done, n))
    && (forall n :: n in queue <==> n in Ids(g) && n !in done && inDegree[n] == 0)
    && (forall n | n in done :: inDegree[n] == 0)
  }

  /**
   * Sorts the nodes, or names those that cannot be sorted: on success every node once, every edge's
   * source before its target; on failure exactly the nodes on a cycle or reachable from one.
   */
  method TopologicalSort(g: Graph) returns (r: SortResult)
    ensures r.Sorted? <==> Acyclic(g)
    ensures r.Sorted? ==> Distinct(r.order) && Elements(r.order) == Ids(g) && Ordered(g, r.order)
    ensures r.Cyclic? ==> r.nodes != {} && forall n :: n in r.nodes <==> n in Ids(g) && Blocked(g, n)
  {
    var inDegree, adjacency := CountEdges(g);
    var queue := ReadyNodes(g, inDegree);
    var placed: seq<Id> := [];
    while queue != []
      invariant Kahn(g, placed, queue, inDegree)
      decreases |Ids(g)| - |placed|
    {
      var n := queue[0];
      NextIsNew(g, placed, queue, inDegree);
      queue, inDegree := Release(g, placed, queue, inDegree, adjacency[n]);
      placed := placed + [n];
    }
    SortOutcome(g, placed, inDegree);
    if |placed| != |Ids(g)| {
      return Cyclic(Ids(g) - Elements(placed));
    }
    return Sorted(placed);
  }

  method ReadyNodes(g: Graph, inDegree: map<Id, int>) returns (queue: seq<Id>)
    requires inDegree.Keys == Ids(g) && forall n | n in Ids(g) :: inDegree[n] == InDegree(g, g.edges, {}, n)
    ensures Kahn(g, [], queue, inDegree)
  {
    queue := [];
    var todo := Ids(g);
    while todo != {}
      invariant todo <= Ids(g) && Distinct(queue)
      invariant forall n :: n in queue <==> n in Ids(g) && n !in todo && inDegree[n] == 0
      decreases |todo|
    {
      var n :| n in todo;
      todo := todo - {n};
      if inDegree[n] == 0 {
        queue := queue + [n];
      }
    }
    assert Elements<Id>([]) == {};
  }

  lemma NextIsNew(g: Graph, placed: seq<Id>, queue: seq<Id>, inDegree: map<Id, int>)
    requires queue != [] && Kahn(g, placed, queue, inDegree)
    ensures queue[0] in Ids(g) && Distinct(placed + [queue[0]]) && |placed| < |Ids(g)|
  {
    var more := placed + [queue[0]];
    assert queue[0] in queue;
    assert Elements(more) == Elements(placed) + {queue[0]};
    PlacedFits(g, more);
  }

  lemma PlacedFits(g: Graph, placed: seq<Id>)
    requires Distinct(placed) && Elements(placed) <= Ids(g)
    ensures |placed| <= |Ids(g)|
    ensures |placed| == |Ids(g)| ==> Elements(placed) == Ids(g)
  {
    forall i | 0 <= i < |placed| ensures placed[i] in Ids(g) { assert placed[i] in Elements(placed); }
    DistinctFits(placed, Ids(g));
    if x :| x in Ids(g) && x !in placed {
      DistinctFits(placed, Ids(g) - {x});
    }
  }

  /** Takes the head off the queue: its edges are released, and what becomes ready joins the queue's end. */
  method Release(g: Graph, ghost placed: seq<Id>, queue: seq<Id>, inDegree: map<Id, int>, targets: seq<Id>)
    returns (queue': seq<Id>, inDegree': map<Id, int>)
    requires queue != [] && Kahn(g, placed, queue, inDegree) && targets == Targets(g, g.edges, queue[0])
    ensures Kahn(g, placed + [queue[0]], queue', inDegree')
  {
    StartRelease(g, placed, queue, inDegree, targets);
    queue', inDegree' := ReleaseEdges(g, Elements(placed) + {queue[0]}, queue[1..], inDegree, targets);
    FinishRelease(g, placed, queue[0], queue', inDegree');
  }

  method ReleaseEdge(g: Graph, ghost done: set<Id>, queue: seq<Id>, inDegree: map<Id, int>, t: Id, ghost rest: seq<Id>)
    returns (queue': seq<Id>, inDegree': map<Id, int>)
    requires rest != [] && t == rest[0] && Releasing(g, done, queue, inDegree, rest)
    ensures Releasing(g, done, queue', inDegree', rest[1..])
  {
    ReleaseOne(g, done, queue, inDegree, rest);
    assert t in rest;
    queue', inDegree' := queue, inDegree[t := inDegree[t] - 1];
    if inDegree'[t] == 0 {
      queue' := queue' + [t];
    }
  }

  method ReleaseEdges(g: Graph, ghost done: set<Id>, queue: seq<Id>, inDegree: map<Id, int>, targets: seq<Id>)
    returns (queue': seq<Id>, inDegree': map<Id, int>)
    requires Releasing(g, done, queue, inDegree, targets)
    ensures Releasing(g, done, queue', inDegree', [])
  {
    queue', inDegree' := queue, inDegree;
    var i := 0;
    assert targets[0..] == targets;
    while i < |targets|
      invariant 0 <= i <= |targets|
      invariant Releasing(g, done, queue', inDegree', targets[i..])
    {
      assert targets[i..][0] == targets[i] && targets[i..][1..] == targets[i + 1..];
      queue', inDegree' := ReleaseEdge(g, done, queue', inDegree', targets[i], targets[i..]);
      i := i + 1;
    }
    assert targets[i..] == [];
  }

  /** A node whose predecessors are all placed may come next. */
  lemma OrderedSnoc(g: Graph, placed: seq<Id>, n: Id)
    requires Ordered(g, placed) && InDegree(g, g.edges, Elements(placed), n) == 0
    ensures Ordered(g, placed + [n])
  {
    var more := placed + [n];
    ZeroMeansReady(g, Elements(placed), n);
    forall k, a | 0 <= k <= |placed| && Arc(g, a, more[k]) ensures a in more[..k] {
      assert more[..k] == placed[..k];
      if k < |placed| { assert Arc(g, a, placed[k]); }
    }
  }

  /** Half-way through releasing a node: the edges to the remaining targets are still counted. */
  ghost predicate Releasing(g: Graph, done: set<Id>, queue: seq<Id>, inDegree: map<Id, int>, rest: seq<Id>) {
    && done <= Ids(g) && inDegree.Keys == Ids(g) && Distinct(queue)
    && (forall t | t in rest :: t in Ids(g) && t !in done)
    && (forall t | t in Ids(g) :: inDegree[t] == InDegree(g, g.edges, done, t) + Occurrences(rest, t))
    && (forall t :: t in queue <==> t in Ids(g) && t !in done && inDegree[t] == 0)
    && (forall t | t in done :: inDegree[t] == 0)
  }

  lemma StartRelease(g: Graph, placed: seq<Id>, queue: seq<Id>, inDegree: map<Id, int>, targets: seq<Id>)
    requires queue != [] && Kahn(g, placed, queue, inDegree) && targets == Targets(g, g.edges, queue[0])
    ensures Releasing(g, Elements(placed) + {queue[0]}, queue[1..], inDegree, targets)
  {
    var n, done := queue[0], Elements(placed);
    TargetsAreNodes(g, g.edges, n);
    forall t | t in Ids(g)
      ensures inDegree[t] == InDegree(g, g.edges, done + {n}, t) + Occurrences(targets, t)
    {
      InDegreeDrops(g, g.edges, done, n, t);
    }
    forall t | t in targets ensures t !in done + {n} {
      OccurrencesIn(targets, t);
      assert inDegree[t] > 0;
    }
    forall t ensures t in queue[1..] <==> t in Ids(g) && t !in done + {n} && inDegree[t] == 0 {
      assert t in queue <==> t == n || t in queue[1..];
    }
  }

  lemma FinishRelease(g: Graph, placed: seq<Id>, n: Id, queue: seq<Id>, inDegree: map<Id, int>)
    requires Releasing(g, Elements(placed) + {n}, queue, inDegree, [])
    requires Distinct(placed + [n]) && Ordered(g, placed) && InDegree(g, g.edges, Elements(placed), n) == 0
    ensures Kahn(g, placed + [n], queue, inDegree)
  {
    assert Elements(placed + [n]) == Elements(placed) + {n};
    OrderedSnoc(g, placed, n);
  }

  /** Releasing one edge makes its target ready exactly when it was the last. */
  lemma ReleaseOne(g: Graph, done: set<Id>, queue: seq<Id>, inDegree: map<Id, int>, rest: seq<Id>)
    requires rest != [] && Releasing(g, done, queue, inDegree, rest)
    ensures var t := rest[0];
            var less := inDegree[t := inDegree[t] - 1];
            Releasing(g, done, if less[t] == 0 then queue + [t] else queue, less, rest[1..])
  {
    var t := rest[0];
    OccurrencesIn(rest, t);
    assert inDegree[t] > 0;
    assert t !in queue;
  }

  /** What is left when nothing is ready. */
  lemma SortOutcome(g: Graph, placed: seq<Id>, inDegree: map<Id, int>)
    requires Kahn(g, placed, [], inDegree)
    ensures |placed| == |Ids(g)| <==> Acyclic(g)
    ensures |placed| == |Ids(g)| ==> Elements(placed) == Ids(g)
    ensures |placed| != |Ids(g)| ==> Ids(g) - Elements(placed) != {}
    ensures forall n :: n in Ids(g) - Elements(placed) <==> n in Ids(g) && Blocked(g, n)
  {
    var left := Ids(g) - Elements(placed);
    PlacedFits(g, placed);
    DistinctIsFull(placed);
    LeftIsStuck(g, placed, inDegree);
    forall n | n in Ids(g) ensures n in left <==> Blocked(g, n) {
      if n in left { StuckIsBlocked(g, left, n); } else { PlacedIsNotBlocked(g, placed, n); }
    }
    NothingBlockedIsAcyclic(g);
    BlockedAreNodes(g);
    assert left == {} <==> Elements(placed) == Ids(g);
  }

  lemma LeftIsStuck(g: Graph, placed: seq<Id>, inDegree: map<Id, int>)
    requires Kahn(g, placed, [], inDegree)
    ensures Stuck(g, Ids(g) - Elements(placed))
  {
    var left := Ids(g) - Elements(placed);
    forall t | t in left ensures HasPredecessorIn(g, left, t) {
      ZeroMeansReady(g, Elements(placed), t);
      var a :| Arc(g, a, t) && a !in Elements(placed);
      assert a in left;
    }
  }

  lemma BlockedAreNodes(g: Graph)
    ensures forall n | Blocked(g, n) :: n in Ids(g)
  {
    forall n | Blocked(g, n) ensures n in Ids(g) {
      var c :| OnCycle(g, c) && Reaches(g, c, n);
      var p :| Leads(g, p, c, n);
    }
  }

  lemma {:induction false} DistinctIsFull(xs: seq<Id>)
    requires Distinct(xs)
    ensures |Elements(xs)| == |xs|
  {
    if xs != [] {
      var front, last := xs[..|xs| - 1], xs[|xs| - 1];
      assert xs == front + [last];
      assert Elements(xs) == Elements(front) + {last};
      DistinctIsFull(front);
    }
  }
}
