/** Graph validation: unknown edge ends, missing commands, cycles, and disconnected parts (sova/core/dag.py, `validate_dag`). */
module DagValidation {
  import opened Basics
  import opened DagGraph
  import opened DagSort

  datatype Error =
    | NoNodes
    | UnknownSource(id: Id)
    | UnknownTarget(id: Id)
    | NoCommand(id: Id)
    | CycleInvolving(nodes: set<Id>)
    | Unreachable(nodes: set<Id>)

  // ---------------------------------------------------------------- weak connection

  ghost predicate Linked(g: Graph, a: Id, b: Id) {
    Arc(g, a, b) || Arc(g, b, a)
  }

  /** A walk that ignores the direction of the edges. */
  ghost predicate WeakPath(g: Graph, p: seq<Id>, a: Id, b: Id) {
    && p != [] && p[0] == a && p[|p| - 1] == b
    && (forall i | 0 <= i < |p| :: p[i] in Ids(g))
    && (forall i | 0 <= i < |p| - 1 :: Linked(g, p[i], p[i + 1]))
  }

  ghost predicate Connected(g: Graph, a: Id, b: Id) {
    exists p :: WeakPath(g, p, a, b)
  }

  /** Every two nodes are weakly connected. */
  ghost predicate InOnePiece(g: Graph) {
    forall a, b | a in Ids(g) && b in Ids(g) :: Connected(g, a, b)
  }

  lemma ConnectedStep(g: Graph, a: Id, b: Id, c: Id)
    requires Connected(g, a, b) && Linked(g, b, c)
    ensures Connected(g, a, c)
  {
    var p :| WeakPath(g, p, a, b);
    var q := p + [c];
    forall i | 0 <= i < |q| - 1 ensures Linked(g, q[i], q[i + 1]) {
      if i < |p| - 1 { assert Linked(g, p[i], p[i + 1]); }
    }
    assert WeakPath(g, q, a, c);
  }

  lemma ConnectedToItself(g: Graph, a: Id)
    requires a in Ids(g)
    ensures Connected(g, a, a)
  {
    assert WeakPath(g, [a], a, a);
  }

  lemma ConnectedBackwards(g: Graph, a: Id, b: Id)
    requires Connected(g, a, b)
    ensures Connected(g, b, a)
  {
    var p :| WeakPath(g, p, a, b);
    var q := seq(|p|, i requires 0 <= i < |p| => p[|p| - 1 - i]);
    forall i | 0 <= i < |q| - 1 ensures Linked(g, q[i], q[i + 1]) {
      assert Linked(g, p[|p| - 2 - i], p[|p| - 1 - i]);
    }
    assert WeakPath(g, q, b, a);
  }

  /** A set closed under links holds all of a walk once it holds the walk's start. */
  lemma {:induction false} ClosedHoldsWalk(g: Graph, closed: set<Id>, p: seq<Id>, a: Id, b: Id)
    requires WeakPath(g, p, a, b) && a in closed
    requires forall x, y | x in closed && Linked(g, x, y) :: y in closed
    ensures b in closed
    decreases |p|
  {
    if |p| > 1 {
      assert Linked(g, p[0], p[1]);
      var rest := p[1..];
      forall i | 0 <= i < |rest| - 1 ensures Linked(g, rest[i], rest[i + 1]) { assert Linked(g, p[i + 1], p[i + 2]); }
      ClosedHoldsWalk(g, closed, rest, p[1], b);
    }
  }

  /** The nodes weakly connected to `a`. */
  ghost function ClassOf(g: Graph, a: Id): set<Id> {
    set b | b in Ids(g) && Connected(g, a, b)
  }

  /** A nonempty set of nodes that is exactly everything connected to each of its members. */
  ghost predicate IsComponent(g: Graph, c: set<Id>) {
    c != {} && c <= Ids(g) && forall a {:trigger ClassOf(g, a)} | a in c :: c == ClassOf(g, a)
  }

  lemma ClassIsComponent(g: Graph, start: Id)
    requires start in Ids(g)
    ensures IsComponent(g, ClassOf(g, start)) && start in ClassOf(g, start)
  {
    var c := ClassOf(g, start);
    ConnectedToItself(g, start);
    assert start in c;
    forall a | a in c ensures c == ClassOf(g, a) {
      ConnectedBackwards(g, start, a);
      forall b | b in Ids(g) ensures b in c <==> b in ClassOf(g, a) {
        if b in c { ConnectedJoins(g, a, start, b); }
        if b in ClassOf(g, a) { ConnectedJoins(g, start, a, b); }
      }
    }
  }

  /** A set closed under links whose members are all connected to `start` is start's class. */
  lemma ClosedIsClass(g: Graph, c: set<Id>, start: Id)
    requires start in c && c <= Ids(g)
    requires forall n | n in c :: Connected(g, start, n)
    requires forall x, y | x in c && Linked(g, x, y) :: y in c
    ensures c == ClassOf(g, start)
  {
    forall b | b in ClassOf(g, start) ensures b in c {
      var p :| WeakPath(g, p, start, b);
      ClosedHoldsWalk(g, c, p, start, b);
    }
  }

  lemma ConnectedJoins(g: Graph, a: Id, b: Id, c: Id)
    requires Connected(g, a, b) && Connected(g, b, c)
    ensures Connected(g, a, c)
  {
    var p :| WeakPath(g, p, a, b);
    var q :| WeakPath(g, q, b, c);
    var r := p + q[1..];
    forall i | 0 <= i < |r| - 1 ensures Linked(g, r[i], r[i + 1]) {
      if i < |p| - 1 { assert Linked(g, p[i], p[i + 1]); } else { assert Linked(g, q[i - |p| + 1], q[i - |p| + 2]); }
    }
    assert WeakPath(g, r, a, c);
  }

  // ---------------------------------------------------------------- components by breadth-first search

  ghost predicate IsAdjacency(g: Graph, adjacent: map<Id, set<Id>>) {
    adjacent.Keys == Ids(g) && forall a, b | a in Ids(g) :: b in adjacent[a] <==> Linked(g, a, b)
  }

  ghost predicate LinkedBefore(g: Graph, count: nat, a: Id, b: Id)
    requires count <= |g.edges|
  {
    exists i :: 0 <= i < count && Known(g, g.edges[i])
                && ((g.edges[i].source == a && g.edges[i].target == b) || (g.edges[i].source == b && g.edges[i].target == a))
  }

  method Adjacency(g: Graph) returns (adjacent: map<Id, set<Id>>)
    ensures IsAdjacency(g, adjacent)
  {
    adjacent := map n | n in Ids(g) :: {};
    var i := 0;
    while i < |g.edges|
      invariant 0 <= i <= |g.edges| && adjacent.Keys == Ids(g)
      invariant forall a, b | a in Ids(g) :: b in adjacent[a] <==> LinkedBefore(g, i, a, b)
    {
      var e := g.edges[i];
      ghost var before := adjacent;
      if Known(g, e) {
        adjacent := adjacent[e.source := adjacent[e.source] + {e.target}];
        adjacent := adjacent[e.target := adjacent[e.target] + {e.source}];
      }
      forall a, b | a in Ids(g) ensures b in adjacent[a] <==> LinkedBefore(g, i + 1, a, b) {
        assert b in before[a] <==> LinkedBefore(g, i, a, b);
      }
      i := i + 1;
    }
    forall a, b | a in Ids(g) ensures b in adjacent[a] <==> Linked(g, a, b) {
      assert b in adjacent[a] <==> LinkedBefore(g, |g.edges|, a, b);
    }
  }

  /** Everything weakly connected to `start`. */
  method Component(g: Graph, adjacent: map<Id, set<Id>>, start: Id) returns (component: set<Id>)
    requires IsAdjacency(g, adjacent) && start in Ids(g)
    ensures component == ClassOf(g, start)
  {
    hide WeakPath, Connected, Linked, IsAdjacency;
    AdjacencyKeys(g, adjacent);
    component := {};
    var queue := [start];
    ConnectedToItself(g, start);
    while queue != []
      invariant component <= Ids(g) && (start in component || start in queue)
      invariant forall n | n in queue || n in component :: n in Ids(g) && Connected(g, start, n)
      invariant forall x, y | x in component && Linked(g, x, y) :: y in component || y in queue
      decreases |Ids(g) - component|, |queue|
    {
      var n := queue[0];
      assert queue == [n] + queue[1..];
      queue := queue[1..];
      if n in component {
        continue;
      }
      Neighbors(g, adjacent, start, n);
      assert Ids(g) - (component + {n}) < Ids(g) - component;
      component := component + {n};
      queue := Enqueue(queue, adjacent[n], component);
    }
    ClosedIsClass(g, component, start);
  }

  lemma AdjacencyKeys(g: Graph, adjacent: map<Id, set<Id>>)
    requires IsAdjacency(g, adjacent)
    ensures adjacent.Keys == Ids(g)
  {
  }

  lemma Neighbors(g: Graph, adjacent: map<Id, set<Id>>, start: Id, n: Id)
    requires IsAdjacency(g, adjacent) && n in Ids(g) && Connected(g, start, n)
    ensures forall y :: y in adjacent[n] <==> Linked(g, n, y)
    ensures forall y | y in adjacent[n] :: y in Ids(g) && Connected(g, start, y)
  {
    forall y | y in adjacent[n] ensures y in Ids(g) && Connected(g, start, y) { ConnectedStep(g, start, n, y); }
  }

  method Enqueue(queue: seq<Id>, neighbors: set<Id>, component: set<Id>) returns (longer: seq<Id>)
    ensures forall n :: n in longer <==> n in queue || (n in neighbors && n !in component)
  {
    longer := queue;
    var todo := neighbors;
    while todo != {}
      invariant todo <= neighbors
      invariant forall n :: n in longer <==> n in queue || (n in neighbors && n !in todo && n !in component)
      decreases |todo|
    {
      var n :| n in todo;
      todo := todo - {n};
      if n !in component {
        longer := longer + [n];
      }
    }
  }

  ghost predicate Covers(components: seq<set<Id>>, n: Id) {
    exists i :: 0 <= i < |components| && n in components[i]
  }

  /** The sequence lists, once each, the weakly connected classes of the covered nodes. */
  ghost predicate Partition(g: Graph, components: seq<set<Id>>, covered: set<Id>) {
    && (forall i | 0 <= i < |components| :: IsComponent(g, components[i]))
    && (forall i, j | 0 <= i < j < |components| :: components[i] !! components[j])
    && (forall n :: n in covered <==> Covers(components, n))
  }

  /** The components partition the nodes into exactly the weakly connected classes. */
  method Components(g: Graph) returns (components: seq<set<Id>>)
    ensures Partition(g, components, Ids(g))
  {
    hide Partition, ClassOf, IsComponent, IsAdjacency;
    var adjacent := Adjacency(g);
    EmptyPartition(g);
    components := [];
    var visited: set<Id> := {};
    var todo := Ids(g);
    while todo != {}
      invariant todo <= Ids(g) && visited <= Ids(g) && Ids(g) == visited + todo
      invariant Partition(g, components, visited)
      decreases |todo|
    {
      var start :| start in todo;
      todo := todo - {start};
      if start !in visited {
        var component := Component(g, adjacent, start);
        ClassIsComponent(g, start);
        ClassIsKnown(g, start);
        PartitionSnoc(g, components, visited, start);
        visited := visited + component;
        components := components + [component];
      }
    }
    assert visited == Ids(g);
  }

  lemma EmptyPartition(g: Graph)
    ensures Partition(g, [], {})
  {
  }

  lemma ClassIsKnown(g: Graph, start: Id)
    ensures ClassOf(g, start) <= Ids(g)
  {
  }

  lemma PartitionSnoc(g: Graph, components: seq<set<Id>>, covered: set<Id>, start: Id)
    requires Partition(g, components, covered) && start in Ids(g) && start !in covered
    ensures Partition(g, components + [ClassOf(g, start)], covered + ClassOf(g, start))
  {
    var c := ClassOf(g, start);
    var more := components + [c];
    ClassIsComponent(g, start);
    assert !Covers(components, start);
    forall i | 0 <= i < |components| ensures components[i] !! c { Apart(g, components[i], c, start); }
    forall n ensures n in covered + c <==> Covers(more, n) {
      if n in c { assert n in more[|components|]; }
      if Covers(components, n) {
        var i :| 0 <= i < |components| && n in components[i];
        assert n in more[i];
      }
    }
  }

  /** Two components with a common node are one. */
  lemma SharedIsSame(g: Graph, c: set<Id>, d: set<Id>)
    requires IsComponent(g, c) && IsComponent(g, d) && !(c !! d)
    ensures c == d
  {
    var n :| n in c && n in d;
    assert c == ClassOf(g, n) && d == ClassOf(g, n);
  }

  lemma Apart(g: Graph, c: set<Id>, d: set<Id>, n: Id)
    requires IsComponent(g, c) && IsComponent(g, d) && n !in c && n in d
    ensures c !! d
  {
    if !(c !! d) { SharedIsSame(g, c, d); }
  }

  method Largest(components: seq<set<Id>>) returns (k: nat)
    requires components != []
    ensures k < |components| && forall i | 0 <= i < |components| :: |components[i]| <= |components[k]|
    ensures forall i | 0 <= i < k :: |components[i]| < |components[k]|
  {
    k := 0;
    for j := 1 to |components|
      invariant k < j
      invariant forall i | 0 <= i < j :: |components[i]| <= |components[k]|
      invariant forall i | 0 <= i < k :: |components[i]| < |components[k]|
    {
      if |components[j]| > |components[k]| {
        k := j;
      }
    }
  }

  /** More than one component is the same as not being in one piece. */
  lemma ManyComponents(g: Graph, components: seq<set<Id>>)
    requires Partition(g, components, Ids(g)) && Ids(g) != {}
    ensures components != [] && (|components| > 1 <==> !InOnePiece(g))
  {
    var n :| n in Ids(g);
    assert Covers(components, n);
    if |components| > 1 {
      TwoAreApart(g, components[0], components[1]);
    } else {
      forall a, b | a in Ids(g) && b in Ids(g) ensures Connected(g, a, b) {
        assert Covers(components, a) && Covers(components, b);
        assert components[0] == ClassOf(g, a);
      }
    }
  }

  lemma TwoAreApart(g: Graph, c: set<Id>, d: set<Id>)
    requires IsComponent(g, c) && IsComponent(g, d) && c !! d
    ensures !InOnePiece(g)
  {
    var a :| a in c;
    var b :| b in d;
    assert c == ClassOf(g, a);
    assert !Connected(g, a, b);
  }

  // ---------------------------------------------------------------- the validator

  predicate EndsKnown(g: Graph) {
    forall i | 0 <= i < |g.edges| :: Known(g, g.edges[i])
  }

  predicate AllHaveCommands(g: Graph) {
    forall i | 0 <= i < |g.nodes| :: g.nodes[i].command != ""
  }

  /** The complement of a largest weakly connected class. */
  ghost predicate OutsideALargest(g: Graph, nodes: set<Id>) {
    exists largest :: && IsComponent(g, largest) && nodes == Ids(g) - largest
                      && forall c | IsComponent(g, c) :: |c| <= |largest|
  }

  /**
   * Validation is exact: no errors if and only if the graph has nodes, every edge end exists, every
   * node has a command, and the graph is acyclic and in one piece. Each error is reported exactly
   * when its own condition fails; the cycle error names exactly the nodes on or behind a cycle, and
   * the connection error the complement of a largest component.
   */
  method ValidateDag(g: Graph) returns (errors: seq<Error>, sorted: seq<Id>)
    ensures errors == [] <==> g.nodes != [] && EndsKnown(g) && AllHaveCommands(g) && Acyclic(g) && InOnePiece(g)
    ensures g.nodes == [] ==> errors == [NoNodes]
    ensures g.nodes != [] ==> exists ends, commands, cycle, parts ::
              && errors == ends + commands + cycle + parts
              && EndErrors(g, ends) && CommandErrors(g, commands) && CycleErrors(g, cycle) && PartErrors(g, parts)
    ensures errors == [] ==> Distinct(sorted) && Elements(sorted) == Ids(g) && Ordered(g, sorted)
  {
    if g.nodes == [] {
      return [NoNodes], [];
    }
    var ends := CheckEnds(g);
    var commands := CheckCommands(g);
    var cycle, order := CheckCycles(g);
    var parts := CheckParts(g);
    errors := ends + commands + cycle + parts;
    sorted := order;
  }

  /** One error per missing edge end. */
  ghost predicate EndErrors(g: Graph, errors: seq<Error>) {
    && (errors == [] <==> EndsKnown(g))
    && (forall id :: UnknownSource(id) in errors <==> id !in Ids(g) && exists i :: 0 <= i < |g.edges| && g.edges[i].source == id)
    && (forall id :: UnknownTarget(id) in errors <==> id !in Ids(g) && exists i :: 0 <= i < |g.edges| && g.edges[i].target == id)
    && (forall e | e in errors :: e.UnknownSource? || e.UnknownTarget?)
  }

  ghost predicate CommandErrors(g: Graph, errors: seq<Error>) {
    && (errors == [] <==> AllHaveCommands(g))
    && (forall e | e in errors :: e.NoCommand?)
    && (forall id :: NoCommand(id) in errors <==> exists i :: 0 <= i < |g.nodes| && g.nodes[i] == Node(id, ""))
  }

  ghost predicate CycleErrors(g: Graph, errors: seq<Error>) {
    if Acyclic(g) then errors == []
    else exists nodes :: errors == [CycleInvolving(nodes)] && forall n :: n in nodes <==> n in Ids(g) && Blocked(g, n)
  }

  lemma HasIds(g: Graph)
    requires g.nodes != []
    ensures Ids(g) != {}
  {
    assert g.nodes[0].id in Ids(g);
  }

  ghost predicate PartErrors(g: Graph, errors: seq<Error>) {
    if InOnePiece(g) then errors == []
    else exists nodes :: errors == [Unreachable(nodes)] && OutsideALargest(g, nodes)
  }

  method CheckCycles(g: Graph) returns (errors: seq<Error>, sorted: seq<Id>)
    ensures CycleErrors(g, errors)
    ensures errors == [] ==> Distinct(sorted) && Elements(sorted) == Ids(g) && Ordered(g, sorted)
  {
    var r := TopologicalSort(g);
    match r {
      case Sorted(order) => return [], order;
      case Cyclic(nodes) => return [CycleInvolving(nodes)], [];
    }
  }

  method CheckParts(g: Graph) returns (errors: seq<Error>)
    requires g.nodes != []
    ensures PartErrors(g, errors)
  {
    hide IsComponent, Partition, InOnePiece, OutsideALargest, Ids;
    errors := [];
    if |g.nodes| > 1 {
      var components := Components(g);
      HasIds(g);
      ManyComponents(g, components);
      if |components| > 1 {
        var k := Largest(components);
        LargestComponent(g, components, k);
        errors := [Unreachable(Ids(g) - components[k])];
      }
    } else {
      OneNodeIsOnePiece(g);
    }
  }

  lemma OneNodeIsOnePiece(g: Graph)
    requires |g.nodes| == 1
    ensures InOnePiece(g)
  {
    forall a, b | a in Ids(g) && b in Ids(g) ensures Connected(g, a, b) { ConnectedToItself(g, a); }
  }

  lemma LargestComponent(g: Graph, components: seq<set<Id>>, k: nat)
    requires Partition(g, components, Ids(g)) && k < |components|
    requires forall i | 0 <= i < |components| :: |components[i]| <= |components[k]|
    ensures OutsideALargest(g, Ids(g) - components[k])
  {
    forall c | IsComponent(g, c) ensures |c| <= |components[k]| {
      var a :| a in c;
      assert Covers(components, a);
      var i :| 0 <= i < |components| && a in components[i];
      SharedIsSame(g, c, components[i]);
    }
    assert IsComponent(g, components[k]);
  }

  method CheckEnds(g: Graph) returns (errors: seq<Error>)
    ensures EndErrors(g, errors)
  {
    errors := [];
    for i := 0 to |g.edges|
      invariant errors == [] <==> forall j | 0 <= j < i :: Known(g, g.edges[j])
      invariant forall e | e in errors :: e.UnknownSource? || e.UnknownTarget?
      invariant forall id :: UnknownSource(id) in errors <==> id !in Ids(g) && exists j :: 0 <= j < i && g.edges[j].source == id
      invariant forall id :: UnknownTarget(id) in errors <==> id !in Ids(g) && exists j :: 0 <= j < i && g.edges[j].target == id
    {
      if g.edges[i].source !in Ids(g) {
        errors := errors + [UnknownSource(g.edges[i].source)];
      }
      if g.edges[i].target !in Ids(g) {
        errors := errors + [UnknownTarget(g.edges[i].target)];
      }
    }
  }

  method CheckCommands(g: Graph) returns (errors: seq<Error>)
    ensures CommandErrors(g, errors)
  {
    errors := [];
    for i := 0 to |g.nodes|
      invariant errors == [] <==> forall j | 0 <= j < i :: g.nodes[j].command != ""
      invariant forall e | e in errors :: e.NoCommand?
      invariant forall id :: NoCommand(id) in errors <==> exists j :: 0 <= j < i && g.nodes[j] == Node(id, "")
    {
      if g.nodes[i].command == "" {
        assert g.nodes[i] == Node(g.nodes[i].id, "");
        errors := errors + [NoCommand(g.nodes[i].id)];
      }
    }
  }
}
