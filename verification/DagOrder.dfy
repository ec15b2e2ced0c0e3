/** Which conditions make a graph's run depend on the topological order chosen (sova/core/dag.py). */
module DagOrder {
  import opened Basics
  import opened DagGraph
  import opened DagValidation
  import opened DagExecution

  // ---------------------------------------------------------------- one condition at a time

  function WithoutConditions(edges: seq<Edge>): (bare: seq<Edge>)
    ensures |bare| == |edges| && forall j | 0 <= j < |edges| :: bare[j] == edges[j].(condition := None)
  {
    if edges == [] then [] else [edges[0].(condition := None)] + WithoutConditions(edges[1..])
  }

  /** The same nodes and edges, with the condition of one edge only. */
  function OnlyCondition(g: Graph, i: nat): Graph
    requires i < |g.edges|
  {
    Graph(g.nodes, WithoutConditions(g.edges)[i := g.edges[i]])
  }

  lemma SameArcs(g: Graph, i: nat, a: Id, b: Id)
    requires i < |g.edges|
    ensures Arc(OnlyCondition(g, i), a, b) <==> Arc(g, a, b)
  {
    var h := OnlyCondition(g, i);
    if Arc(g, a, b) {
      var j :| 0 <= j < |g.edges| && g.edges[j].source == a && g.edges[j].target == b && Known(g, g.edges[j]);
      assert h.edges[j].source == a && h.edges[j].target == b && Known(h, h.edges[j]);
    }
    if Arc(h, a, b) {
      var j :| 0 <= j < |h.edges| && h.edges[j].source == a && h.edges[j].target == b && Known(h, h.edges[j]);
      assert g.edges[j].source == a && g.edges[j].target == b && Known(g, g.edges[j]);
    }
  }

  lemma SameShape(g: Graph, i: nat)
    requires i < |g.edges| && EndsKnown(g)
    ensures EndsKnown(OnlyCondition(g, i))
    ensures forall order :: Topological(OnlyCondition(g, i), order) <==> Topological(g, order)
    ensures forall a, b :: Reaches(OnlyCondition(g, i), a, b) <==> Reaches(g, a, b)
  {
    var h := OnlyCondition(g, i);
    assert Ids(h) == Ids(g);
    forall a, b ensures Arc(h, a, b) <==> Arc(g, a, b) { SameArcs(g, i, a, b); }
    forall p ensures Path(h, p) <==> Path(g, p) { }
    forall a, b ensures Reaches(h, a, b) <==> Reaches(g, a, b) {
      if Reaches(h, a, b) { var p :| Leads(h, p, a, b); assert Leads(g, p, a, b); }
      if Reaches(g, a, b) { var p :| Leads(g, p, a, b); assert Leads(h, p, a, b); }
    }
  }

  // ---------------------------------------------------------------- reordering

  /** The elements of `keep`, in their order. */
  function Sift(order: seq<Id>, keep: set<Id>): (some: seq<Id>)
    ensures forall n :: n in some <==> n in order && n in keep
  {
    if order == [] then []
    else
      var front, last := Sift(order[..|order| - 1], keep), order[|order| - 1];
      if last in keep then front + [last] else front
  }

  lemma {:induction false} SiftGrows(order: seq<Id>, keep: set<Id>, k: nat)
    requires k <= |order|
    ensures Sift(order[..k], keep) <= Sift(order, keep)
    decreases |order|
  {
    if k == |order| {
      assert order[..k] == order;
    } else {
      var front := order[..|order| - 1];
      SiftGrows(front, keep, k);
      assert front[..k] == order[..k];
    }
  }

  lemma {:induction false} SiftIsDistinct(order: seq<Id>, keep: set<Id>)
    requires Distinct(order)
    ensures Distinct(Sift(order, keep))
  {
    if order != [] {
      var front, last := order[..|order| - 1], order[|order| - 1];
      SiftIsDistinct(front, keep);
      assert last !in front;
    }
  }

  /** What stands before a kept element is what was kept of what stood before it. */
  lemma SiftAt(order: seq<Id>, keep: set<Id>, k: nat, i: nat)
    requires Distinct(order) && k < |order| && i < |Sift(order, keep)| && Sift(order, keep)[i] == order[k]
    ensures Sift(order, keep)[..i] == Sift(order[..k], keep)
  {
    var upTo := order[..k + 1];
    assert upTo[..k] == order[..k] && upTo[k] == order[k];
    assert order[k] in Sift(order, keep);
    SiftGrows(order, keep, k + 1);
    SiftIsDistinct(order, keep);
    var before := Sift(order[..k], keep);
    assert Sift(upTo, keep) == before + [order[k]];
    assert Sift(order, keep)[|before|] == order[k];
    assert i == |before|;
  }

  ghost predicate ClosedBackwards(g: Graph, nodes: set<Id>) {
    forall x, y | x in nodes && Arc(g, y, x) :: y in nodes
  }

  /** First the nodes of a set closed under predecessors, then the others. */
  function Moved(order: seq<Id>, first: set<Id>): seq<Id> {
    Sift(order, first) + Sift(order, Elements(order) - first)
  }

  lemma DistinctConcat(x: seq<Id>, y: seq<Id>)
    requires Distinct(x) && Distinct(y) && forall n | n in x :: n !in y
    ensures Distinct(x + y)
  {
    forall i, j | 0 <= i < j < |x + y| ensures (x + y)[i] != (x + y)[j] {
      if i < |x| <= j { assert x[i] in x && y[j - |x|] in y; }
    }
  }

  lemma MovedIsTopological(g: Graph, order: seq<Id>, first: set<Id>)
    requires Topological(g, order) && ClosedBackwards(g, first)
    ensures Topological(g, Moved(order, first))
  {
    var moved := Moved(order, first);
    SiftIsDistinct(order, first);
    SiftIsDistinct(order, Elements(order) - first);
    DistinctConcat(Sift(order, first), Sift(order, Elements(order) - first));
    assert Elements(moved) == Elements(order);
    forall i, a | 0 <= i < |moved| && Arc(g, a, moved[i]) ensures a in moved[..i] { MovedGoesBack(g, order, first, i, a); }
  }

  lemma MovedGoesBack(g: Graph, order: seq<Id>, first: set<Id>, i: nat, a: Id)
    requires Topological(g, order) && ClosedBackwards(g, first) && i < |Moved(order, first)| && Arc(g, a, Moved(order, first)[i])
    ensures a in Moved(order, first)[..i]
  {
    var front, back := Sift(order, first), Sift(order, Elements(order) - first);
    var x := Moved(order, first)[i];
    if i < |front| {
      assert x == front[i];
      var k :| 0 <= k < |order| && order[k] == x;
      SiftAt(order, first, k, i);
      assert a in order[..k];
      assert a in front[..i];
      assert Moved(order, first)[..i] == front[..i];
    } else {
      assert x == back[i - |front|];
      var k :| 0 <= k < |order| && order[k] == x;
      SiftAt(order, Elements(order) - first, k, i - |front|);
      assert a in order[..k] && a in Elements(order);
      assert Moved(order, first)[..i] == front + back[..i - |front|];
    }
  }

  /** Everything that leads to the node, and the node itself. */
  ghost function Ancestors(g: Graph, n: Id): set<Id> {
    set x | x in Ids(g) && Reaches(g, x, n)
  }

  lemma AncestorsAreClosed(g: Graph, n: Id)
    requires n in Ids(g)
    ensures ClosedBackwards(g, Ancestors(g, n)) && n in Ancestors(g, n)
  {
    forall x, y | x in Ancestors(g, n) && Arc(g, y, x) ensures y in Ancestors(g, n) {
      var p :| Leads(g, p, x, n);
      var q := [y] + p;
      forall j | 0 <= j < |q| - 1 ensures Arc(g, q[j], q[j + 1]) { if j > 0 { assert Arc(g, p[j - 1], p[j]); } }
      assert Leads(g, q, y, n);
    }
    assert Leads(g, [n], n, n);
  }

  lemma MovedFirst(order: seq<Id>, first: set<Id>, a: Id, n: Id) returns (k: nat)
    requires a in order && n in order && a in first && n !in first
    ensures k < |Moved(order, first)| && Moved(order, first)[k] == n && a in Moved(order, first)[..k]
  {
    var front, back := Sift(order, first), Sift(order, Elements(order) - first);
    var j :| 0 <= j < |back| && back[j] == n;
    k := |front| + j;
    assert Moved(order, first)[..k] == front + back[..j];
    assert a in front;
  }

  // ---------------------------------------------------------------- tightness

  /** With one condition in the graph, everything placed before its target runs. */
  lemma {:induction false} AllRunBefore(g: Graph, i: nat, order: seq<Id>, k: nat)
    requires EndsKnown(g) && i < |g.edges| && Topological(g, order) && k <= |order|
    requires forall j | 0 <= j < |g.edges| && j != i :: g.edges[j].condition == None
    requires g.edges[i].target !in order[..k]
    ensures Executed(g, order[..k]) == Elements(order[..k])
    decreases k
  {
    hide Decides, ExecutedIn, Ordered, EndsKnown;
    if k == 0 {
      NothingRuns(g);
    } else {
      var m := order[k - 1];
      assert order[..k][..k - 1] == order[..k - 1] && order[..k][k - 1] == m;
      assert g.edges[i].target !in order[..k - 1];
      AllRunBefore(g, i, order, k - 1);
      AlsoRuns(g, i, order, k - 1);
      VisitNext(g, order, k - 1);
      assert Elements(order[..k]) == Elements(order[..k - 1]) + {m};
      assert Elements(ExecutedIn(g, order[..k - 1]) + [m]) == Executed(g, order[..k - 1]) + {m};
    }
  }

  lemma NothingRuns(g: Graph)
    ensures Executed(g, []) == Elements<Id>([])
  {
  }

  lemma AlsoRuns(g: Graph, i: nat, order: seq<Id>, k: nat)
    requires EndsKnown(g) && i < |g.edges| && Topological(g, order) && k < |order|
    requires forall j | 0 <= j < |g.edges| && j != i :: g.edges[j].condition == None
    requires g.edges[i].target != order[k] && Executed(g, order[..k]) == Elements(order[..k])
    ensures Decides(g, order[k], Executed(g, order[..k]), Skipped(g, order[..k]))
  {
    SourcesAreBefore(g, order, k);
    hide ExecutedIn, Ordered;
    assert Skipped(g, order[..k]) == {};
  }

  lemma SourcesAreBefore(g: Graph, order: seq<Id>, k: nat)
    requires EndsKnown(g) && Topological(g, order) && k < |order|
    ensures forall j | 0 <= j < |g.edges| && g.edges[j].target == order[k] :: g.edges[j].source in Elements(order[..k])
  {
    forall j | 0 <= j < |g.edges| && g.edges[j].target == order[k] ensures g.edges[j].source in Elements(order[..k]) {
      assert Arc(g, g.edges[j].source, order[k]);
    }
  }

  /** So its target runs exactly when the condition passes on what is placed before it. */
  lemma TargetRuns(g: Graph, i: nat, order: seq<Id>, k: nat)
    requires EndsKnown(g) && i < |g.edges| && Topological(g, order) && k < |order| && order[k] == g.edges[i].target
    requires forall j | 0 <= j < |g.edges| && j != i :: g.edges[j].condition == None
    ensures order[k] in Executed(g, order) <==> Passes(g.edges[i], DoneKeys(Elements(order[..k])))
  {
    AllRunBefore(g, i, order, k);
    SourcesAreBefore(g, order, k);
    FateAt(g, order, k);
    hide ExecutedIn, Ordered;
    assert Skipped(g, order[..k]) == {};
  }

  /**
   * If an edge's condition depends on a node that is not comparable with the edge's target, then
   * with that condition alone the graph has two orders that run different nodes.
   */
  lemma OrderCanMatter(g: Graph, order: seq<Id>, i: nat, a: Id) returns (before: seq<Id>, after: seq<Id>)
    requires EndsKnown(g) && Topological(g, order) && i < |g.edges| && a in Ids(g)
    requires Depends(g.edges[i], a) && !Comparable(g, a, g.edges[i].target)
    ensures Topological(g, before) && Topological(g, after)
    ensures Executed(OnlyCondition(g, i), before) != Executed(OnlyCondition(g, i), after)
  {
    var n, h := g.edges[i].target, OnlyCondition(g, i);
    assert Known(g, g.edges[i]);
    assert a in Elements(order) && n in Elements(order);
    AncestorsAreClosed(g, a);
    AncestorsAreClosed(g, n);
    before, after := Moved(order, Ancestors(g, a)), Moved(order, Ancestors(g, n));
    MovedIsTopological(g, order, Ancestors(g, a));
    MovedIsTopological(g, order, Ancestors(g, n));
    SameShape(g, i);
    var k := MovedFirst(order, Ancestors(g, a), a, n);
    TargetRuns(h, i, before, k);
    ReadsOneNode(g.edges[i], a, Elements(before[..k]));
    var l := MovedFirst(order, Ancestors(g, n), n, a);
    var m :| 0 <= m < l && after[m] == n;
    TargetRuns(h, i, after, m);
    assert a !in after[..m];
    ReadsOneNode(g.edges[i], a, Elements(after[..m]));
  }

  /**
   * Comparability is the exact condition: each condition, taken alone, leaves the run independent of
   * the order if and only if every condition depends only on nodes comparable with its edge's target.
   */
  lemma ComparableExactly(g: Graph, order: seq<Id>)
    requires EndsKnown(g) && Topological(g, order)
    ensures ConditionsAreComparable(g) <==>
            forall i, one, two | 0 <= i < |g.edges| && Topological(g, one) && Topological(g, two) ::
              Executed(OnlyCondition(g, i), one) == Executed(OnlyCondition(g, i), two)
  {
    if ConditionsAreComparable(g) {
      forall i, one, two | 0 <= i < |g.edges| && Topological(g, one) && Topological(g, two)
        ensures Executed(OnlyCondition(g, i), one) == Executed(OnlyCondition(g, i), two)
      {
        SameShape(g, i);
        OneIsComparable(g, i);
        OrderIsIrrelevant(OnlyCondition(g, i), one, two);
      }
    } else {
      var i, a :| 0 <= i < |g.edges| && a in Ids(g) && Depends(g.edges[i], a) && !Comparable(g, a, g.edges[i].target);
      var before, after := OrderCanMatter(g, order, i, a);
    }
  }

  lemma OneIsComparable(g: Graph, i: nat)
    requires EndsKnown(g) && i < |g.edges| && ConditionsAreComparable(g)
    ensures ConditionsAreComparable(OnlyCondition(g, i))
  {
    var h := OnlyCondition(g, i);
    SameShape(g, i);
    assert Ids(h) == Ids(g);
    forall j, a | 0 <= j < |h.edges| && a in Ids(h) && Depends(h.edges[j], a) ensures Comparable(h, a, h.edges[j].target) {
      assert j == i;
      assert Depends(g.edges[i], a);
    }
  }

  /** A root with two children; the edge to the second reads the first one's output. */
  function Siblings(r: Id, b: Id, c: Id): Graph {
    Graph([Node(r, r), Node(b, b), Node(c, c)], [Edge(r, b, None), Edge(r, c, Some(DoneKey(b) + "==" + "true"))])
  }

  /** For instance, of two siblings the one that waits for the other runs only when it comes second. */
  lemma OrderMattersBetweenSiblings(r: Id, b: Id, c: Id)
    requires r != b && r != c && b != c && '=' !in DoneKey(b) && '!' !in DoneKey(b) && Trimmed(DoneKey(b))
    ensures Topological(Siblings(r, b, c), [r, b, c]) && Topological(Siblings(r, b, c), [r, c, b])
    ensures c in Executed(Siblings(r, b, c), [r, b, c]) && c !in Executed(Siblings(r, b, c), [r, c, b])
  {
    var g := Siblings(r, b, c);
    SiblingsAreSorted(g, r, b, c, [r, b, c]);
    SiblingsAreSorted(g, r, b, c, [r, c, b]);
    assert Ids(g) == {r, b, c} by { assert g.nodes[0].id == r && g.nodes[1].id == b && g.nodes[2].id == c; }
    TargetRuns(g, 1, [r, b, c], 2);
    TargetRuns(g, 1, [r, c, b], 1);
    assert [r, b, c][..2] == [r, b] && [r, c, b][..1] == [r];
    ReadsSibling(g.edges[1], b, Elements([r, b]));
    ReadsSibling(g.edges[1], b, Elements([r]));
  }

  lemma SiblingsAreSorted(g: Graph, r: Id, b: Id, c: Id, order: seq<Id>)
    requires r != b && r != c && b != c && g == Siblings(r, b, c)
    requires order == [r, b, c] || order == [r, c, b]
    ensures Topological(g, order)
  {
    assert g.nodes[0].id == r && g.nodes[1].id == b && g.nodes[2].id == c;
    assert Ids(g) == {r, b, c};
    assert order[0] in order && order[1] in order && order[2] in order;
    assert Elements(order) == {r, b, c};
    forall i, a | 0 <= i < |order| && Arc(g, a, order[i]) ensures a in order[..i] {
      assert a == r && i > 0;
      assert order[..i][0] == r;
    }
  }

  lemma ReadsSibling(e: Edge, b: Id, done: set<Id>)
    requires e.condition == Some(DoneKey(b) + "==" + "true")
    requires '=' !in DoneKey(b) && '!' !in DoneKey(b) && Trimmed(DoneKey(b))
    ensures Passes(e, DoneKeys(done)) <==> b in done
  {
    UnpaddedMeans(DoneKey(b), "true", DoneKeys(done));
    DoneKeyRecorded(done, b);
  }

  lemma StripTrimmed(s: string)
    requires Trimmed(s)
    ensures Strip(s) == s
  {
  }

  lemma UnpaddedMeans(key: string, expected: string, keys: map<string, string>)
    requires Trimmed(key) && Trimmed(expected) && '=' !in key && '!' !in key && '!' !in expected
    ensures EvaluateCondition(key + "==" + expected, keys) == (Lookup(keys, key) == expected)
  {
    ConditionSplits(key, "==", expected, keys);
    StripTrimmed(key);
    StripTrimmed(expected);
  }
}
