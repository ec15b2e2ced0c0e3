/** Running a validated graph: edge conditions, skipped branches, and independence of the chosen order (sova/core/dag.py). */
module DagExecution {
  import opened Basics
  import opened DagGraph
  import opened DagSort
  import opened DagValidation

  // ---------------------------------------------------------------- conditions

  /** Where `a` followed by `b` first occurs. */
  function FindPair(s: string, a: char, b: char): (at: Option<nat>)
    ensures at.Some? ==> at.value + 1 < |s| && s[at.value] == a && s[at.value + 1] == b
    ensures forall i | 0 <= i < (if at.Some? then at.value else |s| - 1) :: !(s[i] == a && s[i + 1] == b)
  {
    if |s| < 2 then None
    else if s[0] == a && s[1] == b then Some(0)
    else
      match FindPair(s[1..], a, b)
      case Some(i) => Some(i + 1)
      case None => None
  }

  function StripLeft(s: string): string {
    if s == [] || !IsSpace(s[0]) then s else StripLeft(s[1..])
  }

  function StripRight(s: string): string {
    if s != [] && IsSpace(s[|s| - 1]) then StripRight(s[..|s| - 1]) else s
  }

  function Strip(s: string): string {
    StripRight(StripLeft(s))
  }

  /** `key == expected` or `key != expected` against the recorded outputs; anything else is false. */
  predicate EvaluateCondition(condition: string, keys: map<string, string>) {
    match FindPair(condition, '!', '=')
    case Some(i) => Lookup(keys, Strip(condition[..i])) != Strip(condition[i + 2..])
    case None =>
      match FindPair(condition, '=', '=')
      case Some(i) => Lookup(keys, Strip(condition[..i])) == Strip(condition[i + 2..])
      case None => false
  }

  function Lookup(keys: map<string, string>, key: string): string {
    if key in keys then keys[key] else ""
  }

  /** The key a condition reads, if it has a known form. */
  function KeyOf(condition: string): Option<string> {
    match FindPair(condition, '!', '=')
    case Some(i) => Some(Strip(condition[..i]))
    case None =>
      match FindPair(condition, '=', '=')
      case Some(i) => Some(Strip(condition[..i]))
      case None => None
  }

  predicate Trimmed(s: string) {
    s != "" ==> !IsSpace(s[0]) && !IsSpace(s[|s| - 1])
  }

  lemma {:induction false} StripPadded(s: string, before: string, after: string)
    requires Trimmed(s)
    requires (forall i | 0 <= i < |before| :: IsSpace(before[i])) && (forall i | 0 <= i < |after| :: IsSpace(after[i]))
    ensures Strip(before + s + after) == s
    decreases |before| + |after|
  {
    var padded := before + s + after;
    if before != [] {
      assert padded[1..] == before[1..] + s + after;
      StripPadded(s, before[1..], after);
    } else if s == "" {
      AllSpace(padded);
    } else {
      assert padded == s + after;
      StripTail(s, after);
    }
  }

  lemma {:induction false} AllSpace(s: string)
    requires forall i | 0 <= i < |s| :: IsSpace(s[i])
    ensures StripLeft(s) == ""
  {
    if s != [] { AllSpace(s[1..]); }
  }

  lemma {:induction false} StripTail(s: string, after: string)
    requires s != "" && !IsSpace(s[|s| - 1]) && forall i | 0 <= i < |after| :: IsSpace(after[i])
    ensures StripRight(s + after) == s
    decreases |after|
  {
    if after == [] {
      assert s + after == s;
    } else {
      assert (s + after)[..|s + after| - 1] == s + after[..|after| - 1];
      StripTail(s, after[..|after| - 1]);
    }
  }

  predicate Without(s: string, a: char, b: char) {
    forall i | 0 <= i < |s| - 1 :: !(s[i] == a && s[i + 1] == b)
  }

  /** A condition written with its operator between two padded operands means what it says. */
  lemma ConditionMeans(key: string, op: string, expected: string, pad: string, keys: map<string, string>)
    requires Trimmed(key) && Trimmed(expected) && forall i | 0 <= i < |pad| :: IsSpace(pad[i])
    requires '=' !in key && '!' !in key && '!' !in expected && (op == "==" || op == "!=")
    ensures var condition := (pad + key + pad) + op + (pad + expected + pad);
            && EvaluateCondition(condition, keys) == ((Lookup(keys, key) == expected) == (op == "=="))
            && KeyOf(condition) == Some(key)
  {
    StripPadded(key, pad, pad);
    StripPadded(expected, pad, pad);
    StaysOut('=', key, pad);
    StaysOut('!', key, pad);
    StaysOut('!', expected, pad);
    ConditionSplits(pad + key + pad, op, pad + expected + pad, keys);
  }

  lemma StaysOut(c: char, s: string, pad: string)
    requires c !in s && !IsSpace(c) && forall i | 0 <= i < |pad| :: IsSpace(pad[i])
    ensures c !in pad + s + pad
  {
  }

  lemma ConditionSplits(left: string, op: string, right: string, keys: map<string, string>)
    requires '=' !in left && '!' !in left && '!' !in right && (op == "==" || op == "!=")
    ensures EvaluateCondition(left + op + right, keys) == ((Lookup(keys, Strip(left)) == Strip(right)) == (op == "=="))
    ensures KeyOf(left + op + right) == Some(Strip(left))
  {
    var condition := left + op + right;
    SplitAt(left, op, right);
    assert condition[..|left|] == left && condition[|left| + 2..] == right;
    if op == "==" {
      assert '!' !in condition;
      assert FindPair(condition, '!', '=') == None;
    }
  }

  lemma SplitAt(left: string, op: string, right: string)
    requires |op| == 2 && op[1] == '=' && op[0] !in left && (op[0] == '=' || op[0] == '!')
    ensures FindPair(left + op + right, op[0], '=') == Some(|left|)
  {
    var s := left + op + right;
    assert s[|left|] == op[0] && s[|left| + 1] == '=';
    assert forall i | 0 <= i < |left| :: s[i] == left[i];
  }

  /** The text falls into spaces, a part that neither begins nor ends with one, and spaces. */
  lemma {:induction false} StripSplits(s: string) returns (before: string, after: string)
    ensures s == before + Strip(s) + after && Trimmed(Strip(s))
    ensures (forall i | 0 <= i < |before| :: IsSpace(before[i])) && (forall i | 0 <= i < |after| :: IsSpace(after[i]))
  {
    before := LeftSplits(s);
    after := RightSplits(StripLeft(s));
    assert s == before + (Strip(s) + after) == before + Strip(s) + after;
  }

  lemma {:induction false} LeftSplits(s: string) returns (before: string)
    ensures s == before + StripLeft(s) && forall i | 0 <= i < |before| :: IsSpace(before[i])
    ensures StripLeft(s) != "" ==> !IsSpace(StripLeft(s)[0])
  {
    if s == [] || !IsSpace(s[0]) {
      before := "";
    } else {
      var rest := LeftSplits(s[1..]);
      before := [s[0]] + rest;
    }
  }

  lemma {:induction false} RightSplits(s: string) returns (after: string)
    ensures s == StripRight(s) + after && forall i | 0 <= i < |after| :: IsSpace(after[i])
    ensures StripRight(s) != "" ==> !IsSpace(StripRight(s)[|StripRight(s)| - 1]) && StripRight(s)[0] == s[0]
    decreases |s|
  {
    if s != [] && IsSpace(s[|s| - 1]) {
      var front := RightSplits(s[..|s| - 1]);
      after := front + [s[|s| - 1]];
    } else {
      after := "";
    }
  }

  /** The operator begins at `i` and nowhere before. */
  predicate FirstAt(s: string, a: char, i: nat) {
    i + 1 < |s| && s[i] == a && s[i + 1] == '=' && forall j | 0 <= j < i :: !(s[j] == a && s[j + 1] == '=')
  }

  /**
   * Every condition: with "!=" in it, what precedes the first one is compared with what follows it;
   * otherwise the same with "=="; with neither it is false. A key that was not recorded is empty.
   */
  lemma ConditionExactly(condition: string, keys: map<string, string>, i: nat)
    ensures FirstAt(condition, '!', i) ==>
              (EvaluateCondition(condition, keys) <==>
                 (if Strip(condition[..i]) in keys then keys[Strip(condition[..i])] else "") != Strip(condition[i + 2..]))
    ensures Without(condition, '!', '=') && FirstAt(condition, '=', i) ==>
              (EvaluateCondition(condition, keys) <==>
                 (if Strip(condition[..i]) in keys then keys[Strip(condition[..i])] else "") == Strip(condition[i + 2..]))
    ensures Without(condition, '!', '=') && Without(condition, '=', '=') ==> !EvaluateCondition(condition, keys)
  {
    if FirstAt(condition, '!', i) { FoundFirst(condition, '!', i); }
    if FirstAt(condition, '=', i) { FoundFirst(condition, '=', i); }
  }

  lemma FoundFirst(s: string, a: char, i: nat)
    requires FirstAt(s, a, i)
    ensures FindPair(s, a, '=') == Some(i)
  {
  }

  // ---------------------------------------------------------------- which nodes run

  function DoneKey(id: Id): string {
    id + ".done"
  }

  lemma DoneKeyIsInjective(a: Id, b: Id)
    ensures DoneKey(a) == DoneKey(b) <==> a == b
  {
    assert DoneKey(a)[..|DoneKey(a)| - 5] == a && DoneKey(b)[..|DoneKey(b)| - 5] == b;
  }

  /** What the executed nodes have recorded. */
  function DoneKeys(done: set<Id>): map<string, string> {
    map id | id in done :: DoneKey(id) := "true"
  }

  lemma DoneKeyRecorded(done: set<Id>, id: Id)
    ensures DoneKey(id) in DoneKeys(done) <==> id in done
  {
    if DoneKey(id) in DoneKeys(done) {
      var other :| other in done && DoneKey(other) == DoneKey(id);
      DoneKeyIsInjective(id, other);
    }
  }

  lemma DoneKeysSnoc(done: set<Id>, id: Id)
    ensures DoneKeys(done + {id}) == DoneKeys(done)[DoneKey(id) := "true"]
  {
    assert DoneKeys(done + {id}).Keys == DoneKeys(done).Keys + {DoneKey(id)};
  }

  /** So a condition can ask whether a node has run. */
  lemma DoneConditionMeans(id: Id, done: set<Id>)
    requires Trimmed(id) && '=' !in id && '!' !in id
    ensures EvaluateCondition(id + ".done == true", DoneKeys(done)) <==> id in done
  {
    var left, right := id + ".done ", " true";
    assert id + ".done == true" == left + "==" + right;
    ConditionSplits(left, "==", right, DoneKeys(done));
    StripsAround(id);
    DoneKeyRecorded(done, id);
    assert DoneKey(id) in DoneKeys(done) ==> DoneKeys(done)[DoneKey(id)] == "true";
    hide EvaluateCondition, Strip, DoneKeys;
  }

  lemma StripsAround(id: Id)
    requires Trimmed(id)
    ensures Strip(id + ".done ") == DoneKey(id) && Strip(" true") == "true"
  {
    hide Strip;
    assert Trimmed(DoneKey(id)) && Trimmed("true");
    StripPadded(DoneKey(id), "", " ");
    StripPadded("true", " ", "");
    assert "" + DoneKey(id) + " " == id + ".done " && " " + "true" + "" == " true";
  }

  predicate Passes(e: Edge, keys: map<string, string>) {
    e.condition.Some? ==> EvaluateCondition(e.condition.value, keys)
  }

  /** Every edge into `n` from a node that was not skipped is satisfied, and there is one; or no edge leads into `n`. */
  predicate Decides(g: Graph, n: Id, done: set<Id>, skipped: set<Id>) {
    || (forall i | 0 <= i < |g.edges| :: g.edges[i].target != n)
    || (&& (forall i | 0 <= i < |g.edges| && g.edges[i].target == n && g.edges[i].source !in skipped ::
              g.edges[i].source in done && Passes(g.edges[i], DoneKeys(done)))
        && (exists i :: 0 <= i < |g.edges| && g.edges[i].target == n && g.edges[i].source !in skipped))
  }

  /** The executor's own check, edge by edge. */
  method ShouldExecute(g: Graph, n: Id, keys: map<string, string>, ghost done: set<Id>, skipped: set<Id>) returns (r: bool)
    requires keys == DoneKeys(done)
    ensures r == Decides(g, n, done, skipped)
  {
    var incoming, completed := false, false;
    for i := 0 to |g.edges|
      invariant incoming <==> exists j :: 0 <= j < i && g.edges[j].target == n
      invariant completed <==> exists j :: 0 <= j < i && g.edges[j].target == n && g.edges[j].source !in skipped
      invariant forall j | 0 <= j < i && g.edges[j].target == n && g.edges[j].source !in skipped ::
                  g.edges[j].source in done && Passes(g.edges[j], keys)
    {
      var e := g.edges[i];
      if e.target == n {
        incoming := true;
        if e.source !in skipped {
          DoneKeyRecorded(done, e.source);
          if DoneKey(e.source) !in keys {
            return false;
          }
          if e.condition.Some? && !EvaluateCondition(e.condition.value, keys) {
            return false;
          }
          completed := true;
        }
      }
    }
    return !incoming || completed;
  }

  /** The nodes that run, in order, while every command succeeds. */
  function ExecutedIn(g: Graph, order: seq<Id>): (run: seq<Id>)
    ensures forall n | n in run :: n in order
  {
    if order == [] then []
    else
      var before, n := order[..|order| - 1], order[|order| - 1];
      var run := ExecutedIn(g, before);
      if Decides(g, n, Elements(run), Elements(before) - Elements(run)) then run + [n] else run
  }

  function Executed(g: Graph, order: seq<Id>): set<Id> {
    Elements(ExecutedIn(g, order))
  }

  function Skipped(g: Graph, order: seq<Id>): set<Id> {
    Elements(order) - Executed(g, order)
  }

  ghost predicate Topological(g: Graph, order: seq<Id>) {
    Distinct(order) && Elements(order) == Ids(g) && Ordered(g, order)
  }

  lemma {:induction false} ExecutedGrows(g: Graph, order: seq<Id>, k: nat)
    requires k <= |order| && Distinct(order)
    ensures ExecutedIn(g, order[..k]) <= ExecutedIn(g, order)
    ensures Executed(g, order[..k]) == Executed(g, order) * Elements(order[..k])
    decreases |order|
  {
    if k == |order| {
      assert order[..k] == order;
    } else {
      var before := order[..|order| - 1];
      assert before[..k] == order[..k];
      ExecutedGrows(g, before, k);
    }
  }

  /** One more visit either runs the node or adds it to the skipped ones. */
  lemma VisitNext(g: Graph, sorted: seq<Id>, k: nat)
    requires k < |sorted| && Distinct(sorted)
    ensures var n, before := sorted[k], sorted[..k];
            if Decides(g, n, Executed(g, before), Skipped(g, before)) then
              && ExecutedIn(g, sorted[..k + 1]) == ExecutedIn(g, before) + [n]
              && Skipped(g, sorted[..k + 1]) == Skipped(g, before)
            else
              && ExecutedIn(g, sorted[..k + 1]) == ExecutedIn(g, before)
              && Skipped(g, sorted[..k + 1]) == Skipped(g, before) + {n}
  {
    var before, after := sorted[..k], sorted[..k + 1];
    assert after[..|after| - 1] == before && after[|after| - 1] == sorted[k];
    assert sorted[k] !in before;
    assert Elements(after) == Elements(before) + {sorted[k]};
    assert Elements(ExecutedIn(g, before) + [sorted[k]]) == Executed(g, before) + {sorted[k]};
  }

  /** The moment a node is visited decides its fate. */
  lemma FateAt(g: Graph, order: seq<Id>, k: nat)
    requires k < |order| && Distinct(order)
    ensures order[k] in Executed(g, order) <==> Decides(g, order[k], Executed(g, order[..k]), Skipped(g, order[..k]))
  {
    FateNow(g, order, k);
    ExecutedGrows(g, order, k + 1);
    assert order[k] in Elements(order[..k + 1]) by { assert order[k] == order[..k + 1][k]; }
  }

  lemma FateNow(g: Graph, order: seq<Id>, k: nat)
    requires k < |order| && Distinct(order)
    ensures order[k] in Executed(g, order[..k + 1]) <==>
            Decides(g, order[k], Executed(g, order[..k]), Skipped(g, order[..k]))
  {
    VisitNext(g, order, k);
    var before := ExecutedIn(g, order[..k]);
    assert order[k] !in before by { assert order[k] !in order[..k]; }
    assert order[k] in before + [order[k]];
  }

  /** When a node is visited, every source of its edges has run or been skipped: no edge finds its source pending. */
  lemma SourcesAreSettled(g: Graph, order: seq<Id>, k: nat, i: nat)
    requires EndsKnown(g) && Topological(g, order) && k < |order| && i < |g.edges| && g.edges[i].target == order[k]
    ensures g.edges[i].source in Executed(g, order[..k]) || g.edges[i].source in Skipped(g, order[..k])
  {
    assert Arc(g, g.edges[i].source, order[k]);
  }

  /** Every executed node that is not an entry has an executed predecessor, and every edge from an executed node passed. */
  lemma PredecessorRan(g: Graph, order: seq<Id>, n: Id) returns (i: int)
    requires EndsKnown(g) && Topological(g, order) && n in Executed(g, order)
    ensures i == -1 || (0 <= i < |g.edges| && g.edges[i].target == n && g.edges[i].source in Executed(g, order))
    ensures i == -1 ==> forall j | 0 <= j < |g.edges| :: g.edges[j].target != n
  {
    var k :| 0 <= k < |order| && order[k] == n;
    FateAt(g, order, k);
    ExecutedGrows(g, order, k);
    if j :| 0 <= j < |g.edges| && g.edges[j].target == n && g.edges[j].source !in Skipped(g, order[..k]) {
      SourcesAreSettled(g, order, k, j);
      i := j;
    } else {
      i := -1;
    }
  }

  /**
   * Which nodes run, in every order: the entries, and every node into which some edge leads from a
   * node that runs and all edges from such nodes hold, on what had run before.
   */
  lemma ExecutedExactly(g: Graph, order: seq<Id>, k: nat)
    requires EndsKnown(g) && Topological(g, order) && k < |order|
    ensures order[k] in Executed(g, order) <==>
            || (forall i | 0 <= i < |g.edges| :: g.edges[i].target != order[k])
            || (&& (exists i :: 0 <= i < |g.edges| && g.edges[i].target == order[k] && g.edges[i].source in Executed(g, order))
                && (forall i | 0 <= i < |g.edges| && g.edges[i].target == order[k] && g.edges[i].source in Executed(g, order) ::
                      g.edges[i].condition.Some? ==>
                        EvaluateCondition(g.edges[i].condition.value, DoneKeys(Executed(g, order[..k])))))
  {
    FateAt(g, order, k);
    ExecutedGrows(g, order, k);
    forall i | 0 <= i < |g.edges| && g.edges[i].target == order[k]
      ensures g.edges[i].source !in Skipped(g, order[..k]) <==> g.edges[i].source in Executed(g, order[..k])
      ensures g.edges[i].source in Executed(g, order) <==> g.edges[i].source in Executed(g, order[..k])
    {
      SourcesAreSettled(g, order, k, i);
    }
    hide EvaluateCondition, DoneKeys, Executed, Topological;
  }

  // ---------------------------------------------------------------- independence of the order

  /** One node is before the other in every order, or they are the same. */
  ghost predicate Comparable(g: Graph, a: Id, b: Id) {
    Reaches(g, a, b) || Reaches(g, b, a)
  }

  /** No condition depends on a node that may run before or after the edge's target. */
  ghost predicate ConditionsAreComparable(g: Graph) {
    forall i, a | 0 <= i < |g.edges| && a in Ids(g) && Depends(g.edges[i], a) :: Comparable(g, a, g.edges[i].target)
  }

  predicate Reads(e: Edge, a: Id) {
    e.condition.Some? && KeyOf(e.condition.value) == Some(DoneKey(a))
  }

  /** The condition reads the node's output, and its answer differs with it and without it. */
  predicate Depends(e: Edge, a: Id) {
    && Reads(e, a)
    && EvaluateCondition(e.condition.value, map[DoneKey(a) := "true"]) != EvaluateCondition(e.condition.value, map[])
  }

  lemma OnlyItsKeyMatters(condition: string, keys: map<string, string>, others: map<string, string>)
    requires KeyOf(condition).Some? ==> Lookup(keys, KeyOf(condition).value) == Lookup(others, KeyOf(condition).value)
    ensures EvaluateCondition(condition, keys) == EvaluateCondition(condition, others)
  {
  }

  /** Two visits of a node agree when its sources and the nodes its conditions read have the same fate. */
  lemma DecidesAlike(g: Graph, n: Id, done: set<Id>, skipped: set<Id>, done': set<Id>, skipped': set<Id>)
    requires forall i | 0 <= i < |g.edges| && g.edges[i].target == n ::
               && (g.edges[i].source in done <==> g.edges[i].source in done')
               && (g.edges[i].source in skipped <==> g.edges[i].source in skipped')
    requires forall i, a | 0 <= i < |g.edges| && g.edges[i].target == n && Depends(g.edges[i], a) :: a in done <==> a in done'
    ensures Decides(g, n, done, skipped) == Decides(g, n, done', skipped')
  {
    forall i | 0 <= i < |g.edges| && g.edges[i].target == n
      ensures Passes(g.edges[i], DoneKeys(done)) == Passes(g.edges[i], DoneKeys(done'))
    {
      PassesAlike(g.edges[i], done, done');
    }
  }

  /** Of the executed nodes a condition sees only whether the one it reads is among them. */
  lemma ReadsOneNode(e: Edge, a: Id, done: set<Id>)
    requires Reads(e, a)
    ensures Passes(e, DoneKeys(done)) == EvaluateCondition(e.condition.value, if a in done then map[DoneKey(a) := "true"] else map[])
  {
    DoneKeyRecorded(done, a);
    OnlyItsKeyMatters(e.condition.value, DoneKeys(done), if a in done then map[DoneKey(a) := "true"] else map[]);
  }

  lemma PassesAlike(e: Edge, done: set<Id>, done': set<Id>)
    requires forall a | Depends(e, a) :: a in done <==> a in done'
    ensures Passes(e, DoneKeys(done)) == Passes(e, DoneKeys(done'))
  {
    if a: Id :| Reads(e, a) {
      ReadsOneNode(e, a, done);
      ReadsOneNode(e, a, done');
    } else if e.condition.Some? {
      NothingIsRead(e, done);
      NothingIsRead(e, done');
      OnlyItsKeyMatters(e.condition.value, DoneKeys(done), DoneKeys(done'));
    }
  }

  lemma NothingIsRead(e: Edge, done: set<Id>)
    requires e.condition.Some? && forall a :: !Reads(e, a)
    ensures KeyOf(e.condition.value).Some? ==> KeyOf(e.condition.value).value !in DoneKeys(done)
  {
    forall a | a in done ensures KeyOf(e.condition.value) != Some(DoneKey(a)) { assert !Reads(e, a); }
  }

  /** In every order a comparable node is placed on the same side of the target. */
  lemma SameSide(g: Graph, order: seq<Id>, k: nat, a: Id)
    requires Topological(g, order) && k < |order| && a in Ids(g) && Comparable(g, a, order[k])
    ensures a in order[..k] <==> a != order[k] && Reaches(g, a, order[k])
  {
    if Reaches(g, a, order[k]) && a != order[k] {
      var p :| Leads(g, p, a, order[k]);
      var i := PathsGoBack(g, order, p, k);
    }
    if i :| 0 <= i < k && order[i] == a {
      if !Reaches(g, a, order[k]) {
        var p :| Leads(g, p, order[k], a);
        var j := PathsGoBack(g, order, p, i);
      }
    }
  }

  /** By the time the first order visits a node, both orders agree on everything the node depends on. */
  lemma {:induction false} FatesAgree(g: Graph, order: seq<Id>, order': seq<Id>, k: nat)
    requires EndsKnown(g) && ConditionsAreComparable(g) && Topological(g, order) && Topological(g, order') && k <= |order|
    ensures forall i | 0 <= i < k :: order[i] in Executed(g, order) <==> order[i] in Executed(g, order')
    decreases k
  {
    if k > 0 {
      FatesAgree(g, order, order', k - 1);
      FateAgrees(g, order, order', k - 1);
    }
  }

  lemma FateAgrees(g: Graph, order: seq<Id>, order': seq<Id>, k: nat)
    requires EndsKnown(g) && ConditionsAreComparable(g) && Topological(g, order) && Topological(g, order') && k < |order|
    requires forall i | 0 <= i < k :: order[i] in Executed(g, order) <==> order[i] in Executed(g, order')
    ensures order[k] in Executed(g, order) <==> order[k] in Executed(g, order')
  {
    var n := order[k];
    assert n in Elements(order');
    var k' :| 0 <= k' < |order'| && order'[k'] == n;
    var done, done' := Executed(g, order[..k]), Executed(g, order'[..k']);
    ExecutedGrows(g, order, k);
    ExecutedGrows(g, order', k');
    forall i | 0 <= i < |g.edges| && g.edges[i].target == n
      ensures g.edges[i].source in order[..k] && g.edges[i].source in order'[..k']
      ensures g.edges[i].source in done <==> g.edges[i].source in done'
    {
      assert Arc(g, g.edges[i].source, n);
    }
    forall i, a | 0 <= i < |g.edges| && g.edges[i].target == n && Depends(g.edges[i], a) ensures a in done <==> a in done' {
      if a in Ids(g) {
        SameSide(g, order, k, a);
        SameSide(g, order', k', a);
      }
    }
    DecidesAlike(g, n, done, Skipped(g, order[..k]), done', Skipped(g, order'[..k']));
    FateAt(g, order, k);
    FateAt(g, order', k');
  }

  /** Which nodes run, and which are skipped, depends on the graph alone and not on the order chosen. */
  lemma OrderIsIrrelevant(g: Graph, order: seq<Id>, order': seq<Id>)
    requires EndsKnown(g) && ConditionsAreComparable(g) && Topological(g, order) && Topological(g, order')
    ensures Executed(g, order) == Executed(g, order') && Skipped(g, order) == Skipped(g, order')
  {
    FatesAgree(g, order, order', |order|);
    forall n ensures n in Executed(g, order) <==> n in Executed(g, order') {
      if n in Ids(g) {
        assert n in Elements(order);
        var i :| 0 <= i < |order| && order[i] == n;
      }
    }
  }

  // ---------------------------------------------------------------- the executor

  datatype DagResult =
    | Invalid(errors: seq<Error>)
    | Failed(executed: seq<Id>)
    | Completed(executed: seq<Id>)

  /** The run stops right after the first node whose command fails. */
  ghost predicate Outcome(run: seq<Id>, succeeds: Id -> bool, r: DagResult) {
    match r
    case Invalid(_) => false
    case Completed(executed) => executed == run && forall i | 0 <= i < |run| :: succeeds(run[i])
    case Failed(executed) =>
      && executed != [] && executed <= run && !succeeds(executed[|executed| - 1])
      && forall i | 0 <= i < |executed| - 1 :: succeeds(executed[i])
  }

  /** Validates the graph and runs it along the order that validation found. */
  method Execute(g: Graph, succeeds: Id -> bool) returns (r: DagResult, ghost order: seq<Id>)
    ensures r.Invalid? <==> !(g.nodes != [] && EndsKnown(g) && AllHaveCommands(g) && Acyclic(g) && InOnePiece(g))
    ensures !r.Invalid? ==> Topological(g, order) && Outcome(ExecutedIn(g, order), succeeds, r)
  {
    var errors, sorted := ValidateDag(g);
    order := sorted;
    if errors != [] {
      return Invalid(errors), order;
    }
    r := RunNodes(g, sorted, succeeds);
  }

  method RunNodes(g: Graph, sorted: seq<Id>, succeeds: Id -> bool) returns (r: DagResult)
    requires Distinct(sorted)
    ensures Outcome(ExecutedIn(g, sorted), succeeds, r)
  {
    hide Decides;
    var results: seq<Id> := [];
    var keys: map<string, string> := map[];
    var skipped: set<Id> := {};
    assert sorted[..|sorted|] == sorted;
    for k := 0 to |sorted|
      invariant results == ExecutedIn(g, sorted[..k]) && forall i | 0 <= i < |results| :: succeeds(results[i])
      invariant keys == DoneKeys(Elements(results)) && skipped == Skipped(g, sorted[..k])
    {
      var n := sorted[k];
      VisitNext(g, sorted, k);
      var should := ShouldExecute(g, n, keys, Elements(results), skipped);
      if !should {
        skipped := skipped + {n};
      } else {
        DoneKeysSnoc(Elements(results), n);
        assert Elements(results + [n]) == Elements(results) + {n};
        results := results + [n];
        ExecutedGrows(g, sorted, k + 1);
        if !succeeds(n) {
          return Failed(results);
        }
        keys := keys[n + ".done" := "true"];
      }
    }
    return Completed(results);
  }

  /** So whether the whole graph succeeds does not depend on the order either, although which node fails first may. */
  lemma SuccessIsOrderIndependent(g: Graph, order: seq<Id>, order': seq<Id>, succeeds: Id -> bool, r: DagResult, r': DagResult)
    requires EndsKnown(g) && ConditionsAreComparable(g) && Topological(g, order) && Topological(g, order')
    requires Outcome(ExecutedIn(g, order), succeeds, r) && Outcome(ExecutedIn(g, order'), succeeds, r')
    ensures r.Completed? <==> r'.Completed?
  {
    OrderIsIrrelevant(g, order, order');
    if r.Completed? { AllSucceed(ExecutedIn(g, order), ExecutedIn(g, order'), succeeds); }
    if r'.Completed? { AllSucceed(ExecutedIn(g, order'), ExecutedIn(g, order), succeeds); }
  }

  lemma AllSucceed(run: seq<Id>, other: seq<Id>, succeeds: Id -> bool)
    requires Elements(run) == Elements(other) && forall i | 0 <= i < |run| :: succeeds(run[i])
    ensures forall i | 0 <= i < |other| :: succeeds(other[i])
  {
    forall i | 0 <= i < |other| ensures succeeds(other[i]) {
      assert other[i] in Elements(other);
    }
  }
}
