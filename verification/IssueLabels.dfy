/** Label edits of one adapter, serialized by a lock per issue (sova/adapters/github.py). */
module IssueLabels {
  import opened Basics

  type Issue = string
  type Label = string

  datatype Op =
    | Add(issue: Issue, name: Label)
    | Remove(issue: Issue, name: Label)
    | Swap(issue: Issue, name: Label)

  // ---------------------------------------------------------------- the operations by themselves

  /** The replacement list of a state swap: the labels that are not states, then the new one. */
  method FinalLabels(current: seq<Label>, states: set<Label>, name: Label) returns (final: seq<Label>)
    ensures Elements(final) == (Elements(current) - states) + {name}
    ensures final == NonStates(current, states) + [name]
  {
    final := [];
    for i := 0 to |current|
      invariant final == NonStates(current[..i], states)
    {
      assert current[..i + 1][..i] == current[..i];
      if current[i] !in states {
        final := final + [current[i]];
      }
    }
    assert current[..|current|] == current;
    NonStatesAre(current, states);
    final := final + [name];
  }

  function NonStates(labels: seq<Label>, states: set<Label>): seq<Label> {
    if labels == [] then []
    else
      var front, last := NonStates(labels[..|labels| - 1], states), labels[|labels| - 1];
      if last in states then front else front + [last]
  }

  lemma {:induction false} NonStatesAre(labels: seq<Label>, states: set<Label>)
    ensures forall l :: l in NonStates(labels, states) <==> l in labels && l !in states
  {
    if labels != [] {
      var n := |labels| - 1;
      NonStatesAre(labels[..n], states);
      assert labels == labels[..n] + [labels[n]];
    }
  }

  lemma NonStatesSnoc(front: seq<Label>, name: Label, states: set<Label>)
    ensures NonStates(front + [name], states) == NonStates(front, states) + if name in states then [] else [name]
  {
    assert (front + [name])[..|front|] == front;
  }

  /** The order of the others is kept: the list can be cut anywhere, and one label stays or goes by itself. */
  lemma {:induction false} NonStatesKeepOrder(front: seq<Label>, back: seq<Label>, states: set<Label>, name: Label)
    ensures NonStates(front + back, states) == NonStates(front, states) + NonStates(back, states)
    ensures NonStates([name], states) == if name in states then [] else [name]
    decreases |back|
  {
    NonStatesSnoc([], name, states);
    assert [] + [name] == [name];
    if back == [] {
      assert front + back == front;
    } else {
      var most, last := back[..|back| - 1], back[|back| - 1];
      NonStatesKeepOrder(front, most, states, name);
      hide NonStates;
      NonStatesSnoc(front + most, last, states);
      NonStatesSnoc(most, last, states);
      assert back == most + [last] && front + back == front + most + [last];
    }
  }

  /** What an operation makes of the labels when nothing else happens in between. */
  function Effect(op: Op, labels: set<Label>, states: set<Label>): set<Label> {
    match op
    case Add(_, l) => labels + {l}
    case Remove(_, l) => labels - {l}
    case Swap(_, l) => (labels - states) + {l}
  }

  // ---------------------------------------------------------------- the steps

  datatype Stage = Waiting | Reading | Editing | Creating | Retrying | Finished(ok: bool)

  /** How far a call is, its place in the order of lock acquisitions, and the labels it has read. */
  datatype Task = Task(stage: Stage, ticket: nat, snapshot: set<Label>)

  /** The answer to an edit. A lost one took effect on the server but is reported as a failure. */
  datatype Answer = Done | Lost | Refused | NotFound

  datatype Event =
    | Acquire(t: nat)
    | Read(t: nat, ok: bool)
    | Edit(t: nat, answer: Answer)
    | Create(t: nat, ok: bool)
    | Outsider(op: Op)

  /** The state labels, the labels at the start, and the calls made. */
  datatype Setup = Setup(states: set<Label>, initial: map<Issue, set<Label>>, ops: seq<Op>)

  /** An edit that took effect on the server: by one of the calls, or by somebody else. */
  datatype Entry = Called(op: Op, t: nat) | Foreign(op: Op)

  /** The server's labels, the progress of the calls, the lock table, and the effective edits in order. */
  datatype System = System(
    setup: Setup,
    labels: map<Issue, set<Label>>,
    tasks: seq<Task>,
    holders: map<Issue, nat>,
    nextTicket: nat,
    log: seq<Entry>)

  predicate IsTask(s: System, t: nat) {
    t < |s.tasks| && t < |s.setup.ops|
  }

  function OpOf(s: System, t: nat): Op
    requires IsTask(s, t)
  {
    s.setup.ops[t]
  }

  function LabelsOf(labels: map<Issue, set<Label>>, issue: Issue): set<Label> {
    if issue in labels then labels[issue] else {}
  }

  predicate Enabled(s: System, e: Event) {
    match e
    case Acquire(t) => IsTask(s, t) && s.tasks[t].stage.Waiting? && OpOf(s, t).issue !in s.holders
    case Read(t, _) => IsTask(s, t) && s.tasks[t].stage.Reading?
    case Edit(t, _) => IsTask(s, t) && (s.tasks[t].stage.Editing? || s.tasks[t].stage.Retrying?)
    case Create(t, _) => IsTask(s, t) && s.tasks[t].stage.Creating?
    case Outsider(_) => true
  }

  function Begin(s: System, t: nat): System
    requires IsTask(s, t)
  {
    var first := if OpOf(s, t).Swap? then Reading else Editing;
    s.(tasks := s.tasks[t := Task(first, s.nextTicket, {})], holders := s.holders[OpOf(s, t).issue := t], nextTicket := s.nextTicket + 1)
  }

  function Snapshot(s: System, t: nat): System
    requires IsTask(s, t)
  {
    s.(tasks := s.tasks[t := s.tasks[t].(stage := Editing, snapshot := LabelsOf(s.labels, OpOf(s, t).issue))])
  }

  function Move(s: System, t: nat, stage: Stage): System
    requires IsTask(s, t)
  {
    s.(tasks := s.tasks[t := s.tasks[t].(stage := stage)])
  }

  /** Leaves the lock's block. */
  function Finish(s: System, t: nat, ok: bool): System
    requires IsTask(s, t)
  {
    Move(s, t, Finished(ok)).(holders := s.holders - {OpOf(s, t).issue})
  }

  /** The edit reaches the server: a swap replaces the whole list by one computed from its snapshot. */
  function TakeEffect(s: System, t: nat): System
    requires IsTask(s, t)
  {
    var op := OpOf(s, t);
    var seen := if op.Swap? then s.tasks[t].snapshot else LabelsOf(s.labels, op.issue);
    s.(labels := s.labels[op.issue := Effect(op, seen, s.setup.states)], log := s.log + [Called(op, t)])
  }

  /** A missing label is created and the edit retried once; a removal never is, and never fails. */
  function Answered(s: System, t: nat, answer: Answer): System
    requires IsTask(s, t)
  {
    var removal := OpOf(s, t).Remove?;
    match answer
    case Done => Finish(TakeEffect(s, t), t, true)
    case Lost => Finish(TakeEffect(s, t), t, removal)
    case Refused => Finish(s, t, removal)
    case NotFound => if s.tasks[t].stage.Editing? && !removal then Move(s, t, Creating) else Finish(s, t, removal)
  }

  function Apply(s: System, e: Event): System
    requires Enabled(s, e)
  {
    match e
    case Acquire(t) => Begin(s, t)
    case Read(t, ok) => if ok then Snapshot(s, t) else Finish(s, t, false)
    case Edit(t, answer) => Answered(s, t, answer)
    case Create(t, ok) => if ok then Move(s, t, Retrying) else Finish(s, t, false)
    case Outsider(op) => Meddle(s, op)
  }

  /** Another process, or a person, edits the labels at once and without the lock. */
  function Meddle(s: System, op: Op): System {
    s.(labels := s.labels[op.issue := Effect(op, LabelsOf(s.labels, op.issue), s.setup.states)], log := s.log + [Foreign(op)])
  }

  function Start(setup: Setup): System {
    System(setup, setup.initial, seq(|setup.ops|, i => Task(Waiting, 0, {})), map[], 0, [])
  }

  predicate Runs(s: System, events: seq<Event>)
    decreases |events|
  {
    events == [] || (Enabled(s, events[0]) && Runs(Apply(s, events[0]), events[1..]))
  }

  function Run(s: System, events: seq<Event>): System
    requires Runs(s, events)
    decreases |events|
  {
    if events == [] then s else Run(Apply(s, events[0]), events[1..])
  }

  /** Nobody but this adapter edits the labels. */
  predicate Undisturbed(events: seq<Event>) {
    forall i | 0 <= i < |events| :: !events[i].Outsider?
  }

  // ---------------------------------------------------------------- the sequential meaning

  /** The issue's labels after the logged edits, made one after the other and alone. */
  function Replay(setup: Setup, log: seq<Entry>, issue: Issue): set<Label> {
    if log == [] then LabelsOf(setup.initial, issue)
    else
      var before, op := Replay(setup, log[..|log| - 1], issue), log[|log| - 1].op;
      if op.issue == issue then Effect(op, before, setup.states) else before
  }

  predicate InLock(s: System, t: nat) {
    IsTask(s, t) && !s.tasks[t].stage.Waiting? && !s.tasks[t].stage.Finished?
  }

  /** A call inside the block holds its issue's lock. */
  ghost predicate LocksHeld(s: System) {
    && |s.tasks| == |s.setup.ops|
    && forall t: nat | InLock(s, t) :: OpOf(s, t).issue in s.holders && s.holders[OpOf(s, t).issue] == t
  }

  /** The call is a swap between its read and its last edit. */
  predicate InWindow(s: System, t: nat) {
    InLock(s, t) && OpOf(s, t).Swap? && !s.tasks[t].stage.Reading?
  }

  /** What a swap has read makes of the labels what the labels themselves would. */
  ghost predicate SnapshotsCurrent(s: System) {
    forall t: nat | InWindow(s, t) ::
      Effect(OpOf(s, t), s.tasks[t].snapshot, s.setup.states)
      == Effect(OpOf(s, t), LabelsOf(s.labels, OpOf(s, t).issue), s.setup.states)
  }

  ghost predicate LogValid(s: System) {
    forall i | 0 <= i < |s.log| && s.log[i].Called? ::
      var t := s.log[i].t;
      IsTask(s, t) && s.log[i].op == OpOf(s, t) && s.tasks[t].stage.Finished? && s.tasks[t].ticket < s.nextTicket
  }

  /** Per issue the calls are logged in the order of the lock, and whoever is inside comes after all of them. */
  ghost predicate LockOrder(s: System)
    requires LogValid(s)
  {
    && (forall i, j | 0 <= i < j < |s.log| && s.log[i].Called? && s.log[j].Called? && s.log[i].op.issue == s.log[j].op.issue ::
          s.tasks[s.log[i].t].ticket < s.tasks[s.log[j].t].ticket)
    && (forall i, t: nat | 0 <= i < |s.log| && s.log[i].Called? && InLock(s, t) && s.log[i].op.issue == OpOf(s, t).issue ::
          s.tasks[s.log[i].t].ticket < s.tasks[t].ticket)
    && (forall t: nat | InLock(s, t) :: s.tasks[t].ticket < s.nextTicket)
  }

  /** The server holds what the logged edits give when made one after the other. */
  ghost predicate Linear(s: System) {
    forall issue :: LabelsOf(s.labels, issue) == Replay(s.setup, s.log, issue)
  }

  /** Every call reported as successful, other than a removal, is in the log. */
  ghost predicate SuccessIsLogged(s: System) {
    forall t: nat | IsTask(s, t) && s.tasks[t].stage == Finished(true) && !OpOf(s, t).Remove? :: Called(OpOf(s, t), t) in s.log
  }

  ghost predicate Inv(s: System) {
    LocksHeld(s) && SnapshotsCurrent(s) && LogValid(s) && LockOrder(s) && Linear(s) && SuccessIsLogged(s)
  }

  lemma StartIsFine(setup: Setup)
    ensures Inv(Start(setup))
  {
  }

  lemma BeginKeeps(s: System, t: nat)
    requires Inv(s) && Enabled(s, Acquire(t))
    ensures Inv(Begin(s, t))
  {
    BeginKeepsOrder(s, t);
    hide LogValid, LockOrder;
    var after := Begin(s, t);
    forall u: nat | InWindow(after, u) ensures InWindow(s, u) { }
  }

  lemma BeginKeepsOrder(s: System, t: nat)
    requires Inv(s) && Enabled(s, Acquire(t))
    ensures var after := Begin(s, t); LocksHeld(after) && LogValid(after) && LockOrder(after)
  {
    hide SnapshotsCurrent, Linear, SuccessIsLogged;
    var after := Begin(s, t);
    forall u: nat | InLock(after, u) && u != t ensures OpOf(s, u).issue != OpOf(s, t).issue { assert InLock(s, u); }
    forall i | 0 <= i < |s.log| && s.log[i].Called? ensures s.log[i].t != t { }
  }

  lemma MoveKeeps(s: System, t: nat, stage: Stage)
    requires Inv(s) && InLock(s, t) && !stage.Finished? && !stage.Waiting? && !stage.Reading? && !s.tasks[t].stage.Reading?
    ensures Inv(Move(s, t, stage))
  {
    InsideKeepsOrder(s, t, s.tasks[t].(stage := stage));
    hide LocksHeld, LogValid, LockOrder;
    var after := Move(s, t, stage);
    forall u: nat ensures InLock(after, u) <==> InLock(s, u) { }
  }

  /** Inside the block a call may go on in any way without moving the locks or the log. */
  lemma InsideKeepsOrder(s: System, t: nat, task: Task)
    requires Inv(s) && InLock(s, t) && task.ticket == s.tasks[t].ticket && !task.stage.Waiting? && !task.stage.Finished?
    ensures var after := s.(tasks := s.tasks[t := task]); LocksHeld(after) && LogValid(after) && LockOrder(after)
  {
    hide SnapshotsCurrent, Linear, SuccessIsLogged;
    var after := s.(tasks := s.tasks[t := task]);
    forall u: nat ensures InLock(after, u) <==> InLock(s, u) { }
    forall i | 0 <= i < |s.log| && s.log[i].Called? ensures s.log[i].t != t { }
  }

  lemma SnapshotKeeps(s: System, t: nat)
    requires Inv(s) && InLock(s, t)
    ensures Inv(Snapshot(s, t))
  {
    InsideKeepsOrder(s, t, s.tasks[t].(stage := Editing, snapshot := LabelsOf(s.labels, OpOf(s, t).issue)));
    hide LocksHeld, LogValid, LockOrder;
    var after := Snapshot(s, t);
    forall u: nat ensures InLock(after, u) <==> InLock(s, u) { }
  }

  lemma FinishKeeps(s: System, t: nat, ok: bool)
    requires Inv(s) && InLock(s, t) && (ok ==> OpOf(s, t).Remove?)
    ensures Inv(Finish(s, t, ok))
  {
    FinishKeepsOrder(s, t, ok);
    hide LocksHeld, LogValid, LockOrder;
    var after := Finish(s, t, ok);
    forall u: nat | InWindow(after, u) ensures InWindow(s, u) && u != t { }
  }

  lemma FinishKeepsOrder(s: System, t: nat, ok: bool)
    requires Inv(s) && InLock(s, t)
    ensures var after := Finish(s, t, ok); LocksHeld(after) && LogValid(after) && LockOrder(after)
  {
    hide SnapshotsCurrent, Linear, SuccessIsLogged;
    var after := Finish(s, t, ok);
    forall u: nat ensures InLock(after, u) <==> InLock(s, u) && u != t { }
    forall u: nat | InLock(after, u) ensures OpOf(s, u).issue != OpOf(s, t).issue { }
    forall i | 0 <= i < |s.log| && s.log[i].Called? ensures s.log[i].t != t { }
  }

  lemma EffectIsLinear(s: System, t: nat)
    requires Inv(s) && InLock(s, t) && !s.tasks[t].stage.Reading?
    ensures var after := TakeEffect(s, t);
            forall issue :: LabelsOf(after.labels, issue) == Replay(s.setup, after.log, issue)
  {
    assert (s.log + [Called(OpOf(s, t), t)])[..|s.log|] == s.log;
  }

  lemma EffectKeeps(s: System, t: nat, ok: bool)
    requires Inv(s) && InLock(s, t) && !s.tasks[t].stage.Reading?
    ensures Inv(Finish(TakeEffect(s, t), t, ok))
  {
    EffectIsLinear(s, t);
    EffectKeepsOrder(s, t, ok);
    hide LogValid, LockOrder, Effect;
    var after := Finish(TakeEffect(s, t), t, ok);
    forall u: nat ensures InLock(after, u) <==> InLock(s, u) && u != t { }
    forall u: nat | InLock(after, u) ensures OpOf(s, u).issue != OpOf(s, t).issue { }
    assert after.log[|s.log|] == Called(OpOf(s, t), t);
    forall e | e in s.log ensures e in after.log { }
  }

  lemma EffectKeepsOrder(s: System, t: nat, ok: bool)
    requires Inv(s) && InLock(s, t)
    ensures var after := Finish(TakeEffect(s, t), t, ok); LogValid(after) && LockOrder(after)
  {
    hide SnapshotsCurrent, Linear, SuccessIsLogged, Effect;
    var after := Finish(TakeEffect(s, t), t, ok);
    forall u: nat ensures InLock(after, u) <==> InLock(s, u) && u != t { }
    forall u: nat | InLock(after, u) ensures OpOf(s, u).issue != OpOf(s, t).issue { }
    forall i | 0 <= i < |after.log| ensures after.log[i] == if i < |s.log| then s.log[i] else Called(OpOf(s, t), t) { }
  }

  lemma StepKeeps(s: System, e: Event)
    requires Inv(s) && Enabled(s, e) && !e.Outsider?
    ensures Inv(Apply(s, e)) && Apply(s, e).setup == s.setup
  {
    hide Inv;
    match e
    case Acquire(t) => BeginKeeps(s, t);
    case Read(t, ok) => if ok { SnapshotKeeps(s, t); } else { FinishKeeps(s, t, false); }
    case Create(t, ok) => if ok { MoveKeeps(s, t, Retrying); } else { FinishKeeps(s, t, false); }
    case Edit(t, answer) =>
      var removal := OpOf(s, t).Remove?;
      match answer {
        case Done => EffectKeeps(s, t, true);
        case Lost => EffectKeeps(s, t, removal);
        case Refused => FinishKeeps(s, t, removal);
        case NotFound =>
          if s.tasks[t].stage.Editing? && !removal { MoveKeeps(s, t, Creating); } else { FinishKeeps(s, t, removal); }
      }
  }

  lemma {:induction false} RunKeeps(s: System, events: seq<Event>)
    requires Inv(s) && Runs(s, events) && Undisturbed(events)
    ensures Inv(Run(s, events)) && Run(s, events).setup == s.setup
    decreases |events|
  {
    if events != [] {
      StepKeeps(s, events[0]);
      RunKeeps(Apply(s, events[0]), events[1..]);
    }
  }

  // ---------------------------------------------------------------- writers outside the lock

  /** For every swap on the issue that has read and not yet written, the edit makes no difference to what it will write. */
  ghost predicate Harmless(s: System, op: Op) {
    var now := LabelsOf(s.labels, op.issue);
    forall t: nat | InWindow(s, t) && OpOf(s, t).issue == op.issue ::
      Effect(OpOf(s, t), Effect(op, now, s.setup.states), s.setup.states) == Effect(OpOf(s, t), now, s.setup.states)
  }

  lemma HarmlessKeeps(s: System, op: Op)
    requires Inv(s) && Harmless(s, op)
    ensures Inv(Meddle(s, op))
  {
    MeddleKeepsOrder(s, op);
    MeddleStaysLinear(s, op);
    hide LocksHeld, LogValid, LockOrder, Linear;
    var after := Meddle(s, op);
    forall u: nat | InWindow(after, u)
      ensures Effect(OpOf(s, u), s.tasks[u].snapshot, s.setup.states)
              == Effect(OpOf(s, u), LabelsOf(after.labels, OpOf(s, u).issue), s.setup.states)
    {
      assert InWindow(s, u);
    }
    forall e | e in s.log ensures e in after.log { }
    assert SuccessIsLogged(after);
  }

  lemma MeddleStaysLinear(s: System, op: Op)
    requires Linear(s)
    ensures Linear(Meddle(s, op))
  {
    assert Meddle(s, op).log[..|s.log|] == s.log;
  }

  lemma MeddleKeepsOrder(s: System, op: Op)
    requires Inv(s)
    ensures var after := Meddle(s, op); LocksHeld(after) && LogValid(after) && LockOrder(after)
  {
    hide SnapshotsCurrent, Linear, SuccessIsLogged;
    var after := Meddle(s, op);
    forall u: nat ensures InLock(after, u) <==> InLock(s, u) { }
    forall i | 0 <= i < |after.log| ensures after.log[i] == if i < |s.log| then s.log[i] else Foreign(op) { }
  }

  /** A swap in its window writes from its snapshot, whoever has edited in the meantime. */
  lemma StaleEditDiffers(s: System, op: Op, t: nat) returns (events: seq<Event>)
    requires Inv(s) && InWindow(s, t) && OpOf(s, t).issue == op.issue
    requires var now := LabelsOf(s.labels, op.issue);
             Effect(OpOf(s, t), Effect(op, now, s.setup.states), s.setup.states) != Effect(OpOf(s, t), now, s.setup.states)
    ensures Undisturbed(events) && Runs(Meddle(s, op), events) && !Linear(Run(Meddle(s, op), events))
  {
    var s1 := Meddle(s, op);
    var ready := if s.tasks[t].stage.Creating? then Move(s1, t, Retrying) else s1;
    var done := Answered(ready, t, Done);
    RunFirst(ready, Edit(t, Done), []);
    assert [Edit(t, Done)] + [] == [Edit(t, Done)];
    if s.tasks[t].stage.Creating? {
      RunFirst(s1, Create(t, true), [Edit(t, Done)]);
      events := [Create(t, true)] + [Edit(t, Done)];
    } else {
      events := [Edit(t, Done)];
    }
    assert s1.log[..|s.log|] == s.log && done.log[..|s1.log|] == s1.log;
    assert Replay(s.setup, s1.log, op.issue) == Effect(op, LabelsOf(s.labels, op.issue), s.setup.states);
    assert LabelsOf(done.labels, op.issue) != Replay(s.setup, done.log, op.issue);
  }

  /**
   * An edit outside the lock leaves every later moment of the adapter's work linearizable exactly
   * when it is harmless to the swaps under way; with no swap on its issue under way it always is.
   */
  lemma HarmlessExactly(s: System, op: Op)
    requires Inv(s)
    ensures (forall events :: Runs(Meddle(s, op), events) && Undisturbed(events) ==> Linear(Run(Meddle(s, op), events)))
            <==> Harmless(s, op)
  {
    if Harmless(s, op) {
      HarmlessKeeps(s, op);
      forall events | Runs(Meddle(s, op), events) && Undisturbed(events) ensures Linear(Run(Meddle(s, op), events)) {
        RunKeeps(Meddle(s, op), events);
      }
    } else {
      var t: nat :| InWindow(s, t) && OpOf(s, t).issue == op.issue
                    && var now := LabelsOf(s.labels, op.issue);
                       Effect(OpOf(s, t), Effect(op, now, s.setup.states), s.setup.states) != Effect(OpOf(s, t), now, s.setup.states);
      var events := StaleEditDiffers(s, op, t);
    }
  }

  /** Every edit from outside is harmless at its moment. */
  ghost predicate HarmlessRun(s: System, events: seq<Event>)
    decreases |events|
  {
    events == []
    || (&& Enabled(s, events[0]) && (events[0].Outsider? ==> Harmless(s, events[0].op))
        && HarmlessRun(Apply(s, events[0]), events[1..]))
  }

  lemma {:induction false} HarmlessRunKeeps(s: System, events: seq<Event>)
    requires Inv(s) && HarmlessRun(s, events)
    ensures Runs(s, events) && Inv(Run(s, events)) && Run(s, events).setup == s.setup
    decreases |events|
  {
    hide Inv;
    if events != [] {
      var e := events[0];
      if e.Outsider? { HarmlessKeeps(s, e.op); } else { StepKeeps(s, e); }
      HarmlessRunKeeps(Apply(s, e), events[1..]);
    }
  }

  /**
   * At every moment of every interleaving, with any harmless edits from outside, the labels are
   * those of the effective edits made one after the other, the adapter's own in the order of the lock.
   */
  lemma LabelsAreLinear(setup: Setup, events: seq<Event>)
    requires HarmlessRun(Start(setup), events)
    ensures Runs(Start(setup), events)
    ensures var s := Run(Start(setup), events);
            && s.setup == setup && LogValid(s) && LockOrder(s) && SuccessIsLogged(s)
            && forall issue :: LabelsOf(s.labels, issue) == Replay(setup, s.log, issue)
  {
    StartIsFine(setup);
    HarmlessRunKeeps(Start(setup), events);
  }

  /** Without anybody outside, every run is such a run. */
  lemma {:induction false} UndisturbedIsHarmless(s: System, events: seq<Event>)
    requires Runs(s, events) && Undisturbed(events)
    ensures HarmlessRun(s, events)
    decreases |events|
  {
    if events != [] { UndisturbedIsHarmless(Apply(s, events[0]), events[1..]); }
  }

  // ---------------------------------------------------------------- what the calls do, from their events

  /** The edits that reached the server, in order: those answered as done or lost, and those from outside. */
  function Effective(setup: Setup, events: seq<Event>): seq<Entry> {
    if events == [] then [] else Effective(setup, events[..|events| - 1]) + EntriesOf(setup, events[|events| - 1])
  }

  function EntriesOf(setup: Setup, e: Event): seq<Entry> {
    if e.Outsider? then [Foreign(e.op)]
    else if e.Edit? && (e.answer.Done? || e.answer.Lost?) && e.t < |setup.ops| then [Called(setup.ops[e.t], e.t)]
    else []
  }

  /** The events of one call. */
  function EventsOf(events: seq<Event>, t: nat): seq<Event> {
    if events == [] then []
    else
      var before, e := EventsOf(events[..|events| - 1], t), events[|events| - 1];
      if !e.Outsider? && e.t == t then before + [e] else before
  }

  /** A call takes the lock; a swap then reads. */
  function Opening(op: Op, t: nat): seq<Event> {
    if op.Swap? then [Acquire(t), Read(t, true)] else [Acquire(t)]
  }

  /** How a call can end, and what it reports: a removal is never retried and reports no failure. */
  predicate Ends(op: Op, t: nat, trace: seq<Event>, ok: bool) {
    || (op.Swap? && !ok && trace == [Acquire(t), Read(t, false)])
    || (exists answer :: trace == Opening(op, t) + [Edit(t, answer)]
                         && (answer.NotFound? ==> op.Remove?) && ok == (op.Remove? || answer.Done?))
    || (!op.Remove? && !ok && trace == Opening(op, t) + [Edit(t, NotFound), Create(t, false)])
    || (!op.Remove? && exists answer ::
          trace == Opening(op, t) + [Edit(t, NotFound), Create(t, true), Edit(t, answer)] && ok == answer.Done?)
  }

  /** How far a call is, told by its events alone. */
  predicate StageFollows(op: Op, t: nat, trace: seq<Event>, stage: Stage) {
    match stage
    case Waiting => trace == []
    case Reading => op.Swap? && trace == [Acquire(t)]
    case Editing => trace == Opening(op, t)
    case Creating => !op.Remove? && trace == Opening(op, t) + [Edit(t, NotFound)]
    case Retrying => !op.Remove? && trace == Opening(op, t) + [Edit(t, NotFound), Create(t, true)]
    case Finished(ok) => Ends(op, t, trace, ok)
  }

  /** The log and the stages are those the events so far call for. */
  ghost predicate Accounted(s: System, events: seq<Event>) {
    && s.log == Effective(s.setup, events) && |s.tasks| == |s.setup.ops|
    && forall t: nat | IsTask(s, t) :: StageFollows(OpOf(s, t), t, EventsOf(events, t), s.tasks[t].stage)
  }

  lemma EventsGrow(setup: Setup, events: seq<Event>, e: Event)
    ensures Effective(setup, events + [e]) == Effective(setup, events) + EntriesOf(setup, e)
    ensures forall t: nat :: EventsOf(events + [e], t)
                             == if !e.Outsider? && e.t == t then EventsOf(events, t) + [e] else EventsOf(events, t)
  {
    assert (events + [e])[..|events|] == events;
  }

  lemma StageMoves(s: System, t: nat, e: Event, trace: seq<Event>)
    requires Enabled(s, e) && !e.Outsider? && e.t == t && StageFollows(OpOf(s, t), t, trace, s.tasks[t].stage)
    ensures StageFollows(OpOf(s, t), t, trace + [e], Apply(s, e).tasks[t].stage)
  {
    var opening := Opening(OpOf(s, t), t);
    match e
    case Acquire(_) =>
    case Read(_, ok) =>
    case Create(_, ok) => assert opening + [Edit(t, NotFound)] + [e] == opening + [Edit(t, NotFound), e];
    case Edit(_, answer) =>
      if s.tasks[t].stage.Retrying? {
        assert opening + [Edit(t, NotFound), Create(t, true)] + [e] == opening + [Edit(t, NotFound), Create(t, true), e];
      }
  }

  lemma StepLogs(s: System, e: Event)
    requires Enabled(s, e)
    ensures var after := Apply(s, e);
            && after.log == s.log + EntriesOf(s.setup, e) && after.setup == s.setup && |after.tasks| == |s.tasks|
            && forall t: nat | IsTask(s, t) && !(!e.Outsider? && e.t == t) :: after.tasks[t] == s.tasks[t]
  {
    hide Effect;
  }

  lemma StageStays(s: System, events: seq<Event>, e: Event, t: nat)
    requires Enabled(s, e) && IsTask(s, t) && StageFollows(OpOf(s, t), t, EventsOf(events, t), s.tasks[t].stage)
    ensures |Apply(s, e).tasks| == |s.tasks|
    ensures StageFollows(OpOf(s, t), t, EventsOf(events + [e], t), Apply(s, e).tasks[t].stage)
  {
    EventsGrow(s.setup, events, e);
    StepLogs(s, e);
    if !e.Outsider? && e.t == t { StageMoves(s, t, e, EventsOf(events, t)); }
    hide Apply, Enabled, EventsOf, Effective, EntriesOf, StageFollows;
  }

  lemma StepAccounts(s: System, events: seq<Event>, e: Event)
    requires Accounted(s, events) && Enabled(s, e)
    ensures Accounted(Apply(s, e), events + [e]) && Apply(s, e).setup == s.setup
  {
    var after := Apply(s, e);
    EventsGrow(s.setup, events, e);
    StepLogs(s, e);
    hide Apply, Enabled, EventsOf, Effective, EntriesOf, StageFollows;
    forall t: nat | IsTask(after, t)
      ensures StageFollows(OpOf(after, t), t, EventsOf(events + [e], t), after.tasks[t].stage)
    {
      assert StageFollows(OpOf(s, t), t, EventsOf(events, t), s.tasks[t].stage);
      StageStays(s, events, e, t);
    }
  }

  lemma {:induction false} RunAccounts(s: System, before: seq<Event>, events: seq<Event>)
    requires Accounted(s, before) && Runs(s, events)
    ensures Accounted(Run(s, events), before + events) && Run(s, events).setup == s.setup
    decreases |events|
  {
    hide Accounted, Enabled, Apply;
    if events == [] {
      assert before + events == before;
    } else {
      StepAccounts(s, before, events[0]);
      RunAccounts(Apply(s, events[0]), before + [events[0]], events[1..]);
      assert before + [events[0]] + events[1..] == before + events;
    }
  }

  lemma StartAccounts(setup: Setup, events: seq<Event>)
    requires Runs(Start(setup), events)
    ensures Accounted(Run(Start(setup), events), events) && Run(Start(setup), events).setup == setup
  {
    assert Accounted(Start(setup), []);
    RunAccounts(Start(setup), [], events);
    assert [] + events == events;
  }

  /**
   * On every run, with whatever edits from outside, the effective edits are those the server answered
   * as done or lost, in the order of their answers; a call makes at most two edits, the second only
   * after its first was answered "not found" and the label created; and a call that is over reports
   * success exactly when it is a removal that reached its edit or its last edit was answered as done.
   */
  lemma CallsReportExactly(setup: Setup, events: seq<Event>, t: nat)
    requires Runs(Start(setup), events) && t < |setup.ops|
    ensures var s := Run(Start(setup), events);
            && s.setup == setup && s.log == Effective(setup, events) && |s.tasks| == |setup.ops|
            && StageFollows(setup.ops[t], t, EventsOf(events, t), s.tasks[t].stage)
            && (s.tasks[t].stage.Finished? ==>
                  var trace := EventsOf(events, t);
                  trace != [] && (s.tasks[t].stage.ok <==> setup.ops[t].Remove? || trace[|trace| - 1] == Edit(t, Done)))
  {
    StartAccounts(setup, events);
    hide Runs, Run, EventsOf, Effective;
    var trace := EventsOf(events, t);
    var stage := Run(Start(setup), events).tasks[t].stage;
    if stage.Finished? { EndsExactly(setup.ops[t], t, trace, stage.ok); }
  }

  lemma EndsExactly(op: Op, t: nat, trace: seq<Event>, ok: bool)
    requires Ends(op, t, trace, ok)
    ensures trace != [] && (ok <==> op.Remove? || trace[|trace| - 1] == Edit(t, Done))
  {
  }

  // ---------------------------------------------------------------- consequences

  /** An edit that takes the label away from the issue. */
  predicate TakesAway(setup: Setup, op: Op, issue: Issue, name: Label) {
    op.issue == issue && ((op.Remove? && op.name == name) || (op.Swap? && name in setup.states && op.name != name))
  }

  predicate Brings(op: Op, issue: Issue, name: Label) {
    op.issue == issue && !op.Remove? && op.name == name
  }

  lemma {:induction false} ReplayHolds(setup: Setup, log: seq<Entry>, k: nat, issue: Issue, name: Label)
    requires k < |log| && Brings(log[k].op, issue, name)
    requires forall i | k < i < |log| :: !TakesAway(setup, log[i].op, issue, name)
    ensures name in Replay(setup, log, issue)
    decreases |log|
  {
    if k < |log| - 1 { ReplayHolds(setup, log[..|log| - 1], k, issue, name); }
  }

  lemma {:induction false} ReplayLacks(setup: Setup, log: seq<Entry>, k: nat, issue: Issue, name: Label)
    requires k < |log| && TakesAway(setup, log[k].op, issue, name)
    requires forall i | k < i < |log| :: !Brings(log[i].op, issue, name)
    ensures name !in Replay(setup, log, issue)
    decreases |log|
  {
    if k < |log| - 1 { ReplayLacks(setup, log[..|log| - 1], k, issue, name); }
  }

  /** An edit leaves a label on the issue exactly when it brings it, or it was there and is not taken away. */
  lemma EffectExactly(setup: Setup, op: Op, labels: set<Label>, name: Label)
    ensures name in Effect(op, labels, setup.states)
            <==> Brings(op, op.issue, name) || (name in labels && !TakesAway(setup, op, op.issue, name))
  {
  }

  /** The k-th edit brings the label, and none after it takes it away. */
  predicate BroughtForGood(setup: Setup, log: seq<Entry>, k: nat, issue: Issue, name: Label) {
    k < |log| && Brings(log[k].op, issue, name) && forall i | k < i < |log| :: !TakesAway(setup, log[i].op, issue, name)
  }

  /** Some edit brings the label for good, or it was there at the start and none takes it away. */
  ghost predicate IsThere(setup: Setup, log: seq<Entry>, issue: Issue, name: Label) {
    || (exists k: nat :: BroughtForGood(setup, log, k, issue, name))
    || (name in LabelsOf(setup.initial, issue) && forall i | 0 <= i < |log| :: !TakesAway(setup, log[i].op, issue, name))
  }

  lemma {:induction false} ReplayExactly(setup: Setup, log: seq<Entry>, issue: Issue, name: Label)
    ensures name in Replay(setup, log, issue) <==> IsThere(setup, log, issue, name)
    decreases |log|
  {
    if log != [] {
      var n := |log| - 1;
      var front, op := log[..n], log[n].op;
      ReplayExactly(setup, front, issue, name);
      EffectExactly(setup, op, Replay(setup, front, issue), name);
      hide Effect, Replay;
      if Brings(op, issue, name) { assert BroughtForGood(setup, log, n, issue, name); }
      forall k: nat | k < n ensures BroughtForGood(setup, log, k, issue, name)
                                    <==> BroughtForGood(setup, front, k, issue, name) && !TakesAway(setup, op, issue, name) {
        FrontBrought(setup, log, k, issue, name);
      }
      assert forall k: nat :: BroughtForGood(setup, front, k, issue, name) ==> k < n;
      assert forall k: nat :: BroughtForGood(setup, log, k, issue, name) ==> k <= n;
      TakenInFront(setup, log, issue, name);
    }
  }

  lemma FrontBrought(setup: Setup, log: seq<Entry>, k: nat, issue: Issue, name: Label)
    requires k < |log| - 1
    ensures var n := |log| - 1;
            BroughtForGood(setup, log, k, issue, name)
            <==> BroughtForGood(setup, log[..n], k, issue, name) && !TakesAway(setup, log[n].op, issue, name)
  {
  }

  lemma TakenInFront(setup: Setup, log: seq<Entry>, issue: Issue, name: Label)
    requires log != []
    ensures var n := |log| - 1;
            (forall i | 0 <= i < |log| :: !TakesAway(setup, log[i].op, issue, name))
            <==> (forall i | 0 <= i < n :: !TakesAway(setup, log[..n][i].op, issue, name)) && !TakesAway(setup, log[n].op, issue, name)
  {
    assert forall i | 0 <= i < |log| - 1 :: log[..|log| - 1][i] == log[i];
  }

  /**
   * After every run with harmless edits from outside a label is on an issue exactly when some effective
   * edit brought it and no later one took it away, or it was there at the start and none took it away.
   */
  lemma LabelsExactly(setup: Setup, events: seq<Event>, issue: Issue, name: Label)
    requires HarmlessRun(Start(setup), events)
    ensures Runs(Start(setup), events)
    ensures var log := Effective(setup, events);
            name in LabelsOf(Run(Start(setup), events).labels, issue) <==> IsThere(setup, log, issue, name)
  {
    LabelsAreLinear(setup, events);
    assert Run(Start(setup), events).log == Effective(setup, events) by { StartAccounts(setup, events); }
    hide HarmlessRun, Run, Runs, LogValid, LockOrder, SuccessIsLogged, Replay, Effective, IsThere, Accounted;
    ReplayExactly(setup, Effective(setup, events), issue, name);
  }

  /** No add is lost: after a run a label brought by the k-th effective edit is there unless a later one took it away. */
  lemma NoAddIsLost(setup: Setup, events: seq<Event>, k: nat, issue: Issue, name: Label)
    requires HarmlessRun(Start(setup), events) && Runs(Start(setup), events)
    requires var log := Run(Start(setup), events).log;
             && k < |log| && Brings(log[k].op, issue, name)
             && forall i | k < i < |log| :: !TakesAway(setup, log[i].op, issue, name)
    ensures name in LabelsOf(Run(Start(setup), events).labels, issue)
  {
    LabelsAreLinear(setup, events);
    ReplayHolds(setup, Run(Start(setup), events).log, k, issue, name);
  }

  /** No removal is undone: after a run a label taken away by the k-th effective edit is absent unless a later one brought it. */
  lemma NoRemovalIsUndone(setup: Setup, events: seq<Event>, k: nat, issue: Issue, name: Label)
    requires HarmlessRun(Start(setup), events) && Runs(Start(setup), events)
    requires var log := Run(Start(setup), events).log;
             && k < |log| && TakesAway(setup, log[k].op, issue, name)
             && forall i | k < i < |log| :: !Brings(log[i].op, issue, name)
    ensures name !in LabelsOf(Run(Start(setup), events).labels, issue)
  {
    LabelsAreLinear(setup, events);
    ReplayLacks(setup, Run(Start(setup), events).log, k, issue, name);
  }

  /** Swaps name states; adds and removals do not. */
  predicate StatesBySwapOnly(setup: Setup, log: seq<Entry>, issue: Issue) {
    forall i | 0 <= i < |log| && log[i].op.issue == issue :: log[i].op.Swap? <==> log[i].op.name in setup.states
  }

  predicate IsSwapOn(e: Entry, issue: Issue) {
    e.op.Swap? && e.op.issue == issue
  }

  /** From the first effective swap on, the issue has exactly one state label: that of the latest swap. */
  lemma {:induction false} ExactlyOneState(setup: Setup, log: seq<Entry>, k: nat, issue: Issue)
    requires StatesBySwapOnly(setup, log, issue) && k < |log| && IsSwapOn(log[k], issue)
    requires forall i | k < i < |log| :: !IsSwapOn(log[i], issue)
    ensures Replay(setup, log, issue) * setup.states == {log[k].op.name}
    decreases |log|
  {
    if k < |log| - 1 {
      ExactlyOneState(setup, log[..|log| - 1], k, issue);
    }
  }

  /** So at every moment after an effective swap every reader sees exactly one state label. */
  lemma OneStateAtEveryMoment(setup: Setup, events: seq<Event>, issue: Issue, first: nat)
    requires HarmlessRun(Start(setup), events) && Runs(Start(setup), events)
    requires var log := Run(Start(setup), events).log;
             StatesBySwapOnly(setup, log, issue) && first < |log| && IsSwapOn(log[first], issue)
    ensures |LabelsOf(Run(Start(setup), events).labels, issue) * setup.states| == 1
  {
    LabelsAreLinear(setup, events);
    var log := Run(Start(setup), events).log;
    var k := LatestSwap(log, issue, first);
    ExactlyOneState(setup, log, k, issue);
  }

  lemma {:induction false} LatestSwap(log: seq<Entry>, issue: Issue, first: nat) returns (k: nat)
    requires first < |log| && IsSwapOn(log[first], issue)
    ensures first <= k < |log| && IsSwapOn(log[k], issue) && forall i | k < i < |log| :: !IsSwapOn(log[i], issue)
    decreases |log| - first
  {
    if next :| first < next < |log| && IsSwapOn(log[next], issue) {
      k := LatestSwap(log, issue, next);
    } else {
      k := first;
    }
  }

  /** An edit that is not harmless: a label added from outside between a swap's read and its edit is lost. */
  lemma OutsidersAreOverwritten(issue: Issue, state: Label, name: Label)
    requires name != state
    ensures var setup := Setup({state}, map[], [Swap(issue, state)]);
            var events := [Acquire(0), Read(0, true), Outsider(Add(issue, name)), Edit(0, Done)];
            && Runs(Start(setup), events)
            && name !in LabelsOf(Run(Start(setup), events).labels, issue)
            && Runs(Start(setup), events[..3])
            && name in LabelsOf(Run(Start(setup), events[..3]).labels, issue)
  {
    var setup := Setup({state}, map[], [Swap(issue, state)]);
    var a, b, c, d := Acquire(0), Read(0, true), Outsider(Add(issue, name)), Edit(0, Done);
    var s0 := Start(setup);
    var s1 := Apply(s0, a);
    var s2 := Apply(s1, b);
    var s3 := Apply(s2, c);
    var s4 := Apply(s3, d);
    assert s4.labels[issue] == {state};
    RunFirst(s3, d, []);
    RunFirst(s2, c, [d]);
    RunFirst(s1, b, [c, d]);
    RunFirst(s0, a, [b, c, d]);
    assert [d] == [d] + [] && [c, d] == [c] + [d] && [b, c, d] == [b] + [c, d] && [a, b, c, d] == [a] + [b, c, d];
    RunFirst(s2, c, []);
    RunFirst(s1, b, [c]);
    RunFirst(s0, a, [b, c]);
    assert [c] == [c] + [] && [b, c] == [b] + [c] && [a, b, c, d][..3] == [a] + [b, c];
  }

  lemma RunFirst(s: System, e: Event, rest: seq<Event>)
    requires Enabled(s, e) && Runs(Apply(s, e), rest)
    ensures Runs(s, [e] + rest) && Run(s, [e] + rest) == Run(Apply(s, e), rest)
  {
    assert ([e] + rest)[1..] == rest;
  }
}
