/** The workflow engine: retries per model, inside model fallback, inside a run's steps (sova/core/workflow.py). */
module WorkflowEngine {
  import opened Basics

  // ---------------------------------------------------------------- what the engine sees

  /** The classes `sova.llm.errors` and the runaway prefix put an error text in. */
  datatype ErrorKind = ErrorKind(runaway: bool, configuration: bool, billing: bool)

  datatype StepResult = StepResult(
    success: bool, awaitingApproval: bool, runawayTriggered: bool, error: ErrorKind)

  /**
   * One attempt as the environment decides it: the bookkeeping row cannot be created, or the step
   * runs, possibly choosing a model itself, and its two gates would answer as given.
   */
  datatype Attempt =
    | RowFailed
    | Ran(result: StepResult, validated: bool, verified: bool, assigns: Option<string>)

  datatype Verdict = Continue | Done | Failed | BillingExhausted | NonRetryable | Runaway

  datatype RecordStatus = Pending | RecordDone | RecordFailed | Skipped | RecordRunaway

  /** `gate` is the outcome of the last gate check; nothing ever clears it. */
  datatype StepRecord = StepRecord(
    name: string, status: RecordStatus, result: Option<StepResult>, gate: Option<bool>,
    retries: nat, totalAttempts: nat)

  function FreshRecord(name: string): StepRecord {
    StepRecord(name, Pending, None, None, 0, 0)
  }

  datatype Config = Config(
    agentModel: string, chain: seq<string>, engineOwnedFallback: bool,
    maxStepAttempts: nat, maxRunSteps: nat)

  datatype Event = Executed(model: string, attempt: Attempt) | RowLost | Switched(from: string, to: string)

  /** The state the loops change: fallback position, resolved model, environment clock, record, history. */
  datatype Machine = Machine(
    index: nat, model: Option<string>, clock: nat, record: StepRecord, trace: seq<Event>)

  function Current(cfg: Config, m: Machine): string {
    if m.model.Some? && m.model.value != "" then m.model.value else cfg.agentModel
  }

  predicate HasFallback(cfg: Config, index: nat) {
    cfg.engineOwnedFallback && index < |cfg.chain|
  }

  const BROKEN := StepResult(false, false, false, ErrorKind(false, false, false))

  // ---------------------------------------------------------------- one attempt

  function Classify(cfg: Config, index: nat, e: ErrorKind): Verdict {
    if e.runaway then Runaway
    else if e.configuration then NonRetryable
    else if e.billing && HasFallback(cfg, index) then BillingExhausted
    else Failed
  }

  function AfterAttempt(cfg: Config, m: Machine, a: Attempt): (Machine, Verdict) {
    if a.RowFailed? then
      (m.(clock := m.clock + 1, record := m.record.(result := Some(BROKEN)), trace := m.trace + [RowLost]), Continue)
    else
      var m1 := m.(clock := m.clock + 1,
                   model := if a.assigns.Some? then a.assigns else m.model,
                   record := m.record.(result := Some(a.result)),
                   trace := m.trace + [Executed(Current(cfg, m), a)]);
      if !a.result.success then
        (m1, if a.result.runawayTriggered then Runaway else Classify(cfg, m1.index, a.result.error))
      else
        var passed := a.validated && a.verified;
        (m1.(record := m1.record.(gate := Some(passed))), if passed then Done else Failed)
  }

  // ---------------------------------------------------------------- the retry loop of one model

  predicate CapReached(cfg: Config, m: Machine) {
    cfg.maxStepAttempts != 0 && m.record.totalAttempts >= cfg.maxStepAttempts
  }

  function Ended(m: Machine, status: RecordStatus): Machine {
    m.(record := m.record.(status := status))
  }

  /** One counted attempt and the verdict on it. */
  function Next(cfg: Config, env: nat -> Attempt, attempts: nat, m: Machine): (Machine, Verdict) {
    var counted := m.(record := m.record.(totalAttempts := m.record.totalAttempts + 1));
    var (tried, verdict) := AfterAttempt(cfg, counted, env(m.clock));
    (tried.(record := tried.record.(retries := attempts)), verdict)
  }

  function EndStatus(v: Verdict): RecordStatus {
    match v
    case Done => RecordDone
    case Runaway => RecordRunaway
    case _ => RecordFailed
  }

  /** The rest of the retry loop after `attempts` attempts; no path but a billing failure asks for a switch. */
  function Try(cfg: Config, env: nat -> Attempt, max: nat, attempts: nat, m: Machine): (r: (Machine, Verdict))
    requires attempts <= max + 1
    ensures r.0.index == m.index && m.trace <= r.0.trace
    ensures r.1.BillingExhausted? ==> HasFallback(cfg, m.index)
    ensures !r.1.Continue? && !r.1.NonRetryable?
    decreases max + 1 - attempts
  {
    if attempts == max + 1 then (Ended(m, RecordFailed), Failed)
    else if CapReached(cfg, m) then
      (m.(record := m.record.(result := Some(BROKEN), status := RecordRunaway)), Runaway)
    else
      var (next, verdict) := Next(cfg, env, attempts, m);
      if verdict.Continue? || (verdict.Failed? && attempts + 1 < max + 1) then
        Try(cfg, env, max, attempts + 1, next)
      else
        (Ended(next, EndStatus(verdict)), if verdict.NonRetryable? then Failed else verdict)
  }

  function EventOf(cfg: Config, env: nat -> Attempt, m: Machine): Event {
    if env(m.clock).RowFailed? then RowLost else Executed(Current(cfg, m), env(m.clock))
  }

  /** What one attempt changes. */
  lemma NextFacts(cfg: Config, env: nat -> Attempt, attempts: nat, m: Machine)
    ensures var (n, v) := Next(cfg, env, attempts, m);
            && n.index == m.index && n.clock == m.clock + 1 && n.trace == m.trace + [EventOf(cfg, env, m)]
            && n.record.totalAttempts == m.record.totalAttempts + 1 && n.record.name == m.record.name
            && (v.Done? <==> Succeeded(EventOf(cfg, env, m)))
            && (v.Done? ==> n.record.result == Some(env(m.clock).result) && n.record.gate == Some(true))
            && (v.NonRetryable? ==> IsConfiguration(EventOf(cfg, env, m)))
  {
  }

  // ---------------------------------------------------------------- the fallback loop

  /** The first candidate from `index` on that differs from `current`, and the position after it. */
  function Advance(chain: seq<string>, current: string, index: nat): (r: (Option<string>, nat))
    ensures index <= r.1
    ensures r.0.Some? ==> r.1 <= |chain| && index < r.1 && chain[r.1 - 1] == r.0.value != current
    ensures r.0.Some? ==> forall k | index <= k < r.1 - 1 :: chain[k] == current
    ensures r.0.None? ==> forall k | index <= k < |chain| :: chain[k] == current
    decreases |chain| - index
  {
    if index >= |chain| then (None, index)
    else if chain[index] != current then (Some(chain[index]), index + 1)
    else Advance(chain, current, index + 1)
  }

  /** What the fallback loop does with the outcome of one model's retry loop. */
  function Switch(cfg: Config, tried: Machine): (r: (bool, Machine))
    ensures r.0 ==> tried.index < r.1.index <= |cfg.chain|
  {
    var current := Current(cfg, tried);
    var (next, index) := Advance(cfg.chain, current, tried.index);
    if next.None? then (false, Ended(tried.(index := index), RecordFailed))
    else (true, tried.(index := index, model := next, trace := tried.trace + [Switched(current, next.value)]))
  }

  function WithRetries(cfg: Config, env: nat -> Attempt, max: nat, m: Machine): Machine
    decreases if m.index <= |cfg.chain| then |cfg.chain| - m.index else 0
  {
    var (tried, verdict) := Try(cfg, env, max, 0, m);
    if !verdict.BillingExhausted? then tried
    else
      var (more, next) := Switch(cfg, tried);
      if more then WithRetries(cfg, env, max, next) else next
  }

  // ---------------------------------------------------------------- properties of one step

  function Executions(trace: seq<Event>): nat {
    if trace == [] then 0
    else Executions(trace[..|trace| - 1]) + if trace[|trace| - 1].Executed? then 1 else 0
  }

  lemma ExecutionsSnoc(trace: seq<Event>, e: Event)
    ensures Executions(trace + [e]) == Executions(trace) + if e.Executed? then 1 else 0
  {
    assert (trace + [e])[..|trace|] == trace;
  }

  /** How many models the step can still be tried on. */
  function ModelsLeft(cfg: Config, index: nat): nat {
    1 + if HasFallback(cfg, index) then |cfg.chain| - index else 0
  }

  lemma {:induction false} TryIsBounded(cfg: Config, env: nat -> Attempt, max: nat, attempts: nat, m: Machine)
    requires attempts <= max + 1
    ensures var r := Try(cfg, env, max, attempts, m).0;
            && Executions(r.trace) <= Executions(m.trace) + (max + 1 - attempts)
            && r.record.totalAttempts - m.record.totalAttempts >= Executions(r.trace) - Executions(m.trace)
    decreases max + 1 - attempts
  {
    hide Next;
    if attempts < max + 1 && !CapReached(cfg, m) {
      NextFacts(cfg, env, attempts, m);
      ExecutionsSnoc(m.trace, EventOf(cfg, env, m));
      TryIsBounded(cfg, env, max, attempts + 1, Next(cfg, env, attempts, m).0);
    }
  }

  lemma {:induction false} TryIsCapped(cfg: Config, env: nat -> Attempt, max: nat, attempts: nat, m: Machine)
    requires attempts <= max + 1 && cfg.maxStepAttempts != 0 && m.record.totalAttempts <= cfg.maxStepAttempts
    ensures Try(cfg, env, max, attempts, m).0.record.totalAttempts <= cfg.maxStepAttempts
    decreases max + 1 - attempts
  {
    hide Next;
    if attempts < max + 1 && !CapReached(cfg, m) {
      NextFacts(cfg, env, attempts, m);
      TryIsCapped(cfg, env, max, attempts + 1, Next(cfg, env, attempts, m).0);
    }
  }

  /** Executions still allowed when the fallback position is `index`: `max + 1` for each model left. */
  function Budget(cfg: Config, max: nat, index: nat): nat
    decreases if index <= |cfg.chain| then |cfg.chain| - index else 0
  {
    max + 1 + if HasFallback(cfg, index) then Budget(cfg, max, index + 1) else 0
  }

  lemma {:induction false} BudgetFormula(cfg: Config, max: nat, index: nat)
    ensures Budget(cfg, max, index) == (max + 1) * ModelsLeft(cfg, index)
    decreases if index <= |cfg.chain| then |cfg.chain| - index else 0
  {
    if HasFallback(cfg, index) {
      BudgetFormula(cfg, max, index + 1);
      var left := ModelsLeft(cfg, index);
      assert (max + 1) * (left - 1) == (max + 1) * left - (max + 1);
    }
  }

  lemma {:induction false} BudgetShrinks(cfg: Config, max: nat, index: nat, later: nat)
    requires index <= later
    ensures Budget(cfg, max, later) <= Budget(cfg, max, index)
    decreases later - index
  {
    if index < later { BudgetShrinks(cfg, max, index + 1, later); }
  }

  lemma BudgetDrops(cfg: Config, max: nat, index: nat, later: nat)
    requires HasFallback(cfg, index) && index < later
    ensures max + 1 + Budget(cfg, max, later) <= Budget(cfg, max, index)
  {
    BudgetShrinks(cfg, max, index + 1, later);
  }

  lemma {:induction false} StepIsWithinBudget(cfg: Config, env: nat -> Attempt, max: nat, m: Machine)
    ensures Executions(WithRetries(cfg, env, max, m).trace) <= Executions(m.trace) + Budget(cfg, max, m.index)
    decreases if m.index <= |cfg.chain| then |cfg.chain| - m.index else 0
  {
    TryIsBounded(cfg, env, max, 0, m);
    var (tried, verdict) := Try(cfg, env, max, 0, m);
    if verdict.BillingExhausted? {
      var (more, next) := Switch(cfg, tried);
      if more {
        SwitchIsNoExecution(cfg, tried);
        StepIsWithinBudget(cfg, env, max, next);
        BudgetDrops(cfg, max, m.index, next.index);
      }
    }
  }

  lemma SwitchIsNoExecution(cfg: Config, tried: Machine)
    ensures Executions(Switch(cfg, tried).1.trace) == Executions(tried.trace)
    ensures Switch(cfg, tried).1.record.totalAttempts == tried.record.totalAttempts
  {
    var (more, next) := Switch(cfg, tried);
    if more { ExecutionsSnoc(tried.trace, next.trace[|tried.trace|]); }
  }

  lemma {:induction false} StepIsWithinCap(cfg: Config, env: nat -> Attempt, max: nat, m: Machine)
    requires cfg.maxStepAttempts != 0 && m.record.totalAttempts <= cfg.maxStepAttempts
    ensures var r := WithRetries(cfg, env, max, m);
            && r.record.totalAttempts <= cfg.maxStepAttempts
            && r.record.totalAttempts - m.record.totalAttempts >= Executions(r.trace) - Executions(m.trace)
    decreases if m.index <= |cfg.chain| then |cfg.chain| - m.index else 0
  {
    TryIsBounded(cfg, env, max, 0, m);
    TryIsCapped(cfg, env, max, 0, m);
    var (tried, verdict) := Try(cfg, env, max, 0, m);
    if verdict.BillingExhausted? {
      var (more, next) := Switch(cfg, tried);
      SwitchIsNoExecution(cfg, tried);
      if more { StepIsWithinCap(cfg, env, max, next); }
    }
  }

  /**
   * Termination bound: a fresh step is executed at most `max_retries + 1` times per model that can
   * still be tried, and, with a cap set, never more often than the cap.
   */
  lemma StepIsBounded(cfg: Config, env: nat -> Attempt, max: nat, m: Machine)
    requires m.record.totalAttempts == 0
    ensures var executed := Executions(WithRetries(cfg, env, max, m).trace) - Executions(m.trace);
            && executed <= (max + 1) * ModelsLeft(cfg, m.index)
            && (cfg.maxStepAttempts != 0 ==> executed <= cfg.maxStepAttempts)
  {
    StepIsWithinBudget(cfg, env, max, m);
    BudgetFormula(cfg, max, m.index);
    if cfg.maxStepAttempts != 0 { StepIsWithinCap(cfg, env, max, m); }
  }

  predicate SwitchesModel(e: Event) {
    e.Switched? ==> e.from != e.to
  }

  predicate SwitchFree(trace: seq<Event>, from: nat) {
    forall i | from <= i < |trace| :: !trace[i].Switched?
  }

  lemma {:induction false} TryNeverSwitches(cfg: Config, env: nat -> Attempt, max: nat, attempts: nat, m: Machine)
    requires attempts <= max + 1
    ensures SwitchFree(Try(cfg, env, max, attempts, m).0.trace, |m.trace|)
    decreases max + 1 - attempts
  {
    hide Next;
    if attempts < max + 1 && !CapReached(cfg, m) {
      NextFacts(cfg, env, attempts, m);
      var next := Next(cfg, env, attempts, m).0;
      TryNeverSwitches(cfg, env, max, attempts + 1, next);
      var r := Try(cfg, env, max, attempts + 1, next).0;
      assert r.trace[|m.trace|] == next.trace[|m.trace|] == EventOf(cfg, env, m);
    }
  }

  /**
   * Model switching: the fallback position never goes back; every switch picks a model other than
   * the one in use; and an engine that does not own the fallback chain never switches at all.
   */
  lemma {:induction false} SwitchesAreSound(cfg: Config, env: nat -> Attempt, max: nat, m: Machine)
    ensures var r := WithRetries(cfg, env, max, m);
            && m.index <= r.index && m.trace <= r.trace
            && (forall i | |m.trace| <= i < |r.trace| :: SwitchesModel(r.trace[i]))
            && (!cfg.engineOwnedFallback ==> r.index == m.index && SwitchFree(r.trace, |m.trace|))
    decreases if m.index <= |cfg.chain| then |cfg.chain| - m.index else 0
  {
    TryNeverSwitches(cfg, env, max, 0, m);
    var (tried, verdict) := Try(cfg, env, max, 0, m);
    if verdict.BillingExhausted? {
      var (more, next) := Switch(cfg, tried);
      if more {
        SwitchesAreSound(cfg, env, max, next);
        var r := WithRetries(cfg, env, max, next);
        forall i | |m.trace| <= i < |r.trace| ensures SwitchesModel(r.trace[i]) {
          if i < |next.trace| { assert r.trace[i] == next.trace[i]; }
        }
      }
    }
  }

  /** The last model any attempt of the history chose itself, or the one given. */
  function LastAssigned(trace: seq<Event>, start: Option<string>): Option<string> {
    if trace == [] then start
    else
      var e := trace[|trace| - 1];
      if e.Executed? && e.attempt.Ran? && e.attempt.assigns.Some? then e.attempt.assigns
      else if e.Switched? then Some(e.to)
      else LastAssigned(trace[..|trace| - 1], start)
  }

  /** The gate answer of the last attempt that got as far as its gate, or the one given. */
  function LastGate(trace: seq<Event>, start: Option<bool>): Option<bool> {
    if trace == [] then start
    else
      var e := trace[|trace| - 1];
      if e.Executed? && e.attempt.Ran? && e.attempt.result.success
      then Some(e.attempt.validated && e.attempt.verified)
      else LastGate(trace[..|trace| - 1], start)
  }

  /** The record agrees with the history: who chose the model, and whose gate answer is kept. */
  ghost predicate Consistent(m: Machine, model: Option<string>, gate: Option<bool>) {
    m.model == LastAssigned(m.trace, model) && m.record.gate == LastGate(m.trace, gate)
  }

  lemma {:induction false} TryKeepsConsistent(
    cfg: Config, env: nat -> Attempt, max: nat, attempts: nat, m: Machine, model: Option<string>, gate: Option<bool>)
    requires attempts <= max + 1 && Consistent(m, model, gate)
    ensures Consistent(Try(cfg, env, max, attempts, m).0, model, gate)
    decreases max + 1 - attempts
  {
    hide Next;
    if attempts < max + 1 && !CapReached(cfg, m) {
      NextKeepsConsistent(cfg, env, attempts, m, model, gate);
      TryKeepsConsistent(cfg, env, max, attempts + 1, Next(cfg, env, attempts, m).0, model, gate);
    }
  }

  lemma NextKeepsConsistent(
    cfg: Config, env: nat -> Attempt, attempts: nat, m: Machine, model: Option<string>, gate: Option<bool>)
    requires Consistent(m, model, gate)
    ensures Consistent(Next(cfg, env, attempts, m).0, model, gate)
  {
    hide Classify, Current;
    assert (m.trace + [EventOf(cfg, env, m)])[..|m.trace|] == m.trace;
  }

  /**
   * The model in use afterwards was chosen by the last step attempt that chose one or by the last
   * switch; and the gate answer a failed record carries is the one of the last attempt that reached
   * its gate, which need not be the last attempt.
   */
  lemma {:induction false} RecordFollowsHistory(
    cfg: Config, env: nat -> Attempt, max: nat, m: Machine, model: Option<string>, gate: Option<bool>)
    requires Consistent(m, model, gate)
    ensures Consistent(WithRetries(cfg, env, max, m), model, gate)
    decreases if m.index <= |cfg.chain| then |cfg.chain| - m.index else 0
  {
    TryKeepsConsistent(cfg, env, max, 0, m, model, gate);
    var (tried, verdict) := Try(cfg, env, max, 0, m);
    if verdict.BillingExhausted? {
      var (more, next) := Switch(cfg, tried);
      if more {
        assert next.trace[..|tried.trace|] == tried.trace;
        RecordFollowsHistory(cfg, env, max, next, model, gate);
      }
    }
  }

  predicate Succeeded(e: Event) {
    e.Executed? && e.attempt.Ran? && e.attempt.result.success && e.attempt.validated && e.attempt.verified
  }

  predicate NoneSucceeded(trace: seq<Event>, from: nat, to: nat)
    requires to <= |trace|
  {
    forall i | from <= i < to :: !Succeeded(trace[i])
  }

  /** The record of a finished step says done and carries the result of the attempt that passed. */
  predicate ClosedBy(r: Machine, from: nat) {
    && |r.trace| > from && Succeeded(r.trace[|r.trace| - 1])
    && r.record.result == Some(r.trace[|r.trace| - 1].attempt.result) && r.record.gate == Some(true)
  }

  lemma {:induction false} TryDoneMeansPassed(cfg: Config, env: nat -> Attempt, max: nat, attempts: nat, m: Machine)
    requires attempts <= max + 1
    ensures var (r, v) := Try(cfg, env, max, attempts, m);
            && r.record.status == EndStatus(v)
            && (v.Done? ==> ClosedBy(r, |m.trace|) && NoneSucceeded(r.trace, |m.trace|, |r.trace| - 1))
            && (!v.Done? ==> NoneSucceeded(r.trace, |m.trace|, |r.trace|))
    decreases max + 1 - attempts
  {
    hide Next;
    if attempts < max + 1 && !CapReached(cfg, m) {
      NextFacts(cfg, env, attempts, m);
      var next := Next(cfg, env, attempts, m).0;
      TryDoneMeansPassed(cfg, env, max, attempts + 1, next);
      var r := Try(cfg, env, max, attempts + 1, next).0;
      assert r.trace[|m.trace|] == next.trace[|m.trace|] == EventOf(cfg, env, m);
    }
  }

  /**
   * A step ends done exactly when an attempt succeeded and passed both gates, and then that attempt
   * was the last one; otherwise it ends failed or stopped by the runaway guard.
   */
  lemma {:induction false} DoneMeansPassed(cfg: Config, env: nat -> Attempt, max: nat, m: Machine)
    ensures var r := WithRetries(cfg, env, max, m);
            && m.trace <= r.trace && r.record.name == m.record.name
            && (r.record.status.RecordDone? || r.record.status.RecordFailed? || r.record.status.RecordRunaway?)
            && (r.record.status.RecordDone? ==>
                  ClosedBy(r, |m.trace|) && NoneSucceeded(r.trace, |m.trace|, |r.trace| - 1))
            && (!r.record.status.RecordDone? ==> NoneSucceeded(r.trace, |m.trace|, |r.trace|))
    decreases if m.index <= |cfg.chain| then |cfg.chain| - m.index else 0
  {
    hide Try, Current;
    TryDoneMeansPassed(cfg, env, max, 0, m);
    TryKeepsName(cfg, env, max, 0, m);
    var (tried, verdict) := Try(cfg, env, max, 0, m);
    if verdict.BillingExhausted? {
      var (more, next) := Switch(cfg, tried);
      if more {
        DoneMeansPassed(cfg, env, max, next);
        var r := WithRetries(cfg, env, max, next);
        forall i | |m.trace| <= i < |next.trace| ensures !Succeeded(r.trace[i]) {
          assert r.trace[i] == next.trace[i];
        }
      }
    }
  }

  lemma {:induction false} TryKeepsName(cfg: Config, env: nat -> Attempt, max: nat, attempts: nat, m: Machine)
    requires attempts <= max + 1
    ensures Try(cfg, env, max, attempts, m).0.record.name == m.record.name
    decreases max + 1 - attempts
  {
    hide Next;
    if attempts < max + 1 && !CapReached(cfg, m) {
      NextFacts(cfg, env, attempts, m);
      TryKeepsName(cfg, env, max, attempts + 1, Next(cfg, env, attempts, m).0);
    }
  }

  /** An ordinary failure is not given up on before every attempt of the model is spent. */
  lemma {:induction false} FailureSpendsEveryAttempt(
    cfg: Config, env: nat -> Attempt, max: nat, attempts: nat, m: Machine)
    requires attempts <= max + 1
    ensures var (r, v) := Try(cfg, env, max, attempts, m);
            v.Failed? ==>
              || r.clock == m.clock + (max + 1 - attempts)
              || (m.clock < r.clock && var last := env(r.clock - 1);
                  last.Ran? && !last.result.success && last.result.error.configuration
                  && !last.result.error.runaway && !last.result.runawayTriggered)
    decreases max + 1 - attempts
  {
    hide Next;
    if attempts < max + 1 && !CapReached(cfg, m) {
      NextFacts(cfg, env, attempts, m);
      FailureSpendsEveryAttempt(cfg, env, max, attempts + 1, Next(cfg, env, attempts, m).0);
    }
  }

  // ---------------------------------------------------------------- what every event is followed by

  /** The attempt broke before it came to its gates. */
  predicate Broke(e: Event) {
    e.Executed? && e.attempt.Ran? && !e.attempt.result.success
  }

  predicate IsRunaway(e: Event) {
    Broke(e) && (e.attempt.result.runawayTriggered || e.attempt.result.error.runaway)
  }

  predicate IsConfiguration(e: Event) {
    Broke(e) && !IsRunaway(e) && e.attempt.result.error.configuration
  }

  predicate IsBilling(e: Event) {
    Broke(e) && !IsRunaway(e) && !e.attempt.result.error.configuration && e.attempt.result.error.billing
  }

  /** How far a step has come: fallback position, resolved model, attempts of this model, attempts in all. */
  datatype Progress = Progress(index: nat, model: Option<string>, attempts: nat, total: nat)

  function InUse(cfg: Config, p: Progress): string {
    if p.model.Some? && p.model.value != "" then p.model.value else cfg.agentModel
  }

  function Proceed(cfg: Config, p: Progress, e: Event): Progress {
    match e
    case Switched(from, to) => Progress(Advance(cfg.chain, from, p.index).1, Some(to), 0, p.total)
    case RowLost => p.(attempts := p.attempts + 1, total := p.total + 1)
    case Executed(_, a) =>
      Progress(p.index, if a.Ran? && a.assigns.Some? then a.assigns else p.model, p.attempts + 1, p.total + 1)
  }

  function ProceedAll(cfg: Config, p: Progress, events: seq<Event>): Progress
    decreases |events|
  {
    if events == [] then p else ProceedAll(cfg, Proceed(cfg, p, events[0]), events[1..])
  }

  /** The first model of the chain, from the position on, that is not the one in use. */
  predicate IsNextModel(cfg: Config, p: Progress, k: int) {
    && p.index <= k < |cfg.chain| && cfg.chain[k] != InUse(cfg, p)
    && forall j | p.index <= j < k :: cfg.chain[j] == InUse(cfg, p)
  }

  predicate MayFallBack(cfg: Config, p: Progress) {
    cfg.engineOwnedFallback && p.index < |cfg.chain|
  }

  predicate CapSpent(cfg: Config, p: Progress) {
    cfg.maxStepAttempts != 0 && p.total >= cfg.maxStepAttempts
  }

  /** The history of a step from some progress on, down to the status it ends with. */
  ghost predicate History(cfg: Config, max: nat, p: Progress, events: seq<Event>, status: RecordStatus)
    decreases |events|
  {
    if events == [] then
      if p.attempts == max + 1 then status.RecordFailed? else CapSpent(cfg, p) && status.RecordRunaway?
    else
      var e, next := events[0], Proceed(cfg, p, events[0]);
      && p.attempts < max + 1 && !CapSpent(cfg, p)
      && (e.RowLost? || (e.Executed? && e.attempt.Ran? && e.model == InUse(cfg, p)))
      && if Succeeded(e) then events[1..] == [] && status.RecordDone?
         else if IsRunaway(e) then events[1..] == [] && status.RecordRunaway?
         else if IsConfiguration(e) then events[1..] == [] && status.RecordFailed?
         else if IsBilling(e) && MayFallBack(cfg, next) then
           SwitchedOrGivenUp(cfg, max, next.(attempts := 0), events[1..], status)
         else History(cfg, max, next, events[1..], status)
  }

  ghost predicate SwitchedOrGivenUp(cfg: Config, max: nat, p: Progress, events: seq<Event>, status: RecordStatus)
    decreases |events|
  {
    if events == [] then status.RecordFailed? && forall k :: !IsNextModel(cfg, p, k)
    else
      && (exists k :: IsNextModel(cfg, p, k) && events[0] == Switched(InUse(cfg, p), cfg.chain[k]))
      && History(cfg, max, Proceed(cfg, p, events[0]), events[1..], status)
  }

  function ProgressOf(m: Machine, attempts: nat): Progress {
    Progress(m.index, m.model, attempts, m.record.totalAttempts)
  }

  /** The retry loop of one model writes such a history, to be continued when it asks for a switch. */
  lemma {:induction false} TryHistory(
    cfg: Config, env: nat -> Attempt, max: nat, attempts: nat, m: Machine, more: seq<Event>, status: RecordStatus)
    requires attempts <= max + 1
    requires var (r, v) := Try(cfg, env, max, attempts, m);
             if v.BillingExhausted? then SwitchedOrGivenUp(cfg, max, ProgressOf(r, 0), more, status)
             else more == [] && status == r.record.status
    ensures History(cfg, max, ProgressOf(m, attempts), Try(cfg, env, max, attempts, m).0.trace[|m.trace|..] + more, status)
    decreases max + 1 - attempts
  {
    hide History, SwitchedOrGivenUp, Next, IsBilling, MayFallBack, IsRunaway, IsConfiguration, Succeeded;
    var r := Try(cfg, env, max, attempts, m).0;
    var events := r.trace[|m.trace|..] + more;
    if attempts == max + 1 || CapReached(cfg, m) {
      assert events == [];
      HistoryEnds(cfg, max, ProgressOf(m, attempts), r.record.status);
    } else {
      var (next, v) := Next(cfg, env, attempts, m);
      var e := EventOf(cfg, env, m);
      NextFacts(cfg, env, attempts, m);
      NextProceeds(cfg, env, attempts, m);
      var rest := r.trace[|next.trace|..] + more;
      assert r.trace[|m.trace|] == e && r.trace[|m.trace|..] == [e] + r.trace[|next.trace|..];
      assert events == [e] + rest;
      if v.Continue? || (v.Failed? && attempts + 1 < max + 1) {
        TryHistory(cfg, env, max, attempts + 1, next, more, status);
      } else {
        assert r == Ended(next, EndStatus(v)) && r.trace[|next.trace|..] == [] && rest == more;
        assert ProgressOf(r, 0) == Proceed(cfg, ProgressOf(m, attempts), e).(attempts := 0);
        if v.Failed? { HistoryEnds(cfg, max, ProgressOf(next, attempts + 1), RecordFailed); }
      }
      HistoryStep(cfg, max, ProgressOf(m, attempts), e, rest, status);
    }
  }

  lemma HistoryEnds(cfg: Config, max: nat, p: Progress, status: RecordStatus)
    requires if p.attempts == max + 1 then status.RecordFailed? else CapSpent(cfg, p) && status.RecordRunaway?
    ensures History(cfg, max, p, [], status)
  {
  }

  lemma HistoryStep(cfg: Config, max: nat, p: Progress, e: Event, rest: seq<Event>, status: RecordStatus)
    requires p.attempts < max + 1 && !CapSpent(cfg, p)
    requires e.RowLost? || (e.Executed? && e.attempt.Ran? && e.model == InUse(cfg, p))
    requires var next := Proceed(cfg, p, e);
             if Succeeded(e) then rest == [] && status.RecordDone?
             else if IsRunaway(e) then rest == [] && status.RecordRunaway?
             else if IsConfiguration(e) then rest == [] && status.RecordFailed?
             else if IsBilling(e) && MayFallBack(cfg, next) then
               SwitchedOrGivenUp(cfg, max, next.(attempts := 0), rest, status)
             else History(cfg, max, next, rest, status)
    ensures History(cfg, max, p, [e] + rest, status)
  {
    hide SwitchedOrGivenUp, IsBilling, MayFallBack, IsRunaway, IsConfiguration, Succeeded;
    assert ([e] + rest)[1..] == rest;
  }

  /** One attempt moves the progress as its event says, and its verdict is the one its error calls for. */
  lemma NextProceeds(cfg: Config, env: nat -> Attempt, attempts: nat, m: Machine)
    ensures var (n, v) := Next(cfg, env, attempts, m);
            var e := EventOf(cfg, env, m);
            && ProgressOf(n, attempts + 1) == Proceed(cfg, ProgressOf(m, attempts), e)
            && (e.RowLost? || (e.Executed? && e.attempt.Ran? && e.model == InUse(cfg, ProgressOf(m, attempts))))
            && (v.Runaway? <==> IsRunaway(e))
            && (v.NonRetryable? <==> IsConfiguration(e))
            && (v.BillingExhausted? <==> IsBilling(e) && MayFallBack(cfg, ProgressOf(n, attempts + 1)))
  {
  }

  lemma {:induction false} StepHistory(cfg: Config, env: nat -> Attempt, max: nat, m: Machine)
    ensures var r := WithRetries(cfg, env, max, m);
            m.trace <= r.trace && History(cfg, max, ProgressOf(m, 0), r.trace[|m.trace|..], r.record.status)
    decreases if m.index <= |cfg.chain| then |cfg.chain| - m.index else 0
  {
    hide History, SwitchedOrGivenUp, Try, Switch;
    var (tried, v) := Try(cfg, env, max, 0, m);
    var r := WithRetries(cfg, env, max, m);
    var events: seq<Event> := [];
    if v.BillingExhausted? {
      var (more, next) := Switch(cfg, tried);
      SwitchIsNext(cfg, tried);
      if more {
        StepHistory(cfg, env, max, next);
        events := r.trace[|tried.trace|..];
        assert events == [r.trace[|tried.trace|]] + r.trace[|next.trace|..];
        SwitchedHistory(cfg, max, tried, r.trace[|next.trace|..], r.record.status);
      } else {
        GivenUpHistory(cfg, max, tried);
      }
    }
    TryHistory(cfg, env, max, 0, m, events, r.record.status);
    assert r.trace[|m.trace|..] == tried.trace[|m.trace|..] + events;
  }

  /** A switch takes the next model not in use, and begins to count its attempts anew. */
  lemma SwitchIsNext(cfg: Config, tried: Machine)
    ensures var (more, next) := Switch(cfg, tried);
            if more then next.trace == tried.trace + [SwitchEvent(cfg, tried)]
            else next.trace == tried.trace && next.record.status.RecordFailed?
  {
  }

  function SwitchEvent(cfg: Config, tried: Machine): Event
    requires Switch(cfg, tried).0
  {
    Switched(Current(cfg, tried), cfg.chain[Switch(cfg, tried).1.index - 1])
  }

  lemma SwitchedHistory(cfg: Config, max: nat, tried: Machine, rest: seq<Event>, status: RecordStatus)
    requires Switch(cfg, tried).0 && History(cfg, max, ProgressOf(Switch(cfg, tried).1, 0), rest, status)
    ensures SwitchedOrGivenUp(cfg, max, ProgressOf(tried, 0), [SwitchEvent(cfg, tried)] + rest, status)
  {
    hide History;
    var p, e, next := ProgressOf(tried, 0), SwitchEvent(cfg, tried), Switch(cfg, tried).1;
    assert ([e] + rest)[1..] == rest;
    assert IsNextModel(cfg, p, next.index - 1) && Proceed(cfg, p, e) == ProgressOf(next, 0);
  }

  lemma GivenUpHistory(cfg: Config, max: nat, tried: Machine)
    requires !Switch(cfg, tried).0
    ensures SwitchedOrGivenUp(cfg, max, ProgressOf(tried, 0), [], RecordFailed)
  {
  }

  /** What an event of a history was preceded by and is followed by; `p` is the progress after it. */
  ghost predicate IsAnswered(cfg: Config, max: nat, p: Progress, events: seq<Event>, status: RecordStatus, i: nat)
    requires i < |events|
  {
    var e, last := events[i], i == |events| - 1;
    && (e.Switched? ==> i > 0 && IsBilling(events[i - 1]))
    && (Succeeded(e) ==> last && status.RecordDone?)
    && (IsRunaway(e) ==> last && status.RecordRunaway?)
    && (IsConfiguration(e) ==> last && status.RecordFailed?)
    && (IsBilling(e) && MayFallBack(cfg, p) ==>
          if last then status.RecordFailed? && forall k :: !IsNextModel(cfg, p, k)
          else exists k :: IsNextModel(cfg, p, k) && events[i + 1] == Switched(InUse(cfg, p), cfg.chain[k]))
    && (!Succeeded(e) && !IsRunaway(e) && !IsConfiguration(e) && !(IsBilling(e) && MayFallBack(cfg, p)) ==>
          if last then (p.attempts == max + 1 && status.RecordFailed?) || (CapSpent(cfg, p) && status.RecordRunaway?)
          else
            && p.attempts < max + 1 && !CapSpent(cfg, p) && !events[i + 1].Switched?
            && (events[i + 1].Executed? ==> events[i + 1].model == InUse(cfg, p)))
  }

  lemma {:induction false} HistoryAnswers(cfg: Config, max: nat, p: Progress, events: seq<Event>, status: RecordStatus, i: nat)
    requires History(cfg, max, p, events, status) && i < |events|
    ensures IsAnswered(cfg, max, ProceedAll(cfg, p, events[..i + 1]), events, status, i)
    decreases |events|
  {
    var e, rest, next := events[0], events[1..], Proceed(cfg, p, events[0]);
    ProceedFirst(cfg, p, events, i);
    if i == 0 {
      assert rest[..0] == [];
      FirstIsAnswered(cfg, max, p, events, status);
    } else if IsBilling(e) && MayFallBack(cfg, next) {
      SwitchAnswers(cfg, max, next, events, status, i);
    } else {
      HistoryAnswers(cfg, max, next, rest, status, i - 1);
      Shifted(cfg, max, ProceedAll(cfg, next, rest[..i]), events, status, i);
    }
  }

  lemma FirstIsAnswered(cfg: Config, max: nat, p: Progress, events: seq<Event>, status: RecordStatus)
    requires History(cfg, max, p, events, status) && events != []
    ensures IsAnswered(cfg, max, Proceed(cfg, p, events[0]), events, status, 0)
  {
    var e, rest, next := events[0], events[1..], Proceed(cfg, p, events[0]);
    if rest != [] { assert rest[0] == events[1]; }
    if IsBilling(e) && MayFallBack(cfg, next) {
      assert forall k :: IsNextModel(cfg, next.(attempts := 0), k) <==> IsNextModel(cfg, next, k);
    }
  }

  lemma ProceedFirst(cfg: Config, p: Progress, events: seq<Event>, i: nat)
    requires i < |events|
    ensures ProceedAll(cfg, p, events[..i + 1]) == ProceedAll(cfg, Proceed(cfg, p, events[0]), events[1..][..i])
  {
    assert events[..i + 1][1..] == events[1..][..i];
  }

  /** Looked at from its second event on, a history answers the same; the second is no switch unless the first was a billing error. */
  lemma Shifted(cfg: Config, max: nat, p: Progress, events: seq<Event>, status: RecordStatus, i: nat)
    requires 0 < i < |events| && IsAnswered(cfg, max, p, events[1..], status, i - 1)
    ensures IsAnswered(cfg, max, p, events, status, i)
  {
    assert events[1..][i - 1] == events[i];
    if i > 1 { assert events[1..][i - 2] == events[i - 1]; }
    if i < |events| - 1 { assert events[1..][i] == events[i + 1]; }
  }

  lemma {:induction false} SwitchAnswers(cfg: Config, max: nat, p: Progress, events: seq<Event>, status: RecordStatus, i: nat)
    requires 0 < i < |events| && IsBilling(events[0])
    requires SwitchedOrGivenUp(cfg, max, p.(attempts := 0), events[1..], status)
    ensures IsAnswered(cfg, max, ProceedAll(cfg, p, events[1..][..i]), events, status, i)
    decreases |events|, 0
  {
    var switched, rest := events[1], events[2..];
    assert events[1..][1..] == rest && events[1..][0] == switched;
    var after := Proceed(cfg, p, switched);
    assert events[1..][..i] == events[1..][..i - 1 + 1];
    ProceedFirst(cfg, p, events[1..], i - 1);
    if i == 1 {
      assert rest[..0] == [];
      if rest != [] { assert rest[0] == events[2]; }
    } else {
      HistoryAnswers(cfg, max, after, rest, status, i - 2);
      assert rest[..i - 2 + 1] == rest[..i - 1];
      Shifted(cfg, max, ProceedAll(cfg, after, rest[..i - 1]), events[1..], status, i - 1);
      Shifted(cfg, max, ProceedAll(cfg, after, rest[..i - 1]), events, status, i);
    }
  }

  /**
   * Every event of a step is answered as its error calls for. A switch directly follows a billing
   * error, and goes to the next model of the chain that is not in use; a billing error with such a
   * model left is followed by that switch. A configuration error ends the step as failed, a runaway
   * error as stopped; any other failure is followed by another attempt of the model in use, as long
   * as attempts and cap allow.
   */
  lemma EveryEventIsAnswered(cfg: Config, env: nat -> Attempt, max: nat, m: Machine, i: nat)
    requires var r := WithRetries(cfg, env, max, m); |m.trace| <= |r.trace| && i < |r.trace| - |m.trace|
    ensures var r := WithRetries(cfg, env, max, m);
            var events := r.trace[|m.trace|..];
            && !events[0].Switched? && (events[0].Executed? ==> events[0].model == InUse(cfg, ProgressOf(m, 0)))
            && IsAnswered(cfg, max, ProceedAll(cfg, ProgressOf(m, 0), events[..i + 1]), events, r.record.status, i)
  {
    StepHistory(cfg, env, max, m);
    var r := WithRetries(cfg, env, max, m);
    HistoryAnswers(cfg, max, ProgressOf(m, 0), r.trace[|m.trace|..], r.record.status, i);
  }

  function CountAttempts(trace: seq<Event>): nat {
    if trace == [] then 0 else CountAttempts(trace[..|trace| - 1]) + if trace[|trace| - 1].Switched? then 0 else 1
  }

  /** What the last attempt of a history left as the record's result, or the one given. */
  function LastResult(trace: seq<Event>, start: Option<StepResult>): Option<StepResult> {
    if trace == [] then start
    else
      match trace[|trace| - 1]
      case Executed(_, a) => if a.Ran? then Some(a.result) else LastResult(trace[..|trace| - 1], start)
      case RowLost => Some(BROKEN)
      case Switched(_, _) => LastResult(trace[..|trace| - 1], start)
  }

  /** The record counts the attempts of the history and keeps the last one's result. */
  ghost predicate Recorded(m: Machine, total: int, start: Option<StepResult>) {
    m.record.totalAttempts == total + CountAttempts(m.trace) && m.record.result == LastResult(m.trace, start)
  }

  /** The same, except that the runaway cap puts its own result in place of the last attempt's. */
  ghost predicate RecordedOrCapped(cfg: Config, m: Machine, total: int, start: Option<StepResult>) {
    || Recorded(m, total, start)
    || (Recorded(m.(record := m.record.(result := LastResult(m.trace, start))), total, start)
        && m.record.result == Some(BROKEN) && m.record.status.RecordRunaway? && CapReached(cfg, m))
  }

  lemma {:induction false} TryIsRecorded(
    cfg: Config, env: nat -> Attempt, max: nat, attempts: nat, m: Machine, total: int, start: Option<StepResult>)
    requires attempts <= max + 1 && Recorded(m, total, start)
    ensures var (r, v) := Try(cfg, env, max, attempts, m);
            RecordedOrCapped(cfg, r, total, start) && (v.BillingExhausted? ==> Recorded(r, total, start))
    decreases max + 1 - attempts
  {
    hide Next;
    if attempts < max + 1 && !CapReached(cfg, m) {
      NextIsRecorded(cfg, env, attempts, m, total, start);
      TryIsRecorded(cfg, env, max, attempts + 1, Next(cfg, env, attempts, m).0, total, start);
    }
  }

  lemma NextIsRecorded(cfg: Config, env: nat -> Attempt, attempts: nat, m: Machine, total: int, start: Option<StepResult>)
    requires Recorded(m, total, start)
    ensures Recorded(Next(cfg, env, attempts, m).0, total, start)
  {
    hide Classify, Current;
    assert (m.trace + [EventOf(cfg, env, m)])[..|m.trace|] == m.trace;
  }

  lemma {:induction false} StepKeepsRecord(
    cfg: Config, env: nat -> Attempt, max: nat, m: Machine, total: int, start: Option<StepResult>)
    requires Recorded(m, total, start)
    ensures RecordedOrCapped(cfg, WithRetries(cfg, env, max, m), total, start)
    decreases if m.index <= |cfg.chain| then |cfg.chain| - m.index else 0
  {
    TryIsRecorded(cfg, env, max, 0, m, total, start);
    var (tried, verdict) := Try(cfg, env, max, 0, m);
    if verdict.BillingExhausted? {
      var (more, next) := Switch(cfg, tried);
      if more {
        assert next.trace[..|tried.trace|] == tried.trace;
        StepKeepsRecord(cfg, env, max, next, total, start);
      }
    }
  }

  /**
   * When a step is over its record has counted every attempt since it was made, and holds the last
   * one's result, unless the cap stopped the step and left its own.
   */
  lemma StepIsRecorded(cfg: Config, env: nat -> Attempt, max: nat, m: Machine, total: int, start: Option<StepResult>)
    requires m.record.totalAttempts == total + CountAttempts(m.trace) && m.record.result == LastResult(m.trace, start)
    ensures var r := WithRetries(cfg, env, max, m);
            && r.record.totalAttempts == total + CountAttempts(r.trace)
            && (|| r.record.result == LastResult(r.trace, start)
                || (r.record.result == Some(BROKEN) && r.record.status.RecordRunaway?
                    && cfg.maxStepAttempts != 0 && r.record.totalAttempts >= cfg.maxStepAttempts))
  {
    hide WithRetries, CountAttempts, LastResult;
    StepKeepsRecord(cfg, env, max, m, total, start);
  }

  // ---------------------------------------------------------------- a whole run

  datatype TaskStatus =
    | TaskPending | TaskRunning | TaskAssessing | TaskInProgress | TaskDeveloping | TaskSimplifying
    | TaskReviewing | TaskCommitting | TaskAddressingReview | TaskPushing | TaskPrCreated
    | TaskCiMonitoring | TaskDone | TaskFailed | TaskPaused | TaskAwaitingApproval

  /** The status a completed step leaves behind; both hand-off steps say done. */
  const STEP_STATUS: map<string, TaskStatus> := map[
    "sync" := TaskPending, "assess" := TaskAssessing, "create_worktree" := TaskInProgress,
    "develop" := TaskDeveloping, "simplify" := TaskSimplifying, "self_review" := TaskReviewing,
    "commit" := TaskCommitting, "validate" := TaskCommitting, "rebase" := TaskAddressingReview,
    "push" := TaskPushing, "create_pr" := TaskPrCreated, "monitor_ci" := TaskCiMonitoring,
    "address_review" := TaskAddressingReview, "handoff_to_reviewer" := TaskDone, "handoff_to_user" := TaskDone]

  datatype Step = Step(name: string, maxRetries: nat)

  /** What the checks before a step find: worktree gone, budget spent, guard tripped, step skippable. */
  datatype Precheck = Precheck(worktreeGone: bool, overBudget: bool, guardTripped: bool, canSkip: bool)

  datatype RunResult = RunResult(
    success: bool, finalStatus: TaskStatus, completed: nat, failed: nat, skipped: nat, records: seq<StepRecord>)

  /** The engine's state, the result it is building and the status column of the persisted run. */
  datatype RunState = RunState(m: Machine, result: RunResult, persisted: TaskStatus)

  /** An exit: the result's status is set and persisted. */
  function Exit(s: RunState, status: TaskStatus): RunState {
    s.(result := s.result.(finalStatus := status), persisted := status)
  }

  predicate GuardTrips(cfg: Config, pre: Precheck, completed: nat) {
    pre.guardTripped || (cfg.maxRunSteps != 0 && completed >= cfg.maxRunSteps)
  }

  /** One step of the run, and whether the run goes on. */
  function RunStep(cfg: Config, env: nat -> Attempt, step: Step, pre: Precheck, s: RunState): (RunState, bool) {
    if pre.worktreeGone then (Exit(s, TaskFailed), false)
    else if pre.overBudget || GuardTrips(cfg, pre, s.result.completed) then (Exit(s, TaskPaused), false)
    else if pre.canSkip then
      var record := FreshRecord(step.name).(status := Skipped);
      (s.(result := s.result.(skipped := s.result.skipped + 1, records := s.result.records + [record])), true)
    else
      AfterStep(step, WithRetries(cfg, env, step.maxRetries, s.m.(record := FreshRecord(step.name))), s)
  }

  function AfterStep(step: Step, m: Machine, s: RunState): (RunState, bool) {
    var r := m.record;
    var t := s.(m := m, result := s.result.(records := s.result.records + [r]));
    if r.status.RecordRunaway? then (Exit(t, TaskPaused), false)
    else if r.status.RecordFailed? then
      (Exit(t.(result := t.result.(failed := t.result.failed + 1)),
            if r.gate == Some(false) then TaskPaused else TaskFailed), false)
    else
      var done := t.(result := t.result.(completed := t.result.completed + 1));
      if r.result.Some? && r.result.value.awaitingApproval then (Exit(done, TaskAwaitingApproval), false)
      else if step.name in STEP_STATUS then
        (done.(result := done.result.(finalStatus := STEP_STATUS[step.name])), true)
      else (done, true)
  }

  function RunFrom(
    cfg: Config, env: nat -> Attempt, pre: nat -> Precheck, steps: seq<Step>, i: nat, s: RunState): RunState
    requires i <= |steps|
    decreases |steps| - i
  {
    if i == |steps| then Exit(s.(result := s.result.(success := true)), TaskDone)
    else
      var (next, goOn) := RunStep(cfg, env, steps[i], pre(i), s);
      if goOn then RunFrom(cfg, env, pre, steps, i + 1, next) else next
  }

  function CountStatus(records: seq<StepRecord>, status: RecordStatus): nat {
    if records == [] then 0
    else CountStatus(records[..|records| - 1], status) + if records[|records| - 1].status == status then 1 else 0
  }

  /** The bookkeeping every step of a run keeps: one record per step so far, counted by its status. */
  ghost predicate Tallied(r: RunResult, steps: seq<Step>) {
    && |r.records| <= |steps|
    && (forall k | 0 <= k < |r.records| :: r.records[k].name == steps[k].name)
    && r.completed == CountStatus(r.records, RecordDone)
    && r.skipped == CountStatus(r.records, Skipped)
    && r.failed == CountStatus(r.records, RecordFailed) <= 1
  }

  lemma CountSnoc(records: seq<StepRecord>, r: StepRecord, status: RecordStatus)
    ensures CountStatus(records + [r], status) == CountStatus(records, status) + if r.status == status then 1 else 0
  {
    assert (records + [r])[..|records|] == records;
  }

  /** Why a run ended as it did, read off its records. */
  ghost predicate EndsFor(r: RunResult, steps: seq<Step>) {
    var n := |r.records|;
    if r.success then
      r.finalStatus.TaskDone? && n == |steps| && r.completed + r.skipped == n
    else if n > 0 && r.records[n - 1].status.RecordFailed? then
      r.finalStatus == (if r.records[n - 1].gate == Some(false) then TaskPaused else TaskFailed)
    else if n > 0 && r.records[n - 1].status.RecordRunaway? then r.finalStatus.TaskPaused?
    else
      || (n < |steps| && (r.finalStatus.TaskFailed? || r.finalStatus.TaskPaused?))
      || (n > 0 && r.records[n - 1].status.RecordDone? && r.records[n - 1].result.Some?
          && r.records[n - 1].result.value.awaitingApproval && r.finalStatus.TaskAwaitingApproval?)
  }

  ghost predicate Underway(s: RunState, steps: seq<Step>, i: nat) {
    && Tallied(s.result, steps) && |s.result.records| == i
    && !s.result.success && s.result.failed == 0
    && s.result.completed + s.result.skipped == i
    && (forall k | 0 <= k < i :: s.result.records[k].status.RecordDone? || s.result.records[k].status.Skipped?)
  }

  /** What a step leaves: either the run goes on with one more closed record, or it has properly ended. */
  ghost predicate Settled(next: RunState, goOn: bool, steps: seq<Step>, i: nat) {
    if goOn then Underway(next, steps, i + 1)
    else
      && Tallied(next.result, steps) && EndsFor(next.result, steps)
      && !next.result.success && next.persisted == next.result.finalStatus && !next.result.finalStatus.TaskDone?
  }

  lemma StepKeepsTally(
    cfg: Config, env: nat -> Attempt, step: Step, pre: Precheck, s: RunState, steps: seq<Step>, i: nat)
    requires i < |steps| && steps[i] == step && Underway(s, steps, i)
    ensures var (next, goOn) := RunStep(cfg, env, step, pre, s); Settled(next, goOn, steps, i)
  {
    hide Underway, Settled, WithRetries, ClosedBy, NoneSucceeded, Tallied;
    if pre.worktreeGone || pre.overBudget || GuardTrips(cfg, pre, s.result.completed) {
      StopSettles(s, steps, i, if pre.worktreeGone then TaskFailed else TaskPaused);
    } else if pre.canSkip {
      SkipSettles(s, step, steps, i);
    } else {
      hide AfterStep;
      var start := s.m.(record := FreshRecord(step.name));
      DoneMeansPassed(cfg, env, step.maxRetries, start);
      SettledAfterStep(step, WithRetries(cfg, env, step.maxRetries, start), s, steps, i);
    }
  }

  lemma StopSettles(s: RunState, steps: seq<Step>, i: nat, status: TaskStatus)
    requires i < |steps| && Underway(s, steps, i) && (status.TaskFailed? || status.TaskPaused?)
    ensures Settled(Exit(s, status), false, steps, i)
  {
    hide CountStatus;
    if i > 0 { assert s.result.records[i - 1].status.RecordDone? || s.result.records[i - 1].status.Skipped?; }
  }

  lemma SkipSettles(s: RunState, step: Step, steps: seq<Step>, i: nat)
    requires i < |steps| && steps[i] == step && Underway(s, steps, i)
    ensures var record := FreshRecord(step.name).(status := Skipped);
            Settled(s.(result := s.result.(skipped := s.result.skipped + 1, records := s.result.records + [record])), true, steps, i)
  {
    hide CountStatus;
    TallySnoc(s.result, FreshRecord(step.name).(status := Skipped), steps);
  }

  lemma TallySnoc(r: RunResult, record: StepRecord, steps: seq<Step>)
    requires Tallied(r, steps) && |r.records| < |steps| && record.name == steps[|r.records|].name
    ensures var records := r.records + [record];
            && CountStatus(records, RecordDone) == r.completed + (if record.status.RecordDone? then 1 else 0)
            && CountStatus(records, Skipped) == r.skipped + (if record.status.Skipped? then 1 else 0)
            && CountStatus(records, RecordFailed) == r.failed + (if record.status.RecordFailed? then 1 else 0)
            && forall k | 0 <= k < |records| :: records[k].name == steps[k].name
  {
    CountSnoc(r.records, record, RecordDone);
    CountSnoc(r.records, record, Skipped);
    CountSnoc(r.records, record, RecordFailed);
  }

  lemma SettledAfterStep(step: Step, m: Machine, s: RunState, steps: seq<Step>, i: nat)
    requires i < |steps| && steps[i] == step && Underway(s, steps, i)
    requires m.record.name == step.name
    requires m.record.status.RecordDone? || m.record.status.RecordFailed? || m.record.status.RecordRunaway?
    ensures var (next, goOn) := AfterStep(step, m, s); Settled(next, goOn, steps, i)
  {
    TallySnoc(s.result, m.record, steps);
    var (next, goOn) := AfterStep(step, m, s);
    assert next.result.records[i] == m.record;
  }

  /**
   * Exit contract: on every exit the persisted status is the returned one and is done, failed,
   * paused or awaiting approval; success means done and nothing else does, so the done a hand-off
   * step leaves behind never escapes an unfinished run; the records follow a prefix of the steps;
   * the counters count them; at most one step failed; and the status is the one the records call for.
   */
  lemma {:induction false} ExitContract(
    cfg: Config, env: nat -> Attempt, pre: nat -> Precheck, steps: seq<Step>, i: nat, s: RunState)
    requires i <= |steps| && Underway(s, steps, i)
    ensures var r := RunFrom(cfg, env, pre, steps, i, s);
            && r.persisted == r.result.finalStatus
            && (r.persisted.TaskDone? || r.persisted.TaskFailed? || r.persisted.TaskPaused?
                || r.persisted.TaskAwaitingApproval?)
            && (r.result.success <==> r.persisted.TaskDone?)
            && Tallied(r.result, steps) && EndsFor(r.result, steps)
    decreases |steps| - i
  {
    hide RunStep, CountStatus;
    if i < |steps| {
      StepKeepsTally(cfg, env, steps[i], pre(i), s, steps, i);
      var (next, goOn) := RunStep(cfg, env, steps[i], pre(i), s);
      if goOn { ExitContract(cfg, env, pre, steps, i + 1, next); }
    }
  }

  // ---------------------------------------------------------------- which steps are run

  /** What keeps a step from being started at all. */
  predicate IsStopped(cfg: Config, pre: Precheck, completed: nat) {
    pre.worktreeGone || pre.overBudget || pre.guardTripped || (cfg.maxRunSteps != 0 && completed >= cfg.maxRunSteps)
  }

  /** The machine the k-th step starts with, every step from `i` on that was not skipped having run. */
  function MachineBefore(cfg: Config, env: nat -> Attempt, pre: nat -> Precheck, steps: seq<Step>, i: nat, k: nat, m: Machine): Machine
    requires i <= k <= |steps|
    decreases k - i
  {
    if k == i then m else MachineBefore(cfg, env, pre, steps, i + 1, k, MachineAfter(cfg, env, pre, steps[i], i, m))
  }

  function MachineAfter(cfg: Config, env: nat -> Attempt, pre: nat -> Precheck, step: Step, i: nat, m: Machine): Machine {
    if pre(i).canSkip then m else WithRetries(cfg, env, step.maxRetries, m.(record := FreshRecord(step.name)))
  }

  /** The record says that the run may go on to the next step. */
  predicate LetsGoOn(r: StepRecord) {
    r.status.Skipped? || (r.status.RecordDone? && (r.result.Some? ==> !r.result.value.awaitingApproval))
  }

  /** The k-th record is that of a skipped step, or of the step run from where the steps before left the engine. */
  ghost predicate IsRecordOf(
    cfg: Config, env: nat -> Attempt, pre: nat -> Precheck, steps: seq<Step>, i: nat, k: nat, m: Machine, r: StepRecord)
    requires i <= k < |steps|
  {
    r == if pre(k).canSkip then FreshRecord(steps[k].name).(status := Skipped)
         else MachineAfter(cfg, env, pre, steps[k], k, MachineBefore(cfg, env, pre, steps, i, k, m)).record
  }

  /** No step from the i-th on was started against its checks. */
  ghost predicate ChecksPassed(cfg: Config, pre: nat -> Precheck, i: nat, records: seq<StepRecord>) {
    forall k | i <= k < |records| :: !IsStopped(cfg, pre(k), CountStatus(records[..k], RecordDone))
  }

  ghost predicate RecordsFollow(
    cfg: Config, env: nat -> Attempt, pre: nat -> Precheck, steps: seq<Step>, i: nat, m: Machine, records: seq<StepRecord>)
    requires |records| <= |steps|
  {
    forall k | i <= k < |records| :: IsRecordOf(cfg, env, pre, steps, i, k, m, records[k])
  }

  /** Every record from the i-th on but the last let the run go on. */
  ghost predicate WentOnUntilLast(i: nat, records: seq<StepRecord>) {
    forall k | i <= k < |records| - 1 :: LetsGoOn(records[k])
  }

  /** The run ended with its last record, or stopped before the next step, or after the last one. */
  ghost predicate EndsRightly(cfg: Config, pre: nat -> Precheck, steps: seq<Step>, i: nat, r: RunResult) {
    var n := |r.records|;
    if n > i && !LetsGoOn(r.records[n - 1]) then
      !r.success && (r.records[n - 1].status.RecordDone? ==> r.finalStatus.TaskAwaitingApproval?)
    else if n < |steps| then
      && IsStopped(cfg, pre(n), CountStatus(r.records, RecordDone)) && !r.success
      && r.finalStatus == (if pre(n).worktreeGone then TaskFailed else TaskPaused)
    else r.success
  }

  /** The records from the i-th on, and the end of the run, are those the checks and the steps call for. */
  ghost predicate FollowsChecks(
    cfg: Config, env: nat -> Attempt, pre: nat -> Precheck, steps: seq<Step>, i: nat, m: Machine, r: RunResult)
  {
    && i <= |r.records| <= |steps|
    && ChecksPassed(cfg, pre, i, r.records) && RecordsFollow(cfg, env, pre, steps, i, m, r.records)
    && WentOnUntilLast(i, r.records) && EndsRightly(cfg, pre, steps, i, r)
  }

  /**
   * Every step is started unless its checks stop the run there, is skipped exactly when it can be, and
   * otherwise runs with its own retries from where the steps before it left the engine; the run goes
   * on exactly after a record that lets it, and a stop before a step has the status of its check.
   */
  lemma {:induction false} RunFollowsChecks(
    cfg: Config, env: nat -> Attempt, pre: nat -> Precheck, steps: seq<Step>, i: nat, s: RunState)
    requires i <= |steps| && Underway(s, steps, i)
    ensures FollowsChecks(cfg, env, pre, steps, i, s.m, RunFrom(cfg, env, pre, steps, i, s).result)
    ensures s.result.records <= RunFrom(cfg, env, pre, steps, i, s).result.records
    decreases |steps| - i
  {
    hide FollowsChecks, Underway, WithRetries, AfterStep, Tallied, IsStopped, LetsGoOn, EndsFor;
    var r := RunFrom(cfg, env, pre, steps, i, s).result;
    TalliedSoFar(s, steps, i);
    if i == |steps| {
      EndFollows(cfg, env, pre, steps, i, s.m, r);
    } else {
      StepKeepsTally(cfg, env, steps[i], pre(i), s, steps, i);
      var (next, goOn) := RunStep(cfg, env, steps[i], pre(i), s);
      if goOn {
        RunFollowsChecks(cfg, env, pre, steps, i + 1, next);
        TalliedSoFar(next, steps, i + 1);
        StepFollows(cfg, env, pre, steps, i, s, next, r);
      } else {
        StopFollows(cfg, env, pre, steps, i, s, next.result);
      }
    }
  }

  lemma TalliedSoFar(s: RunState, steps: seq<Step>, i: nat)
    requires Underway(s, steps, i)
    ensures |s.result.records| == i && s.result.completed == CountStatus(s.result.records, RecordDone) && !s.result.success
    ensures i > 0 ==> s.result.records[i - 1].status in {RecordDone, Skipped}
  {
  }

  lemma EndFollows(cfg: Config, env: nat -> Attempt, pre: nat -> Precheck, steps: seq<Step>, i: nat, m: Machine, r: RunResult)
    requires i == |steps| == |r.records| && r.success
    ensures FollowsChecks(cfg, env, pre, steps, i, m, r)
  {
  }

  lemma StopFollows(
    cfg: Config, env: nat -> Attempt, pre: nat -> Precheck, steps: seq<Step>, i: nat, s: RunState, r: RunResult)
    requires i < |steps| && |s.result.records| == i && s.result.completed == CountStatus(s.result.records, RecordDone)
    requires !s.result.success && RunStep(cfg, env, steps[i], pre(i), s).1 == false && r == RunStep(cfg, env, steps[i], pre(i), s).0.result
    ensures FollowsChecks(cfg, env, pre, steps, i, s.m, r) && s.result.records <= r.records
  {
    Stopped(cfg, env, pre, steps[i], i, s, r);
    hide WithRetries, RunStep, CountStatus, IsStopped, LetsGoOn;
    assert s.result.records[..i] == s.result.records;
    if |r.records| > i { assert r.records[..i] == s.result.records && r.records == s.result.records + [r.records[i]]; }
  }

  lemma Stopped(cfg: Config, env: nat -> Attempt, pre: nat -> Precheck, step: Step, i: nat, s: RunState, r: RunResult)
    requires RunStep(cfg, env, step, pre(i), s).1 == false && r == RunStep(cfg, env, step, pre(i), s).0.result && !s.result.success
    ensures !r.success
    ensures if IsStopped(cfg, pre(i), s.result.completed) then
              r.records == s.result.records && r.finalStatus == (if pre(i).worktreeGone then TaskFailed else TaskPaused)
            else
              && !pre(i).canSkip && r.records == s.result.records + [MachineAfter(cfg, env, pre, step, i, s.m).record]
              && !LetsGoOn(r.records[|s.result.records|])
              && (r.records[|s.result.records|].status.RecordDone? ==> r.finalStatus.TaskAwaitingApproval?)
  {
    DoneMeansPassed(cfg, env, step.maxRetries, s.m.(record := FreshRecord(step.name)));
    hide WithRetries, ClosedBy, NoneSucceeded;
  }

  lemma StepFollows(
    cfg: Config, env: nat -> Attempt, pre: nat -> Precheck, steps: seq<Step>, i: nat, s: RunState, next: RunState, r: RunResult)
    requires i < |steps| && |s.result.records| == i && s.result.completed == CountStatus(s.result.records, RecordDone)
    requires RunStep(cfg, env, steps[i], pre(i), s) == (next, true)
    requires FollowsChecks(cfg, env, pre, steps, i + 1, next.m, r) && next.result.records <= r.records
    requires |next.result.records| == i + 1 && next.result.records[i].status in {RecordDone, Skipped}
    ensures FollowsChecks(cfg, env, pre, steps, i, s.m, r) && s.result.records <= r.records
  {
    WentOn(cfg, env, pre, steps[i], i, s, next);
    hide WithRetries, RunStep, CountStatus, MachineAfter, IsStopped, LetsGoOn;
    assert next.result.records == s.result.records + [next.result.records[i]];
    assert r.records[i] == next.result.records[i] && r.records[..i] == s.result.records;
    ChecksOneMore(cfg, pre, i, r.records);
    RecordsOneMore(cfg, env, pre, steps, i, s.m, next.m, r.records);
    hide ChecksPassed, RecordsFollow;
  }

  lemma ChecksOneMore(cfg: Config, pre: nat -> Precheck, i: nat, records: seq<StepRecord>)
    requires i < |records| && !IsStopped(cfg, pre(i), CountStatus(records[..i], RecordDone)) && ChecksPassed(cfg, pre, i + 1, records)
    ensures ChecksPassed(cfg, pre, i, records)
  {
    hide IsStopped, CountStatus;
  }

  lemma RecordsOneMore(
    cfg: Config, env: nat -> Attempt, pre: nat -> Precheck, steps: seq<Step>, i: nat, m: Machine, next: Machine, records: seq<StepRecord>)
    requires i < |records| <= |steps| && next == MachineAfter(cfg, env, pre, steps[i], i, m)
    requires RecordsFollow(cfg, env, pre, steps, i + 1, next, records)
    requires records[i] == if pre(i).canSkip then FreshRecord(steps[i].name).(status := Skipped) else next.record
    ensures RecordsFollow(cfg, env, pre, steps, i, m, records)
  {
    hide MachineAfter;
    forall k | i <= k < |records| ensures IsRecordOf(cfg, env, pre, steps, i, k, m, records[k]) {
      if k > i { assert IsRecordOf(cfg, env, pre, steps, i + 1, k, next, records[k]); }
    }
  }

  lemma WentOn(cfg: Config, env: nat -> Attempt, pre: nat -> Precheck, step: Step, i: nat, s: RunState, next: RunState)
    requires RunStep(cfg, env, step, pre(i), s) == (next, true)
    requires |next.result.records| > 0 && next.result.records[|next.result.records| - 1].status in {RecordDone, Skipped}
    ensures !IsStopped(cfg, pre(i), s.result.completed) && next.m == MachineAfter(cfg, env, pre, step, i, s.m)
    ensures |next.result.records| == |s.result.records| + 1
    ensures var record := next.result.records[|s.result.records|];
            && next.result.records == s.result.records + [record] && LetsGoOn(record)
            && record == if pre(i).canSkip then FreshRecord(step.name).(status := Skipped) else next.m.record
  {
    hide WithRetries;
  }

  // ---------------------------------------------------------------- the engine object

  /** The engine: the loops of `run`, `_execute_with_retries` and `_try_step_with_retries` over its own fields. */
  class WorkflowEngine {
    const cfg: Config
    var index: nat
    var model: Option<string>
    var clock: nat
    var record: StepRecord
    var result: RunResult
    var persisted: TaskStatus
    ghost var trace: seq<Event>

    constructor (cfg: Config, model: Option<string>)
      ensures this.cfg == cfg && index == 0 && this.model == model && clock == 0 && trace == []
    {
      this.cfg, this.model, index, clock, trace := cfg, model, 0, 0, [];
      record := FreshRecord("");
      result := RunResult(false, TaskPending, 0, 0, 0, []);
      persisted := TaskPending;
    }

    ghost function View(): Machine
      reads this
    {
      Machine(index, model, clock, record, trace)
    }

    ghost function State(): RunState
      reads this
    {
      RunState(View(), result, persisted)
    }

    method ExecuteSingleAttempt(env: nat -> Attempt) returns (verdict: Verdict)
      modifies this`model, this`clock, this`record, this`trace
      ensures (View(), verdict) == AfterAttempt(cfg, old(View()), env(old(clock)))
    {
      var a := env(clock);
      clock := clock + 1;
      if a.RowFailed? {
        trace := trace + [RowLost];
        record := record.(result := Some(BROKEN));
        return Continue;
      }
      trace := trace + [Executed(Current(cfg, View()), a)];
      if a.assigns.Some? {
        model := a.assigns;
      }
      record := record.(result := Some(a.result));
      if !a.result.success {
        if a.result.runawayTriggered {
          return Runaway;
        }
        return Classify(cfg, index, a.result.error);
      }
      record := record.(gate := Some(a.validated));
      if !a.validated {
        return Failed;
      }
      record := record.(gate := Some(a.verified));
      return if a.verified then Done else Failed;
    }

    /** One turn of the retry loop, up to the decision what to do next. */
    method CountedAttempt(env: nat -> Attempt, attempts: nat) returns (outcome: Verdict)
      modifies this`model, this`clock, this`record, this`trace
      ensures (View(), outcome) == Next(cfg, env, attempts, old(View()))
    {
      record := record.(totalAttempts := record.totalAttempts + 1);
      outcome := ExecuteSingleAttempt(env);
      record := record.(retries := attempts);
    }

    method TryStepWithRetries(env: nat -> Attempt, maxRetries: nat) returns (verdict: Verdict)
      modifies this`model, this`clock, this`record, this`trace
      ensures (View(), verdict) == Try(cfg, env, maxRetries, 0, old(View()))
    {
      var attempts := 0;
      var lastWasBilling := false;
      while attempts < maxRetries + 1
        invariant attempts <= maxRetries + 1 && !lastWasBilling && index == old(index)
        invariant Try(cfg, env, maxRetries, attempts, View()) == Try(cfg, env, maxRetries, 0, old(View()))
      {
        if cfg.maxStepAttempts != 0 && record.totalAttempts >= cfg.maxStepAttempts {
          record := record.(result := Some(BROKEN), status := RecordRunaway);
          return Runaway;
        }
        var outcome := CountedAttempt(env, attempts);
        attempts := attempts + 1;
        match outcome {
          case Continue => continue;
          case Runaway =>
            record := record.(status := RecordRunaway);
            return Runaway;
          case Done =>
            record := record.(status := RecordDone);
            return Done;
          case NonRetryable =>
            record := record.(status := RecordFailed);
            return Failed;
          case _ =>
            lastWasBilling := outcome == BillingExhausted;
            if attempts < maxRetries + 1 && outcome != BillingExhausted {
              continue;
            }
            record := record.(status := RecordFailed);
            return outcome;
        }
      }
      record := record.(status := RecordFailed);
      // The loop never ends on a billing failure, so this never asks for a switch.
      assert !(lastWasBilling && HasFallback(cfg, index));
      return if lastWasBilling && HasFallback(cfg, index) then BillingExhausted else Failed;
    }

    method AdvanceFallback() returns (next: Option<string>)
      modifies this`index
      ensures (next, index) == Advance(cfg.chain, Current(cfg, old(View())), old(index))
    {
      var current := if model.Some? && model.value != "" then model.value else cfg.agentModel;
      while index < |cfg.chain|
        invariant Advance(cfg.chain, current, index) == Advance(cfg.chain, current, old(index))
        decreases |cfg.chain| - index
      {
        var candidate := cfg.chain[index];
        index := index + 1;
        if candidate != current {
          return Some(candidate);
        }
      }
      return None;
    }

    method ExecuteWithRetries(env: nat -> Attempt, step: Step)
      modifies this`index, this`model, this`clock, this`record, this`trace
      ensures View() == WithRetries(cfg, env, step.maxRetries, old(View()).(record := FreshRecord(step.name)))
    {
      record := FreshRecord(step.name);
      ghost var start := View();
      while true
        invariant WithRetries(cfg, env, step.maxRetries, View()) == WithRetries(cfg, env, step.maxRetries, start)
        decreases if index <= |cfg.chain| then |cfg.chain| - index else 0
      {
        var verdict := TryStepWithRetries(env, step.maxRetries);
        if verdict != BillingExhausted {
          return;
        }
        ghost var current := Current(cfg, View());
        var next := AdvanceFallback();
        if next.None? {
          record := record.(status := RecordFailed);
          return;
        }
        trace := trace + [Switched(current, next.value)];
        model := next;
      }
    }

    method ExecuteStep(env: nat -> Attempt, pre: Precheck, step: Step) returns (goOn: bool)
      modifies this
      ensures (State(), goOn) == RunStep(cfg, env, step, pre, old(State()))
    {
      if pre.worktreeGone {
        result := result.(finalStatus := TaskFailed);
        persisted := TaskFailed;
        return false;
      }
      if pre.overBudget {
        result := result.(finalStatus := TaskPaused);
        persisted := TaskPaused;
        return false;
      }
      if pre.guardTripped || (cfg.maxRunSteps != 0 && result.completed >= cfg.maxRunSteps) {
        result := result.(finalStatus := TaskPaused);
        persisted := TaskPaused;
        return false;
      }
      if pre.canSkip {
        result := result.(skipped := result.skipped + 1,
                          records := result.records + [FreshRecord(step.name).(status := Skipped)]);
        return true;
      }
      ExecuteWithRetries(env, step);
      goOn := SettleStep(step);
    }

    /** What `_execute_step` does with the record of an executed step. */
    method SettleStep(step: Step) returns (goOn: bool)
      modifies this`result, this`persisted
      ensures (State(), goOn) == AfterStep(step, View(), old(State()))
    {
      result := result.(records := result.records + [record]);
      if record.status.RecordRunaway? {
        result := result.(finalStatus := TaskPaused);
        persisted := TaskPaused;
        return false;
      }
      if record.status.RecordFailed? {
        var status := if record.gate == Some(false) then TaskPaused else TaskFailed;
        result := result.(failed := result.failed + 1, finalStatus := status);
        persisted := status;
        return false;
      }
      result := result.(completed := result.completed + 1);
      if record.result.Some? && record.result.value.awaitingApproval {
        result := result.(finalStatus := TaskAwaitingApproval);
        persisted := TaskAwaitingApproval;
        return false;
      }
      if step.name in STEP_STATUS {
        result := result.(finalStatus := STEP_STATUS[step.name]);
      }
      return true;
    }

    /** Runs every step, unless earlier runs of the issue have spent its budget. */
    method Run(env: nat -> Attempt, pre: nat -> Precheck, steps: seq<Step>, issueOverBudget: bool)
      modifies this
      ensures var begun := RunState(old(View()), RunResult(false, TaskPending, 0, 0, 0, []), TaskRunning);
              State() == if issueOverBudget then Exit(begun, TaskPaused) else RunFrom(cfg, env, pre, steps, 0, begun)
      ensures persisted == result.finalStatus && Tallied(result, steps)
      ensures result.success <==> persisted == TaskDone
      ensures persisted in {TaskDone, TaskFailed, TaskPaused, TaskAwaitingApproval}
    {
      hide RunStep;
      result := RunResult(false, TaskPending, 0, 0, 0, []);
      persisted := TaskRunning;
      if issueOverBudget {
        result := result.(finalStatus := TaskPaused);
        persisted := TaskPaused;
        return;
      }
      ghost var start := State();
      ExitContract(cfg, env, pre, steps, 0, start);
      hide Tallied;
      var i := 0;
      while i < |steps|
        invariant 0 <= i <= |steps|
        invariant RunFrom(cfg, env, pre, steps, i, State()) == RunFrom(cfg, env, pre, steps, 0, start)
      {
        var goOn := ExecuteStep(env, pre(i), steps[i]);
        if !goOn {
          return;
        }
        i := i + 1;
      }
      result := result.(success := true, finalStatus := TaskDone);
      persisted := TaskDone;
    }
  }

  /**
   * A failed step pauses the run exactly when the last attempt that reached its gates was turned
   * down there, even if later attempts failed before any gate.
   */
  lemma FailedStepPausesOnLastGate(cfg: Config, env: nat -> Attempt, step: Step, s: RunState)
    requires var m := WithRetries(cfg, env, step.maxRetries, s.m.(record := FreshRecord(step.name), trace := []));
             m.record.status.RecordFailed?
    ensures var m := WithRetries(cfg, env, step.maxRetries, s.m.(record := FreshRecord(step.name), trace := []));
            AfterStep(step, m, s).0.persisted.TaskPaused? <==> LastGate(m.trace, None) == Some(false)
  {
    var start := s.m.(record := FreshRecord(step.name), trace := []);
    RecordFollowsHistory(cfg, env, step.maxRetries, start, start.model, None);
  }

  /** The gate turns down the first attempt; the second breaks before it gets to a gate. */
  function RejectedThenBroken(first: nat): nat -> Attempt {
    i => Ran(if i == first then BROKEN.(success := true) else BROKEN, false, true, None)
  }

  /** Then the run is paused for a gate although its last attempt never reached one. */
  lemma EarlierGatePauses(cfg: Config, step: Step, s: RunState)
    requires step.maxRetries == 1 && cfg.maxStepAttempts == 0
    ensures var start := s.m.(record := FreshRecord(step.name), trace := []);
            var m := WithRetries(cfg, RejectedThenBroken(s.m.clock), 1, start);
            && |m.trace| == 2 && m.trace[1].Executed? && m.trace[1].attempt == Ran(BROKEN, false, true, None)
            && AfterStep(step, m, s).0.persisted.TaskPaused?
  {
    var env, start := RejectedThenBroken(s.m.clock), s.m.(record := FreshRecord(step.name), trace := []);
    var second := Next(cfg, env, 0, start).0;
    assert second.record.gate == Some(false);
    var last := Next(cfg, env, 1, second).0;
    assert Try(cfg, env, 1, 1, second) == (Ended(last, RecordFailed), Failed);
    assert Try(cfg, env, 1, 0, start) == Try(cfg, env, 1, 1, second);
  }
}
