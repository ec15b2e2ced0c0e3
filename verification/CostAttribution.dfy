/** Spend attribution of one step attempt (sova/core/context.py, sova/core/workflow.py). */
module CostAttribution {
  // How the context accumulates usage per LLM call, how the engine turns the accumulated counters
  // into one step result, and how that result is split into cost records.
  import opened Basics

  // ---------------------------------------------------------------- token counters

  /** An immutable snapshot of the counters; `saved` is `None` when compression never ran. */
  datatype TokenUsage = TokenUsage(
    input: int, output: int, cacheRead: int, cacheWrite: int,
    saved: Option<int>, compressedCalls: int, cacheWriteReports: int,
    reasoning: int, reasoningReports: int, turns: int, turnsReports: int)
  {
    /** The invariant every accumulated snapshot keeps. */
    predicate Coherent() {
      compressedCalls >= 0 && (saved.None? <==> compressedCalls == 0)
    }

    function Plus(other: TokenUsage): TokenUsage {
      TokenUsage(
        input + other.input, output + other.output,
        cacheRead + other.cacheRead, cacheWrite + other.cacheWrite,
        if saved.None? && other.saved.None? then None else Some(saved.GetOr(0) + other.saved.GetOr(0)),
        compressedCalls + other.compressedCalls, cacheWriteReports + other.cacheWriteReports,
        reasoning + other.reasoning, reasoningReports + other.reasoningReports,
        turns + other.turns, turnsReports + other.turnsReports)
    }

    function Minus(other: TokenUsage): TokenUsage {
      var calls := compressedCalls - other.compressedCalls;
      TokenUsage(
        input - other.input, output - other.output,
        cacheRead - other.cacheRead, cacheWrite - other.cacheWrite,
        DeltaSaved(saved, other.saved, calls),
        calls, cacheWriteReports - other.cacheWriteReports,
        reasoning - other.reasoning, reasoningReports - other.reasoningReports,
        turns - other.turns, turnsReports - other.turnsReports)
    }
  }

  const ZERO := TokenUsage(0, 0, 0, 0, None, 0, 0, 0, 0, 0, 0)

  function DeltaSaved(after: Option<int>, before: Option<int>, compressedCalls: int): Option<int> {
    if compressedCalls <= 0 then None else Some(after.GetOr(0) - before.GetOr(0))
  }

  /** Subtracting a snapshot undoes adding it, and only for coherent snapshots is that so. */
  lemma MinusUndoesPlus(a: TokenUsage, b: TokenUsage)
    requires a.Coherent() && b.compressedCalls >= 0
    ensures a.Plus(b).Minus(a) == b <==> (b.saved.None? <==> b.compressedCalls == 0)
    ensures b.Coherent() ==> a.Plus(b).Coherent() && b.Plus(a) == a.Plus(b)
  {
    if b.Coherent() { assert a.Plus(b).Minus(a).saved == b.saved; }
  }

  // ---------------------------------------------------------------- one LLM call

  datatype CostSource = Priced | FreeLocal | Subscription | Unknown

  /** Provenance of a cost summed from several calls. */
  function CombineSources(current: Option<CostSource>, added: CostSource): Option<CostSource> {
    if current.None? || current.value == added then Some(added)
    else if current.value.Unknown? || added.Unknown? then Some(Unknown)
    else Some(Priced)
  }

  /** What one invocation reported. `None` means the provider never reported the figure. */
  datatype LLMResult = LLMResult(
    model: string, cost: real, source: CostSource,
    input: nat, output: nat, cacheRead: nat, cacheCreation: Option<nat>,
    saved: Option<nat>, reasoning: Option<nat>, turns: Option<nat>,
    runtimeName: Option<string>, routedModel: Option<string>)
  {
    function Usage(): TokenUsage {
      TokenUsage(
        input, output, cacheRead, cacheCreation.GetOr(0),
        if saved.Some? then Some(saved.value) else None, if saved.Some? then 1 else 0,
        if cacheCreation.Some? then 1 else 0,
        reasoning.GetOr(0), if reasoning.Some? then 1 else 0,
        turns.GetOr(0), if turns.Some? then 1 else 0)
    }
  }

  /** One accounting event of an attempt: an invocation, or a bare `add_cost`. */
  datatype Call = Invocation(result: LLMResult, routedReason: Option<string>) | Flat(amount: real) {
    function Usage(): TokenUsage {
      if Invocation? then result.Usage() else ZERO
    }

    function Cost(): real {
      if Invocation? then result.cost else amount
    }

    /** The bucket this call's spend belongs to. */
    function Channel(): Channel {
      if Flat? then Provider
      else if result.runtimeName.Some? then Runtime
      else if routedReason.Some? && result.routedModel.Some? then Routed(RoutedKey(result))
      else Provider
    }
  }

  datatype Channel = Runtime | Routed(model: string) | Provider

  /** Labelled with what ran; the requested model only when the provider named none. */
  function RoutedKey(result: LLMResult): string
    requires result.routedModel.Some?
  {
    if result.model != "" then result.model else result.routedModel.value
  }

  // ---------------------------------------------------------------- what each bucket should hold

  /** The spend of one bucket, described without reference to the order of other buckets' calls. */
  datatype Share = Share(
    calls: nat, usage: TokenUsage, cost: real, sources: set<CostSource>, reason: string, lastModel: string)
  {
    function With(c: Call): Share {
      if c.Flat? then this.(calls := calls + 1, cost := cost + c.amount)
      else Share(
        calls + 1, usage.Plus(c.result.Usage()), cost + c.result.cost, sources + {c.result.source},
        if calls == 0 then c.routedReason.GetOr("") else reason,
        if c.result.model != "" then c.result.model else lastModel)
    }
  }

  const NOTHING := Share(0, ZERO, 0.0, {}, "", "")

  /** The fold of exactly the calls of one bucket. */
  function ShareOf(calls: seq<Call>, ch: Channel): Share {
    if calls == [] then NOTHING
    else
      var s, c := ShareOf(calls[..|calls| - 1], ch), calls[|calls| - 1];
      if c.Channel() == ch then s.With(c) else s
  }

  /** The fold of every call of the attempt. */
  function Total(calls: seq<Call>): Share {
    if calls == [] then NOTHING else Total(calls[..|calls| - 1]).With(calls[|calls| - 1])
  }

  /** The routed models in the order each was first used. */
  function RoutedModels(calls: seq<Call>): (models: seq<string>)
    ensures Distinct(models)
  {
    if calls == [] then []
    else
      var models, ch := RoutedModels(calls[..|calls| - 1]), calls[|calls| - 1].Channel();
      if ch.Routed? && ch.model !in models then models + [ch.model] else models
  }

  /** The provenance label of a set of sources: no order enters into it. */
  function Label(sources: set<CostSource>): Option<CostSource> {
    if sources == {} then None
    else if Unknown in sources then Some(Unknown)
    else if Priced in sources || (FreeLocal in sources && Subscription in sources) then Some(Priced)
    else if FreeLocal in sources then Some(FreeLocal)
    else Some(Subscription)
  }

  lemma LabelStep(sources: set<CostSource>, added: CostSource)
    ensures Label(sources + {added}) == CombineSources(Label(sources), added)
  {
    if sources != {} {
      var x :| x in sources;
      assert x == Priced || x == FreeLocal || x == Subscription || x == Unknown;
    }
    assert added in sources + {added};
  }

  datatype RoutedSpend = RoutedSpend(
    model: string, reason: string, usage: TokenUsage, cost: real, source: Option<CostSource>)

  function Bucket(calls: seq<Call>, model: string): RoutedSpend {
    var s := ShareOf(calls, Routed(model));
    RoutedSpend(model, s.reason, s.usage, s.cost, Label(s.sources))
  }

  /** The dict of routed spend: one bucket per routed model, in order of first use. */
  ghost predicate AreBuckets(spend: seq<RoutedSpend>, calls: seq<Call>) {
    && |spend| == |RoutedModels(calls)|
    && forall i | 0 <= i < |spend| :: spend[i] == Bucket(calls, RoutedModels(calls)[i])
  }

  // ---------------------------------------------------------------- lemmas about the buckets

  lemma ShareSnoc(calls: seq<Call>, c: Call, ch: Channel)
    ensures ShareOf(calls + [c], ch) == if c.Channel() == ch then ShareOf(calls, ch).With(c) else ShareOf(calls, ch)
  {
    assert (calls + [c])[..|calls|] == calls;
  }

  lemma TotalSnoc(calls: seq<Call>, c: Call)
    ensures Total(calls + [c]) == Total(calls).With(c)
  {
    assert (calls + [c])[..|calls|] == calls;
  }

  lemma ModelsSnoc(calls: seq<Call>, c: Call)
    ensures RoutedModels(calls + [c]) ==
            var ms, ch := RoutedModels(calls), c.Channel();
            if ch.Routed? && ch.model !in ms then ms + [ch.model] else ms
  {
    assert (calls + [c])[..|calls|] == calls;
  }

  /** Counters stay coherent and no figure but the dollars can go negative. */
  lemma {:induction false} SharesAreCoherent(calls: seq<Call>, ch: Channel)
    ensures ShareOf(calls, ch).usage.Coherent() && Total(calls).usage.Coherent()
    ensures NoNegativeTokens(ShareOf(calls, ch).usage)
  {
    hide NoNegativeTokens;
    if calls == [] {
      NothingIsCoherent();
    } else {
      var head, c := calls[..|calls| - 1], calls[|calls| - 1];
      SharesAreCoherent(head, ch);
      WithIsCoherent(ShareOf(head, ch), c);
      WithIsCoherent(Total(head), c);
    }
  }

  lemma NothingIsCoherent()
    ensures NOTHING.usage.Coherent() && NoNegativeTokens(NOTHING.usage)
  {
  }

  lemma WithIsCoherent(s: Share, c: Call)
    requires s.usage.Coherent()
    ensures s.With(c).usage.Coherent() && (NoNegativeTokens(s.usage) ==> NoNegativeTokens(s.With(c).usage))
  {
  }

  /** No counter is negative, and a figure nobody reported is zero. */
  predicate NoNegativeTokens(u: TokenUsage) {
    && u.input >= 0 && u.output >= 0 && u.cacheRead >= 0
    && u.cacheWrite >= 0 && u.cacheWriteReports >= 0 && (u.cacheWriteReports == 0 ==> u.cacheWrite == 0)
    && u.reasoning >= 0 && u.reasoningReports >= 0 && (u.reasoningReports == 0 ==> u.reasoning == 0)
    && u.turns >= 0 && u.turnsReports >= 0 && (u.turnsReports == 0 ==> u.turns == 0)
  }

  /** Only the calls of the bucket matter, not how other buckets' calls are interleaved with them. */
  lemma {:induction false} InterleavingIsIrrelevant(calls: seq<Call>, ch: Channel)
    ensures ShareOf(calls, ch) == Total(Only(calls, ch))
  {
    if calls != [] {
      var head, c := calls[..|calls| - 1], calls[|calls| - 1];
      InterleavingIsIrrelevant(head, ch);
      if c.Channel() == ch { TotalSnoc(Only(head, ch), c); }
    }
  }

  /** The calls of one bucket, in order. */
  function Only(calls: seq<Call>, ch: Channel): seq<Call> {
    if calls == [] then []
    else
      var mine, c := Only(calls[..|calls| - 1], ch), calls[|calls| - 1];
      if c.Channel() == ch then mine + [c] else mine
  }

  /** A model has a bucket exactly when some call was routed to it. */
  lemma {:induction false} RoutedModelsAreUsed(calls: seq<Call>, model: string)
    ensures model in RoutedModels(calls) <==> ShareOf(calls, Routed(model)) != NOTHING
    ensures model in RoutedModels(calls) <==> ShareOf(calls, Routed(model)).calls > 0
  {
    if calls != [] { RoutedModelsAreUsed(calls[..|calls| - 1], model); }
  }

  /** One scalar of a snapshot; an absent saving reads as zero. */
  datatype Figure =
    | Input | Output | CacheRead | CacheWrite | Saved | CompressedCalls | CacheWriteReports
    | Reasoning | ReasoningReports | Turns | TurnsReports

  function Read(u: TokenUsage, f: Figure): int {
    match f
    case Input => u.input
    case Output => u.output
    case CacheRead => u.cacheRead
    case CacheWrite => u.cacheWrite
    case Saved => u.saved.GetOr(0)
    case CompressedCalls => u.compressedCalls
    case CacheWriteReports => u.cacheWriteReports
    case Reasoning => u.reasoning
    case ReasoningReports => u.reasoningReports
    case Turns => u.turns
    case TurnsReports => u.turnsReports
  }

  lemma ReadPlus(a: TokenUsage, b: TokenUsage, f: Figure)
    ensures Read(a.Plus(b), f) == Read(a, f) + Read(b, f)
  {
  }

  lemma ReadWith(s: Share, c: Call, f: Figure)
    ensures Read(s.With(c).usage, f) == Read(s.usage, f) + Read(c.Usage(), f)
    ensures s.With(c).cost == s.cost + c.Cost()
  {
    if c.Invocation? { ReadPlus(s.usage, c.Usage(), f); }
  }

  /** Coherent snapshots are equal when every figure of theirs is. */
  lemma SameFigures(a: TokenUsage, b: TokenUsage)
    requires a.Coherent() && b.Coherent() && forall f :: Read(a, f) == Read(b, f)
    ensures a == b
  {
    assert Read(a, Input) == Read(b, Input) && Read(a, Output) == Read(b, Output);
    assert Read(a, CacheRead) == Read(b, CacheRead) && Read(a, CacheWrite) == Read(b, CacheWrite);
    assert Read(a, Saved) == Read(b, Saved) && Read(a, CompressedCalls) == Read(b, CompressedCalls);
    assert Read(a, CacheWriteReports) == Read(b, CacheWriteReports);
    assert Read(a, Reasoning) == Read(b, Reasoning) && Read(a, ReasoningReports) == Read(b, ReasoningReports);
    assert Read(a, Turns) == Read(b, Turns) && Read(a, TurnsReports) == Read(b, TurnsReports);
  }

  /** The provider share with the given routed models' shares still in it. */
  function Remaining(calls: seq<Call>, models: seq<string>): TokenUsage {
    if models == [] then ShareOf(calls, Provider).usage
    else ShareOf(calls, Routed(models[0])).usage.Plus(Remaining(calls, models[1..]))
  }

  function RemainingCost(calls: seq<Call>, models: seq<string>): real {
    if models == [] then ShareOf(calls, Provider).cost
    else ShareOf(calls, Routed(models[0])).cost + RemainingCost(calls, models[1..])
  }

  lemma {:induction false} RemainingIsCoherent(calls: seq<Call>, models: seq<string>)
    ensures Remaining(calls, models).Coherent()
  {
    if models == [] {
      SharesAreCoherent(calls, Provider);
    } else {
      RemainingIsCoherent(calls, models[1..]);
      SharesAreCoherent(calls, Routed(models[0]));
      MinusUndoesPlus(ShareOf(calls, Routed(models[0])).usage, Remaining(calls, models[1..]));
    }
  }

  /** One more call moves the remainder by that call's spend when the call belongs to it. */
  lemma {:induction false} RemainingStep(calls: seq<Call>, c: Call, models: seq<string>, f: Figure)
    requires Distinct(models)
    ensures var mine := c.Channel().Provider? || (c.Channel().Routed? && c.Channel().model in models);
            && Read(Remaining(calls + [c], models), f)
               == Read(Remaining(calls, models), f) + (if mine then Read(c.Usage(), f) else 0)
            && RemainingCost(calls + [c], models)
               == RemainingCost(calls, models) + if mine then c.Cost() else 0.0
  {
    if models == [] {
      ShareSnoc(calls, c, Provider);
      ReadWith(ShareOf(calls, Provider), c, f);
    } else {
      var share := ShareOf(calls, Routed(models[0]));
      RemainingStep(calls, c, models[1..], f);
      ShareSnoc(calls, c, Routed(models[0]));
      ReadWith(share, c, f);
      ReadPlus(share.usage, Remaining(calls, models[1..]), f);
      ReadPlus(ShareOf(calls + [c], Routed(models[0])).usage, Remaining(calls + [c], models[1..]), f);
      assert models[0] !in models[1..];
    }
  }

  /** Listing a model nothing was routed to changes nothing. */
  lemma {:induction false} RemainingUnused(calls: seq<Call>, models: seq<string>, m: string, f: Figure)
    requires ShareOf(calls, Routed(m)) == NOTHING
    ensures Read(Remaining(calls, models + [m]), f) == Read(Remaining(calls, models), f)
    ensures RemainingCost(calls, models + [m]) == RemainingCost(calls, models)
  {
    if models == [] {
      ReadPlus(ZERO, Remaining(calls, []), f);
      assert ([] + [m])[1..] == [];
    } else {
      RemainingUnused(calls, models[1..], m, f);
      assert (models + [m])[1..] == models[1..] + [m];
      ReadPlus(ShareOf(calls, Routed(models[0])).usage, Remaining(calls, models[1..]), f);
      ReadPlus(ShareOf(calls, Routed(models[0])).usage, Remaining(calls, models[1..] + [m]), f);
    }
  }

  lemma {:induction false} FiguresAddUp(calls: seq<Call>, f: Figure)
    ensures Read(Total(calls).usage, f)
            == Read(ShareOf(calls, Runtime).usage, f) + Read(Remaining(calls, RoutedModels(calls)), f)
    ensures Total(calls).cost == ShareOf(calls, Runtime).cost + RemainingCost(calls, RoutedModels(calls))
  {
    if calls != [] {
      var head, c := calls[..|calls| - 1], calls[|calls| - 1];
      assert calls == head + [c];
      FiguresAddUp(head, f);
      ReadWith(Total(head), c, f);
      ReadWith(ShareOf(head, Runtime), c, f);
      var models := RoutedModels(head);
      RoutedModelsAreUsed(head, if c.Channel().Routed? then c.Channel().model else "");
      if c.Channel().Routed? && c.Channel().model !in models {
        RemainingUnused(head, models, c.Channel().model, f);
        RemainingStep(head, c, models + [c.Channel().model], f);
      } else {
        RemainingStep(head, c, models, f);
      }
    }
  }

  /**
   * Every call lands in exactly one bucket: whatever the interleaving, the runtime, provider and
   * per-model routed shares add up to the whole, in dollars and in every counter.
   */
  lemma SharesAddUp(calls: seq<Call>)
    ensures Total(calls).usage == ShareOf(calls, Runtime).usage.Plus(Remaining(calls, RoutedModels(calls)))
    ensures Total(calls).cost == ShareOf(calls, Runtime).cost + RemainingCost(calls, RoutedModels(calls))
  {
    var runtime, rest := ShareOf(calls, Runtime).usage, Remaining(calls, RoutedModels(calls));
    forall f ensures Read(Total(calls).usage, f) == Read(runtime.Plus(rest), f) {
      FiguresAddUp(calls, f);
      ReadPlus(runtime, rest, f);
    }
    FiguresAddUp(calls, Input);
    SharesAreCoherent(calls, Runtime);
    RemainingIsCoherent(calls, RoutedModels(calls));
    MinusUndoesPlus(runtime, rest);
    SameFigures(Total(calls).usage, runtime.Plus(rest));
  }

  /** Spend is never negative, so no share exceeds the total. */
  predicate NonNegative(calls: seq<Call>) {
    forall i | 0 <= i < |calls| :: calls[i].Cost() >= 0.0
  }

  lemma {:induction false} CostsAreNonNegative(calls: seq<Call>, ch: Channel)
    requires NonNegative(calls)
    ensures ShareOf(calls, ch).cost >= 0.0
  {
    if calls != [] {
      CostsAreNonNegative(calls[..|calls| - 1], ch);
      assert calls[|calls| - 1].Cost() >= 0.0;
    }
  }


  // ---------------------------------------------------------------- the context

  /** What adding `c` does to each bucket. */
  lemma BucketsStep(calls: seq<Call>, c: Call)
    ensures !c.Channel().Routed? ==> RoutedModels(calls + [c]) == RoutedModels(calls)
    ensures forall m | c.Channel() != Routed(m) :: Bucket(calls + [c], m) == Bucket(calls, m)
    ensures !c.Channel().Provider? ==> ShareOf(calls + [c], Provider) == ShareOf(calls, Provider)
    ensures !c.Channel().Runtime? ==> ShareOf(calls + [c], Runtime) == ShareOf(calls, Runtime)
  {
    ModelsSnoc(calls, c);
    forall ch | c.Channel() != ch ensures ShareOf(calls + [c], ch) == ShareOf(calls, ch) { ShareSnoc(calls, c, ch); }
  }

  function RuntimeUsage(calls: seq<Call>): Option<TokenUsage> {
    var s := ShareOf(calls, Runtime);
    if s.calls == 0 then None else Some(s.usage)
  }

  lemma RuntimeUsageStep(calls: seq<Call>, c: Call)
    requires c.Channel().Runtime?
    ensures RuntimeUsage(calls + [c]) ==
            Some(if RuntimeUsage(calls).None? then c.Usage() else RuntimeUsage(calls).value.Plus(c.Usage()))
  {
    ShareSnoc(calls, c, Runtime);
    EmptyShare(calls, Runtime);
  }

  lemma {:induction false} EmptyShare(calls: seq<Call>, ch: Channel)
    ensures ShareOf(calls, ch).calls == 0 ==> ShareOf(calls, ch) == NOTHING
  {
    if calls != [] { EmptyShare(calls[..|calls| - 1], ch); }
  }

  lemma NothingYet()
    ensures Total([]) == NOTHING && (forall ch :: ShareOf([], ch) == NOTHING) && RoutedModels([]) == []
  {
  }

  lemma PlusZero(u: TokenUsage)
    ensures u.Plus(ZERO) == u
  {
  }

  /** The accounting part of the execution context, updated in place by every call. */
  class ExecutionContext {
    var costUsd: real
    /** The eleven running counters. */
    var counters: TokenUsage
    var costSource: Option<CostSource>
    var providerModel: string
    var runtimeUsage: Option<TokenUsage>
    var runtimeCostUsd: real
    var runtimeSource: Option<CostSource>
    /** Keyed by model and kept in insertion order, as a Python dict is. */
    var routedSpend: seq<RoutedSpend>

    /** The calls of this attempt, and the totals it started from. */
    ghost var calls: seq<Call>
    ghost var base: TokenUsage
    ghost var baseCost: real

    /** A context that has already spent `cost` and used `used`; both zero for a fresh run. */
    constructor (cost: real, used: TokenUsage)
      requires used.Coherent()
      ensures Valid() && calls == [] && base == used && baseCost == cost
    {
      costUsd, counters := cost, used;
      costSource, providerModel, runtimeUsage, runtimeCostUsd, runtimeSource := None, "", None, 0.0, None;
      routedSpend := [];
      calls, base, baseCost := [], used, cost;
    }

    /** Clears what belongs to one attempt only; the running totals go on. */
    method ResetAttempt()
      requires Valid()
      modifies this
      ensures Valid() && calls == []
      ensures counters == old(counters) == base && costUsd == old(costUsd) == baseCost
    {
      hide Total, ShareOf, RoutedModels;
      SharesAreCoherent(calls, Runtime);
      MinusUndoesPlus(base, Total(calls).usage);
      NothingYet();
      PlusZero(counters);
      costSource, providerModel, runtimeUsage, runtimeCostUsd, runtimeSource := None, "", None, 0.0, None;
      routedSpend := [];
      calls, base, baseCost := [], counters, costUsd;
    }

    /** The running totals are the totals at the attempt's start plus everything recorded since. */
    ghost predicate TotalsAgree(cs: seq<Call>)
      reads this
    {
      && base.Coherent()
      && counters == base.Plus(Total(cs).usage)
      && costUsd == baseCost + Total(cs).cost
    }

    ghost predicate ProviderAgrees(cs: seq<Call>)
      reads this`costSource, this`providerModel
    {
      costSource == Label(ShareOf(cs, Provider).sources) && providerModel == ShareOf(cs, Provider).lastModel
    }

    ghost predicate RuntimeAgrees(cs: seq<Call>)
      reads this`runtimeUsage, this`runtimeCostUsd, this`runtimeSource
    {
      && runtimeUsage == RuntimeUsage(cs)
      && runtimeCostUsd == ShareOf(cs, Runtime).cost
      && runtimeSource == Label(ShareOf(cs, Runtime).sources)
    }

    /** Totals and per-bucket fields hold exactly the spend of the calls recorded so far. */
    ghost predicate Valid()
      reads this
    {
      TotalsAgree(calls) && ProviderAgrees(calls) && RuntimeAgrees(calls) && AreBuckets(routedSpend, calls)
    }

    method AddCost(amount: real)
      requires Valid()
      modifies this
      ensures Valid() && calls == old(calls) + [Flat(amount)] && base == old(base) && baseCost == old(baseCost)
    {
      costUsd := costUsd + amount;
      ghost var c := Flat(amount);
      TotalSnoc(calls, c);
      ShareSnoc(calls, c, Provider);
      BucketsStep(calls, c);
      calls := calls + [c];
    }

    method AddUsage(r: LLMResult, routedReason: Option<string>)
      requires Valid()
      modifies this
      ensures Valid() && calls == old(calls) + [Invocation(r, routedReason)]
      ensures base == old(base) && baseCost == old(baseCost)
    {
      hide ShareOf, Total, RoutedModels, Bucket, Label;
      ghost var was, c := calls, Invocation(r, routedReason);
      var before := counters;
      AddToTotals(r);
      TotalsStep(base, was, c);
      BucketsStep(was, c);
      calls := was + [c];
      if r.runtimeName.None? {
        if routedReason.Some? && r.routedModel.Some? {
          AddRoutedSpend(r, routedReason.value, was);
        } else {
          AddProviderShare(r, was, c);
        }
      } else {
        AddRuntimeShare(r, counters.Minus(before), was, c);
      }
    }

    /** The provenance and the reported model of the provider path. */
    method AddProviderShare(r: LLMResult, ghost was: seq<Call>, ghost c: Call)
      requires c.Invocation? && c.result == r && c.Channel().Provider? && ProviderAgrees(was)
      modifies this`costSource, this`providerModel
      ensures ProviderAgrees(was + [c])
    {
      ShareSnoc(was, c, Provider);
      LabelStep(ShareOf(was, Provider).sources, r.source);
      costSource := CombineSources(costSource, r.source);
      providerModel := if r.model != "" then r.model else providerModel;
    }

    /** A model-ignoring runtime's own usage, dollars and provenance. */
    method AddRuntimeShare(r: LLMResult, delta: TokenUsage, ghost was: seq<Call>, ghost c: Call)
      requires c.Invocation? && c.result == r && c.Channel().Runtime? && delta == r.Usage() && RuntimeAgrees(was)
      modifies this`runtimeUsage, this`runtimeCostUsd, this`runtimeSource
      ensures RuntimeAgrees(was + [c])
    {
      RuntimeUsageStep(was, c);
      ShareSnoc(was, c, Runtime);
      LabelStep(ShareOf(was, Runtime).sources, r.source);
      runtimeUsage := if runtimeUsage.None? then Some(delta) else Some(runtimeUsage.value.Plus(delta));
      runtimeCostUsd := runtimeCostUsd + r.cost;
      runtimeSource := CombineSources(runtimeSource, r.source);
    }

    /** The counters every result adds to, whichever bucket it belongs to. */
    method AddToTotals(r: LLMResult)
      modifies this`costUsd, this`counters
      ensures counters == old(counters).Plus(r.Usage()) && costUsd == old(costUsd) + r.cost
    {
      var u := counters;
      u := u.(input := u.input + r.input, output := u.output + r.output, cacheRead := u.cacheRead + r.cacheRead);
      if r.cacheCreation.Some? {
        u := u.(cacheWrite := u.cacheWrite + r.cacheCreation.value, cacheWriteReports := u.cacheWriteReports + 1);
      }
      if r.reasoning.Some? {
        u := u.(reasoning := u.reasoning + r.reasoning.value, reasoningReports := u.reasoningReports + 1);
      }
      if r.turns.Some? {
        u := u.(turns := u.turns + r.turns.value, turnsReports := u.turnsReports + 1);
      }
      if r.saved.Some? {
        u := u.(saved := Some(u.saved.GetOr(0) + r.saved.value), compressedCalls := u.compressedCalls + 1);
      }
      costUsd, counters := costUsd + r.cost, u;
    }

    /** Adds one off-model result to its model's bucket, creating the bucket on first use. */
    method AddRoutedSpend(r: LLMResult, reason: string, ghost was: seq<Call>)
      requires r.runtimeName.None? && r.routedModel.Some?
      requires AreBuckets(routedSpend, was)
      modifies this`routedSpend
      ensures AreBuckets(routedSpend, was + [Invocation(r, Some(reason))])
    {
      var key := RoutedKey(r);
      var i := 0;
      while i < |routedSpend| && routedSpend[i].model != key
        invariant 0 <= i <= |routedSpend|
        invariant forall j | 0 <= j < i :: routedSpend[j].model != key
      {
        i := i + 1;
      }
      if i == |routedSpend| {
        routedSpend := routedSpend + [RoutedSpend(key, reason, ZERO, 0.0, None)];
      }
      var b := routedSpend[i];
      BucketsAfterRouting(was, routedSpend, r, reason, i);
      routedSpend := routedSpend[i := Grown(b, r)];
    }
  }

  lemma PlusAssociates(a: TokenUsage, b: TokenUsage, c: TokenUsage)
    ensures a.Plus(b).Plus(c) == a.Plus(b.Plus(c))
  {
  }

  /** The running totals after one more invocation, and the delta two snapshots around it give back. */
  lemma TotalsStep(base: TokenUsage, calls: seq<Call>, c: Call)
    requires base.Coherent() && c.Invocation?
    ensures var before := base.Plus(Total(calls).usage);
            var after := before.Plus(c.result.Usage());
            after == base.Plus(Total(calls + [c]).usage) && after.Minus(before) == c.result.Usage()
    ensures Total(calls + [c]).cost == Total(calls).cost + c.result.cost
  {
    var before := base.Plus(Total(calls).usage);
    TotalSnoc(calls, c);
    PlusAssociates(base, Total(calls).usage, c.result.Usage());
    SharesAreCoherent(calls, Runtime);
    MinusUndoesPlus(base, Total(calls).usage);
    MinusUndoesPlus(before, c.result.Usage());
  }

  function Grown(b: RoutedSpend, r: LLMResult): RoutedSpend {
    b.(usage := b.usage.Plus(r.Usage()), cost := b.cost + r.cost, source := CombineSources(b.source, r.source))
  }

  /** The bucket list after one routed result: the bucket at the model's place grows, or a new one is last. */
  lemma BucketsAfterRouting(calls: seq<Call>, spend: seq<RoutedSpend>, r: LLMResult, reason: string, i: nat)
    requires r.runtimeName.None? && r.routedModel.Some? && i < |spend|
    requires forall j | 0 <= j < i :: spend[j].model != RoutedKey(r)
    requires spend[i].model == RoutedKey(r)
    requires AreBuckets(spend, calls)
             || (i == |spend| - 1 && AreBuckets(spend[..i], calls)
                 && spend[i] == RoutedSpend(RoutedKey(r), reason, ZERO, 0.0, None))
    ensures AreBuckets(spend[i := Grown(spend[i], r)], calls + [Invocation(r, Some(reason))])
  {
    var key, c, models := RoutedKey(r), Invocation(r, Some(reason)), RoutedModels(calls);
    hide ShareOf, RoutedModels, Bucket;
    ModelsSnoc(calls, c);
    BucketsStep(calls, c);
    BucketGrows(calls, spend[i], r, reason);
    if AreBuckets(spend, calls) {
      BucketIsOf(calls, spend, i);
      hide AreBuckets;
      KnownBucket(calls, spend, c, i);
    } else {
      forall j | 0 <= j < |models| ensures models[j] != key { BucketIsOf(calls, spend[..i], j); }
      hide AreBuckets;
      NewBucket(calls, spend, c, i);
    }
  }

  lemma BucketIsOf(calls: seq<Call>, spend: seq<RoutedSpend>, i: nat)
    requires AreBuckets(spend, calls) && i < |spend|
    ensures spend[i].model == RoutedModels(calls)[i] && spend[i] == Bucket(calls, spend[i].model)
  {
  }

  /** The bucket of a model, as it was or as it is opened, grown by one result. */
  lemma BucketGrows(calls: seq<Call>, b: RoutedSpend, r: LLMResult, reason: string)
    requires r.runtimeName.None? && r.routedModel.Some?
    requires var key := RoutedKey(r);
             if key in RoutedModels(calls) then b == Bucket(calls, key) else b == RoutedSpend(key, reason, ZERO, 0.0, None)
    ensures Grown(b, r) == Bucket(calls + [Invocation(r, Some(reason))], RoutedKey(r))
  {
    var key, c := RoutedKey(r), Invocation(r, Some(reason));
    ShareSnoc(calls, c, Routed(key));
    LabelStep(ShareOf(calls, Routed(key)).sources, r.source);
    RoutedModelsAreUsed(calls, key);
  }

  lemma KnownBucket(calls: seq<Call>, spend: seq<RoutedSpend>, c: Call, i: nat)
    requires AreBuckets(spend, calls) && i < |spend| && RoutedModels(calls + [c]) == RoutedModels(calls)
    requires forall m | m != spend[i].model :: Bucket(calls + [c], m) == Bucket(calls, m)
    ensures AreBuckets(spend[i := Bucket(calls + [c], spend[i].model)], calls + [c])
  {
    hide RoutedModels, Bucket;
    BucketIsOf(calls, spend, i);
    forall j | 0 <= j < |spend| && j != i ensures spend[j].model != spend[i].model { BucketIsOf(calls, spend, j); }
  }

  lemma NewBucket(calls: seq<Call>, spend: seq<RoutedSpend>, c: Call, i: nat)
    requires i == |spend| - 1 && AreBuckets(spend[..i], calls) && spend[i].model !in RoutedModels(calls)
    requires RoutedModels(calls + [c]) == RoutedModels(calls) + [spend[i].model]
    requires forall m | m != spend[i].model :: Bucket(calls + [c], m) == Bucket(calls, m)
    ensures AreBuckets(spend[i := Bucket(calls + [c], spend[i].model)], calls + [c])
  {
    hide RoutedModels, Bucket;
    forall j | 0 <= j < i ensures spend[j] == Bucket(calls, RoutedModels(calls)[j]) && RoutedModels(calls)[j] != spend[i].model {
      BucketIsOf(calls, spend[..i], j);
      assert spend[..i][j] == spend[j];
    }
  }

  // ---------------------------------------------------------------- one attempt, and its cost records

  /** How a step's `execute` ended: its own result, or one the engine makes up. */
  datatype Outcome = Returned(success: bool, cost: real) | TimedOut | Raised

  datatype StepResult = StepResult(success: bool, cost: real, usage: Option<TokenUsage>)

  /**
   * Runs one step attempt: resets the per-attempt fields, lets the step make its calls (a timeout
   * or an exception cuts the list anywhere), and derives the attempt's spend from the context.
   */
  method RunStepWithTimeout(ctx: ExecutionContext, made: seq<Call>, outcome: Outcome) returns (result: StepResult)
    requires ctx.Valid()
    modifies ctx
    ensures ctx.Valid() && ctx.calls == made
    ensures result.usage == Some(Total(made).usage)
    ensures result.success <==> outcome.Returned? && outcome.success
    ensures var reported := if outcome.Returned? then outcome.cost else 0.0;
            result.cost == if Total(made).cost > reported then Total(made).cost else reported
  {
    var usageBefore, costBefore := ctx.counters, ctx.costUsd;
    SharesAreCoherent(ctx.calls, Runtime);
    MinusUndoesPlus(ctx.base, Total(ctx.calls).usage);
    ctx.ResetAttempt();
    var i := 0;
    while i < |made|
      invariant 0 <= i <= |made|
      invariant ctx.Valid() && ctx.calls == made[..i]
      invariant ctx.base == usageBefore && ctx.baseCost == costBefore
    {
      assert made[..i + 1] == made[..i] + [made[i]];
      if made[i].Flat? {
        ctx.AddCost(made[i].amount);
      } else {
        ctx.AddUsage(made[i].result, made[i].routedReason);
      }
      i := i + 1;
    }
    assert made[..i] == made;
    SharesAreCoherent(made, Runtime);
    MinusUndoesPlus(usageBefore, Total(made).usage);
    var usage := ctx.counters.Minus(usageBefore);
    var stepCost := ctx.costUsd - costBefore;
    result := match outcome
      case Returned(ok, cost) => StepResult(ok, cost, Some(usage))
      case TimedOut => StepResult(false, 0.0, Some(usage))
      case Raised => StepResult(false, 0.0, Some(usage));
    if stepCost > result.cost {
      result := result.(cost := stepCost);
    }
  }

  /** The labels other parts of the engine set; "" stands for `None`. */
  datatype Labels = Labels(
    runtimeModel: string, runtimeReason: string, resolvedModel: string, stepReason: string, runReason: string)

  datatype CostRecord = CostRecord(
    model: string, reason: string, cost: real, source: Option<CostSource>,
    input: int, output: int, cacheTokens: int, cacheRead: int,
    cacheWrite: Option<int>, reasoning: Option<int>, turns: Option<int>,
    saved: Option<int>, preCompressionInput: Option<int>)

  function Or(a: string, b: string): string {
    if a != "" then a else b
  }

  function BuildCostRecord(
    model: string, reason: string, cost: real, source: Option<CostSource>, u: TokenUsage): CostRecord
  {
    CostRecord(
      model, reason, cost, source,
      u.input, u.output, u.cacheRead + u.cacheWrite, u.cacheRead,
      if u.cacheWriteReports > 0 then Some(u.cacheWrite) else None,
      if u.reasoningReports > 0 then Some(u.reasoning) else None,
      if u.turnsReports > 0 then Some(u.turns) else None,
      u.saved, if u.saved.Some? then Some(u.input + u.saved.value) else None)
  }

  predicate HasTokens(u: TokenUsage) {
    u.input > 0 || u.output > 0 || u.cacheRead > 0 || u.cacheWrite > 0 || u.turnsReports > 0
  }

  function RuntimeRecords(calls: seq<Call>, labels: Labels): seq<CostRecord> {
    var s := ShareOf(calls, Runtime);
    if s.calls == 0 then []
    else [BuildCostRecord(Or(labels.runtimeModel, "unknown"), labels.runtimeReason, s.cost, Label(s.sources), s.usage)]
  }

  function RoutedRecord(b: RoutedSpend): CostRecord {
    BuildCostRecord(b.model, b.reason, b.cost, b.source, b.usage)
  }

  function RoutedRecords(calls: seq<Call>, models: seq<string>): seq<CostRecord> {
    if models == [] then []
    else [RoutedRecord(Bucket(calls, models[0]))] + RoutedRecords(calls, models[1..])
  }

  function ProviderRecords(calls: seq<Call>, labels: Labels, cost: real, usage: TokenUsage): seq<CostRecord> {
    var s := ShareOf(calls, Provider);
    if cost > 0.0 || HasTokens(usage) then
      [BuildCostRecord(Or(s.lastModel, Or(labels.resolvedModel, "unknown")), Or(labels.stepReason, labels.runReason),
                       cost, Label(s.sources), usage)]
    else []
  }

  /** One record per bucket; the provider's holds what the step reported beyond its recorded calls. */
  function ExpectedRecords(calls: seq<Call>, labels: Labels, cost: real): seq<CostRecord> {
    var provider := ShareOf(calls, Provider);
    RuntimeRecords(calls, labels)
    + RoutedRecords(calls, RoutedModels(calls))
    + ProviderRecords(calls, labels, provider.cost + (cost - Total(calls).cost), provider.usage)
  }

  /**
   * Writes the attempt's cost records by subtraction: the runtime share first, then every routed
   * share, the rest to the provider. With a result no cheaper than its calls the clamps at zero
   * never bite, and what is left for the provider is exactly the provider calls' own spend.
   */
  method UpdateStepExecution(ctx: ExecutionContext, labels: Labels, result: StepResult)
    returns (records: seq<CostRecord>)
    requires ctx.Valid()
    ensures NonNegative(ctx.calls) && result.cost >= Total(ctx.calls).cost
            && result.usage == Some(Total(ctx.calls).usage)
            ==> records == ExpectedRecords(ctx.calls, labels, result.cost)
    ensures NonNegative(ctx.calls) && result.cost >= Total(ctx.calls).cost && result.usage == None
            ==> records == RuntimeRecords(ctx.calls, labels) + RoutedRecords(ctx.calls, RoutedModels(ctx.calls))
                           + ProviderRecords(ctx.calls, labels, ShareOf(ctx.calls, Provider).cost
                                             + (result.cost - Total(ctx.calls).cost), ZERO)
  {
    hide ShareOf, Total, RoutedModels, RuntimeRecords, RoutedRecords, NonNegative, Remaining, RemainingCost;
    ghost var calls := ctx.calls;
    ghost var models := RoutedModels(calls);
    if NonNegative(calls) && result.cost >= Total(calls).cost { RemainingCostIsNonNegative(calls, models); }
    RemoveRuntime(calls);
    var usage, cost, routed;
    records, usage, cost := SplitOffRuntime(ctx, labels, result);
    routed, usage, cost := SplitOffRouted(ctx, usage, cost, result.usage.Some?);
    records := records + routed;
    if cost > 0.0 || HasTokens(usage) {
      records := records + [BuildCostRecord(
                              Or(ctx.providerModel, Or(labels.resolvedModel, "unknown")),
                              Or(labels.stepReason, labels.runReason), cost, ctx.costSource, usage)];
    }
  }

  /** The runtime part of the split. */
  method SplitOffRuntime(ctx: ExecutionContext, labels: Labels, result: StepResult)
    returns (records: seq<CostRecord>, left: TokenUsage, leftCost: real)
    requires ctx.Valid()
    ensures records == RuntimeRecords(ctx.calls, labels)
    ensures result.usage.None? ==> left == ZERO
    ensures result.usage == Some(Total(ctx.calls).usage)
            ==> left == Remaining(ctx.calls, RoutedModels(ctx.calls))
    ensures var cost := result.cost - ShareOf(ctx.calls, Runtime).cost; cost >= 0.0 ==> leftCost == cost
  {
    RemoveRuntime(ctx.calls);
    records, left, leftCost := [], result.usage.GetOr(ZERO), result.cost;
    if ctx.runtimeUsage.Some? {
      records := [BuildCostRecord(Or(labels.runtimeModel, "unknown"), labels.runtimeReason,
                                  ctx.runtimeCostUsd, ctx.runtimeSource, ctx.runtimeUsage.value)];
      left := if result.usage.Some? then left.Minus(ctx.runtimeUsage.value) else ZERO;
      leftCost := AtLeastZero(result.cost - ctx.runtimeCostUsd);
    }
  }

  /** The routed part of the split: one record per bucket, each subtracted from the provider share. */
  method SplitOffRouted(ctx: ExecutionContext, usage: TokenUsage, cost: real, subtract: bool)
    returns (records: seq<CostRecord>, left: TokenUsage, leftCost: real)
    requires ctx.Valid()
    ensures records == RoutedRecords(ctx.calls, RoutedModels(ctx.calls))
    ensures !subtract ==> left == usage
    ensures subtract && usage == Remaining(ctx.calls, RoutedModels(ctx.calls)) ==> left == ShareOf(ctx.calls, Provider).usage
    ensures NonNegative(ctx.calls) && cost >= RemainingCost(ctx.calls, RoutedModels(ctx.calls))
            ==> leftCost == ShareOf(ctx.calls, Provider).cost + (cost - RemainingCost(ctx.calls, RoutedModels(ctx.calls)))
  {
    hide ShareOf, Total, RoutedModels, NonNegative;
    var spend := ctx.routedSpend;
    ghost var calls := ctx.calls;
    ghost var models := RoutedModels(calls);
    ghost var surplus := cost - RemainingCost(calls, models);
    assert models[0..] == models;
    records, left, leftCost := [], usage, cost;
    var i := 0;
    while i < |spend|
      invariant 0 <= i <= |models|
      invariant records == RoutedRecords(calls, models[..i])
      invariant subtract && usage == Remaining(calls, models) ==> left == Remaining(calls, models[i..])
      invariant !subtract ==> left == usage
      invariant NonNegative(calls) && surplus >= 0.0 ==> leftCost == RemainingCost(calls, models[i..]) + surplus
    {
      RoutedRecordsSnoc(calls, models[..i], models[i]);
      assert models[..i + 1] == models[..i] + [models[i]];
      assert models[i..][0] == models[i] && models[i..][1..] == models[i + 1..];
      RemoveRouted(calls, models[i..]);
      if NonNegative(calls) { RemainingCostIsNonNegative(calls, models[i + 1..]); }
      records := records + [RoutedRecord(spend[i])];
      if subtract {
        left := left.Minus(spend[i].usage);
      }
      leftCost := AtLeastZero(leftCost - spend[i].cost);
      i := i + 1;
    }
    assert models[..i] == models && models[i..] == [];
  }

  function AtLeastZero(x: real): real {
    if x > 0.0 then x else 0.0
  }

  lemma RemoveRuntime(calls: seq<Call>)
    ensures Total(calls).cost == ShareOf(calls, Runtime).cost + RemainingCost(calls, RoutedModels(calls))
    ensures RuntimeUsage(calls).None? ==> ShareOf(calls, Runtime).cost == 0.0
    ensures var rest := Remaining(calls, RoutedModels(calls));
            if RuntimeUsage(calls).Some? then Total(calls).usage.Minus(RuntimeUsage(calls).value) == rest
            else Total(calls).usage == rest
  {
    SharesAddUp(calls);
    EmptyShare(calls, Runtime);
    SharesAreCoherent(calls, Runtime);
    RemainingIsCoherent(calls, RoutedModels(calls));
    MinusUndoesPlus(ShareOf(calls, Runtime).usage, Remaining(calls, RoutedModels(calls)));
  }

  lemma RemoveRouted(calls: seq<Call>, models: seq<string>)
    requires models != []
    ensures Remaining(calls, models).Minus(ShareOf(calls, Routed(models[0])).usage) == Remaining(calls, models[1..])
  {
    SharesAreCoherent(calls, Routed(models[0]));
    RemainingIsCoherent(calls, models[1..]);
    MinusUndoesPlus(ShareOf(calls, Routed(models[0])).usage, Remaining(calls, models[1..]));
  }

  lemma {:induction false} RemainingCostIsNonNegative(calls: seq<Call>, models: seq<string>)
    requires NonNegative(calls)
    ensures RemainingCost(calls, models) >= 0.0
  {
    if models == [] {
      CostsAreNonNegative(calls, Provider);
    } else {
      RemainingCostIsNonNegative(calls, models[1..]);
      CostsAreNonNegative(calls, Routed(models[0]));
    }
  }

  lemma {:induction false} RoutedRecordsSnoc(calls: seq<Call>, models: seq<string>, m: string)
    ensures RoutedRecords(calls, models + [m]) == RoutedRecords(calls, models) + [RoutedRecord(Bucket(calls, m))]
  {
    if models == [] {
      assert ([] + [m])[1..] == [];
    } else {
      RoutedRecordsSnoc(calls, models[1..], m);
      assert (models + [m])[1..] == models[1..] + [m];
    }
  }

  // ---------------------------------------------------------------- what the records conserve

  datatype Column =
    | CostColumn | InputColumn | OutputColumn | CacheReadColumn | CacheWriteColumn | TurnsColumn | ReasoningColumn | SavedColumn

  function Cell(r: CostRecord, c: Column): real {
    match c
    case CostColumn => r.cost
    case InputColumn => r.input as real
    case OutputColumn => r.output as real
    case CacheReadColumn => r.cacheRead as real
    case CacheWriteColumn => r.cacheWrite.GetOr(0) as real
    case TurnsColumn => r.turns.GetOr(0) as real
    case ReasoningColumn => r.reasoning.GetOr(0) as real
    case SavedColumn => r.saved.GetOr(0) as real
  }

  function SumOf(records: seq<CostRecord>, c: Column): real {
    if records == [] then 0.0 else Cell(records[0], c) + SumOf(records[1..], c)
  }

  lemma {:induction false} SumOfConcat(a: seq<CostRecord>, b: seq<CostRecord>, c: Column)
    ensures SumOf(a + b, c) == SumOf(a, c) + SumOf(b, c)
  {
    if a == [] {
      assert a + b == b;
    } else {
      SumOfConcat(a[1..], b, c);
      assert (a + b)[1..] == a[1..] + b;
    }
  }

  /** The attempt's own figure in a column. */
  function InResult(cost: real, u: TokenUsage, c: Column): real {
    match c
    case CostColumn => cost
    case InputColumn => u.input as real
    case OutputColumn => u.output as real
    case CacheReadColumn => u.cacheRead as real
    case CacheWriteColumn => u.cacheWrite as real
    case TurnsColumn => u.turns as real
    case ReasoningColumn => u.reasoning as real
    case SavedColumn => u.saved.GetOr(0) as real
  }

  lemma CellOfShare(model: string, reason: string, cost: real, source: Option<CostSource>, u: TokenUsage, c: Column)
    requires NoNegativeTokens(u)
    ensures Cell(BuildCostRecord(model, reason, cost, source, u), c) == InResult(cost, u, c)
  {
  }

  lemma {:induction false} RoutedRecordsSum(calls: seq<Call>, models: seq<string>, c: Column)
    ensures var p := ShareOf(calls, Provider);
            SumOf(RoutedRecords(calls, models), c) + InResult(p.cost, p.usage, c)
            == InResult(RemainingCost(calls, models), Remaining(calls, models), c)
  {
    if models != [] {
      RoutedRecordsSum(calls, models[1..], c);
      SharesAreCoherent(calls, Routed(models[0]));
      var b := Bucket(calls, models[0]);
      CellOfShare(b.model, b.reason, b.cost, b.source, b.usage, c);
      assert RoutedRecords(calls, models)[1..] == RoutedRecords(calls, models[1..]);
    }
  }

  /** The provider record is written, or its calls reported nothing in the column. */
  predicate IsKept(calls: seq<Call>, cost: real, c: Column) {
    var provider := ShareOf(calls, Provider);
    || provider.cost + (cost - Total(calls).cost) > 0.0 || HasTokens(provider.usage)
    || InResult(provider.cost, provider.usage, c) == 0.0
  }

  /** The columns a record is not written for on their own. */
  predicate MayBeLost(c: Column) {
    c.ReasoningColumn? || c.SavedColumn?
  }

  /**
   * Cost conservation: for every sequence of calls, whatever bucket each falls in, the records sum
   * to the step result in dollars, input, output, cache and turn counts. Reasoning tokens and savings
   * are conserved exactly when the provider record is written or its calls reported none.
   */
  lemma RecordsConserve(calls: seq<Call>, labels: Labels, cost: real, c: Column)
    requires NonNegative(calls) && cost >= Total(calls).cost
    ensures SumOf(ExpectedRecords(calls, labels, cost), c) == InResult(cost, Total(calls).usage, c)
            <==> (MayBeLost(c) ==> IsKept(calls, cost, c))
  {
    hide SumOf, RuntimeRecords, RoutedRecords, ProviderRecords, ShareOf, Total, Remaining, RemainingCost, RoutedModels;
    var p, r, models := ShareOf(calls, Provider), ShareOf(calls, Runtime), RoutedModels(calls);
    var extra := cost - Total(calls).cost;
    var a, b, d := RuntimeRecords(calls, labels), RoutedRecords(calls, models),
                   ProviderRecords(calls, labels, p.cost + extra, p.usage);
    SumOfConcat(a + b, d, c);
    SumOfConcat(a, b, c);
    RuntimeSum(calls, labels, c);
    RoutedRecordsSum(calls, models, c);
    CostsAreNonNegative(calls, Provider);
    ProviderSum(calls, labels, p.cost + extra, c);
    SharesAddUp(calls);
    ResultSplits(r.cost, r.usage, RemainingCost(calls, models), Remaining(calls, models), extra, c);
    ResultSplits(p.cost, p.usage, extra, ZERO, 0.0, c);
  }

  /** A provider call that only reasoned, for free: its tokens are in the result and in no record. */
  lemma FreeReasoningIsLost(c: Call, labels: Labels)
    requires c.Invocation? && c.Channel().Provider? && c.result.cost == 0.0 && !HasTokens(c.Usage())
    requires c.result.reasoning.Some? && c.result.reasoning.value > 0
    ensures InResult(0.0, Total([c]).usage, ReasoningColumn) == c.result.reasoning.value as real
    ensures SumOf(ExpectedRecords([c], labels, 0.0), ReasoningColumn) != c.result.reasoning.value as real
  {
    OneCall(c);
    assert !IsKept([c], 0.0, ReasoningColumn) && NonNegative([c]);
    hide ShareOf, Total, SumOf, ExpectedRecords, IsKept;
    RecordsConserve([c], labels, 0.0, ReasoningColumn);
  }

  lemma OneCall(c: Call)
    requires c.Invocation?
    ensures Total([c]) == ShareOf([c], c.Channel()) == NOTHING.With(c)
    ensures Total([c]).usage.reasoning == c.result.reasoning.GetOr(0) && Total([c]).cost == c.result.cost
    ensures HasTokens(Total([c]).usage) == HasTokens(c.Usage())
  {
    assert [c][..0] == [];
  }

  lemma ResultSplits(cost: real, u: TokenUsage, cost': real, u': TokenUsage, extra: real, c: Column)
    ensures InResult(cost + cost' + extra, u.Plus(u'), c)
            == InResult(cost, u, c) + InResult(cost', u', c) + if c.CostColumn? then extra else 0.0
  {
  }

  lemma RuntimeSum(calls: seq<Call>, labels: Labels, c: Column)
    ensures var r := ShareOf(calls, Runtime);
            SumOf(RuntimeRecords(calls, labels), c) == InResult(r.cost, r.usage, c)
  {
    var r := ShareOf(calls, Runtime);
    EmptyShare(calls, Runtime);
    SharesAreCoherent(calls, Runtime);
    CellOfShare(Or(labels.runtimeModel, "unknown"), labels.runtimeReason, r.cost, Label(r.sources), r.usage, c);
    if r.calls > 0 { assert RuntimeRecords(calls, labels)[1..] == []; }
  }

  /** Leaving the provider record out loses nothing but reasoning tokens. */
  lemma ProviderSum(calls: seq<Call>, labels: Labels, cost: real, c: Column)
    requires cost >= 0.0
    ensures var p := ShareOf(calls, Provider);
            SumOf(ProviderRecords(calls, labels, cost, p.usage), c) == InResult(cost, p.usage, c)
            <==> (MayBeLost(c) ==> cost > 0.0 || HasTokens(p.usage) || InResult(cost, p.usage, c) == 0.0)
  {
    var p := ShareOf(calls, Provider);
    SharesAreCoherent(calls, Provider);
    CellOfShare(Or(p.lastModel, Or(labels.resolvedModel, "unknown")), Or(labels.stepReason, labels.runReason),
                cost, Label(p.sources), p.usage, c);
    var records := ProviderRecords(calls, labels, cost, p.usage);
    if records != [] { assert records[1..] == []; }
  }

  datatype Nullable = NullableCacheWrite | NullableReasoning | NullableTurns | NullableSaved

  predicate IsNull(r: CostRecord, f: Nullable) {
    match f
    case NullableCacheWrite => r.cacheWrite.None?
    case NullableReasoning => r.reasoning.None?
    case NullableTurns => r.turns.None?
    case NullableSaved => r.saved.None? && r.preCompressionInput.None?
  }

  predicate Reports(r: LLMResult, f: Nullable) {
    match f
    case NullableCacheWrite => r.cacheCreation.Some?
    case NullableReasoning => r.reasoning.Some?
    case NullableTurns => r.turns.Some?
    case NullableSaved => r.saved.Some?
  }

  function ReportCount(u: TokenUsage, f: Nullable): int {
    match f
    case NullableCacheWrite => u.cacheWriteReports
    case NullableReasoning => u.reasoningReports
    case NullableTurns => u.turnsReports
    case NullableSaved => u.compressedCalls
  }

  predicate ReportedIn(calls: seq<Call>, ch: Channel, f: Nullable, i: int) {
    0 <= i < |calls| && calls[i].Invocation? && IsIn(calls[i], ch) && Reports(calls[i].result, f)
  }

  lemma {:induction false} CountsReports(calls: seq<Call>, ch: Channel, f: Nullable)
    ensures ReportCount(ShareOf(calls, ch).usage, f) >= 0
    ensures ReportCount(ShareOf(calls, ch).usage, f) > 0 <==> exists i :: ReportedIn(calls, ch, f, i)
  {
    if calls != [] {
      var head, last := calls[..|calls| - 1], |calls| - 1;
      CountsReports(head, ch, f);
      IsInItsChannel(calls[last], ch);
      CountStep(ShareOf(head, ch), calls[last], f);
      assert forall i | ReportedIn(head, ch, f, i) :: ReportedIn(calls, ch, f, i);
      assert forall i | ReportedIn(calls, ch, f, i) :: i == last || ReportedIn(head, ch, f, i);
      if IsIn(calls[last], ch) && calls[last].Invocation? && Reports(calls[last].result, f) {
        assert ReportedIn(calls, ch, f, last);
      } else {
        assert !ReportedIn(calls, ch, f, last);
        assert ReportCount(ShareOf(calls, ch).usage, f) == ReportCount(ShareOf(head, ch).usage, f);
      }
    }
  }

  lemma CountStep(s: Share, c: Call, f: Nullable)
    ensures ReportCount(s.With(c).usage, f)
            == ReportCount(s.usage, f) + if c.Invocation? && Reports(c.result, f) then 1 else 0
  {
  }

  /** A nullable column is null exactly when no call of the record's bucket reported the figure. */
  lemma NullExactlyWhenUnreported(
    calls: seq<Call>, ch: Channel, model: string, reason: string, source: Option<CostSource>, f: Nullable)
    ensures var s := ShareOf(calls, ch);
            IsNull(BuildCostRecord(model, reason, s.cost, source, s.usage), f)
            <==> !exists i :: ReportedIn(calls, ch, f, i)
  {
    CountsReports(calls, ch, f);
    SharesAreCoherent(calls, ch);
  }

  // ---------------------------------------------------------------- what the calls themselves reported

  /** Whether a call's spend belongs to a bucket, told from what the call carries. */
  predicate IsIn(c: Call, ch: Channel) {
    match ch
    case Runtime => c.Invocation? && c.result.runtimeName.Some?
    case Routed(model) =>
      && c.Invocation? && c.result.runtimeName.None? && c.routedReason.Some? && c.result.routedModel.Some?
      && model == (if c.result.model != "" then c.result.model else c.result.routedModel.value)
    case Provider =>
      c.Flat? || (c.result.runtimeName.None? && (c.routedReason.None? || c.result.routedModel.None?))
  }

  lemma IsInItsChannel(c: Call, ch: Channel)
    ensures IsIn(c, ch) <==> c.Channel() == ch
  {
  }

  ghost predicate Occurs(calls: seq<Call>, ch: Channel) {
    exists i :: 0 <= i < |calls| && IsIn(calls[i], ch)
  }

  /** What one call itself reported in a column; a flat amount comes without tokens. */
  function OfCall(c: Call, col: Column): real {
    match c
    case Flat(amount) => if col.CostColumn? then amount else 0.0
    case Invocation(r, _) =>
      match col
      case CostColumn => r.cost
      case InputColumn => r.input as real
      case OutputColumn => r.output as real
      case CacheReadColumn => r.cacheRead as real
      case CacheWriteColumn => r.cacheCreation.GetOr(0) as real
      case TurnsColumn => r.turns.GetOr(0) as real
      case ReasoningColumn => r.reasoning.GetOr(0) as real
      case SavedColumn => r.saved.GetOr(0) as real
  }

  /** The same, summed over the calls of a bucket. */
  function OfCalls(calls: seq<Call>, ch: Channel, col: Column): real {
    if calls == [] then 0.0
    else
      var c := calls[|calls| - 1];
      OfCalls(calls[..|calls| - 1], ch, col) + if IsIn(c, ch) then OfCall(c, col) else 0.0
  }

  function OfAll(calls: seq<Call>, col: Column): real {
    if calls == [] then 0.0 else OfAll(calls[..|calls| - 1], col) + OfCall(calls[|calls| - 1], col)
  }

  lemma WithReports(s: Share, c: Call, col: Column)
    ensures InResult(s.With(c).cost, s.With(c).usage, col) == InResult(s.cost, s.usage, col) + OfCall(c, col)
  {
  }

  lemma {:induction false} ShareIsReported(calls: seq<Call>, ch: Channel, col: Column)
    ensures InResult(ShareOf(calls, ch).cost, ShareOf(calls, ch).usage, col) == OfCalls(calls, ch, col)
  {
    hide InResult, OfCall, IsIn;
    if calls == [] {
      NothingIsReported(col);
    } else {
      var head, c := calls[..|calls| - 1], calls[|calls| - 1];
      ShareIsReported(head, ch, col);
      WithReports(ShareOf(head, ch), c, col);
      IsInItsChannel(c, ch);
    }
  }

  lemma {:induction false} TotalIsReported(calls: seq<Call>, col: Column)
    ensures InResult(Total(calls).cost, Total(calls).usage, col) == OfAll(calls, col)
  {
    hide InResult, OfCall;
    if calls == [] {
      NothingIsReported(col);
    } else {
      TotalIsReported(calls[..|calls| - 1], col);
      WithReports(Total(calls[..|calls| - 1]), calls[|calls| - 1], col);
    }
  }

  lemma NothingIsReported(col: Column)
    ensures InResult(NOTHING.cost, NOTHING.usage, col) == 0.0
  {
  }

  /** The provenances of a bucket's invocations. */
  function SourcesIn(calls: seq<Call>, ch: Channel): set<CostSource> {
    set i | 0 <= i < |calls| && calls[i].Invocation? && IsIn(calls[i], ch) :: calls[i].result.source
  }

  lemma {:induction false} SourcesAre(calls: seq<Call>, ch: Channel)
    ensures ShareOf(calls, ch).sources == SourcesIn(calls, ch)
  {
    if calls != [] {
      var n := |calls| - 1;
      SourcesAre(calls[..n], ch);
      IsInItsChannel(calls[n], ch);
      SourcesSnoc(calls, ch);
    }
  }

  lemma SourcesSnoc(calls: seq<Call>, ch: Channel)
    requires calls != []
    ensures var n := |calls| - 1;
            SourcesIn(calls, ch) == SourcesIn(calls[..n], ch)
                                    + if calls[n].Invocation? && IsIn(calls[n], ch) then {calls[n].result.source} else {}
  {
    hide IsIn;
    var n := |calls| - 1;
    forall x ensures x in SourcesIn(calls, ch) <==> exists i :: HasSource(calls, ch, x, i) { SourceOccurs(calls, ch, x); }
    forall x ensures x in SourcesIn(calls[..n], ch) <==> exists i :: HasSource(calls[..n], ch, x, i) { SourceOccurs(calls[..n], ch, x); }
    forall x, i ensures HasSource(calls[..n], ch, x, i) <==> HasSource(calls, ch, x, i) && i != n { }
    hide SourcesIn;
  }

  predicate HasSource(calls: seq<Call>, ch: Channel, x: CostSource, i: int) {
    0 <= i < |calls| && calls[i].Invocation? && IsIn(calls[i], ch) && calls[i].result.source == x
  }

  lemma SourceOccurs(calls: seq<Call>, ch: Channel, x: CostSource)
    ensures x in SourcesIn(calls, ch) <==> exists i :: HasSource(calls, ch, x, i)
  {
    hide IsIn;
    if i :| HasSource(calls, ch, x, i) { assert calls[i].result.source in SourcesIn(calls, ch); }
    if x in SourcesIn(calls, ch) {
      var i :| 0 <= i < |calls| && calls[i].Invocation? && IsIn(calls[i], ch) && calls[i].result.source == x;
      assert HasSource(calls, ch, x, i);
    }
  }

  /** One provenance stands for itself; several are unknown if one of them is, and else priced. */
  ghost predicate IsLabel(l: Option<CostSource>, sources: set<CostSource>) {
    && (l.None? <==> sources == {})
    && (forall x :: sources == {x} ==> l == Some(x))
    && (Unknown in sources ==> l == Some(Unknown))
    && (forall x, y | x in sources && y in sources && x != y && Unknown !in sources :: l == Some(Priced))
  }

  lemma LabelIs(sources: set<CostSource>)
    ensures IsLabel(Label(sources), sources)
  {
    if sources != {} {
      var x :| x in sources;
      assert x == Priced || x == FreeLocal || x == Subscription || x == Unknown;
    }
  }

  /** The model the last invocation of the bucket to name one named. */
  ghost predicate IsLastModel(m: string, calls: seq<Call>, ch: Channel) {
    if m == "" then forall i | 0 <= i < |calls| && calls[i].Invocation? && IsIn(calls[i], ch) :: calls[i].result.model == ""
    else exists i :: NamesLast(m, calls, ch, i)
  }

  ghost predicate NamesLast(m: string, calls: seq<Call>, ch: Channel, i: int) {
    && 0 <= i < |calls| && calls[i].Invocation? && IsIn(calls[i], ch) && calls[i].result.model == m
    && forall j | i < j < |calls| && calls[j].Invocation? && IsIn(calls[j], ch) :: calls[j].result.model == ""
  }

  /** The route reason of the bucket's first call. */
  ghost predicate IsFirstReason(reason: string, calls: seq<Call>, ch: Channel) {
    exists i :: 0 <= i < |calls| && IsIn(calls[i], ch) && calls[i].Invocation? && calls[i].routedReason == Some(reason)
                && forall j | 0 <= j < i :: !IsIn(calls[j], ch)
  }

  lemma {:induction false} LastModelIs(calls: seq<Call>, ch: Channel)
    ensures IsLastModel(ShareOf(calls, ch).lastModel, calls, ch)
  {
    if calls != [] {
      hide IsIn, IsLastModel;
      var head, c := calls[..|calls| - 1], calls[|calls| - 1];
      LastModelIs(head, ch);
      IsInItsChannel(c, ch);
      LastModelSnoc(calls, ch, ShareOf(head, ch).lastModel);
    } else {
      assert IsLastModel("", calls, ch);
    }
  }

  lemma LastModelSnoc(calls: seq<Call>, ch: Channel, m: string)
    requires calls != [] && IsLastModel(m, calls[..|calls| - 1], ch)
    ensures var c := calls[|calls| - 1];
            IsLastModel(if IsIn(c, ch) && c.Invocation? && c.result.model != "" then c.result.model else m, calls, ch)
  {
    hide IsIn;
    var n := |calls| - 1;
    var c := calls[n];
    if IsIn(c, ch) && c.Invocation? && c.result.model != "" {
      assert NamesLast(c.result.model, calls, ch, n);
    } else if m != "" {
      var i :| NamesLast(m, calls[..n], ch, i);
      assert NamesLast(m, calls, ch, i) by { assert forall j | 0 <= j < n :: calls[..n][j] == calls[j]; }
    } else {
      assert forall j | 0 <= j < n :: calls[..n][j] == calls[j];
    }
  }

  lemma {:induction false} FirstReasonIs(calls: seq<Call>, model: string)
    ensures Occurs(calls, Routed(model)) <==> ShareOf(calls, Routed(model)).calls > 0
    ensures Occurs(calls, Routed(model)) ==> IsFirstReason(ShareOf(calls, Routed(model)).reason, calls, Routed(model))
  {
    if calls != [] {
      hide Occurs, IsFirstReason;
      var ch := Routed(model);
      var head, c := calls[..|calls| - 1], calls[|calls| - 1];
      FirstReasonIs(head, model);
      IsInItsChannel(c, ch);
      OccursSnoc(calls, ch);
      if Occurs(head, ch) {
        FirstReasonStays(calls, ch, ShareOf(head, ch).reason);
      } else if IsIn(c, ch) {
        FirstReasonBegins(calls, ch);
      }
    }
  }

  lemma FirstReasonStays(calls: seq<Call>, ch: Channel, reason: string)
    requires calls != [] && IsFirstReason(reason, calls[..|calls| - 1], ch)
    ensures IsFirstReason(reason, calls, ch)
  {
    hide IsIn;
    var head := calls[..|calls| - 1];
    var i :| 0 <= i < |head| && IsIn(head[i], ch) && head[i].Invocation? && head[i].routedReason == Some(reason)
             && forall j | 0 <= j < i :: !IsIn(head[j], ch);
    assert calls[i] == head[i] && forall j | 0 <= j < i :: calls[j] == head[j];
  }

  lemma FirstReasonBegins(calls: seq<Call>, ch: Channel)
    requires calls != [] && ch.Routed? && !Occurs(calls[..|calls| - 1], ch) && IsIn(calls[|calls| - 1], ch)
    ensures IsFirstReason(calls[|calls| - 1].routedReason.value, calls, ch)
  {
    var n := |calls| - 1;
    forall j | 0 <= j < n ensures !IsIn(calls[j], ch) { assert calls[..n][j] == calls[j]; }
  }

  lemma OccursSnoc(calls: seq<Call>, ch: Channel)
    requires calls != []
    ensures Occurs(calls, ch) <==> Occurs(calls[..|calls| - 1], ch) || IsIn(calls[|calls| - 1], ch)
  {
    hide IsIn;
    var n := |calls| - 1;
    if i :| 0 <= i < n && IsIn(calls[..n][i], ch) { assert calls[i] == calls[..n][i]; }
    if i :| 0 <= i < n && IsIn(calls[i], ch) { assert calls[i] == calls[..n][i]; }
  }

  lemma {:induction false} RuntimeOccurs(calls: seq<Call>, ch: Channel)
    ensures Occurs(calls, ch) <==> ShareOf(calls, ch).calls > 0
  {
    if calls != [] {
      RuntimeOccurs(calls[..|calls| - 1], ch);
      OccursSnoc(calls, ch);
      IsInItsChannel(calls[|calls| - 1], ch);
    }
  }

  /** The record holds what the bucket's calls reported, at the given cost. */
  ghost predicate IsRecordOf(r: CostRecord, calls: seq<Call>, ch: Channel, cost: real) {
    && r.cost == cost
    && (forall col: Column | !col.CostColumn? :: Cell(r, col) == OfCalls(calls, ch, col))
    && (forall f :: IsNull(r, f) <==> !exists i :: ReportedIn(calls, ch, f, i))
    && r.cacheTokens as real == OfCalls(calls, ch, CacheReadColumn) + OfCalls(calls, ch, CacheWriteColumn)
    && (r.saved.Some? <==> r.preCompressionInput.Some?)
    && (r.saved.Some? ==> r.preCompressionInput.value == r.input + r.saved.value)
    && IsLabel(r.source, SourcesIn(calls, ch))
  }

  lemma BuiltIsRecordOf(calls: seq<Call>, ch: Channel, model: string, reason: string, cost: real)
    ensures var s := ShareOf(calls, ch);
            IsRecordOf(BuildCostRecord(model, reason, cost, Label(s.sources), s.usage), calls, ch, cost)
  {
    var s := ShareOf(calls, ch);
    var r := BuildCostRecord(model, reason, cost, Label(s.sources), s.usage);
    SharesAreCoherent(calls, ch);
    SourcesAre(calls, ch);
    LabelIs(s.sources);
    ColumnsOfBuilt(calls, ch, model, reason, cost);
    forall f ensures IsNull(r, f) <==> !exists i :: ReportedIn(calls, ch, f, i) {
      NullExactlyWhenUnreported(calls, ch, model, reason, Label(s.sources), f);
    }
    hide IsLabel, SourcesIn, ReportedIn, IsNull, ShareOf, OfCalls, Cell, NoNegativeTokens;
  }

  lemma ColumnsOfBuilt(calls: seq<Call>, ch: Channel, model: string, reason: string, cost: real)
    ensures var s := ShareOf(calls, ch);
            var r := BuildCostRecord(model, reason, cost, Label(s.sources), s.usage);
            && (forall col: Column | !col.CostColumn? :: Cell(r, col) == OfCalls(calls, ch, col))
            && r.cacheTokens as real == OfCalls(calls, ch, CacheReadColumn) + OfCalls(calls, ch, CacheWriteColumn)
  {
    hide ShareOf, OfCalls, NoNegativeTokens;
    var s := ShareOf(calls, ch);
    var r := BuildCostRecord(model, reason, cost, Label(s.sources), s.usage);
    SharesAreCoherent(calls, ch);
    ShareIsReported(calls, ch, CacheReadColumn);
    ShareIsReported(calls, ch, CacheWriteColumn);
    forall col: Column | !col.CostColumn? ensures Cell(r, col) == OfCalls(calls, ch, col) {
      CellOfShare(model, reason, cost, Label(s.sources), s.usage, col);
      ShareIsReported(calls, ch, col);
    }
  }

  // ---------------------------------------------------------------- the stored records, from the calls alone

  ghost predicate RuntimePart(records: seq<CostRecord>, calls: seq<Call>, labels: Labels) {
    && |records| == (if Occurs(calls, Runtime) then 1 else 0)
    && forall r | r in records ::
         && IsRecordOf(r, calls, Runtime, OfCalls(calls, Runtime, CostColumn))
         && r.model == (if labels.runtimeModel != "" then labels.runtimeModel else "unknown") && r.reason == labels.runtimeReason
  }

  ghost predicate HasModel(records: seq<CostRecord>, model: string) {
    exists i :: 0 <= i < |records| && records[i].model == model
  }

  /** One record for each model some call was routed to. */
  ghost predicate RoutedPart(records: seq<CostRecord>, calls: seq<Call>) {
    && (forall i, j | 0 <= i < j < |records| :: records[i].model != records[j].model)
    && (forall model :: HasModel(records, model) <==> Occurs(calls, Routed(model)))
    && forall r | r in records ::
         && IsRecordOf(r, calls, Routed(r.model), OfCalls(calls, Routed(r.model), CostColumn))
         && IsFirstReason(r.reason, calls, Routed(r.model))
  }

  /** The provider's calls are recorded when they cost something, or used tokens, or reported turns. */
  ghost predicate ProviderIsRecorded(calls: seq<Call>, cost: real) {
    || cost > 0.0
    || OfCalls(calls, Provider, InputColumn) > 0.0 || OfCalls(calls, Provider, OutputColumn) > 0.0
    || OfCalls(calls, Provider, CacheReadColumn) > 0.0 || OfCalls(calls, Provider, CacheWriteColumn) > 0.0
    || exists i :: ReportedIn(calls, Provider, NullableTurns, i)
  }

  /** What the step reported beyond its calls counts as the provider's. */
  ghost predicate ProviderPart(records: seq<CostRecord>, calls: seq<Call>, labels: Labels, total: real) {
    var cost := OfCalls(calls, Provider, CostColumn) + (total - OfAll(calls, CostColumn));
    && |records| == (if ProviderIsRecorded(calls, cost) then 1 else 0)
    && forall r | r in records :: IsRecordOf(r, calls, Provider, cost) && IsProviderModel(r.model, calls, labels)
                                  && r.reason == if labels.stepReason != "" then labels.stepReason else labels.runReason
  }

  ghost predicate IsProviderModel(model: string, calls: seq<Call>, labels: Labels) {
    exists last :: IsLastModel(last, calls, Provider)
                   && model == if last != "" then last else if labels.resolvedModel != "" then labels.resolvedModel else "unknown"
  }

  lemma RuntimeIsApportioned(calls: seq<Call>, labels: Labels)
    ensures RuntimePart(RuntimeRecords(calls, labels), calls, labels)
  {
    hide IsRecordOf, Occurs, OfCalls, ShareOf;
    var s := ShareOf(calls, Runtime);
    RuntimeOccurs(calls, Runtime);
    ShareIsReported(calls, Runtime, CostColumn);
    BuiltIsRecordOf(calls, Runtime, Or(labels.runtimeModel, "unknown"), labels.runtimeReason, s.cost);
  }

  lemma ProviderIsApportioned(calls: seq<Call>, labels: Labels, total: real)
    ensures var p := ShareOf(calls, Provider);
            ProviderPart(ProviderRecords(calls, labels, p.cost + (total - Total(calls).cost), p.usage), calls, labels, total)
  {
    hide IsRecordOf, OfCalls, OfAll, ShareOf, Total, IsLastModel;
    var p := ShareOf(calls, Provider);
    var cost := p.cost + (total - Total(calls).cost);
    var model, reason := Or(p.lastModel, Or(labels.resolvedModel, "unknown")), Or(labels.stepReason, labels.runReason);
    ShareIsReported(calls, Provider, CostColumn);
    TotalIsReported(calls, CostColumn);
    LastModelIs(calls, Provider);
    BuiltIsRecordOf(calls, Provider, model, reason, cost);
    ProviderTokens(calls, cost);
    hide ProviderIsRecorded, HasTokens;
    assert IsProviderModel(model, calls, labels);
  }

  lemma ProviderTokens(calls: seq<Call>, cost: real)
    ensures ProviderIsRecorded(calls, cost) <==> cost > 0.0 || HasTokens(ShareOf(calls, Provider).usage)
  {
    hide ShareOf, OfCalls, ReportedIn;
    CountsReports(calls, Provider, NullableTurns);
    ShareIsReported(calls, Provider, InputColumn);
    ShareIsReported(calls, Provider, OutputColumn);
    ShareIsReported(calls, Provider, CacheReadColumn);
    ShareIsReported(calls, Provider, CacheWriteColumn);
  }

  lemma {:induction false} RoutedRecordAt(calls: seq<Call>, models: seq<string>, i: nat)
    requires i < |models|
    ensures |RoutedRecords(calls, models)| == |models|
    ensures RoutedRecords(calls, models)[i] == RoutedRecord(Bucket(calls, models[i]))
  {
    hide Bucket;
    if |models| > 1 { RoutedRecordAt(calls, models[1..], if i == 0 then 0 else i - 1); }
  }

  lemma RoutedIsApportioned(calls: seq<Call>)
    ensures RoutedPart(RoutedRecords(calls, RoutedModels(calls)), calls)
  {
    hide IsRecordOf, Occurs, OfCalls, ShareOf, RoutedModels, IsFirstReason, RoutedRecords;
    var models := RoutedModels(calls);
    var records := RoutedRecords(calls, models);
    assert |records| == |models| by { if models != [] { RoutedRecordAt(calls, models, 0); } else { NoRoutedRecords(calls); } }
    forall i | 0 <= i < |records|
      ensures records[i].model == models[i]
      ensures IsRecordOf(records[i], calls, Routed(models[i]), OfCalls(calls, Routed(models[i]), CostColumn))
      ensures IsFirstReason(records[i].reason, calls, Routed(models[i]))
    {
      RoutedRecordAt(calls, models, i);
      RoutedRecordIs(calls, models[i]);
    }
    forall model ensures HasModel(records, model) <==> Occurs(calls, Routed(model)) {
      RoutedModelsAreUsed(calls, model);
      FirstReasonIs(calls, model);
      if model in models {
        var i :| 0 <= i < |models| && models[i] == model;
        assert records[i].model == model;
      }
    }
  }

  lemma NoRoutedRecords(calls: seq<Call>)
    ensures RoutedRecords(calls, []) == []
  {
  }

  lemma RoutedRecordIs(calls: seq<Call>, model: string)
    requires model in RoutedModels(calls)
    ensures var r := RoutedRecord(Bucket(calls, model));
            && r.model == model && IsFirstReason(r.reason, calls, Routed(model))
            && IsRecordOf(r, calls, Routed(model), OfCalls(calls, Routed(model), CostColumn))
  {
    hide IsRecordOf, OfCalls, ShareOf, RoutedModels, IsFirstReason, Occurs;
    var s := ShareOf(calls, Routed(model));
    RoutedModelsAreUsed(calls, model);
    FirstReasonIs(calls, model);
    ShareIsReported(calls, Routed(model), CostColumn);
    BuiltIsRecordOf(calls, Routed(model), model, s.reason, s.cost);
  }

  /**
   * One attempt, from its calls to its stored records. The step costs what its calls did, or what it
   * reported if that is more. Each record holds exactly what the calls of its bucket reported, the
   * provider's also what the step reported beyond its calls; so every column adds up to what all calls
   * reported, except for reasoning tokens and savings no record was written for.
   */
  method RunAndRecord(ctx: ExecutionContext, made: seq<Call>, outcome: Outcome, labels: Labels)
    returns (result: StepResult, records: seq<CostRecord>,
             ghost runtime: seq<CostRecord>, ghost routed: seq<CostRecord>, ghost provider: seq<CostRecord>)
    requires ctx.Valid()
    modifies ctx
    ensures ctx.Valid() && ctx.calls == made && (result.success <==> outcome.Returned? && outcome.success)
    ensures result.usage.Some? && forall col: Column | !col.CostColumn? :: InResult(0.0, result.usage.value, col) == OfAll(made, col)
    ensures var spent, reported := OfAll(made, CostColumn), if outcome.Returned? then outcome.cost else 0.0;
            result.cost == if spent > reported then spent else reported
    ensures NonNegative(made)
            ==> && records == runtime + routed + provider
                && RuntimePart(runtime, made, labels) && RoutedPart(routed, made)
                && ProviderPart(provider, made, labels, result.cost)
    ensures NonNegative(made)
            ==> forall col :: SumOf(records, col) == (if col.CostColumn? then result.cost else OfAll(made, col))
                              <==> (MayBeLost(col) ==> provider != [] || OfCalls(made, Provider, col) == 0.0)
  {
    hide ShareOf, Total, SumOf, InResult, ExpectedRecords, NonNegative, RuntimePart, RoutedPart, ProviderPart, OfAll, OfCalls,
         MayBeLost, RuntimeRecords, RoutedRecords, ProviderRecords, RoutedModels;
    result := RunStepWithTimeout(ctx, made, outcome);
    SpentIsReported(made);
    forall col: Column | !col.CostColumn? ensures InResult(0.0, result.usage.value, col) == OfAll(made, col) {
      TotalIsReported(made, col);
      CostAside(0.0, Total(made).cost, result.usage.value, col);
    }
    records := UpdateStepExecution(ctx, labels, result);
    var p := ShareOf(made, Provider);
    runtime, routed := RuntimeRecords(made, labels), RoutedRecords(made, RoutedModels(made));
    provider := ProviderRecords(made, labels, p.cost + (result.cost - Total(made).cost), p.usage);
    if NonNegative(made) { PartsAddUp(made, labels, result.cost); }
  }

  lemma PartsAddUp(calls: seq<Call>, labels: Labels, cost: real)
    requires NonNegative(calls) && cost >= Total(calls).cost
    ensures var p := ShareOf(calls, Provider);
            var runtime, routed := RuntimeRecords(calls, labels), RoutedRecords(calls, RoutedModels(calls));
            var provider := ProviderRecords(calls, labels, p.cost + (cost - Total(calls).cost), p.usage);
            var records := ExpectedRecords(calls, labels, cost);
            && records == runtime + routed + provider
            && RuntimePart(runtime, calls, labels) && RoutedPart(routed, calls) && ProviderPart(provider, calls, labels, cost)
            && forall col :: SumOf(records, col) == (if col.CostColumn? then cost else OfAll(calls, col))
                             <==> (MayBeLost(col) ==> provider != [] || OfCalls(calls, Provider, col) == 0.0)
  {
    hide ShareOf, Total, SumOf, ExpectedRecords, NonNegative, RuntimePart, RoutedPart, ProviderPart, OfAll, OfCalls, MayBeLost,
         RuntimeRecords, RoutedRecords, ProviderRecords, RoutedModels;
    RuntimeIsApportioned(calls, labels);
    RoutedIsApportioned(calls);
    ProviderIsApportioned(calls, labels, cost);
    ExpectedParts(calls, labels, cost);
    forall col
      ensures var p := ShareOf(calls, Provider);
              var provider := ProviderRecords(calls, labels, p.cost + (cost - Total(calls).cost), p.usage);
              SumOf(ExpectedRecords(calls, labels, cost), col) == (if col.CostColumn? then cost else OfAll(calls, col))
              <==> (MayBeLost(col) ==> provider != [] || OfCalls(calls, Provider, col) == 0.0)
    {
      RecordsConserveReported(calls, labels, cost, col);
    }
  }

  lemma CostAside(cost: real, other: real, u: TokenUsage, col: Column)
    requires !col.CostColumn?
    ensures InResult(cost, u, col) == InResult(other, u, col)
  {
  }

  lemma SpentIsReported(calls: seq<Call>)
    ensures Total(calls).cost == OfAll(calls, CostColumn)
  {
    TotalIsReported(calls, CostColumn);
  }

  lemma ExpectedParts(calls: seq<Call>, labels: Labels, cost: real)
    ensures var p := ShareOf(calls, Provider);
            ExpectedRecords(calls, labels, cost)
            == RuntimeRecords(calls, labels) + RoutedRecords(calls, RoutedModels(calls))
               + ProviderRecords(calls, labels, p.cost + (cost - Total(calls).cost), p.usage)
  {
  }

  lemma RecordsConserveReported(calls: seq<Call>, labels: Labels, cost: real, col: Column)
    requires NonNegative(calls) && cost >= Total(calls).cost
    ensures var p := ShareOf(calls, Provider);
            var provider := ProviderRecords(calls, labels, p.cost + (cost - Total(calls).cost), p.usage);
            SumOf(ExpectedRecords(calls, labels, cost), col) == (if col.CostColumn? then cost else OfAll(calls, col))
            <==> (MayBeLost(col) ==> provider != [] || OfCalls(calls, Provider, col) == 0.0)
  {
    hide ShareOf, Total, SumOf, ExpectedRecords, NonNegative, OfAll, OfCalls;
    RecordsConserve(calls, labels, cost, col);
    TotalIsReported(calls, col);
    ShareIsReported(calls, Provider, col);
  }
}
