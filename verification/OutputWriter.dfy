/** The buffered output writer, whose inserts survive the cancellation of their flush (sova/core/output.py). */
module OutputWriter {
  import opened Basics

  datatype Row = Row(number: int, text: string)

  // ---------------------------------------------------------------- the writer

  /** The fields of the writer. */
  datatype Fields = Fields(buffer: seq<string>, next: int, closed: bool) {
    function Write(text: string): Fields {
      if closed then this else this.(buffer := buffer + [Trimmed(text)])
    }

    function Seed(maxLine: Option<int>): Fields {
      match maxLine
      case Some(n) => this.(next := n + 1)
      case None => this
    }

    /** Takes the whole buffer and reserves one number per line. */
    function Reserve(): Fields {
      this.(buffer := [], next := next + |buffer|)
    }

    /** Undoes a reservation: the numbers go back, the lines return to the front. */
    function PutBack(texts: seq<string>): Fields {
      this.(buffer := texts + buffer, next := next - |texts|)
    }

    /** Returns the lines of a detached batch, but not its numbers. */
    function Recover(texts: seq<string>): Fields {
      this.(buffer := texts + buffer)
    }

    /** Seeded, if the number is still zero. */
    function Ready(seed: Option<int>): Fields {
      if buffer != [] && next == 0 then Seed(seed) else this
    }

    /** After an undisturbed flush. */
    function Flushed(seed: Option<int>, outcome: Outcome): Fields {
      if buffer != [] && outcome.LandsLater() then Ready(seed).Reserve() else Ready(seed)
    }

    function CloseIf(closing: bool): Fields {
      if closing then this.(closed := true) else this
    }
  }

  /** Without trailing newlines. */
  function Trimmed(text: string): string {
    if text != "" && text[|text| - 1] == '\n' then Trimmed(text[..|text| - 1]) else text
  }

  /** The line is the text up to its trailing newlines: it begins the text, the rest is newlines, and it ends in none. */
  predicate Stripped(text: string, line: string) {
    && line <= text
    && (forall i | |line| <= i < |text| :: text[i] == '\n')
    && (line == "" || line[|line| - 1] != '\n')
  }

  /** Exactly one line is that, and it is what is kept. */
  lemma {:induction false} TrimmedIsStripped(text: string, line: string)
    ensures Stripped(text, line) <==> line == Trimmed(text)
    decreases |text|
  {
    if text != "" && text[|text| - 1] == '\n' {
      var shorter := text[..|text| - 1];
      TrimmedIsStripped(shorter, line);
      assert forall i | 0 <= i < |shorter| :: shorter[i] == text[i];
    }
  }

  /** The lines are the texts, one for one. */
  predicate AllStripped(texts: seq<string>, lines: seq<string>) {
    |texts| == |lines| && forall i | 0 <= i < |texts| :: Stripped(texts[i], lines[i])
  }

  function Numbered(first: int, texts: seq<string>): (rows: seq<Row>)
    ensures |rows| == |texts| && forall i | 0 <= i < |rows| :: rows[i] == Row(first + i, texts[i])
    decreases |texts|
  {
    if texts == [] then [] else [Row(first, texts[0])] + Numbered(first + 1, texts[1..])
  }

  function TextsOf(rows: seq<Row>): (texts: seq<string>)
    ensures |texts| == |rows| && forall i | 0 <= i < |rows| :: texts[i] == rows[i].text
  {
    if rows == [] then [] else [rows[0].text] + TextsOf(rows[1..])
  }

  class OutputWriter {
    var buffer: seq<string>
    var nextLineNumber: int
    var closed: bool

    ghost function State(): Fields reads this { Fields(buffer, nextLineNumber, closed) }

    constructor ()
      ensures State() == Fields([], 0, false)
    {
      buffer, nextLineNumber, closed := [], 0, false;
    }

    method WriteLine(text: string)
      modifies this
      ensures State() == old(State()).Write(text)
      ensures closed == old(closed) && nextLineNumber == old(nextLineNumber)
      ensures old(closed) ==> buffer == old(buffer)
      ensures !old(closed) ==> exists line :: Stripped(text, line) && buffer == old(buffer) + [line]
    {
      if closed {
        return;
      }
      TrimmedIsStripped(text, Trimmed(text));
      var end := |text|;
      assert text[..end] == text;
      while end > 0 && text[end - 1] == '\n'
        invariant 0 <= end <= |text| && Trimmed(text[..end]) == Trimmed(text)
      {
        end := end - 1;
        assert text[..end + 1][..end] == text[..end];
      }
      buffer := buffer + [text[..end]];
    }

    /** The flush after the seed read: numbers the lines and empties the buffer. */
    method TakeBuffer() returns (records: seq<Row>)
      modifies this
      ensures State() == old(State()).Reserve()
      ensures records == Numbered(old(nextLineNumber), old(buffer))
      ensures buffer == [] && nextLineNumber == old(nextLineNumber) + |old(buffer)| && closed == old(closed)
    {
      var lines := buffer;
      buffer := [];
      records := [];
      for i := 0 to |lines|
        invariant buffer == [] && closed == old(closed) && nextLineNumber == old(nextLineNumber)
        invariant |records| == i && forall j | 0 <= j < i :: records[j] == Row(nextLineNumber + j, lines[j])
      {
        records := records + [Row(nextLineNumber + i, lines[i])];
      }
      nextLineNumber := nextLineNumber + |records|;
    }

    method SeedLineNumber(maxLine: Option<int>)
      modifies this
      ensures State() == old(State()).Seed(maxLine)
      ensures nextLineNumber == (if maxLine.Some? then maxLine.value + 1 else old(nextLineNumber))
      ensures buffer == old(buffer) && closed == old(closed)
    {
      if maxLine.Some? {
        nextLineNumber := maxLine.value + 1;
      }
    }

    /** The insert failed, or was itself cancelled, while the flush was waiting for it. */
    method RewindAndRebuffer(records: seq<Row>)
      modifies this
      ensures State() == old(State()).PutBack(TextsOf(records))
      ensures nextLineNumber == old(nextLineNumber) - |records| && closed == old(closed)
      ensures |buffer| == |records| + |old(buffer)| && buffer[|records|..] == old(buffer)
      ensures forall i | 0 <= i < |records| :: buffer[i] == records[i].text
    {
      nextLineNumber := nextLineNumber - |records|;
      buffer := TextsOf(records) + buffer;
    }

    /** The callback of a detached insert that failed. */
    method OnDetachedFailure(lines: seq<string>)
      modifies this
      ensures State() == old(State()).Recover(lines)
      ensures buffer == lines + old(buffer) && nextLineNumber == old(nextLineNumber) && closed == old(closed)
    {
      buffer := lines + buffer;
    }

    /**
     * A whole flush during which nothing else happens: `seed` is the seed read's answer, `outcome` the
     * insert's. A failed or cancelled insert leaves the writer as if the lines had never been taken.
     */
    method Flush(seed: Option<int>, outcome: Outcome) returns (records: seq<Row>, raised: bool)
      modifies this
      ensures State() == old(State()).Flushed(seed, outcome)
      ensures records == Numbered(old(State()).Ready(seed).next, old(buffer))
      ensures raised == (old(buffer) != [] && (outcome.InsertCancelled? || outcome.FlushCancelled?))
      ensures closed == old(closed)
      ensures old(buffer) == [] ==> buffer == [] && nextLineNumber == old(nextLineNumber)
      ensures old(buffer) != [] ==>
                var first := if old(nextLineNumber) == 0 && seed.Some? then seed.value + 1 else old(nextLineNumber);
                var landed := outcome.Commits? || outcome.FlushCancelled?;
                && records == Numbered(first, old(buffer))
                && buffer == (if landed then [] else old(buffer))
                && nextLineNumber == (if landed then first + |old(buffer)| else first)
    {
      hide TextsOf, Numbered;
      if buffer == [] {
        return [], false;
      }
      if nextLineNumber == 0 {
        SeedLineNumber(seed);
      }
      records := TakeBuffer();
      if !outcome.LandsLater() {
        RewindAndRebuffer(records);
      }
      raised := outcome.InsertCancelled? || outcome.FlushCancelled?;
    }

    /** Flushes and marks the writer closed, unless the flush is cancelled. */
    method Close(seed: Option<int>, outcome: Outcome) returns (records: seq<Row>, raised: bool)
      modifies this
      ensures old(closed) ==> State() == old(State()) && records == [] && !raised
      ensures closed == (old(closed) || !raised)
      ensures !old(closed) ==>
                && State() == old(State()).Flushed(seed, outcome).CloseIf(!raised)
                && raised == (old(buffer) != [] && (outcome.InsertCancelled? || outcome.FlushCancelled?))
    {
      if closed {
        return [], false;
      }
      records, raised := Flush(seed, outcome);
      if !raised {
        closed := true;
      }
    }
  }

  /** How the insert of a flush ends, as the flush sees it. */
  datatype Outcome = Commits | Fails | InsertCancelled | FlushCancelled {
    /** The batch has landed, or is still on its way with nobody waiting. */
    predicate LandsLater() { Commits? || FlushCancelled? }
  }

  // ---------------------------------------------------------------- the writer and its inserts

  datatype Status = Active | Detached | Committed | Failed | Dropped

  /** The lines one flush took, with the first of their numbers. */
  datatype Batch = Batch(first: int, texts: seq<string>, status: Status)

  datatype Phase = Idle | Seeding(closing: bool) | Inserting(closing: bool)

  /**
   * The writer, the rows stored before it was created, its batches in the order of their numbers
   * (except those put back), what the running flush waits for, and every line accepted so far.
   */
  datatype System = System(writer: Fields, prior: seq<Row>, batches: seq<Batch>, phase: Phase, written: seq<string>)

  datatype Event =
    | Write(text: string)
    | Begin(closing: bool)
    | Seeded(ok: bool)
    | SeedCancelled
    | Ends(outcome: Outcome)
    | DetachedCommits(i: nat)
    | DetachedFails(i: nat)
    | DetachedCancelled(i: nat)

  /** Flushes do not overlap, and a batch is settled once. */
  predicate Enabled(s: System, e: Event) {
    match e
    case Write(_) => true
    case Begin(_) => s.phase.Idle?
    case Seeded(_) => s.phase.Seeding?
    case SeedCancelled => s.phase.Seeding?
    case DetachedCommits(i) => i < |s.batches| && s.batches[i].status == Detached
    case DetachedFails(i) => i < |s.batches| && s.batches[i].status == Detached
    case DetachedCancelled(i) => i < |s.batches| && s.batches[i].status == Detached
    case Ends(_) => s.phase.Inserting? && s.batches != []
  }

  function Reserve(s: System, closing: bool): System {
    s.(writer := s.writer.Reserve(),
       batches := s.batches + [Batch(s.writer.next, s.writer.buffer, Active)],
       phase := Inserting(closing))
  }

  function Settle(s: System, i: nat, status: Status): System
    requires i < |s.batches|
  {
    s.(batches := s.batches[i := s.batches[i].(status := status)])
  }

  /** The last batch is put back as if it had never been taken. */
  function PutBack(s: System): System
    requires s.batches != []
  {
    var last := |s.batches| - 1;
    s.(writer := s.writer.PutBack(s.batches[last].texts), batches := s.batches[..last], phase := Idle)
  }

  /** The running flush learns how its insert ended; a cancellation leaves the writer open. */
  function End(s: System, outcome: Outcome): System
    requires s.phase.Inserting? && s.batches != []
  {
    var last := |s.batches| - 1;
    match outcome
    case Commits => Settle(s, last, Committed).(writer := s.writer.CloseIf(s.phase.closing), phase := Idle)
    case Fails => PutBack(s).(writer := PutBack(s).writer.CloseIf(s.phase.closing))
    case InsertCancelled => PutBack(s)
    case FlushCancelled => Settle(s, last, Detached).(phase := Idle)
  }

  function Apply(s: System, e: Event): System
    requires Enabled(s, e)
  {
    match e
    case Write(text) =>
      s.(writer := s.writer.Write(text), written := if s.writer.closed then s.written else s.written + [Trimmed(text)])
    case Begin(closing) =>
      if closing && s.writer.closed then s
      else if s.writer.buffer == [] then s.(writer := s.writer.CloseIf(closing))
      else if s.writer.next == 0 then s.(phase := Seeding(closing))
      else Reserve(s, closing)
    case Seeded(ok) => Reserve(if ok then s.(writer := s.writer.Seed(MaxLine(s))) else s, s.phase.closing)
    case SeedCancelled => s.(phase := Idle)
    case Ends(outcome) => End(s, outcome)
    case DetachedCommits(i) => Settle(s, i, Committed)
    case DetachedFails(i) => Settle(s, i, Failed).(writer := s.writer.Recover(s.batches[i].texts))
    case DetachedCancelled(i) => Settle(s, i, Dropped)
  }

  /** The stored rows: those from before, and every committed batch. */
  function Stored(s: System): seq<Row> {
    s.prior + CommittedRows(s.batches)
  }

  function CommittedRows(batches: seq<Batch>): seq<Row> {
    if batches == [] then []
    else
      var front, b := CommittedRows(batches[..|batches| - 1]), batches[|batches| - 1];
      if b.status == Committed then front + Numbered(b.first, b.texts) else front
  }

  function MaxNumber(rows: seq<Row>): (m: Option<int>)
    ensures m.None? <==> rows == []
    ensures m.Some? ==> forall r | r in rows :: r.number <= m.value
    ensures m.Some? ==> exists r :: r in rows && r.number == m.value
  {
    if rows == [] then None
    else
      assert rows[0] in rows;
      assert forall r | r in rows :: r == rows[0] || r in rows[1..];
      match MaxNumber(rows[1..])
      case Some(m) => Some(if rows[0].number > m then rows[0].number else m)
      case None => Some(rows[0].number)
  }

  function MaxLine(s: System): Option<int> {
    MaxNumber(Stored(s))
  }

  function Start(prior: seq<Row>): System {
    System(Fields([], 0, false), prior, [], Idle, [])
  }

  predicate Runs(s: System, events: seq<Event>)
    decreases |events|
  {
    events == [] || (Enabled(s, events[0]) && Runs(Apply(s, events[0]), events[1..]))
  }

  function Run(s: System, events: seq<Event>): System
    requires Runs(s, events)
    decreases |events|
  {
    if events == [] then s else Run(Apply(s, events[0]), events[1..])
  }

  // ---------------------------------------------------------------- no line is lost or doubled

  /** Every line of a batch except those handed back to the buffer. */
  function Live(batches: seq<Batch>): seq<string> {
    if batches == [] then []
    else
      var front, b := Live(batches[..|batches| - 1]), batches[|batches| - 1];
      if b.status == Failed then front else front + b.texts
  }

  function Taken(batches: seq<Batch>): seq<string> {
    if batches == [] then [] else Taken(batches[..|batches| - 1]) + batches[|batches| - 1].texts
  }

  predicate NoneFailed(batches: seq<Batch>) {
    forall i | 0 <= i < |batches| :: batches[i].status != Failed
  }

  /** Every accepted line is stored, in flight, dropped by a cancelled insert, or buffered: once each. */
  predicate Conserved(s: System) {
    && multiset(Live(s.batches)) + multiset(s.writer.buffer) == multiset(s.written)
    && (NoneFailed(s.batches) ==> Taken(s.batches) + s.writer.buffer == s.written)
  }

  lemma Snoc(batches: seq<Batch>, b: Batch)
    ensures Live(batches + [b]) == if b.status == Failed then Live(batches) else Live(batches) + b.texts
    ensures Taken(batches + [b]) == Taken(batches) + b.texts
    ensures NoneFailed(batches + [b]) <==> NoneFailed(batches) && b.status != Failed
  {
    assert (batches + [b])[..|batches|] == batches;
    if NoneFailed(batches + [b]) {
      forall i | 0 <= i < |batches| ensures batches[i].status != Failed { assert (batches + [b])[i] == batches[i]; }
      assert (batches + [b])[|batches|] == b;
    }
  }

  lemma {:induction false} SettleCounts(batches: seq<Batch>, i: nat, status: Status)
    requires i < |batches| && batches[i].status != Failed
    ensures var after := batches[i := batches[i].(status := status)];
            && Taken(after) == Taken(batches)
            && (status != Failed ==> Live(after) == Live(batches))
            && (status == Failed ==> multiset(Live(after)) + multiset(batches[i].texts) == multiset(Live(batches)))
    decreases |batches|
  {
    hide Live, Taken, NoneFailed;
    var n := |batches| - 1;
    var front, last := batches[..n], batches[n];
    var settled := batches[i].(status := status);
    assert batches == front + [last];
    Snoc(front, last);
    if i < n {
      SettleCounts(front, i, status);
      assert batches[i := settled] == front[i := settled] + [last];
      Snoc(front[i := settled], last);
    } else {
      assert batches[i := settled] == front + [settled];
      Snoc(front, settled);
    }
  }

  lemma SettleKeepsFailed(batches: seq<Batch>, i: nat, status: Status)
    requires i < |batches| && batches[i].status != Failed
    ensures var after := batches[i := batches[i].(status := status)];
            NoneFailed(after) <==> NoneFailed(batches) && status != Failed
  {
    var after := batches[i := batches[i].(status := status)];
    assert after[i].status == status;
    if NoneFailed(after) {
      forall j | 0 <= j < |batches| ensures batches[j].status != Failed { assert j != i ==> after[j] == batches[j]; }
    }
  }

  /** Only the running flush's batch is active, and it is the last. */
  predicate OneActive(s: System) {
    && (forall i | 0 <= i < |s.batches| :: s.batches[i].status == Active ==> s.phase.Inserting? && i == |s.batches| - 1)
    && (s.phase.Inserting? ==> s.batches != [] && s.batches[|s.batches| - 1].status == Active)
  }

  lemma ReserveConserves(s: System, closing: bool)
    requires Conserved(s) && OneActive(s) && !s.phase.Inserting?
    ensures Conserved(Reserve(s, closing)) && OneActive(Reserve(s, closing))
  {
    Snoc(s.batches, Batch(s.writer.next, s.writer.buffer, Active));
  }

  lemma PutBackConserves(s: System)
    requires Conserved(s) && OneActive(s) && s.phase.Inserting?
    ensures Conserved(PutBack(s)) && OneActive(PutBack(s))
  {
    var front, last := s.batches[..|s.batches| - 1], s.batches[|s.batches| - 1];
    assert s.batches == front + [last];
    Snoc(front, last);
    Rejoined(Live(front), Taken(front), last.texts, s.writer.buffer);
  }

  lemma Rejoined(live: seq<string>, taken: seq<string>, last: seq<string>, buffer: seq<string>)
    ensures taken + last + buffer == taken + (last + buffer)
    ensures multiset(live + last) + multiset(buffer) == multiset(live) + multiset(last + buffer)
  {
  }

  lemma SettleConserves(s: System, i: nat, status: Status)
    requires Conserved(s) && i < |s.batches| && s.batches[i].status != Failed && status != Failed
    ensures Conserved(Settle(s, i, status))
  {
    SettleCounts(s.batches, i, status);
    SettleKeepsFailed(s.batches, i, status);
  }

  lemma RecoverConserves(s: System, i: nat)
    requires Conserved(s) && i < |s.batches| && s.batches[i].status == Detached
    ensures Conserved(Apply(s, DetachedFails(i)))
  {
    hide Live, Taken, NoneFailed, OneActive;
    SettleCounts(s.batches, i, Failed);
    SettleKeepsFailed(s.batches, i, Failed);
    Rejoined([], [], s.batches[i].texts, s.writer.buffer);
  }

  /** Conservation sees only the batches, the buffer and the accepted lines. */
  lemma SameLines(s: System, t: System)
    requires Conserved(s) && t.batches == s.batches && t.writer.buffer == s.writer.buffer && t.written == s.written
    ensures Conserved(t)
  {
  }

  lemma SeededConserves(s: System, ok: bool)
    requires Conserved(s) && OneActive(s) && s.phase.Seeding?
    ensures Conserved(Apply(s, Seeded(ok))) && OneActive(Apply(s, Seeded(ok)))
  {
    hide Conserved, MaxLine;
    var seeded := if ok then s.(writer := s.writer.Seed(MaxLine(s))) else s;
    SameLines(s, seeded);
    ReserveConserves(seeded, s.phase.closing);
  }

  lemma EndConserves(s: System, outcome: Outcome)
    requires Conserved(s) && OneActive(s) && s.phase.Inserting?
    ensures Conserved(End(s, outcome)) && OneActive(End(s, outcome))
  {
    hide Conserved;
    var last := |s.batches| - 1;
    match outcome
    case Commits => SettleConserves(s, last, Committed); SameLines(Settle(s, last, Committed), End(s, outcome));
    case FlushCancelled => SettleConserves(s, last, Detached); SameLines(Settle(s, last, Detached), End(s, outcome));
    case _ => PutBackConserves(s); SameLines(PutBack(s), End(s, outcome));
  }

  lemma BeginConserves(s: System, closing: bool)
    requires Conserved(s) && OneActive(s) && s.phase.Idle?
    ensures Conserved(Apply(s, Begin(closing))) && OneActive(Apply(s, Begin(closing)))
  {
    hide Conserved;
    if s.writer.buffer != [] && s.writer.next != 0 { ReserveConserves(s, closing); } else { SameLines(s, Apply(s, Begin(closing))); }
  }

  lemma DetachedConserves(s: System, e: Event)
    requires Conserved(s) && OneActive(s) && Enabled(s, e) && (e.DetachedCommits? || e.DetachedFails? || e.DetachedCancelled?)
    ensures Conserved(Apply(s, e)) && OneActive(Apply(s, e))
  {
    match e
    case DetachedCommits(i) => SettleConserves(s, i, Committed); SettleKeepsOne(s, i, Committed);
    case DetachedFails(i) => RecoverConserves(s, i); SettleKeepsOne(s, i, Failed);
    case DetachedCancelled(i) => SettleConserves(s, i, Dropped); SettleKeepsOne(s, i, Dropped);
  }

  lemma SettleKeepsOne(s: System, i: nat, status: Status)
    requires OneActive(s) && i < |s.batches| && s.batches[i].status == Detached && status != Active
    ensures OneActive(Settle(s, i, status))
  {
  }

  lemma WriteConserves(s: System, text: string)
    requires Conserved(s) && OneActive(s)
    ensures Conserved(Apply(s, Write(text))) && OneActive(Apply(s, Write(text)))
  {
    hide Live, Taken, NoneFailed, Trimmed;
    var line := Trimmed(text);
    assert Taken(s.batches) + (s.writer.buffer + [line]) == Taken(s.batches) + s.writer.buffer + [line];
  }

  lemma StepConserves(s: System, e: Event)
    requires Conserved(s) && OneActive(s) && Enabled(s, e)
    ensures Conserved(Apply(s, e)) && OneActive(Apply(s, e))
  {
    hide Conserved;
    match e
    case Write(text) => WriteConserves(s, text);
    case Begin(closing) => BeginConserves(s, closing);
    case Seeded(ok) => SeededConserves(s, ok);
    case SeedCancelled => SameLines(s, Apply(s, e));
    case Ends(outcome) => EndConserves(s, outcome);
    case DetachedCommits(_) => DetachedConserves(s, e);
    case DetachedFails(_) => DetachedConserves(s, e);
    case DetachedCancelled(_) => DetachedConserves(s, e);
  }

  /** Over every run, even with failed seed reads: no line is lost or doubled. */
  lemma {:induction false} RunConserves(s: System, events: seq<Event>)
    requires Conserved(s) && OneActive(s) && Runs(s, events)
    ensures Conserved(Run(s, events)) && OneActive(Run(s, events))
    decreases |events|
  {
    if events != [] {
      StepConserves(s, events[0]);
      RunConserves(Apply(s, events[0]), events[1..]);
    }
  }

  // ---------------------------------------------------------------- every run: batches do not overlap

  /** Batches occupy disjoint, increasing ranges below the next number. */
  predicate BatchesSound(s: System) {
    && (forall i | 0 <= i < |s.batches| :: s.batches[i].texts != [])
    && (forall i, j | 0 <= i < j < |s.batches| :: s.batches[i].first + |s.batches[i].texts| <= s.batches[j].first)
    && (forall i | 0 <= i < |s.batches| :: 0 <= s.batches[i].first && s.batches[i].first + |s.batches[i].texts| <= s.writer.next)
    && 0 <= s.writer.next
    && (s.phase.Seeding? ==> s.writer.next == 0 && s.writer.buffer != [])
    && (s.phase.Inserting? ==> s.batches != [] && var b := s.batches[|s.batches| - 1]; b.first + |b.texts| == s.writer.next)
  }

  predicate NoneNegative(rows: seq<Row>) {
    forall r | r in rows :: r.number >= 0
  }

  /** Nothing is reserved while the next number is still zero. */
  lemma NothingReserved(s: System)
    requires BatchesSound(s) && s.writer.next == 0
    ensures s.batches == [] && Stored(s) == s.prior
  {
    if s.batches != [] { ReservedIsPositive(s); }
    assert CommittedRows([]) == [];
  }

  lemma ReservedIsPositive(s: System)
    requires BatchesSound(s) && s.batches != []
    ensures s.writer.next > 0
  {
    assert s.batches[0].texts != [];
  }

  lemma ReserveOrders(s: System, closing: bool)
    requires BatchesSound(s) && !s.phase.Inserting? && s.writer.buffer != []
    ensures BatchesSound(Reserve(s, closing))
  {
  }

  lemma SettleOrders(s: System, i: nat, status: Status)
    requires BatchesSound(s) && i < |s.batches|
    ensures BatchesSound(Settle(s, i, status)) && BatchesSound(Settle(s, i, status).(phase := Idle))
  {
  }

  lemma PutBackOrders(s: System)
    requires BatchesSound(s) && s.phase.Inserting?
    ensures BatchesSound(PutBack(s))
  {
  }

  /** Soundness of the batches does not see which lines are buffered, unless a seed read is running. */
  lemma BufferDoesNotMatter(s: System, writer: Fields)
    requires BatchesSound(s) && writer.next == s.writer.next && (s.phase.Seeding? ==> writer.buffer != [])
    ensures BatchesSound(s.(writer := writer))
  {
  }

  lemma EndOrders(s: System, outcome: Outcome)
    requires BatchesSound(s) && s.phase.Inserting?
    ensures BatchesSound(End(s, outcome))
  {
    hide BatchesSound;
    var last := |s.batches| - 1;
    assert s.batches != [] by { LastIsReserved(s); }
    match outcome
    case Commits =>
      SettleOrders(s, last, Committed);
      BufferDoesNotMatter(Settle(s, last, Committed).(phase := Idle), End(s, Commits).writer);
    case Fails => PutBackOrders(s); BufferDoesNotMatter(PutBack(s), End(s, Fails).writer);
    case InsertCancelled => PutBackOrders(s);
    case FlushCancelled => SettleOrders(s, last, Detached);
  }

  lemma LastIsReserved(s: System)
    requires BatchesSound(s) && s.phase.Inserting?
    ensures s.batches != [] && s.batches[|s.batches| - 1].first + |s.batches[|s.batches| - 1].texts| == s.writer.next
  {
  }

  lemma DetachedOrders(s: System, e: Event)
    requires BatchesSound(s) && Enabled(s, e) && (e.DetachedCommits? || e.DetachedFails? || e.DetachedCancelled?)
    ensures BatchesSound(Apply(s, e))
  {
    match e
    case DetachedCommits(i) => SettleOrders(s, i, Committed);
    case DetachedFails(i) =>
      SettleOrders(s, i, Failed);
      hide BatchesSound;
      BufferDoesNotMatter(Settle(s, i, Failed), s.writer.Recover(s.batches[i].texts));
    case DetachedCancelled(i) => SettleOrders(s, i, Dropped);
  }

  lemma SeededOrders(s: System, ok: bool)
    requires BatchesSound(s) && s.phase.Seeding? && NoneNegative(s.prior)
    ensures BatchesSound(Apply(s, Seeded(ok)))
  {
    hide MaxNumber;
    NothingReserved(s);
    ReserveOrders(if ok then s.(writer := s.writer.Seed(MaxLine(s)), phase := Idle) else s, s.phase.closing);
  }

  lemma StepOrders(s: System, e: Event)
    requires BatchesSound(s) && Enabled(s, e) && NoneNegative(s.prior)
    ensures BatchesSound(Apply(s, e))
  {
    match e
    case Write(text) => BufferDoesNotMatter(s, s.writer.Write(text));
    case SeedCancelled =>
    case Begin(closing) => if s.writer.buffer != [] && s.writer.next != 0 { ReserveOrders(s, closing); }
    case Seeded(ok) => SeededOrders(s, ok);
    case Ends(outcome) => EndOrders(s, outcome);
    case _ => DetachedOrders(s, e);
  }

  lemma StepKeepsPrior(s: System, e: Event)
    requires Enabled(s, e)
    ensures Apply(s, e).prior == s.prior
  {
  }

  /** Over every run, even with failed seed reads. */
  lemma {:induction false} RunOrders(s: System, events: seq<Event>)
    requires BatchesSound(s) && Runs(s, events) && NoneNegative(s.prior)
    ensures BatchesSound(Run(s, events)) && Run(s, events).prior == s.prior
    decreases |events|
  {
    hide Apply, BatchesSound;
    if events != [] {
      StepKeepsPrior(s, events[0]);
      StepOrders(s, events[0]);
      RunOrders(Apply(s, events[0]), events[1..]);
    }
  }

  predicate Increasing(rows: seq<Row>) {
    forall i, j | 0 <= i < j < |rows| :: rows[i].number < rows[j].number
  }

  lemma {:induction false} CommittedAreWithin(batches: seq<Batch>, low: int, bound: int)
    requires forall i | 0 <= i < |batches| :: low <= batches[i].first && batches[i].first + |batches[i].texts| <= bound
    ensures forall r | r in CommittedRows(batches) :: low <= r.number < bound
  {
    hide Numbered;
    if batches != [] { CommittedAreWithin(batches[..|batches| - 1], low, bound); }
  }

  lemma {:induction false} CommittedAreOrdered(batches: seq<Batch>)
    requires forall i, j | 0 <= i < j < |batches| :: batches[i].first + |batches[i].texts| <= batches[j].first
    requires forall i | 0 <= i < |batches| :: batches[i].first >= 0
    ensures Increasing(CommittedRows(batches))
  {
    hide Increasing, Numbered;
    if batches == [] {
      NoRows();
    } else {
      var n := |batches| - 1;
      CommittedAreOrdered(batches[..n]);
      CommittedAreWithin(batches[..n], 0, batches[n].first);
      IncreasingAppend(CommittedRows(batches[..n]), batches[n].first, batches[n].texts);
    }
  }

  lemma NoRows()
    ensures Increasing([])
  {
  }

  lemma IncreasingAppend(rows: seq<Row>, first: int, texts: seq<string>)
    requires Increasing(rows) && forall r | r in rows :: r.number < first
    ensures Increasing(rows + Numbered(first, texts))
  {
    hide Numbered;
  }

  /** The row is line k of batch i, which has been committed. */
  predicate IsCommittedLine(batches: seq<Batch>, r: Row, i: int, k: int) {
    && 0 <= i < |batches| && batches[i].status == Committed && 0 <= k < |batches[i].texts|
    && r == Row(batches[i].first + k, batches[i].texts[k])
  }

  lemma {:induction false} CommittedExactly(batches: seq<Batch>, r: Row)
    ensures r in CommittedRows(batches) <==> exists i, k :: IsCommittedLine(batches, r, i, k)
    decreases |batches|
  {
    if batches != [] {
      var n := |batches| - 1;
      var front := batches[..n];
      CommittedExactly(front, r);
      assert forall i, k :: IsCommittedLine(front, r, i, k) ==> IsCommittedLine(batches, r, i, k);
      assert forall i, k :: IsCommittedLine(batches, r, i, k) && i < n ==> IsCommittedLine(front, r, i, k);
      LastCommitted(batches, r);
    }
  }

  lemma LastCommitted(batches: seq<Batch>, r: Row)
    requires batches != []
    ensures var n := |batches| - 1;
            (batches[n].status == Committed && r in Numbered(batches[n].first, batches[n].texts))
            <==> exists k :: IsCommittedLine(batches, r, n, k)
  {
    var n := |batches| - 1;
    var b := batches[n];
    var rows := Numbered(b.first, b.texts);
    if b.status == Committed && r in rows {
      var k :| 0 <= k < |rows| && rows[k] == r;
      assert IsCommittedLine(batches, r, n, k);
    }
    if k :| IsCommittedLine(batches, r, n, k) { assert rows[k] == r; }
  }

  /** What is stored: the rows from before, and every line of a committed batch under its own number. */
  lemma StoredExactly(s: System, r: Row)
    ensures r in Stored(s) <==> r in s.prior || exists i, k :: IsCommittedLine(s.batches, r, i, k)
  {
    CommittedExactly(s.batches, r);
  }

  /** How an insert's end moves its lines: stored, put back in front with or without their numbers, or neither. */
  lemma EndMoves(s: System, e: Event)
    requires Enabled(s, e) && (e.Ends? || e.DetachedCommits? || e.DetachedFails? || e.DetachedCancelled?)
    ensures var t := Apply(s, e);
            var i := if e.Ends? then |s.batches| - 1 else e.i;
            var lines := s.batches[i].texts;
            var commits := e == Ends(Commits) || e.DetachedCommits?;
            var rewinds := e == Ends(Fails) || e == Ends(InsertCancelled);
            && t.writer.buffer == (if rewinds || e.DetachedFails? then lines + s.writer.buffer else s.writer.buffer)
            && t.writer.next == (if rewinds then s.writer.next - |lines| else s.writer.next)
            && t.writer.closed == (s.writer.closed || (e.Ends? && s.phase.closing && (e.outcome.Commits? || e.outcome.Fails?)))
            && (if rewinds then t.batches == s.batches[..i]
                else t.batches == s.batches[i := s.batches[i].(status := t.batches[i].status)])
            && (!rewinds ==> (t.batches[i].status == Committed <==> commits))
            && (!rewinds ==> (t.batches[i].status == Dropped <==> e.DetachedCancelled?))
            && (e.Ends? ==> t.phase == Idle) && (!e.Ends? ==> t.phase == s.phase)
  {
  }

  /** How a flush begins, and what its seed read makes of its first number. */
  lemma FlushBegins(s: System, e: Event)
    requires Enabled(s, e) && (e.Begin? || e.Seeded? || e.SeedCancelled?)
    ensures var t := Apply(s, e);
            var inserts := e.Seeded? || (e.Begin? && s.writer.buffer != [] && s.writer.next != 0 && !(e.closing && s.writer.closed));
            var closing := if e.Begin? then e.closing else s.phase.closing;
            && (inserts ==>
                  && t.phase == Inserting(closing) && t.writer.buffer == [] && |t.batches| == |s.batches| + 1
                  && var b := t.batches[|s.batches|];
                     && t.batches == s.batches + [b] && b.texts == s.writer.buffer && t.writer.next == b.first + |b.texts|
                     && (e == Seeded(true) && Stored(s) != [] ==>
                           (exists r :: r in Stored(s) && b.first == r.number + 1) && forall r | r in Stored(s) :: r.number < b.first)
                     && (e != Seeded(true) || Stored(s) == [] ==> b.first == s.writer.next))
            && (!inserts ==> t.batches == s.batches && t.writer.buffer == s.writer.buffer && t.writer.next == s.writer.next)
            && (e == Begin(true) && s.writer.buffer == [] ==> t.writer.closed && t.phase == s.phase)
            && (t.writer.closed != s.writer.closed ==> e == Begin(true) && s.writer.buffer == [])
            && (e.Begin? && s.writer.buffer != [] && s.writer.next == 0 && !(e.closing && s.writer.closed) ==>
                  t.phase == Seeding(e.closing))
            && (e.SeedCancelled? ==> t.phase == Idle)
  {
    hide CommittedRows;
  }

  lemma {:induction false} CommittedTexts(batches: seq<Batch>)
    requires forall i | 0 <= i < |batches| :: batches[i].status == Committed
    ensures TextsOf(CommittedRows(batches)) == Taken(batches)
  {
    hide TextsOf, Numbered;
    if batches != [] {
      var front, b := batches[..|batches| - 1], batches[|batches| - 1];
      CommittedTexts(front);
      TextsAppend(CommittedRows(front), b.first, b.texts);
    }
  }

  lemma TextsAppend(rows: seq<Row>, first: int, texts: seq<string>)
    ensures TextsOf(rows + Numbered(first, texts)) == TextsOf(rows) + texts
  {
    hide TextsOf, Numbered;
  }

  /** The texts that were written while the writer was open. */
  function AcceptedTexts(s: System, events: seq<Event>): seq<string>
    requires Runs(s, events)
    decreases |events|
  {
    if events == [] then []
    else
      (if events[0].Write? && !s.writer.closed then [events[0].text] else []) + AcceptedTexts(Apply(s, events[0]), events[1..])
  }

  lemma {:induction false} WrittenAreAccepted(s: System, events: seq<Event>)
    requires Runs(s, events)
    ensures var after := Run(s, events).written;
            s.written <= after && AllStripped(AcceptedTexts(s, events), after[|s.written|..])
    decreases |events|
  {
    if events != [] {
      var next := Apply(s, events[0]);
      StepAccepts(s, events[0]);
      hide Apply, Stripped;
      WrittenAreAccepted(next, events[1..]);
    }
  }

  lemma StepAccepts(s: System, e: Event)
    requires Enabled(s, e)
    ensures var after := Apply(s, e).written;
            if e.Write? && !s.writer.closed then
              |after| == |s.written| + 1 && s.written <= after && Stripped(e.text, after[|s.written|])
            else after == s.written
  {
    if e.Write? { TrimmedIsStripped(e.text, Trimmed(e.text)); }
    hide Trimmed, Stripped, MaxNumber;
  }

  /**
   * Once every batch is committed and the buffer is empty, the new rows are, in order of number, the
   * texts that were written while the writer was open, one row each, without their trailing newlines.
   */
  lemma AllStoredInOrder(prior: seq<Row>, events: seq<Event>)
    requires Runs(Start(prior), events)
    requires var s := Run(Start(prior), events);
             s.writer.buffer == [] && forall i | 0 <= i < |s.batches| :: s.batches[i].status == Committed
    ensures var s := Run(Start(prior), events);
            && AllStripped(AcceptedTexts(Start(prior), events), TextsOf(CommittedRows(s.batches)))
            && TextsOf(CommittedRows(s.batches)) == s.written
            && (NoneNegative(prior) ==> Increasing(CommittedRows(s.batches)))
  {
    StartsConserved(prior);
    WrittenAreAccepted(Start(prior), events);
    hide Apply, Run, Conserved, OneActive, BatchesSound;
    RunConserves(Start(prior), events);
    var s := Run(Start(prior), events);
    AllCommitted(s);
    if NoneNegative(prior) {
      RunOrders(Start(prior), events);
      OrderedBatches(s);
      CommittedAreOrdered(s.batches);
    }
  }

  lemma StartsConserved(prior: seq<Row>)
    ensures Conserved(Start(prior)) && OneActive(Start(prior)) && BatchesSound(Start(prior))
  {
  }

  lemma AllCommitted(s: System)
    requires Conserved(s) && s.writer.buffer == [] && forall i | 0 <= i < |s.batches| :: s.batches[i].status == Committed
    ensures TextsOf(CommittedRows(s.batches)) == s.written
  {
    hide Live, Taken, CommittedRows;
    CommittedTexts(s.batches);
    assert Taken(s.batches) + [] == Taken(s.batches);
  }

  lemma OrderedBatches(s: System)
    requires BatchesSound(s)
    ensures forall i, j | 0 <= i < j < |s.batches| :: s.batches[i].first + |s.batches[i].texts| <= s.batches[j].first
    ensures forall i | 0 <= i < |s.batches| :: 0 <= s.batches[i].first && s.batches[i].first + |s.batches[i].texts| <= s.writer.next
  {
  }

  // ---------------------------------------------------------------- safe runs: no number is used twice

  /** Batches lie above the rows from before. */
  predicate AbovePrior(s: System) {
    && (forall i, r | 0 <= i < |s.batches| && r in s.prior :: r.number < s.batches[i].first)
    && (s.writer.next > 0 ==> forall r | r in s.prior :: r.number < s.writer.next)
  }

  /** The running insert got its numbers from a seed read that failed: they start at zero. */
  predicate Unseeded(s: System) {
    && s.phase.Inserting? && |s.batches| == 1 && s.batches[0].first == 0 && s.batches[0].texts != []
    && s.writer.next == |s.batches[0].texts| && s.batches[0].status == Active
  }

  /** Such an insert was the last thing a closed writer did, and it stayed below the rows from before. */
  predicate Retired(s: System) {
    && s.phase.Idle? && s.writer.closed && s.writer.buffer == [] && |s.batches| == 1 && s.batches[0].first == 0
    && s.batches[0].status == Committed && s.writer.next == |s.batches[0].texts|
    && forall r | r in s.prior :: r.number >= s.writer.next
  }

  /** The insert commits below the rows from before, and the writer has nothing left and is closed. */
  predicate IsLastOne(s: System, e: Event) {
    && e == Ends(Commits) && s.phase.Inserting? && (s.writer.closed || s.phase.closing) && s.writer.buffer == []
    && |s.batches| == 1 && forall r | r in s.prior :: r.number >= s.writer.next
  }

  /** No insert that may still land has numbers as low as a row from before, unless it is the last thing to happen. */
  predicate InsertIsHarmless(s: System, e: Event) {
    (e == Ends(Commits) || e == Ends(FlushCancelled)) && s.batches != []
    ==> (forall r | r in s.prior :: r.number < s.batches[|s.batches| - 1].first) || IsLastOne(s, e)
  }

  /** Seed reads may fail, as long as an insert that got its numbers from one over stored rows fails too. */
  predicate SafeRun(s: System, events: seq<Event>)
    decreases |events|
  {
    events == [] || (Enabled(s, events[0]) && InsertIsHarmless(s, events[0]) && SafeRun(Apply(s, events[0]), events[1..]))
  }

  /** A seed read may fail only when there was nothing to read. */
  predicate SeedsAreRead(s: System, events: seq<Event>) {
    Seeded(false) in events ==> s.prior == []
  }

  predicate Sound(s: System) {
    OneActive(s) && BatchesSound(s) && NoneNegative(s.prior) && (AbovePrior(s) || Unseeded(s) || Retired(s))
  }

  lemma ReserveStaysAbove(s: System, closing: bool)
    requires AbovePrior(s) && s.writer.buffer != [] && (s.writer.next > 0 || s.prior == [])
    ensures AbovePrior(Reserve(s, closing))
  {
  }

  lemma SeededStaysAbove(s: System, ok: bool)
    requires BatchesSound(s) && s.phase.Seeding? && NoneNegative(s.prior)
    ensures ok || s.prior == [] ==> AbovePrior(Apply(s, Seeded(ok)))
    ensures AbovePrior(Apply(s, Seeded(ok))) || Unseeded(Apply(s, Seeded(ok)))
  {
    NothingReserved(s);
    if ok {
      hide MaxLine;
      ReserveStaysAbove(s.(writer := s.writer.Seed(MaxLine(s))), s.phase.closing);
    }
  }

  lemma EndStaysAbove(s: System, outcome: Outcome)
    requires BatchesSound(s) && AbovePrior(s) && s.phase.Inserting?
    ensures AbovePrior(End(s, outcome))
  {
  }

  /** A step from above the rows from before stays there, except when a seed read over them fails. */
  lemma StepStaysAbove(s: System, e: Event)
    requires BatchesSound(s) && AbovePrior(s) && Enabled(s, e) && NoneNegative(s.prior)
    ensures AbovePrior(Apply(s, e)) || Unseeded(Apply(s, e))
    ensures e != Seeded(false) || s.prior == [] ==> AbovePrior(Apply(s, e))
    ensures InsertIsHarmless(s, e)
  {
    hide Unseeded;
    match e
    case Write(_) =>
    case SeedCancelled =>
    case Begin(closing) => if s.writer.buffer != [] && s.writer.next != 0 { ReserveStaysAbove(s, closing); }
    case Seeded(ok) => SeededStaysAbove(s, ok);
    case Ends(outcome) => EndStaysAbove(s, outcome);
    case _ =>
  }

  lemma SomeRow(rows: seq<Row>)
    ensures rows == [] || exists r :: r in rows
  {
    if rows != [] { assert rows[0] in rows; }
  }

  /** An insert without a seed is forgotten when it fails, and harmless when nothing was stored or nothing follows. */
  lemma UnseededStep(s: System, e: Event)
    requires Unseeded(s) && OneActive(s) && Enabled(s, e) && InsertIsHarmless(s, e) && NoneNegative(s.prior)
    ensures AbovePrior(Apply(s, e)) || Unseeded(Apply(s, e)) || Retired(Apply(s, e))
    ensures e.Ends? ==> !Unseeded(Apply(s, e))
  {
    match e
    case Write(_) =>
    case Ends(outcome) => if outcome.LandsLater() { SomeRow(s.prior); }
    case _ =>
  }

  /** After the last insert nothing happens any more. */
  lemma RetiredStep(s: System, e: Event)
    requires Retired(s) && Enabled(s, e)
    ensures Retired(Apply(s, e)) && InsertIsHarmless(s, e)
  {
  }

  lemma StepIsSound(s: System, e: Event)
    requires Sound(s) && Enabled(s, e) && InsertIsHarmless(s, e) && Conserved(s)
    ensures Sound(Apply(s, e))
  {
    hide Conserved, BatchesSound, AbovePrior, Unseeded, Retired, OneActive, InsertIsHarmless, Apply;
    StepOrders(s, e);
    StepConserves(s, e);
    StepKeepsPrior(s, e);
    if AbovePrior(s) { StepStaysAbove(s, e); } else if Unseeded(s) { UnseededStep(s, e); } else { RetiredStep(s, e); }
  }

  lemma {:induction false} RunIsSound(s: System, events: seq<Event>)
    requires Conserved(s) && Sound(s) && SafeRun(s, events)
    ensures Runs(s, events) && Sound(Run(s, events)) && Run(s, events).prior == s.prior
    decreases |events|
  {
    hide Apply, Conserved, Sound, InsertIsHarmless;
    if events != [] {
      StepKeepsPrior(s, events[0]);
      StepIsSound(s, events[0]);
      assert OneActive(s) by { SoundIsOneActive(s); }
      StepConserves(s, events[0]);
      RunIsSound(Apply(s, events[0]), events[1..]);
    }
  }

  lemma SoundIsOneActive(s: System)
    requires Sound(s)
    ensures OneActive(s)
  {
  }

  /** Every run whose seed reads fail only over an empty table is safe. */
  lemma {:induction false} ReadSeedsAreSafe(s: System, events: seq<Event>)
    requires Conserved(s) && Sound(s) && (AbovePrior(s) || Retired(s)) && Runs(s, events) && SeedsAreRead(s, events)
    ensures SafeRun(s, events)
    decreases |events|
  {
    if events != [] {
      StepKeepsPrior(s, events[0]);
      if AbovePrior(s) { StepStaysAbove(s, events[0]); } else { RetiredStep(s, events[0]); }
      StepIsSound(s, events[0]);
      StepConserves(s, events[0]);
      hide Apply, Conserved, Sound, AbovePrior, Retired, InsertIsHarmless;
      ReadSeedsAreSafe(Apply(s, events[0]), events[1..]);
    }
  }

  predicate DistinctNumbers(rows: seq<Row>) {
    forall i, j | 0 <= i < j < |rows| :: rows[i].number != rows[j].number
  }

  /**
   * After any safe run the stored numbers are pairwise distinct, the new rows are in increasing order,
   * and every reserved number is below the next one; so is every row from before, unless an insert
   * without a seed is under way or was the last one.
   */
  lemma StoredNumbersAreDistinct(prior: seq<Row>, events: seq<Event>)
    requires DistinctNumbers(prior) && NoneNegative(prior) && SafeRun(Start(prior), events)
    ensures Runs(Start(prior), events)
    ensures var s := Run(Start(prior), events);
            && DistinctNumbers(Stored(s)) && Increasing(CommittedRows(s.batches))
            && (forall i | 0 <= i < |s.batches| :: s.batches[i].first + |s.batches[i].texts| <= s.writer.next)
            && (s.writer.next > 0 && (prior == [] || !(Unseeded(s) || Retired(s))) ==>
                  forall r | r in Stored(s) :: r.number < s.writer.next)
  {
    RunIsSound(Start(prior), events);
    hide Apply, Run;
    SoundRowsAreDistinct(Run(Start(prior), events));
  }

  lemma SoundRowsAreDistinct(s: System)
    requires Sound(s) && DistinctNumbers(s.prior)
    ensures DistinctNumbers(Stored(s)) && Increasing(CommittedRows(s.batches))
    ensures forall i | 0 <= i < |s.batches| :: s.batches[i].first + |s.batches[i].texts| <= s.writer.next
    ensures s.writer.next > 0 && (s.prior == [] || !(Unseeded(s) || Retired(s))) ==> forall r | r in Stored(s) :: r.number < s.writer.next
  {
    hide OneActive;
    OrderedBatches(s);
    CommittedAreOrdered(s.batches);
    CommittedAreWithin(s.batches, 0, s.writer.next);
    forall r | r in CommittedRows(s.batches), p | p in s.prior ensures p.number != r.number
      ensures AbovePrior(s) ==> p.number < r.number
    {
      NewRowIsApart(s, r, p);
    }
    hide CommittedRows, Unseeded, Retired;
  }

  lemma NewRowIsApart(s: System, r: Row, p: Row)
    requires Sound(s) && r in CommittedRows(s.batches) && p in s.prior
    ensures p.number != r.number && (AbovePrior(s) ==> p.number < r.number)
  {
    OrderedBatches(s);
    CommittedAreWithin(s.batches, 0, s.writer.next);
    if AbovePrior(s) {
      CommittedAreWithin(s.batches, p.number + 1, s.writer.next);
    } else if Unseeded(s) {
      NothingLanded(s);
    }
  }

  lemma NothingLanded(s: System)
    requires Unseeded(s)
    ensures CommittedRows(s.batches) == []
  {
    assert s.batches[..0] == [];
  }

  // ---------------------------------------------------------------- exactly when a number can be used twice

  /**
   * An unsafe end does collide, or can: once an insert without a seed has landed with rows from before
   * at or above its first number, a row's number is used again, at once or by flushing up to it.
   */
  lemma FailedSeedCollides(s: System, r: Row, outcome: Outcome) returns (events: seq<Event>)
    requires Unseeded(s) && r in s.prior && r.number >= 0 && outcome.LandsLater()
    requires r.number < s.writer.next || outcome.FlushCancelled? || s.writer.buffer != [] || !(s.writer.closed || s.phase.closing)
    ensures Runs(Apply(s, Ends(outcome)), events) && Seeded(false) !in events
    ensures !DistinctNumbers(Stored(Run(Apply(s, Ends(outcome)), events)))
  {
    var t := Apply(s, Ends(outcome));
    if r.number < s.writer.next {
      var landed := if outcome.Commits? then t else Apply(t, DetachedCommits(0));
      Collides(landed, r, 0);
      if outcome.FlushCancelled? {
        RunFirst(t, DetachedCommits(0), []);
        return [DetachedCommits(0)] + [];
      }
      return [];
    }
    var first: seq<Event> := if outcome.FlushCancelled? then [DetachedFails(0)] else if s.writer.buffer == [] then [Write("")] else [];
    var ready := if outcome.FlushCancelled? then Apply(t, DetachedFails(0)) else if s.writer.buffer == [] then Apply(t, Write("")) else t;
    var more, k := FlushUpTo(ready, r.number);
    Collides(Run(ready, more), r, k);
    if first != [] { RunFirst(t, first[0], more); assert first == [first[0]]; } else { assert first + more == more; }
    events := first + more;
  }

  /** Flushes, lets the insert fail when nobody waits for it, and so on until a flush takes the given number. */
  lemma {:induction false} FlushUpTo(s: System, number: int) returns (events: seq<Event>, k: nat)
    requires s.phase.Idle? && s.writer.buffer != [] && 0 < s.writer.next <= number
    ensures Runs(s, events) && Seeded(false) !in events
    ensures var t := Run(s, events);
            && t.prior == s.prior && k < |t.batches|
            && var b := t.batches[k]; b.status == Committed && b.first <= number < b.first + |b.texts|
    decreases number - s.writer.next
  {
    var t := Apply(s, Begin(false));
    if number < t.writer.next {
      RunFirst(t, Ends(Commits), []);
      RunFirst(s, Begin(false), [Ends(Commits)]);
      assert [Ends(Commits)] + [] == [Ends(Commits)];
      events, k := [Begin(false)] + [Ends(Commits)], |s.batches|;
    } else {
      var u := Apply(t, Ends(FlushCancelled));
      var fails := DetachedFails(|s.batches|);
      var more;
      more, k := FlushUpTo(Apply(u, fails), number);
      RunFirst(u, fails, more);
      RunFirst(t, Ends(FlushCancelled), [fails] + more);
      RunFirst(s, Begin(false), [Ends(FlushCancelled)] + ([fails] + more));
      events := [Begin(false)] + ([Ends(FlushCancelled)] + ([fails] + more));
    }
  }

  /** A committed batch that covers the number of a row from before. */
  lemma Collides(s: System, r: Row, i: nat)
    requires i < |s.batches| && s.batches[i].status == Committed && r in s.prior
    requires s.batches[i].first <= r.number < s.batches[i].first + |s.batches[i].texts|
    ensures !DistinctNumbers(Stored(s))
  {
    CommittedRowIsStored(s.batches, i, r.number - s.batches[i].first);
    var k :| 0 <= k < |CommittedRows(s.batches)| && CommittedRows(s.batches)[k].number == r.number;
    var j :| 0 <= j < |s.prior| && s.prior[j] == r;
    assert Stored(s)[j].number == Stored(s)[|s.prior| + k].number;
  }

  lemma {:induction false} CommittedRowIsStored(batches: seq<Batch>, i: nat, k: nat)
    requires i < |batches| && batches[i].status == Committed && k < |batches[i].texts|
    ensures exists j :: 0 <= j < |CommittedRows(batches)| && CommittedRows(batches)[j].number == batches[i].first + k
    decreases |batches|
  {
    var n := |batches| - 1;
    if i < n {
      CommittedRowIsStored(batches[..n], i, k);
      var j :| 0 <= j < |CommittedRows(batches[..n])| && CommittedRows(batches[..n])[j].number == batches[i].first + k;
      assert CommittedRows(batches)[j].number == batches[i].first + k;
    } else {
      assert CommittedRows(batches)[|CommittedRows(batches[..n])| + k].number == batches[i].first + k;
    }
  }


  /**
   * Safety of an insert's end is exact: the numbers stay distinct in whatever comes after it, as long as
   * no seed read fails again, if and only if the insert is harmless.
   */
  lemma HarmlessExactly(s: System, outcome: Outcome)
    requires Conserved(s) && Sound(s) && DistinctNumbers(s.prior) && s.phase.Inserting? && outcome.LandsLater()
    requires s.batches != []
    ensures InsertIsHarmless(s, Ends(outcome)) <==>
            forall events | Runs(Apply(s, Ends(outcome)), events) && Seeded(false) !in events ::
              DistinctNumbers(Stored(Run(Apply(s, Ends(outcome)), events)))
  {
    var t := Apply(s, Ends(outcome));
    if InsertIsHarmless(s, Ends(outcome)) {
      LandsSafely(s, outcome);
      StepKeepsPrior(s, Ends(outcome));
      forall events | Runs(t, events) && Seeded(false) !in events ensures DistinctNumbers(Stored(Run(t, events))) {
        ReadSeedsAreSafe(t, events);
        RunIsSound(t, events);
        SoundRowsAreDistinct(Run(t, events));
      }
    } else {
      if AbovePrior(s) { StepStaysAbove(s, Ends(outcome)); }
      var r := CollidingRow(s, outcome);
      var events := FailedSeedCollides(s, r, outcome);
    }
  }

  lemma LandsSafely(s: System, outcome: Outcome)
    requires Conserved(s) && Sound(s) && s.phase.Inserting? && s.batches != [] && InsertIsHarmless(s, Ends(outcome))
    ensures var t := Apply(s, Ends(outcome)); Conserved(t) && Sound(t) && (AbovePrior(t) || Retired(t))
  {
    hide Conserved;
    StepConserves(s, Ends(outcome));
    StepIsSound(s, Ends(outcome));
    if AbovePrior(s) { StepStaysAbove(s, Ends(outcome)); } else { UnseededStep(s, Ends(outcome)); }
  }

  lemma CollidingRow(s: System, outcome: Outcome) returns (r: Row)
    requires Sound(s) && Unseeded(s) && outcome.LandsLater() && !InsertIsHarmless(s, Ends(outcome))
    ensures r in s.prior && r.number >= 0
    ensures r.number < s.writer.next || outcome.FlushCancelled? || s.writer.buffer != [] || !(s.writer.closed || s.phase.closing)
  {
    if low :| low in s.prior && low.number < s.writer.next { return low; }
    r :| r in s.prior && r.number >= s.batches[|s.batches| - 1].first;
  }

  /** A failed seed read leads there, whatever is stored. */
  lemma FailedSeedIsUnseeded(prior: seq<Row>, text: string)
    ensures var events := [Write(text), Begin(false), Seeded(false)];
            Runs(Start(prior), events) && Unseeded(Run(Start(prior), events)) && Run(Start(prior), events).prior == prior
  {
    var s0 := Start(prior);
    var s1 := Apply(s0, Write(text));
    assert s1 == s0.(writer := Fields([Trimmed(text)], 0, false), written := [Trimmed(text)]);
    var s2 := Apply(s1, Begin(false));
    var s3 := Apply(s2, Seeded(false));
    assert s3.batches == [Batch(0, [Trimmed(text)], Active)];
    RunFirst(s2, Seeded(false), []);
    RunFirst(s1, Begin(false), [Seeded(false)]);
    RunFirst(s0, Write(text), [Begin(false), Seeded(false)]);
    assert [Seeded(false)] == [Seeded(false)] + [];
    assert [Begin(false), Seeded(false)] == [Begin(false)] + [Seeded(false)];
    assert [Write(text), Begin(false), Seeded(false)] == [Write(text)] + [Begin(false), Seeded(false)];
  }

  lemma RunFirst(s: System, e: Event, rest: seq<Event>)
    requires Enabled(s, e) && Runs(Apply(s, e), rest)
    ensures Runs(s, [e] + rest) && Run(s, [e] + rest) == Run(Apply(s, e), rest)
  {
    assert ([e] + rest)[1..] == rest;
  }
}
