module CommandSync {
  // Command sync: a three-way reconciliation of the canonical renderings, the manifest and the files
  // on disk, with force and prune (sova/commands/distribution.py, sova/commands/manifest.py).
  import opened Basics

  /** A content hash, abstracted as injective; `Foreign` is recorded text that is no content's hash. */
  datatype Hash = Digest(content: string) | Foreign(text: string)

  /** A regular file: UTF-8 text, or bytes that cannot be read as text. */
  datatype File = Text(content: string) | Unreadable

  datatype Entry = Entry(hash: Hash, managed: bool)

  datatype Source = Source(name: string, rendered: string)

  /** The installed files and the parsed manifest (`None` when absent or corrupt). */
  datatype World = World(disk: map<string, File>, manifest: Option<map<string, Entry>>)

  /** The inputs of one update; an unlink of a name in `stuck` fails. */
  datatype Job = Job(canon: map<string, string>, force: bool, prune: bool, stuck: set<string>)

  function Lookup<V>(m: map<string, V>, name: string): Option<V> {
    if name in m then Some(m[name]) else None
  }

  function Entries(w: World): map<string, Entry> {
    w.manifest.GetOr(map[])
  }

  /** The hash of an installed file, or `None` when it is missing or unreadable. */
  function HashOf(file: Option<File>): Option<Hash> {
    if file.Some? && file.value.Text? then Some(Digest(file.value.content)) else None
  }

  // ---------------------------------------------------------------- what one name should come to

  datatype Status = Untouched | Current | Adopted | Repaired | Written | Conflicted | Removed

  datatype Outcome = Outcome(file: Option<File>, entry: Option<Entry>, status: Status)

  function Settle(job: Job, name: string, file: Option<File>, entry: Option<Entry>): Outcome {
    if name in job.canon then SettleSource(job.force, job.canon[name], file, entry)
    else SettleRetired(job, name, file, entry)
  }

  function SettleSource(force: bool, rendered: string, file: Option<File>, entry: Option<Entry>): Outcome {
    var recorded := Some(Entry(Digest(rendered), true));
    if entry.None? then
      if file.None? then Outcome(Some(Text(rendered)), recorded, Written)
      else if HashOf(file) == Some(Digest(rendered)) then Outcome(file, recorded, Adopted)
      else if !force then Outcome(file, None, Conflicted)
      else Outcome(Some(Text(rendered)), recorded, Written)
    else if !force && entry.value.hash == Digest(rendered) then Outcome(file, entry, Current)
    else if HashOf(file) == Some(Digest(rendered)) then
      if entry.value.hash != Digest(rendered) then Outcome(file, recorded, Repaired) else Outcome(file, entry, Current)
    else if !force && file.Some? && HashOf(file) != Some(entry.value.hash) then Outcome(file, entry, Conflicted)
    else Outcome(Some(Text(rendered)), recorded, Written)
  }

  function SettleRetired(job: Job, name: string, file: Option<File>, entry: Option<Entry>): Outcome {
    if !job.prune || entry.None? || !entry.value.managed then Outcome(file, entry, Untouched)
    else if file.None? then Outcome(None, None, Removed)
    else if HashOf(file) != Some(entry.value.hash) && !job.force then Outcome(file, entry, Conflicted)
    else if name in job.stuck then Outcome(file, entry, Conflicted)
    else Outcome(None, None, Removed)
  }

  function At(job: Job, w: World, name: string): Outcome {
    Settle(job, name, Lookup(w.disk, name), Lookup(Entries(w), name))
  }

  /** `w'` is what an uninterrupted update makes of `w`. */
  ghost predicate Synced(job: Job, w: World, w': World) {
    && (forall n :: Lookup(w'.disk, n) == At(job, w, n).file)
    && (forall n :: Lookup(Entries(w'), n) == At(job, w, n).entry)
    && (w'.manifest.None? ==> w.manifest.None?)
    && (w'.manifest.Some? && w.manifest.None? ==> exists n :: At(job, w, n).entry.Some?)
  }

  /** The disk after only the names in `done` were settled; the manifest is not written before the end. */
  ghost predicate Interrupted(job: Job, w: World, done: set<string>, w': World) {
    && w'.manifest == w.manifest
    && forall n :: Lookup(w'.disk, n) == if n in done then At(job, w, n).file else Lookup(w.disk, n)
  }

  // ---------------------------------------------------------------- the merge is three-way and safe

  /** The user's side: the file no longer matches what the manifest says was installed. */
  predicate LocallyChanged(file: Option<File>, entry: Option<Entry>) {
    file.Some? && (entry.None? || HashOf(file) != Some(entry.value.hash))
  }

  /**
   * Without force, an existing file is overwritten or removed only while it is exactly what the
   * manifest recorded, and the content it gets is the rendering, or none once the source is retired.
   */
  lemma OnlyPristineFilesChange(job: Job, w: World, n: string)
    requires !job.force && n in w.disk && At(job, w, n).file != Some(w.disk[n])
    ensures n in Entries(w) && HashOf(Some(w.disk[n])) == Some(Entries(w)[n].hash)
    ensures n in job.canon ==> At(job, w, n).file == Some(Text(job.canon[n])) && Entries(w)[n].hash != Digest(job.canon[n])
    ensures n !in job.canon ==> job.prune && Entries(w)[n].managed && At(job, w, n).file == None
  {
  }

  /**
   * Without force, a name is in conflict exactly when upstream moved and the local file differs
   * from both the recorded and the new content, or the file was never installed and differs from
   * the new one, or a managed file of a retired source was edited or cannot be removed.
   */
  lemma ConflictsExactly(job: Job, w: World, n: string)
    requires !job.force
    ensures var file, entry := Lookup(w.disk, n), Lookup(Entries(w), n);
            At(job, w, n).status.Conflicted? <==>
              || (n in job.canon && LocallyChanged(file, entry) && file != Some(Text(job.canon[n]))
                  && (entry.Some? ==> entry.value.hash != Digest(job.canon[n])))
              || (n !in job.canon && job.prune && file.Some? && entry.Some? && entry.value.managed
                  && (LocallyChanged(file, entry) || n in job.stuck))
  {
  }

  /** With force, nothing but a failing unlink of a retired managed file is left in conflict. */
  lemma ForcedConflictsExactly(job: Job, w: World, n: string)
    requires job.force
    ensures At(job, w, n).status.Conflicted? <==>
              && n !in job.canon && job.prune && n in w.disk && n in Entries(w) && Entries(w)[n].managed
              && n in job.stuck
  {
  }

  // ---------------------------------------------------------------- what an update does, in full

  predicate IsRendering(job: Job, w: World, n: string)
    requires n in job.canon
  {
    n in w.disk && w.disk[n] == Text(job.canon[n])
  }

  /** The file is exactly what the manifest recorded. */
  predicate IsPristine(w: World, n: string) {
    n in w.disk && n in Entries(w) && w.disk[n].Text? && Digest(w.disk[n].content) == Entries(w)[n].hash
  }

  /** There is something to install, and nothing of the user's in the way unless it is forced. */
  predicate MayInstall(job: Job, w: World, n: string)
    requires n in job.canon
  {
    && !IsRendering(job, w, n)
    && (job.force
        || if n in Entries(w) then Entries(w)[n].hash != Digest(job.canon[n]) && (n !in w.disk || IsPristine(w, n))
           else n !in w.disk)
  }

  /** What is installed is recorded, and so is a rendering that stands there unrecorded. */
  predicate IsRecorded(job: Job, w: World, n: string)
    requires n in job.canon
  {
    MayInstall(job, w, n) || (IsRendering(job, w, n) && (n in Entries(w) ==> Entries(w)[n].hash != Digest(job.canon[n])))
  }

  /** A retired managed entry goes with its file, if that is pristine or forced, and can be unlinked. */
  predicate MayRemove(job: Job, w: World, n: string) {
    && job.prune && n in Entries(w) && Entries(w)[n].managed
    && (n in w.disk ==> n !in job.stuck && (job.force || IsPristine(w, n)))
  }

  /** After an update a source's file is its rendering exactly when it may be installed or already was. */
  lemma SourcesAreInstalled(job: Job, w: World, w': World, n: string)
    requires n in job.canon && Synced(job, w, w')
    ensures Lookup(w'.disk, n) == if MayInstall(job, w, n) then Some(Text(job.canon[n])) else Lookup(w.disk, n)
    ensures Lookup(Entries(w'), n)
            == if IsRecorded(job, w, n) then Some(Entry(Digest(job.canon[n]), true)) else Lookup(Entries(w), n)
  {
    assert Lookup(w'.disk, n) == At(job, w, n).file && Lookup(Entries(w'), n) == At(job, w, n).entry;
  }

  /** A name without a source loses file and entry together, or keeps both. */
  lemma RetiredAreRemoved(job: Job, w: World, w': World, n: string)
    requires n !in job.canon && Synced(job, w, w')
    ensures Lookup(w'.disk, n) == if MayRemove(job, w, n) then None else Lookup(w.disk, n)
    ensures Lookup(Entries(w'), n) == if MayRemove(job, w, n) then None else Lookup(Entries(w), n)
  {
    assert Lookup(w'.disk, n) == At(job, w, n).file && Lookup(Entries(w'), n) == At(job, w, n).entry;
  }

  /**
   * So an update without force does install: a new source, and one whose rendering moved on while its
   * file is missing or as recorded.
   */
  lemma UnforcedUpdateInstalls(job: Job, w: World, w': World, n: string)
    requires Synced(job, w, w') && n in job.canon
    requires if n in Entries(w) then Entries(w)[n].hash != Digest(job.canon[n]) else n !in w.disk
    requires n in w.disk ==> w.disk[n].Text? && Digest(w.disk[n].content) == Entries(w)[n].hash
    ensures n in w'.disk && w'.disk[n] == Text(job.canon[n])
    ensures n in Entries(w') && Entries(w')[n] == Entry(Digest(job.canon[n]), true)
  {
    SourcesAreInstalled(job, w, w', n);
  }

  /** Running the same update again changes nothing and reports the same conflicts. */
  lemma SecondRunChangesNothing(job: Job, w: World, w': World, w'': World)
    requires Synced(job, w, w') && Synced(job, w', w'')
    ensures w''.disk == w'.disk && Entries(w'') == Entries(w')
    ensures forall n :: At(job, w', n).status.Conflicted? <==> At(job, w, n).status.Conflicted?
    ensures forall n :: At(job, w', n).status in {Untouched, Current, Conflicted}
  {
    hide Settle, Lookup;
    forall n
      ensures Lookup(w''.disk, n) == Lookup(w'.disk, n) && Lookup(Entries(w''), n) == Lookup(Entries(w'), n)
      ensures At(job, w', n).status.Conflicted? <==> At(job, w, n).status.Conflicted?
      ensures At(job, w', n).status in {Untouched, Current, Conflicted}
    {
      SettledTwice(job, n, Lookup(w.disk, n), Lookup(Entries(w), n));
    }
    SameLookups(w''.disk, w'.disk);
    SameLookups(Entries(w''), Entries(w'));
  }

  lemma SettledTwice(job: Job, n: string, file: Option<File>, entry: Option<Entry>)
    ensures var once := Settle(job, n, file, entry);
            var twice := Settle(job, n, once.file, once.entry);
            && twice.file == once.file && twice.entry == once.entry
            && (twice.status.Conflicted? <==> once.status.Conflicted?) && twice.status in {Untouched, Current, Conflicted}
  {
  }

  lemma SameLookups<V>(a: map<string, V>, b: map<string, V>)
    requires forall n :: Lookup(a, n) == Lookup(b, n)
    ensures a == b
  {
    forall n ensures n in a <==> n in b { assert Lookup(a, n) == Lookup(b, n); }
    forall n | n in a ensures a[n] == b[n] { assert Lookup(a, n) == Lookup(b, n); }
  }

  // ---------------------------------------------------------------- crash and rerun

  /**
   * The one input on which a rerun forgets something: a forced update restores a file whose
   * manifest entry is up to date but marked unmanaged.
   */
  predicate ForgetsManaged(job: Job, w: World, n: string) {
    && job.force && n in job.canon && n in Entries(w)
    && Entries(w)[n] == Entry(Digest(job.canon[n]), false)
    && Lookup(w.disk, n) != Some(Text(job.canon[n]))
  }

  /**
   * Crash and rerun: stop an update after any of its disk writes and removals, before the manifest
   * is written, and run it again. The disk and the conflicts are those of one uninterrupted run,
   * and so is the manifest unless a file already restored had an unmanaged, up-to-date entry.
   */
  lemma RerunAfterCrash(job: Job, w: World, done: set<string>, crashed: World, whole: World, rerun: World)
    requires Interrupted(job, w, done, crashed)
    requires Synced(job, w, whole) && Synced(job, crashed, rerun)
    ensures rerun.disk == whole.disk
    ensures forall n :: At(job, crashed, n).status.Conflicted? <==> At(job, w, n).status.Conflicted?
    ensures Entries(rerun) == Entries(whole) <==> forall n | n in done :: !ForgetsManaged(job, w, n)
  {
    forall n
      ensures Lookup(rerun.disk, n) == Lookup(whole.disk, n)
      ensures At(job, crashed, n).status.Conflicted? <==> At(job, w, n).status.Conflicted?
    {
      RerunOfOneName(job, w, done, crashed, n);
    }
    SameLookups(rerun.disk, whole.disk);
    if forall n | n in done :: !ForgetsManaged(job, w, n) {
      forall n ensures Lookup(Entries(rerun), n) == Lookup(Entries(whole), n) {
        RerunOfOneName(job, w, done, crashed, n);
      }
      SameLookups(Entries(rerun), Entries(whole));
    } else {
      var n :| n in done && ForgetsManaged(job, w, n);
      RerunOfOneName(job, w, done, crashed, n);
      assert Lookup(Entries(rerun), n) != Lookup(Entries(whole), n);
    }
  }

  lemma RerunOfOneName(job: Job, w: World, done: set<string>, crashed: World, n: string)
    requires Interrupted(job, w, done, crashed)
    ensures var again, once := At(job, crashed, n), At(job, w, n);
            && again.file == once.file
            && (again.status.Conflicted? <==> once.status.Conflicted?)
            && (again.entry == once.entry <==> !(n in done && ForgetsManaged(job, w, n)))
  {
    assert Lookup(crashed.disk, n) == if n in done then At(job, w, n).file else Lookup(w.disk, n);
  }

  /** The flagged input exists: the rerun leaves the entry unmanaged, the uninterrupted run does not. */
  lemma ForgottenManagedExample()
    ensures var job := Job(map["a.md" := "new"], true, false, {});
            var w := World(map["a.md" := Text("old")], Some(map["a.md" := Entry(Digest("new"), false)]));
            var crashed := w.(disk := map["a.md" := Text("new")]);
            && Interrupted(job, w, {"a.md"}, crashed)
            && At(job, w, "a.md").entry == Some(Entry(Digest("new"), true))
            && At(job, crashed, "a.md").entry == Some(Entry(Digest("new"), false))
  {
    var job := Job(map["a.md" := "new"], true, false, {});
    var w := World(map["a.md" := Text("old")], Some(map["a.md" := Entry(Digest("new"), false)]));
    var crashed := w.(disk := map["a.md" := Text("new")]);
    forall n ensures Lookup(crashed.disk, n) == if n in {"a.md"} then At(job, w, n).file else Lookup(w.disk, n) {
    }
  }

  // ---------------------------------------------------------------- the diffs agree with the update

  predicate IsNew(job: Job, w: World, n: string) {
    n in job.canon && n !in Entries(w)
  }

  predicate IsChanged(job: Job, w: World, n: string) {
    n in job.canon && n in Entries(w) && Entries(w)[n].hash != Digest(job.canon[n])
  }

  predicate IsGone(job: Job, w: World, n: string) {
    n !in job.canon && n in Entries(w) && Entries(w)[n].managed
  }

  /** Managed, installed, readable and different from what was recorded. */
  predicate IsModified(w: World, n: string) {
    n in Entries(w) && Entries(w)[n].managed && n in w.disk && w.disk[n].Text?
    && Digest(w.disk[n].content) != Entries(w)[n].hash
  }

  /**
   * What an update leaves for a following diff: a source is still new or changed exactly when it
   * conflicted, and a pruning run leaves a retired entry exactly when that conflicted.
   */
  lemma DiffAfterUpdate(job: Job, w: World, w': World, n: string)
    requires Synced(job, w, w')
    ensures n in job.canon ==> (IsNew(job, w', n) || IsChanged(job, w', n) <==> At(job, w, n).status.Conflicted?)
    ensures n !in job.canon && job.prune ==> (IsGone(job, w', n) <==> At(job, w, n).status.Conflicted?)
  {
    assert Lookup(Entries(w'), n) == At(job, w, n).entry;
  }

  /** After a forced update every source's file is its rendering, and none is reported as locally modified. */
  lemma ForceRestoresEverything(job: Job, w: World, w': World, n: string)
    requires job.force && n in job.canon && Synced(job, w, w')
    ensures Lookup(w'.disk, n) == Some(Text(job.canon[n]))
    ensures n in Entries(w') && Entries(w')[n].hash == Digest(job.canon[n]) && !IsModified(w', n)
  {
    assert Lookup(Entries(w'), n) == At(job, w, n).entry;
    assert Lookup(w'.disk, n) == At(job, w, n).file;
  }

  // ---------------------------------------------------------------- the target directory

  datatype UpdateResult = UpdateResult(
    updated: nat, skipped: nat, conflicts: seq<string>, removed: seq<string>,
    updatedFiles: seq<string>, manifestWritten: bool)

  datatype DiffResult = DiffResult(
    changed: seq<string>, added: seq<string>, removed: seq<string>, same: seq<string>)

  /** One locally modified file; the upstream counts as changed too when its source is gone. */
  datatype DriftEntry = DriftEntry(canonical: string, local: string, upstreamChanged: bool, canonicalRemoved: bool)

  function Drift(canon: map<string, string>, w: World, n: string): DriftEntry
    requires n in w.disk && w.disk[n].Text? && n in Entries(w)
  {
    if n in canon then DriftEntry(canon[n], w.disk[n].content, Digest(canon[n]) != Entries(w)[n].hash, false)
    else DriftEntry("", w.disk[n].content, true, true)
  }

  /** The listed files that no managed entry accounts for, in order. */
  function Unmanaged(w: World, listed: seq<string>): (names: seq<string>)
    ensures forall n :: n in names <==> n in listed && !(n in Entries(w) && Entries(w)[n].managed)
  {
    if listed == [] then []
    else
      var n := listed[|listed| - 1];
      Unmanaged(w, listed[..|listed| - 1]) + if n in Entries(w) && Entries(w)[n].managed then [] else [n]
  }

  datatype Difference = Added | Changed | Same

  function DifferenceOf(w: World, s: Source): Difference {
    if s.name !in Entries(w) then Added
    else if Entries(w)[s.name].hash != Digest(s.rendered) then Changed
    else Same
  }

  /** The names of the readable sources that differ in the given way, in order. */
  function Select(w: World, sources: seq<Source>, unreadable: set<string>, d: Difference): seq<string> {
    if sources == [] then []
    else
      var s := sources[|sources| - 1];
      Select(w, sources[..|sources| - 1], unreadable, d)
      + if s.name !in unreadable && DifferenceOf(w, s) == d then [s.name] else []
  }

  /** Every readable source is in the one list that entry and rendering call for, and nothing else is in any. */
  ghost predicate TellsApart(
    w: World, sources: seq<Source>, skipped: set<string>, added: seq<string>, changed: seq<string>, same: seq<string>)
  {
    && (forall i | 0 <= i < |sources| && sources[i].name !in skipped ::
          var n, rendered := sources[i].name, sources[i].rendered;
          && (n in added <==> n !in Entries(w))
          && (n in changed <==> n in Entries(w) && Entries(w)[n].hash != Digest(rendered))
          && (n in same <==> n in Entries(w) && Entries(w)[n].hash == Digest(rendered)))
    && (forall n | n in added + changed + same :: n !in skipped && n in Names(sources))
  }

  lemma {:induction false} SelectHas(w: World, sources: seq<Source>, skipped: set<string>, d: Difference, n: string)
    ensures n in Select(w, sources, skipped, d)
            <==> n !in skipped && exists i :: 0 <= i < |sources| && sources[i].name == n && DifferenceOf(w, sources[i]) == d
  {
    if sources != [] {
      var front := sources[..|sources| - 1];
      SelectHas(w, front, skipped, d, n);
      assert forall i | 0 <= i < |front| :: front[i] == sources[i];
    }
  }

  lemma DiffTellsApart(w: World, sources: seq<Source>, skipped: set<string>)
    requires DistinctNames(sources)
    ensures TellsApart(w, sources, skipped, Select(w, sources, skipped, Added),
                       Select(w, sources, skipped, Changed), Select(w, sources, skipped, Same))
  {
    hide Select;
    forall i, d | 0 <= i < |sources| && sources[i].name !in skipped
      ensures sources[i].name in Select(w, sources, skipped, d) <==> DifferenceOf(w, sources[i]) == d
    {
      SelectHas(w, sources, skipped, d, sources[i].name);
    }
    forall n, d | n in Select(w, sources, skipped, d) ensures n !in skipped && n in Names(sources) {
      SelectHas(w, sources, skipped, d, n);
      var i :| 0 <= i < |sources| && sources[i].name == n;
      assert Names(sources)[i] == n;
    }
  }

  lemma {:induction false} AllNew(w: World, sources: seq<Source>)
    requires w.manifest.None?
    ensures Select(w, sources, {}, Added) == Names(sources)
    ensures Select(w, sources, {}, Changed) == Select(w, sources, {}, Same) == []
  {
    if sources != [] {
      AllNew(w, sources[..|sources| - 1]);
      assert Names(sources) == Names(sources[..|sources| - 1]) + [sources[|sources| - 1].name];
    }
  }

  predicate DistinctNames(sources: seq<Source>) {
    forall i, j | 0 <= i < j < |sources| :: sources[i].name != sources[j].name
  }

  function Names(sources: seq<Source>): (names: seq<string>)
    ensures |names| == |sources| && forall i | 0 <= i < |sources| :: names[i] == sources[i].name
  {
    seq(|sources|, i requires 0 <= i < |sources| => sources[i].name)
  }

  function Canon(sources: seq<Source>): (canon: map<string, string>)
    requires DistinctNames(sources)
    ensures forall n :: n in canon <==> n in Names(sources)
    ensures forall i | 0 <= i < |sources| :: sources[i].name in canon && canon[sources[i].name] == sources[i].rendered
  {
    map i | 0 <= i < |sources| :: sources[i].name := sources[i].rendered
  }

  /** The sources whose names were asked for, in their order. */
  function Allowed(sources: seq<Source>, filenames: seq<string>): (kept: seq<Source>)
    requires DistinctNames(sources)
    ensures forall s :: s in kept <==> s in sources && s.name in filenames
    ensures DistinctNames(kept)
  {
    if sources == [] then []
    else
      var front, last := sources[..|sources| - 1], sources[|sources| - 1];
      assert sources == front + [last];
      var kept := Allowed(front, filenames);
      if last.name in filenames then kept + [last] else kept
  }

  /** The names with a given outcome, in the order given. */
  function WithStatus(job: Job, w: World, names: seq<string>, status: Status): seq<string> {
    if names == [] then []
    else
      var n := names[|names| - 1];
      WithStatus(job, w, names[..|names| - 1], status) + if At(job, w, n).status == status then [n] else []
  }

  lemma WithStatusSnoc(job: Job, w: World, names: seq<string>, n: string, status: Status)
    ensures WithStatus(job, w, names + [n], status)
            == WithStatus(job, w, names, status) + if At(job, w, n).status == status then [n] else []
  {
    assert (names + [n])[..|names|] == names;
  }

  /** Skipped counts every source that was current, adopted or repaired. */
  function SkippedCount(job: Job, w: World, names: seq<string>): nat {
    |WithStatus(job, w, names, Current)| + |WithStatus(job, w, names, Adopted)| + |WithStatus(job, w, names, Repaired)|
  }

  /** The result lists every outcome: sources in their order, then the retired entries in theirs. */
  ghost predicate Reported(job: Job, w: World, sources: seq<string>, retired: seq<string>, r: UpdateResult) {
    && r.updatedFiles == WithStatus(job, w, sources, Written) && r.updated == |r.updatedFiles|
    && r.skipped == SkippedCount(job, w, sources)
    && r.conflicts == WithStatus(job, w, sources, Conflicted) + WithStatus(job, w, retired, Conflicted)
    && r.removed == WithStatus(job, w, retired, Removed)
  }

  lemma {:induction false} WithStatusHas(job: Job, w: World, names: seq<string>, status: Status, n: string)
    ensures n in WithStatus(job, w, names, status) <==> n in names && At(job, w, n).status == status
  {
    if names != [] {
      var front, last := names[..|names| - 1], names[|names| - 1];
      WithStatusHas(job, w, front, status, n);
      assert n in names <==> n in front || n == last;
    }
  }

  /** The outcome of one name, told from the files and the manifest alone. */
  lemma StatusOf(job: Job, w: World, n: string)
    ensures At(job, w, n).status.Written? <==> n in job.canon && MayInstall(job, w, n)
    ensures At(job, w, n).status.Removed? <==> n !in job.canon && MayRemove(job, w, n)
    ensures At(job, w, n).status in {Adopted, Repaired} <==> n in job.canon && IsRecorded(job, w, n) && !MayInstall(job, w, n)
    ensures At(job, w, n).status.Conflicted? <==> IsBlocked(job, w, n)
  {
  }

  /** The name's entry has to be written or dropped. */
  predicate ChangesManifest(job: Job, w: World, n: string) {
    if n in job.canon then IsRecorded(job, w, n) else MayRemove(job, w, n)
  }

  /** A file stands in the way: it was edited and is not forced, or it cannot be unlinked. */
  predicate IsBlocked(job: Job, w: World, n: string) {
    && n in w.disk
    && if n in job.canon then
         !job.force && !IsRendering(job, w, n) && !IsPristine(w, n) && (n in Entries(w) ==> Entries(w)[n].hash != Digest(job.canon[n]))
       else
         job.prune && n in Entries(w) && Entries(w)[n].managed && (n in job.stuck || (!job.force && !IsPristine(w, n)))
  }

  /** Each list of a result holds exactly the names it should; every source is counted once. */
  ghost predicate Reports(job: Job, w: World, names: seq<string>, r: UpdateResult) {
    && (forall n :: n in r.updatedFiles <==> n in job.canon && MayInstall(job, w, n))
    && (forall n :: n in r.removed <==> n !in job.canon && MayRemove(job, w, n))
    && (forall n :: n in r.conflicts <==> IsBlocked(job, w, n))
    && r.updated == |r.updatedFiles|
    && |names| == r.updated + r.skipped + HavingSource(job, r.conflicts)
  }

  /** How many of the names have a source. */
  function HavingSource(job: Job, names: seq<string>): nat {
    if names == [] then 0 else HavingSource(job, names[..|names| - 1]) + if names[|names| - 1] in job.canon then 1 else 0
  }

  lemma {:induction false} HavingSourceConcat(job: Job, a: seq<string>, b: seq<string>)
    ensures HavingSource(job, a + b) == HavingSource(job, a) + HavingSource(job, b)
  {
    if b == [] {
      assert a + b == a;
    } else {
      HavingSourceConcat(job, a, b[..|b| - 1]);
      assert (a + b)[..|a + b| - 1] == a + b[..|b| - 1];
    }
  }

  lemma {:induction false} NoneHasSource(job: Job, names: seq<string>)
    requires forall n | n in names :: n !in job.canon
    ensures HavingSource(job, names) == 0
  {
    if names != [] { NoneHasSource(job, names[..|names| - 1]); }
  }

  lemma {:induction false} SourcesAreCounted(job: Job, w: World, names: seq<string>)
    requires forall n | n in names :: n in job.canon
    ensures |names| == |WithStatus(job, w, names, Written)| + SkippedCount(job, w, names)
                       + HavingSource(job, WithStatus(job, w, names, Conflicted))
  {
    if names != [] {
      var front, last := names[..|names| - 1], names[|names| - 1];
      SourcesAreCounted(job, w, front);
      HavingSourceConcat(job, WithStatus(job, w, front, Conflicted), if At(job, w, last).status.Conflicted? then [last] else []);
      assert last in job.canon;
    }
  }

  lemma ReportedIsExact(job: Job, w: World, names: seq<string>, retired: seq<string>, r: UpdateResult)
    requires Reported(job, w, names, retired, r) && RetiredIn(job, w, retired)
    requires forall n :: n in names <==> n in job.canon
    ensures Reports(job, w, names, r)
  {
    hide WithStatus, MayInstall, MayRemove, IsBlocked, IsRecorded, Settle, SkippedCount, HavingSource;
    forall n
      ensures n in r.updatedFiles <==> n in job.canon && MayInstall(job, w, n)
      ensures n in r.removed <==> n !in job.canon && MayRemove(job, w, n)
      ensures n in r.conflicts <==> IsBlocked(job, w, n)
    {
      StatusOf(job, w, n);
      OnlyKnownRetired(job, w, n);
      WithStatusHas(job, w, names, Written, n);
      WithStatusHas(job, w, names, Conflicted, n);
      WithStatusHas(job, w, retired, Removed, n);
      WithStatusHas(job, w, retired, Conflicted, n);
    }
    var ours, others := WithStatus(job, w, names, Conflicted), WithStatus(job, w, retired, Conflicted);
    forall n | n in others ensures n !in job.canon { WithStatusHas(job, w, retired, Conflicted, n); }
    SourcesAreCounted(job, w, names);
    HavingSourceConcat(job, ours, others);
    NoneHasSource(job, others);
  }

  /** Neither depends on whether the manifest was written. */
  lemma FlagIsFree(job: Job, w: World, names: seq<string>, retired: seq<string>, r: UpdateResult, written: bool)
    requires Reported(job, w, names, retired, r) && Reports(job, w, names, r)
    ensures var r' := r.(manifestWritten := written); Reported(job, w, names, retired, r') && Reports(job, w, names, r')
  {
  }

  lemma OnlyKnownRetired(job: Job, w: World, n: string)
    ensures n !in job.canon && At(job, w, n).status in {Removed, Conflicted} ==> job.prune && n in Entries(w)
  {
  }

  /** The outcomes after which the manifest has to be written. */
  predicate Settles(status: Status) {
    status in {Adopted, Repaired, Written, Removed}
  }

  /** The loops' shared state: names in `done` are settled on disk and in the working manifest, others untouched. */
  ghost predicate Partly(
    job: Job, w: World, done: set<string>, disk: map<string, File>, working: map<string, Entry>, dirty: bool)
  {
    && (forall n :: Lookup(disk, n) == if n in done then At(job, w, n).file else Lookup(w.disk, n))
    && (forall n :: Lookup(working, n) == if n in done then At(job, w, n).entry else Lookup(Entries(w), n))
    && (!dirty ==> working == Entries(w))
    && (dirty <==> exists n :: n in done && Settles(At(job, w, n).status))
  }

  lemma PartlyStep(
    job: Job, w: World, done: set<string>, disk: map<string, File>, working: map<string, Entry>, dirty: bool, n: string,
    disk': map<string, File>, working': map<string, Entry>, dirty': bool)
    requires Partly(job, w, done, disk, working, dirty) && n !in done
    requires forall k | k != n :: Lookup(disk', k) == Lookup(disk, k) && Lookup(working', k) == Lookup(working, k)
    requires Lookup(disk', n) == At(job, w, n).file && Lookup(working', n) == At(job, w, n).entry
    requires dirty' == (dirty || At(job, w, n).status in {Adopted, Repaired, Written, Removed})
    ensures Partly(job, w, done + {n}, disk', working', dirty')
  {
    if !dirty' {
      SameLookups(working', working);
    } else if w.manifest.None? && !dirty {
      assert Lookup(Entries(w), n) == None;
      assert At(job, w, n).entry.Some?;
    }
  }

  /**
   * The way of a run from the disk it found to `disk`: one state after each name of `order`, in which
   * exactly the names up to it are settled. Each of them is what a crash can leave behind.
   */
  ghost predicate Passage(
    job: Job, w: World, order: seq<string>, disks: seq<map<string, File>>, disk: map<string, File>)
  {
    && |disks| == |order| + 1 && disks[0] == w.disk && disks[|order|] == disk
    && forall i | 0 <= i <= |order| :: Interrupted(job, w, Elements(order[..i]), World(disks[i], w.manifest))
  }

  lemma PassageSnoc(
    job: Job, w: World, order: seq<string>, disks: seq<map<string, File>>, before: map<string, File>, name: string,
    disk: map<string, File>, working: map<string, Entry>, dirty: bool)
    requires Passage(job, w, order, disks, before) && Partly(job, w, Elements(order + [name]), disk, working, dirty)
    ensures Passage(job, w, order + [name], disks + [disk], disk)
  {
    var longer, more := order + [name], disks + [disk];
    assert longer[..|longer|] == longer;
    forall i | 0 <= i <= |longer|
      ensures Interrupted(job, w, Elements(longer[..i]), World(more[i], w.manifest))
    {
      if i <= |order| { assert longer[..i] == order[..i]; }
    }
  }

  /** On this way no step touches another file than that of the name it settles. */
  lemma OneFileAtATime(
    job: Job, w: World, order: seq<string>, disks: seq<map<string, File>>, disk: map<string, File>, i: nat, n: string)
    requires Passage(job, w, order, disks, disk) && i < |order| && n != order[i]
    ensures Lookup(disks[i + 1], n) == Lookup(disks[i], n)
  {
    assert Interrupted(job, w, Elements(order[..i]), World(disks[i], w.manifest));
    assert Interrupted(job, w, Elements(order[..i + 1]), World(disks[i + 1], w.manifest));
    assert order[..i + 1] == order[..i] + [order[i]];
  }

  /** The retired entries, each once, in the order in which they are visited. */
  ghost predicate RetiredIn(job: Job, w: World, retired: seq<string>) {
    && Distinct(retired)
    && forall n :: n in retired <==> job.prune && n in Entries(w) && n !in job.canon
  }

  /** Names that no update of this job touches need not be visited. */
  lemma WholeIsSynced(
    job: Job, w: World, done: set<string>, disk: map<string, File>, working: map<string, Entry>, dirty: bool)
    requires Partly(job, w, done, disk, working, dirty)
    requires job.canon.Keys <= done && (job.prune ==> Entries(w).Keys <= done)
    ensures Synced(job, w, World(disk, if dirty then Some(working) else w.manifest))
    ensures dirty <==> exists n :: ChangesManifest(job, w, n)
  {
    forall n ensures ChangesManifest(job, w, n) <==> Settles(At(job, w, n).status) { StatusOf(job, w, n); }
    var w' := World(disk, if dirty then Some(working) else w.manifest);
    forall n ensures Lookup(w'.disk, n) == At(job, w, n).file && Lookup(Entries(w'), n) == At(job, w, n).entry {
      if n !in done { assert At(job, w, n).status.Untouched?; }
    }
  }

  lemma NothingToDo(job: Job, w: World)
    requires job.canon.Keys == {} && !job.prune
    ensures Synced(job, w, w) && Passage(job, w, [], [w.disk], w.disk) && RetiredIn(job, w, [])
    ensures Reports(job, w, [], UpdateResult(0, 0, [], [], [], false)) && forall n :: !ChangesManifest(job, w, n)
    ensures Reported(job, w, [], [], UpdateResult(0, 0, [], [], [], false))
  {
    BeforeAnything(job, w);
    ReportedIsExact(job, w, [], [], UpdateResult(0, 0, [], [], [], false));
    WholeIsSynced(job, w, {}, w.disk, Entries(w), false);
  }

  /** The directory commands are installed in: its files and its manifest. */
  class CommandTarget {
    var disk: map<string, File>
    var manifest: Option<map<string, Entry>>

    constructor (disk: map<string, File>, manifest: Option<map<string, Entry>>)
      ensures this.disk == disk && this.manifest == manifest
    {
      this.disk, this.manifest := disk, manifest;
    }

    function View(): World
      reads this
    {
      World(disk, manifest)
    }

    /**
     * One update. `disks` is every state the files pass through before the manifest is written: the
     * sources are settled in turn, then, when pruning, every retired entry in the order `retired`.
     */
    method UpdateFiles(
      sources: seq<Source>, force: bool, filenames: Option<seq<string>>, pruneStale: bool, stuck: set<string>)
      returns (result: UpdateResult, ghost job: Job, ghost disks: seq<map<string, File>>, ghost retired: seq<string>)
      requires DistinctNames(sources)
      modifies this
      ensures var kept := if filenames.Some? then Allowed(sources, filenames.value) else sources;
              && job == Job(Canon(kept), force, pruneStale && filenames.None?, stuck)
              && Reported(job, old(View()), Names(kept), retired, result) && RetiredIn(job, old(View()), retired)
              && Passage(job, old(View()), Names(kept) + retired, disks, disk)
              && Reports(job, old(View()), Names(kept), result)
      ensures Synced(job, old(View()), View())
      ensures result.manifestWritten <==> exists n :: ChangesManifest(job, old(View()), n)
      ensures !result.manifestWritten ==> manifest == old(manifest)
    {
      hide Reported, RetiredIn, Passage, Reports, ChangesManifest, Synced;
      ghost var w := View();
      var kept := if filenames.Some? then Allowed(sources, filenames.value) else sources;
      var plan := Job(Canon(kept), force, pruneStale && filenames.None?, stuck);
      job := plan;
      if filenames.Some? && kept == [] {
        result, disks, retired := UpdateResult(0, 0, [], [], [], false), [disk], [];
        NothingToDo(job, w);
        assert Names(kept) + retired == [];
        return;
      }
      var working, dirty;
      result, working, dirty, disks, retired := SyncFiles(kept, plan, w);
      ReportedIsExact(job, w, Names(kept), retired, result);
      FlagIsFree(job, w, Names(kept), retired, result, dirty);
      if dirty {
        manifest := Some(working);
        result := result.(manifestWritten := true);
      }
    }

    /** Both loops; the manifest is not written yet. */
    method SyncFiles(sources: seq<Source>, job: Job, ghost w: World)
      returns (result: UpdateResult, working: map<string, Entry>, dirty: bool,
               ghost disks: seq<map<string, File>>, ghost retired: seq<string>)
      requires DistinctNames(sources) && job.canon == Canon(sources) && w == View()
      modifies this`disk
      ensures Synced(job, w, World(disk, if dirty then Some(working) else w.manifest))
      ensures Reported(job, w, Names(sources), retired, result) && !result.manifestWritten
      ensures RetiredIn(job, w, retired) && Passage(job, w, Names(sources) + retired, disks, disk)
      ensures dirty <==> exists n :: ChangesManifest(job, w, n)
    {
      hide Partly, Reported, Passage;
      result, working, dirty, disks := UpdateSources(sources, job, w);
      retired := [];
      if job.prune {
        result, working, dirty, disks, retired := PruneStale(sources, result, working, dirty, disks, job, w);
      } else {
        assert Names(sources) + [] == Names(sources);
      }
      WholeIsSynced(job, w, Elements(Names(sources) + retired), disk, working, dirty);
    }

    /**
     * What a following update would have to look at, by comparing the manifest with the renderings. An
     * unreadable source is in none of the lists, unless there is no manifest and everything is new.
     */
    method DiffFiles(sources: seq<Source>, unreadable: set<string>) returns (r: DiffResult)
      requires DistinctNames(sources)
      ensures var skipped := if manifest.None? then {} else unreadable;
              && r.added == Select(View(), sources, skipped, Added)
              && r.changed == Select(View(), sources, skipped, Changed)
              && r.same == Select(View(), sources, skipped, Same)
              && TellsApart(View(), sources, skipped, r.added, r.changed, r.same)
      ensures sources != [] ==>
                forall n :: n in r.removed <==> n !in Names(sources) && n in Entries(View()) && Entries(View())[n].managed
      ensures sources == [] ==> r.removed == []
    {
      hide TellsApart;
      DiffTellsApart(View(), sources, if manifest.None? then {} else unreadable);
      r := DiffResult([], [], [], []);
      if sources == [] {
        return;
      }
      if manifest.None? {
        AllNew(View(), sources);
        return r.(added := Names(sources));
      }
      var i := 0;
      while i < |sources|
        invariant 0 <= i <= |sources| && r.removed == []
        invariant r.added == Select(View(), sources[..i], unreadable, Added)
        invariant r.changed == Select(View(), sources[..i], unreadable, Changed)
        invariant r.same == Select(View(), sources[..i], unreadable, Same)
      {
        assert sources[..i + 1][..i] == sources[..i];
        var name := sources[i].name;
        if name in unreadable {
        } else if name !in manifest.value {
          r := r.(added := r.added + [name]);
        } else if manifest.value[name].hash != Digest(sources[i].rendered) {
          r := r.(changed := r.changed + [name]);
        } else {
          r := r.(same := r.same + [name]);
        }
        i := i + 1;
      }
      assert sources[..i] == sources;
      var todo := manifest.value.Keys;
      while todo != {}
        invariant todo <= manifest.value.Keys
        invariant r.added == Select(View(), sources, unreadable, Added)
        invariant r.changed == Select(View(), sources, unreadable, Changed)
        invariant r.same == Select(View(), sources, unreadable, Same)
        invariant forall n :: n in r.removed <==>
                    n !in todo && n in manifest.value && manifest.value[n].managed && n !in Canon(sources)
        decreases |todo|
      {
        var name :| name in todo;
        TakeOne(todo, name);
        todo := todo - {name};
        if manifest.value[name].managed && name !in Canon(sources) {
          r := r.(removed := r.removed + [name]);
        }
      }
    }

    /**
     * Local edits that could be ported back: installed, managed files that differ from what was recorded;
     * an unreadable source counts as removed. `listed` is what a scan of the directory finds.
     */
    method ReverseDiffFiles(sources: seq<Source>, unreadable: set<string>, listed: seq<string>)
      returns (modified: map<string, DriftEntry>, deleted: set<string>, unmanaged: seq<string>)
      requires DistinctNames(sources)
      ensures forall n :: n in modified <==> IsModified(View(), n)
      ensures forall n | IsModified(View(), n) ::
                var found := n in Names(sources) && n !in unreadable;
                && modified[n].local == disk[n].content && modified[n].canonicalRemoved == !found
                && modified[n].canonical == (if found then Canon(sources)[n] else "")
                && (modified[n].upstreamChanged <==> found ==> Entries(View())[n].hash != Digest(Canon(sources)[n]))
      ensures forall n :: n in deleted <==> n in Entries(View()) && Entries(View())[n].managed && n !in disk
      ensures unmanaged == if manifest.None? then [] else Unmanaged(View(), listed)
      ensures forall n :: n in unmanaged <==> manifest.Some? && n in listed && !(n in Entries(View()) && Entries(View())[n].managed)
    {
      modified, deleted, unmanaged := map[], {}, [];
      var entries := manifest.GetOr(map[]);
      var todo := entries.Keys;
      while todo != {}
        invariant todo <= entries.Keys
        invariant forall n :: n in modified <==> n !in todo && IsModified(View(), n)
        invariant forall n | n in modified :: modified[n] == Drift(Canon(sources) - unreadable, View(), n)
        invariant forall n :: n in deleted <==> n !in todo && n in entries && entries[n].managed && n !in disk
        decreases |todo|
      {
        var name :| name in todo;
        TakeOne(todo, name);
        todo := todo - {name};
        if entries[name].managed {
          if name !in disk {
            deleted := deleted + {name};
          } else if disk[name].Text? && Digest(disk[name].content) != entries[name].hash {
            modified := modified[name := Drift(Canon(sources) - unreadable, View(), name)];
          }
        }
      }
      if manifest.Some? {
        for i := 0 to |listed|
          invariant unmanaged == Unmanaged(View(), listed[..i])
        {
          assert listed[..i + 1][..i] == listed[..i];
          if listed[i] !in entries || !entries[listed[i]].managed {
            unmanaged := unmanaged + [listed[i]];
          }
        }
        assert listed[..|listed|] == listed;
      }
    }

    /** The main loop: every source in turn. */
    method UpdateSources(sources: seq<Source>, job: Job, ghost w: World)
      returns (result: UpdateResult, working: map<string, Entry>, dirty: bool, ghost disks: seq<map<string, File>>)
      requires DistinctNames(sources) && job.canon == Canon(sources) && w == View()
      modifies this`disk
      ensures Partly(job, w, Elements(Names(sources)), disk, working, dirty)
      ensures Reported(job, w, Names(sources), [], result) && !result.manifestWritten
      ensures Passage(job, w, Names(sources), disks, disk)
    {
      hide Partly, Reported, Passage;
      working, dirty := manifest.GetOr(map[]), false;
      result := UpdateResult(0, 0, [], [], [], false);
      disks := [disk];
      BeforeAnything(job, w);
      ghost var names := Names(sources);
      assert names[..0] == [] && Elements<string>([]) == {} && working == Entries(w);
      var i := 0;
      while i < |sources|
        invariant 0 <= i <= |sources|
        invariant Partly(job, w, Elements(names[..i]), disk, working, dirty)
        invariant Reported(job, w, names[..i], [], result) && !result.manifestWritten
        invariant Passage(job, w, names[..i], disks, disk)
      {
        assert names[..i + 1] == names[..i] + [names[i]];
        assert names[i] !in Elements(names[..i]);
        result, working, dirty, disks := UpdateStep(sources[i], job, result, working, dirty, disks, w, names[..i]);
        i := i + 1;
      }
      assert names[..i] == names;
    }

    /** One pass of the main loop, and the state it leaves the files in. */
    method UpdateStep(
      source: Source, job: Job, soFar: UpdateResult, settled: map<string, Entry>, soiled: bool,
      ghost passed: seq<map<string, File>>, ghost w: World, ghost names: seq<string>)
      returns (result: UpdateResult, working: map<string, Entry>, dirty: bool, ghost disks: seq<map<string, File>>)
      requires source.name in job.canon && job.canon[source.name] == source.rendered && source.name !in Elements(names)
      requires Partly(job, w, Elements(names), disk, settled, soiled)
      requires Reported(job, w, names, [], soFar) && !soFar.manifestWritten && Passage(job, w, names, passed, disk)
      modifies this`disk
      ensures Partly(job, w, Elements(names + [source.name]), disk, working, dirty)
      ensures Reported(job, w, names + [source.name], [], result) && !result.manifestWritten
      ensures Passage(job, w, names + [source.name], disks, disk)
    {
      result, working, dirty := UpdateNext(source, job, soFar, settled, soiled, w, names);
      PassageSnoc(job, w, names, passed, old(disk), source.name, disk, working, dirty);
      disks := passed + [disk];
    }

    /** One pass of the main loop. */
    method UpdateNext(
      source: Source, job: Job, soFar: UpdateResult, settled: map<string, Entry>, soiled: bool,
      ghost w: World, ghost names: seq<string>)
      returns (result: UpdateResult, working: map<string, Entry>, dirty: bool)
      requires source.name in job.canon && job.canon[source.name] == source.rendered && source.name !in Elements(names)
      requires Partly(job, w, Elements(names), disk, settled, soiled)
      requires Reported(job, w, names, [], soFar) && !soFar.manifestWritten
      modifies this`disk
      ensures Partly(job, w, Elements(names + [source.name]), disk, working, dirty)
      ensures Reported(job, w, names + [source.name], [], result) && !result.manifestWritten
    {
      var name := source.name;
      hide Reported, WithStatus;
      result, working, dirty := soFar, settled, soiled;
      assert Lookup(disk, name) == Lookup(w.disk, name) && Lookup(working, name) == Lookup(Entries(w), name);
      var status := UpdateOne(name, source.rendered, job.force, working);
      match status {
        case Adopted | Repaired =>
          working, dirty := working[name := Entry(Digest(source.rendered), true)], true;
          result := result.(skipped := result.skipped + 1);
        case Current =>
          result := result.(skipped := result.skipped + 1);
        case Conflicted =>
          result := result.(conflicts := result.conflicts + [name]);
        case _ =>
          working, dirty := working[name := Entry(Digest(source.rendered), true)], true;
          result := result.(updated := result.updated + 1, updatedFiles := result.updatedFiles + [name]);
      }
      ReportSource(job, w, names, name, soFar);
      PartlyStep(job, w, Elements(names), old(disk), settled, soiled, name, disk, working, dirty);
      assert Elements(names + [name]) == Elements(names) + {name};
    }

    /** One source: compares local file, manifest and rendering, and writes the file when it must. */
    method UpdateOne(name: string, rendered: string, force: bool, working: map<string, Entry>) returns (status: Status)
      modifies this`disk
      ensures var o := SettleSource(force, rendered, Lookup(old(disk), name), Lookup(working, name));
              && status == o.status
              && (status.Written? <==> MayInstall(Job(map[name := rendered], force, false, {}), World(old(disk), Some(working)), name))
              && disk == if o.status.Written? then old(disk)[name := Text(rendered)] else old(disk)
    {
      var newHash := Digest(rendered);
      if name !in working {
        if name in disk {
          if HashOf(Some(disk[name])) == Some(newHash) {
            return Adopted;
          }
          if !force {
            return Conflicted;
          }
        }
        disk := disk[name := Text(rendered)];
        return Written;
      }
      if !force && working[name].hash == newHash {
        return Current;
      }
      var installed := HashOf(Lookup(disk, name));
      if installed == Some(newHash) {
        return if working[name].hash != newHash then Repaired else Current;
      }
      if !force {
        if name in disk && (installed.None? || installed.value != working[name].hash) {
          return Conflicted;
        }
      }
      disk := disk[name := Text(rendered)];
      return Written;
    }

    /** The prune loop: every manifest entry whose source is gone. */
    method PruneStale(
      sources: seq<Source>, soFar: UpdateResult, settled: map<string, Entry>, soiled: bool,
      ghost passed: seq<map<string, File>>, job: Job, ghost w: World)
      returns (result: UpdateResult, working: map<string, Entry>, dirty: bool,
               ghost disks: seq<map<string, File>>, ghost retired: seq<string>)
      requires DistinctNames(sources) && job.canon == Canon(sources) && job.prune
      requires Partly(job, w, Elements(Names(sources)), disk, settled, soiled)
      requires Reported(job, w, Names(sources), [], soFar) && !soFar.manifestWritten
      requires Passage(job, w, Names(sources), passed, disk)
      modifies this`disk
      ensures Partly(job, w, Elements(Names(sources) + retired), disk, working, dirty)
      ensures Reported(job, w, Names(sources), retired, result) && !result.manifestWritten
      ensures RetiredIn(job, w, retired) && Passage(job, w, Names(sources) + retired, disks, disk)
    {
      hide Partly, Reported, Passage, Left, RetiredIn;
      result, working, dirty, disks, retired := soFar, settled, soiled, passed, [];
      ghost var names := Names(sources);
      var todo := working.Keys - Elements(Names(sources));
      RetiredKeys(job, w, names, disk, working, dirty);
      assert names + retired == names;
      while todo != {}
        invariant Left(job, w, todo, retired)
        invariant Partly(job, w, Elements(names + retired), disk, working, dirty)
        invariant Reported(job, w, names, retired, result) && !result.manifestWritten
        invariant Passage(job, w, names + retired, disks, disk)
        decreases |todo|
      {
        var name :| name in todo;
        TakeOne(todo, name);
        LeftFewer(job, w, names, todo, retired, name);
        result, working, dirty, disks := PruneStep(name, job, result, working, dirty, disks, w, names, retired);
        todo, retired := todo - {name}, retired + [name];
      }
      NoneLeft(job, w, retired);
    }

    /** One pass of the prune loop, and the state it leaves the files in. */
    method PruneStep(
      name: string, job: Job, soFar: UpdateResult, settled: map<string, Entry>, soiled: bool,
      ghost passed: seq<map<string, File>>, ghost w: World, ghost names: seq<string>, ghost retired: seq<string>)
      returns (result: UpdateResult, working: map<string, Entry>, dirty: bool, ghost disks: seq<map<string, File>>)
      requires name !in job.canon && name in Entries(w) && name !in Elements(names + retired) && job.prune
      requires Partly(job, w, Elements(names + retired), disk, settled, soiled)
      requires Reported(job, w, names, retired, soFar) && !soFar.manifestWritten
      requires Passage(job, w, names + retired, passed, disk)
      modifies this`disk
      ensures Partly(job, w, Elements(names + (retired + [name])), disk, working, dirty)
      ensures Reported(job, w, names, retired + [name], result) && !result.manifestWritten
      ensures Passage(job, w, names + (retired + [name]), disks, disk)
    {
      hide Partly, Reported, Passage;
      result, working, dirty := PruneNext(name, job, soFar, settled, soiled, w, names, retired);
      PassageSnoc(job, w, names + retired, passed, old(disk), name, disk, working, dirty);
      disks := passed + [disk];
      assert names + (retired + [name]) == names + retired + [name];
    }

    /** One pass of the prune loop. */
    method PruneNext(
      name: string, job: Job, soFar: UpdateResult, settled: map<string, Entry>, soiled: bool,
      ghost w: World, ghost names: seq<string>, ghost retired: seq<string>)
      returns (result: UpdateResult, working: map<string, Entry>, dirty: bool)
      requires name !in job.canon && name in Entries(w) && name !in Elements(names + retired) && job.prune
      requires Partly(job, w, Elements(names + retired), disk, settled, soiled)
      requires Reported(job, w, names, retired, soFar) && !soFar.manifestWritten
      modifies this`disk
      ensures Partly(job, w, Elements(names + retired + [name]), disk, working, dirty)
      ensures Reported(job, w, names, retired + [name], result) && !result.manifestWritten
    {
      hide Reported, WithStatus;
      result, working, dirty := soFar, settled, soiled;
      assert Lookup(disk, name) == Lookup(w.disk, name) && Lookup(working, name) == Lookup(Entries(w), name);
      var status := PruneOne(name, job.force, job.stuck, working[name]);
      if status.Removed? {
        working, dirty := working - {name}, true;
        result := result.(removed := result.removed + [name]);
      } else if status.Conflicted? {
        result := result.(conflicts := result.conflicts + [name]);
      }
      ReportRetired(job, w, names, retired, name, soFar);
      PartlyStep(job, w, Elements(names + retired), old(disk), settled, soiled, name, disk, working, dirty);
      assert Elements(names + retired + [name]) == Elements(names + retired) + {name};
    }

    /** One retired entry: removed only when pristine or forced, and only if the unlink works. */
    method PruneOne(name: string, force: bool, stuck: set<string>, entry: Entry) returns (status: Status)
      modifies this`disk
      ensures var o := SettleRetired(Job(map[], force, true, stuck), name, Lookup(old(disk), name), Some(entry));
              status == o.status && disk == if o.status.Removed? then old(disk) - {name} else old(disk)
    {
      if !entry.managed {
        return Untouched;
      }
      if name !in disk {
        return Removed;
      }
      var local := HashOf(Lookup(disk, name));
      if local != Some(entry.hash) && !force {
        return Conflicted;
      }
      if name in stuck {
        return Conflicted;
      }
      disk := disk - {name};
      return Removed;
    }
  }

  /** The state the loops start from. */
  lemma BeforeAnything(job: Job, w: World)
    ensures Partly(job, w, {}, w.disk, Entries(w), false)
    ensures Passage(job, w, [], [w.disk], w.disk)
    ensures Reported(job, w, [], [], UpdateResult(0, 0, [], [], [], false))
  {
    var none: seq<string> := [];
    assert none[..0] == none;
  }

  /** Inside the prune loop: `todo` holds the retired entries not visited yet. */
  ghost predicate Left(job: Job, w: World, todo: set<string>, retired: seq<string>) {
    && Distinct(retired)
    && (forall n :: n in retired || n in todo <==> n in Entries(w) && n !in job.canon)
    && (forall n | n in retired :: n !in todo)
  }

  lemma LeftFewer(job: Job, w: World, names: seq<string>, todo: set<string>, retired: seq<string>, name: string)
    requires Left(job, w, todo, retired) && name in todo
    requires forall n :: n in job.canon <==> n in names
    ensures Left(job, w, todo - {name}, retired + [name])
    ensures name !in job.canon && name in Entries(w) && name !in Elements(names + retired)
  {
    var longer := retired + [name];
    forall n ensures n in longer || n in todo - {name} <==> n in Entries(w) && n !in job.canon {
      assert n in longer <==> n in retired || n == name;
    }
  }

  lemma NoneLeft(job: Job, w: World, retired: seq<string>)
    requires Left(job, w, {}, retired) && job.prune
    ensures RetiredIn(job, w, retired)
  {
    forall n ensures n in retired <==> job.prune && n in Entries(w) && n !in job.canon {
      assert n !in {};
    }
  }

  /** Settling the sources leaves every retired entry where it was. */
  lemma RetiredKeys(
    job: Job, w: World, names: seq<string>, disk: map<string, File>, working: map<string, Entry>, dirty: bool)
    requires Partly(job, w, Elements(names), disk, working, dirty)
    requires forall n :: n in job.canon <==> n in names
    ensures Left(job, w, working.Keys - Elements(names), [])
  {
    forall n | n !in names ensures n in working <==> n in Entries(w) {
      assert Lookup(working, n) == Lookup(Entries(w), n);
    }
  }

  lemma TakeOne(todo: set<string>, name: string)
    requires name in todo
    ensures |todo - {name}| < |todo|
  {
  }

  /** The result after one more source. */
  lemma ReportSource(job: Job, w: World, names: seq<string>, n: string, r: UpdateResult)
    requires Reported(job, w, names, [], r) && n in job.canon
    ensures var status := At(job, w, n).status;
            Reported(job, w, names + [n], [], match status
              case Written => r.(updated := r.updated + 1, updatedFiles := r.updatedFiles + [n])
              case Conflicted => r.(conflicts := r.conflicts + [n])
              case _ => r.(skipped := r.skipped + 1))
  {
    WithStatusSnoc(job, w, names, n, Written);
    WithStatusSnoc(job, w, names, n, Conflicted);
    WithStatusSnoc(job, w, names, n, Current);
    WithStatusSnoc(job, w, names, n, Adopted);
    WithStatusSnoc(job, w, names, n, Repaired);
  }

  /** The result after one more retired entry. */
  lemma ReportRetired(job: Job, w: World, names: seq<string>, retired: seq<string>, n: string, r: UpdateResult)
    requires Reported(job, w, names, retired, r) && n !in job.canon
    ensures var status := At(job, w, n).status;
            Reported(job, w, names, retired + [n], match status
              case Removed => r.(removed := r.removed + [n])
              case Conflicted => r.(conflicts := r.conflicts + [n])
              case _ => r)
  {
    WithStatusSnoc(job, w, retired, n, Removed);
    WithStatusSnoc(job, w, retired, n, Conflicted);
  }
}
