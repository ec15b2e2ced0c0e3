/** The process-wide config cache, whose lock covers only the lookup and the store (sova/config/loader.py). */
module ConfigCache {
  // Stamping and building happen outside the lock. The system below interleaves loaders, in-process
  // invalidators and writers in other processes at every point where the code lets them.
  import opened Basics

  type Project = string

  /** The (global, per-project) generation pair. */
  datatype Generation = Generation(all: nat, own: nat) {
    predicate AtMost(later: Generation) {
      all <= later.all && own <= later.own
    }
  }

  /** A staleness stamp: the environment and TOML part, and the settings stamp of the database. */
  datatype Fingerprint = Fingerprint(files: nat, stamp: nat)

  /**
   * What matters of a built config: the database version it read (`None` when the read failed), the
   * version of the environment and TOML file it read, and the generation its load looked up.
   */
  datatype Config = Config(db: Option<nat>, under: nat, born: Generation)

  /** A cache entry; `captured` records the generation it was stored under. */
  datatype Entry = Entry(
    fingerprint: Fingerprint, config: Config, builtAt: nat, backoff: Option<nat>,
    hasDbLayer: bool, failures: nat, captured: Generation)
  {
    predicate IsFresh(current: Fingerprint, ttl: Option<nat>, now: nat) {
      var age := now - builtAt;
      if backoff.Some? then age < backoff.value && fingerprint.files == current.files
      else fingerprint == current && (ttl.None? || age < ttl.value)
    }
  }

  const SQLITE_TTL: Option<nat> := Some(60)

  /** The window after this many failed reads in a row: 15 seconds, doubling up to 120. */
  function Backoff(failures: nat): nat {
    if failures <= 1 then 15 else if failures == 2 then 30 else if failures == 3 then 60 else 120
  }

  // ---------------------------------------------------------------- the module's globals

  datatype Globals = Globals(cache: map<Project, Entry>, generation: nat, ofProject: map<Project, nat>)

  function GenerationOf(g: Globals, p: Project): Generation {
    Generation(g.generation, if p in g.ofProject then g.ofProject[p] else 0)
  }

  function Invalidated(g: Globals, target: Option<Project>): Globals {
    match target
    case None => g.(generation := g.generation + 1, cache := map[])
    case Some(p) => g.(ofProject := g.ofProject[p := GenerationOf(g, p).own + 1], cache := g.cache - {p})
  }

  function Stored(g: Globals, p: Project, generation: Generation, entry: Entry): Globals {
    if GenerationOf(g, p) == generation then g.(cache := g.cache[p := entry]) else g
  }

  /** Invalidating one project never discards another's rebuild: the two commute. */
  lemma InvalidationIsPerProject(g: Globals, p: Project, q: Project, generation: Generation, entry: Entry)
    requires p != q
    ensures Stored(Invalidated(g, Some(p)), q, generation, entry) == Invalidated(Stored(g, q, generation, entry), Some(p))
    ensures q in Stored(Invalidated(g, Some(p)), q, GenerationOf(g, q), entry).cache
  {
    assert GenerationOf(Invalidated(g, Some(p)), q) == GenerationOf(g, q);
    assert (g.cache - {p})[q := entry] == g.cache[q := entry] - {p};
  }

  /** A rebuild that looked up before an invalidation of its project cannot store. */
  lemma InvalidationDiscardsRebuild(g: Globals, target: Option<Project>, q: Project, entry: Entry)
    requires target.None? || target.value == q
    ensures Stored(Invalidated(g, target), q, GenerationOf(g, q), entry) == Invalidated(g, target)
  {
  }

  /** The lock-protected operations on the globals. */
  class Cache {
    var cache: map<Project, Entry>
    var generation: nat
    var ofProject: map<Project, nat>

    constructor ()
      ensures View() == Globals(map[], 0, map[])
    {
      cache, generation, ofProject := map[], 0, map[];
    }

    function View(): Globals
      reads this
    {
      Globals(cache, generation, ofProject)
    }

    method Invalidate(target: Option<Project>)
      modifies this
      ensures View() == Invalidated(old(View()), target)
    {
      if target.None? {
        generation := generation + 1;
        cache := map[];
      } else {
        var p := target.value;
        ofProject := ofProject[p := (if p in ofProject then ofProject[p] else 0) + 1];
        cache := cache - {p};
      }
    }

    method Lookup(p: Project) returns (entry: Option<Entry>, captured: Generation)
      ensures captured == GenerationOf(View(), p)
      ensures entry == if p in cache then Some(cache[p]) else None
    {
      entry := if p in cache then Some(cache[p]) else None;
      captured := Generation(generation, if p in ofProject then ofProject[p] else 0);
    }

    method Store(p: Project, captured: Generation, entry: Entry)
      modifies this`cache
      ensures View() == Stored(old(View()), p, captured, entry)
    {
      if Generation(generation, if p in ofProject then ofProject[p] else 0) == captured {
        cache := cache[p := entry];
      }
    }
  }

  // ---------------------------------------------------------------- loaders, writers and time

  /** When a load began: the generation, and the latest settings stamp and file version, by number. */
  datatype Moment = Moment(generation: Generation, stamp: nat, files: nat)

  /** One `load_config` call, from its start to what it served. */
  datatype Loader =
    | Started(p: Project, start: Moment)
    | Stamped(p: Project, start: Moment, fp: Fingerprint)
    | Missed(p: Project, start: Moment, fp: Fingerprint, captured: Generation, entry: Option<Entry>)
    | Built(p: Project, start: Moment, fp: Fingerprint, captured: Generation, entry: Option<Entry>, config: Config)
    | Served(p: Project, start: Moment, config: Config, hit: Option<Entry>)

  /**
   * `floors[p][k]` is the version of p's database that was committed when its k-th settings stamp was
   * set; the current stamp is the last, and no settings stamp is ever used twice. `files[p][k]` is the
   * stamp of the k-th version of p's environment and TOML file, the last being the current one; these
   * stamps may repeat.
   */
  datatype System = System(
    g: Globals, files: map<Project, seq<nat>>, versions: map<Project, nat>, floors: map<Project, seq<nat>>,
    now: nat, loaders: map<nat, Loader>)

  function Version(s: System, p: Project): nat {
    if p in s.versions then s.versions[p] else 0
  }

  function Floors(s: System, p: Project): (f: seq<nat>)
    ensures f != []
  {
    if p in s.floors && s.floors[p] != [] then s.floors[p] else [0]
  }

  function Stamps(s: System, p: Project): (f: seq<nat>)
    ensures f != []
  {
    if p in s.files && s.files[p] != [] then s.files[p] else [0]
  }

  function Current(s: System, p: Project): Fingerprint {
    Fingerprint(Stamps(s, p)[|Stamps(s, p)| - 1], |Floors(s, p)| - 1)
  }

  function Now(s: System, p: Project): Moment {
    Moment(GenerationOf(s.g, p), |Floors(s, p)| - 1, |Stamps(s, p)| - 1)
  }

  datatype Action =
    | Start(id: nat, p: Project)      // a thread calls load_config
    | TakeStamp(id: nat)              // config_fingerprint, outside the lock
    | Look(id: nat)                   // the lookup under the lock, and the freshness test
    | Build(id: nat, readable: bool)  // _build_config, outside the lock
    | Finish(id: nat)                 // _store under the lock, and the return
    | Commit(p: Project)              // any process commits a settings write
    | Touch(p: Project)               // ... and then replaces the settings stamp
    | Invalidate(target: Option<Project>)
    | Edit(p: Project, files: nat)    // sova.toml or the environment changes, and gets any stamp
    | Tick(seconds: nat)

  const EMPTY := System(Globals(map[], 0, map[]), map[], map[], map[], 0, map[])

  /** What a load that could not read the database serves: the last good config, or its own build. */
  function LastGood(l: Loader): bool
    requires l.Built?
  {
    l.entry.Some? && l.entry.value.hasDbLayer && l.entry.value.fingerprint.files == l.fp.files
  }

  function EntryToStore(l: Loader, now: nat): Entry
    requires l.Built?
  {
    if l.config.db.None? then
      var failures := (if l.entry.Some? then l.entry.value.failures else 0) + 1;
      Entry(l.fp, if LastGood(l) then l.entry.value.config else l.config, now, Some(Backoff(failures)),
            LastGood(l), failures, l.captured)
    else Entry(l.fp, l.config, now, None, true, 0, l.captured)
  }

  /** A loader's next state at each of its atomic steps; a step out of turn does nothing. */
  function LoaderStep(s: System, l: Loader, a: Action): Loader {
    match (a, l)
    case (TakeStamp(_), Started(p, start)) => Stamped(p, start, Current(s, p))
    case (Look(_), Stamped(p, start, fp)) =>
      var entry := if p in s.g.cache then Some(s.g.cache[p]) else None;
      if entry.Some? && entry.value.IsFresh(fp, SQLITE_TTL, s.now) then Served(p, start, entry.value.config, entry)
      else Missed(p, start, fp, GenerationOf(s.g, p), entry)
    case (Build(_, readable), Missed(p, start, fp, captured, entry)) =>
      Built(p, start, fp, captured, entry,
            Config(if readable then Some(Version(s, p)) else None, |Stamps(s, p)| - 1, captured))
    case (Finish(_), Built(p, start, _, _, _, _)) => Served(p, start, EntryToStore(l, s.now).config, None)
    case _ => l
  }

  function Apply(s: System, a: Action): System {
    match a
    case Start(id, p) =>
      if id in s.loaders then s
      else s.(loaders := s.loaders[id := Started(p, Now(s, p))])
    case TakeStamp(id) => if id in s.loaders then s.(loaders := s.loaders[id := LoaderStep(s, s.loaders[id], a)]) else s
    case Look(id) => if id in s.loaders then s.(loaders := s.loaders[id := LoaderStep(s, s.loaders[id], a)]) else s
    case Build(id, _) => if id in s.loaders then s.(loaders := s.loaders[id := LoaderStep(s, s.loaders[id], a)]) else s
    case Finish(id) =>
      if id in s.loaders && s.loaders[id].Built? then
        var l := s.loaders[id];
        s.(g := Stored(s.g, l.p, l.captured, EntryToStore(l, s.now)),
           loaders := s.loaders[id := LoaderStep(s, l, a)])
      else s
    case Commit(p) => s.(versions := s.versions[p := Version(s, p) + 1])
    case Touch(p) => s.(floors := s.floors[p := Floors(s, p) + [Version(s, p)]])
    case Invalidate(target) => s.(g := Invalidated(s.g, target))
    case Edit(p, files) => s.(files := s.files[p := Stamps(s, p) + [files]])
    case Tick(seconds) => s.(now := s.now + seconds)
  }

  function Run(s: System, actions: seq<Action>): System
    decreases |actions|
  {
    if actions == [] then s else Run(Apply(s, actions[0]), actions[1..])
  }

  // ---------------------------------------------------------------- the invariant

  /** The files were read at a version no older than one that had this stamp. */
  ghost predicate ReadUnder(s: System, p: Project, version: nat, stamp: nat) {
    version < |Stamps(s, p)| && exists k :: 0 <= k <= version && Stamps(s, p)[k] == stamp
  }

  /**
   * A layered entry comes from a successful read; every entry was built from files no older than its
   * stamp of them; and an undegraded one from a database no older than its settings stamp.
   */
  ghost predicate SoundEntry(s: System, p: Project, e: Entry) {
    && (e.backoff.None? ==> e.hasDbLayer)
    && (e.hasDbLayer ==> e.config.db.Some?)
    && ReadUnder(s, p, e.config.under, e.fingerprint.files)
    && (e.backoff.None? ==> e.fingerprint.stamp < |Floors(s, p)|
                            && e.config.db.value >= Floors(s, p)[e.fingerprint.stamp])
  }

  ghost predicate CacheSound(s: System) {
    forall p | p in s.g.cache ::
      var e := s.g.cache[p];
      e.captured == e.config.born == GenerationOf(s.g, p) && SoundEntry(s, p, e)
  }

  /** The committed version only grows, and every stamp stands for what was committed when it was set. */
  ghost predicate FloorsSound(s: System) {
    forall p, i, j | 0 <= i <= j < |Floors(s, p)| :: Floors(s, p)[i] <= Floors(s, p)[j] <= Version(s, p)
  }

  /** One of the stamps since version `from`. */
  ghost predicate StampedSince(s: System, p: Project, from: nat, stamp: nat) {
    exists k :: from <= k < |Stamps(s, p)| && Stamps(s, p)[k] == stamp
  }

  ghost predicate LoaderSound(s: System, l: Loader) {
    && l.start.generation.AtMost(GenerationOf(s.g, l.p))
    && l.start.stamp < |Floors(s, l.p)| && l.start.files < |Stamps(s, l.p)|
    && (l.Stamped? || l.Missed? || l.Built? ==>
          l.start.stamp <= l.fp.stamp < |Floors(s, l.p)| && StampedSince(s, l.p, l.start.files, l.fp.files))
    && (l.Missed? || l.Built? ==>
          && l.start.generation.AtMost(l.captured)
          && (l.entry.Some? ==> l.entry.value.config.born == l.captured && SoundEntry(s, l.p, l.entry.value)))
    && (l.Built? ==>
          && l.config.born == l.captured && l.start.files <= l.config.under && ReadUnder(s, l.p, l.config.under, l.fp.files)
          && (l.config.db.Some? ==> l.config.db.value >= Floors(s, l.p)[l.fp.stamp]))
    && (l.Served? ==>
          && l.start.generation.AtMost(l.config.born)
          && (Distinct(Stamps(s, l.p)) ==> l.start.files <= l.config.under)
          && (l.hit.Some? && l.hit.value.backoff.None? ==>
                l.config.db.Some? && l.config.db.value >= Floors(s, l.p)[l.start.stamp]))
  }

  ghost predicate Inv(s: System) {
    CacheSound(s) && FloorsSound(s) && forall id | id in s.loaders :: LoaderSound(s, s.loaders[id])
  }

  /** Generations, versions and stamp histories only grow. */
  ghost predicate Grows(s: System, t: System) {
    && (forall p :: GenerationOf(s.g, p).AtMost(GenerationOf(t.g, p)))
    && (forall p :: Version(s, p) <= Version(t, p) && Floors(s, p) <= Floors(t, p) && Stamps(s, p) <= Stamps(t, p))
  }

  lemma StepGrows(s: System, a: Action)
    ensures Grows(s, Apply(s, a))
  {
    hide LoaderStep, EntryToStore;
    forall p
      ensures GenerationOf(s.g, p).AtMost(GenerationOf(Apply(s, a).g, p)) && Version(s, p) <= Version(Apply(s, a), p)
      ensures Floors(s, p) <= Floors(Apply(s, a), p) && Stamps(s, p) <= Stamps(Apply(s, a), p)
    {
      GrowsAt(s, a, p);
    }
  }

  lemma GrowsAt(s: System, a: Action, p: Project)
    ensures GenerationOf(s.g, p).AtMost(GenerationOf(Apply(s, a).g, p)) && Version(s, p) <= Version(Apply(s, a), p)
    ensures Floors(s, p) <= Floors(Apply(s, a), p) && Stamps(s, p) <= Stamps(Apply(s, a), p)
  {
    GenerationGrows(s, a, p);
    FloorsGrow(s, a, p);
    StampsGrow(s, a, p);
  }

  lemma GenerationGrows(s: System, a: Action, p: Project)
    ensures GenerationOf(s.g, p).AtMost(GenerationOf(Apply(s, a).g, p))
  {
    hide LoaderStep, EntryToStore, Floors, Stamps, Version, Current, Now;
  }

  lemma FloorsGrow(s: System, a: Action, p: Project)
    ensures Version(s, p) <= Version(Apply(s, a), p) && Floors(s, p) <= Floors(Apply(s, a), p)
  {
    hide LoaderStep, EntryToStore, Stamps, Current, Now, GenerationOf, Invalidated, Stored;
  }

  lemma StampsGrow(s: System, a: Action, p: Project)
    ensures Stamps(s, p) <= Stamps(Apply(s, a), p)
  {
    hide LoaderStep, EntryToStore, Floors, Version, Current, Now, GenerationOf, Invalidated, Stored;
  }

  lemma EntryIsStable(s: System, t: System, p: Project, e: Entry)
    requires Grows(s, t) && SoundEntry(s, p, e)
    ensures SoundEntry(t, p, e)
  {
    assert Floors(s, p) <= Floors(t, p) && Stamps(s, p) <= Stamps(t, p);
    var k :| 0 <= k <= e.config.under && Stamps(s, p)[k] == e.fingerprint.files;
    assert Stamps(t, p)[k] == e.fingerprint.files;
  }

  lemma SoundnessIsStable(s: System, t: System, l: Loader)
    requires Grows(s, t) && LoaderSound(s, l)
    ensures LoaderSound(t, l)
  {
    assert Floors(s, l.p) <= Floors(t, l.p) && Stamps(s, l.p) <= Stamps(t, l.p);
    if l.Stamped? || l.Missed? || l.Built? {
      var k :| l.start.files <= k < |Stamps(s, l.p)| && Stamps(s, l.p)[k] == l.fp.files;
      assert Stamps(t, l.p)[k] == l.fp.files;
    }
    if (l.Missed? || l.Built?) && l.entry.Some? { EntryIsStable(s, t, l.p, l.entry.value); }
    if l.Built? {
      var k :| 0 <= k <= l.config.under && Stamps(s, l.p)[k] == l.fp.files;
      assert Stamps(t, l.p)[k] == l.fp.files;
    }
  }

  /** With stamps that do not repeat, what was built under a stamp seen since then was built since then. */
  lemma BuiltSince(s: System, p: Project, from: nat, version: nat, stamp: nat)
    requires Distinct(Stamps(s, p)) && StampedSince(s, p, from, stamp) && ReadUnder(s, p, version, stamp)
    ensures from <= version
  {
    var k :| from <= k < |Stamps(s, p)| && Stamps(s, p)[k] == stamp;
    var j :| 0 <= j <= version && Stamps(s, p)[j] == stamp;
    assert j == k;
  }

  lemma LoaderStepIsSound(s: System, l: Loader, a: Action)
    requires CacheSound(s) && FloorsSound(s) && LoaderSound(s, l)
    ensures LoaderSound(s, LoaderStep(s, l, a)) && LoaderStep(s, l, a).p == l.p
    ensures LoaderStep(s, l, a).start == l.start
  {
    var next := LoaderStep(s, l, a);
    if next != l {
      hide CacheSound, FloorsSound;
      match l
      case Started(_, _) => StampIsSound(s, l, a);
      case Stamped(_, _, _) => hide LoaderSound; LookIsSound(s, l, a);
      case Missed(_, _, _, _, _) => hide LoaderSound; BuildIsSound(s, l, a);
      case Built(_, _, _, _, _, _) => FinishIsSound(s, l);
      case _ =>
    }
  }

  lemma StampIsSound(s: System, l: Loader, a: Action)
    requires LoaderSound(s, l) && l.Started? && a.TakeStamp?
    ensures LoaderSound(s, LoaderStep(s, l, a))
  {
    assert Stamps(s, l.p)[|Stamps(s, l.p)| - 1] == LoaderStep(s, l, a).fp.files;
  }

  lemma BuildIsSound(s: System, l: Loader, a: Action)
    requires FloorsSound(s) && LoaderSound(s, l) && l.Missed? && a.Build?
    ensures LoaderSound(s, LoaderStep(s, l, a))
  {
    var next := LoaderStep(s, l, a);
    var k :| l.start.files <= k < |Stamps(s, l.p)| && Stamps(s, l.p)[k] == l.fp.files;
    assert 0 <= k <= next.config.under && Stamps(s, l.p)[k] == l.fp.files;
    assert Floors(s, l.p)[l.fp.stamp] <= Version(s, l.p);
  }

  lemma LookIsSound(s: System, l: Loader, a: Action)
    requires CacheSound(s) && FloorsSound(s) && LoaderSound(s, l) && l.Stamped? && a.Look?
    ensures LoaderSound(s, LoaderStep(s, l, a))
  {
    if l.p in s.g.cache {
      var e := s.g.cache[l.p];
      if e.IsFresh(l.fp, SQLITE_TTL, s.now) {
        assert e.fingerprint.files == l.fp.files;
        if Distinct(Stamps(s, l.p)) { BuiltSince(s, l.p, l.start.files, e.config.under, l.fp.files); }
        if e.backoff.None? { assert Floors(s, l.p)[l.start.stamp] <= Floors(s, l.p)[l.fp.stamp]; }
      }
    }
  }

  lemma FinishIsSound(s: System, l: Loader)
    requires LoaderSound(s, l) && l.Built?
    ensures Distinct(Stamps(s, l.p)) ==> l.start.files <= EntryToStore(l, s.now).config.under
    ensures l.start.generation.AtMost(EntryToStore(l, s.now).config.born)
    ensures SoundEntry(s, l.p, EntryToStore(l, s.now)) && EntryToStore(l, s.now).config.born == l.captured
  {
    if l.config.db.None? && LastGood(l) && Distinct(Stamps(s, l.p)) {
      BuiltSince(s, l.p, l.start.files, l.entry.value.config.under, l.fp.files);
    }
  }

  lemma StoreIsSound(s: System, l: Loader)
    requires CacheSound(s) && LoaderSound(s, l) && l.Built?
    ensures CacheSound(s.(g := Stored(s.g, l.p, l.captured, EntryToStore(l, s.now))))
  {
    var t := s.(g := Stored(s.g, l.p, l.captured, EntryToStore(l, s.now)));
    FinishIsSound(s, l);
    forall p | p in t.g.cache
      ensures var e := t.g.cache[p]; e.captured == e.config.born == GenerationOf(t.g, p) && SoundEntry(t, p, e)
    {
      SameHistory(s, t, p);
      if p != l.p { assert p in s.g.cache; }
    }
  }

  lemma SameHistory(s: System, t: System, p: Project)
    requires Floors(s, p) == Floors(t, p) && Stamps(s, p) == Stamps(t, p)
    ensures forall e :: SoundEntry(s, p, e) <==> SoundEntry(t, p, e)
  {
  }

  lemma WorldStepIsSound(s: System, a: Action)
    requires CacheSound(s) && FloorsSound(s)
    requires a.Commit? || a.Touch? || a.Invalidate? || a.Edit? || a.Tick?
    ensures CacheSound(Apply(s, a)) && FloorsSound(Apply(s, a))
  {
    hide SoundEntry, Floors, Stamps, LoaderStep, EntryToStore, Current, Now, Version, FloorsSound;
    var t := Apply(s, a);
    StepGrows(s, a);
    forall p | p in t.g.cache
      ensures var e := t.g.cache[p]; e.captured == e.config.born == GenerationOf(t.g, p) && SoundEntry(t, p, e)
    {
      assert p in s.g.cache && t.g.cache[p] == s.g.cache[p];
      EntryIsStable(s, t, p, s.g.cache[p]);
    }
    FloorsStaySound(s, a);
  }

  lemma FloorsStaySound(s: System, a: Action)
    requires FloorsSound(s)
    ensures FloorsSound(Apply(s, a))
  {
    forall p, i, j | 0 <= i <= j < |Floors(Apply(s, a), p)|
      ensures Floors(Apply(s, a), p)[i] <= Floors(Apply(s, a), p)[j] <= Version(Apply(s, a), p)
    {
      FloorsAppend(s, a, p);
      hide Apply, Version, Floors;
      var f := Floors(s, p);
      if j < |f| { assert f[i] <= f[j] <= Version(s, p); }
      else if i < |f| { assert f[i] <= Version(s, p); }
    }
  }

  /** An action adds at most the current version to the floors. */
  lemma FloorsAppend(s: System, a: Action, p: Project)
    ensures Version(s, p) <= Version(Apply(s, a), p)
    ensures Floors(Apply(s, a), p) == Floors(s, p) || Floors(Apply(s, a), p) == Floors(s, p) + [Version(s, p)]
  {
    hide LoaderStep, EntryToStore, Stamps, Current, Now, GenerationOf, Invalidated, Stored;
  }

  /** How one action moves the loaders: only its own loader steps, and only Start adds one. */
  lemma LoadersMove(s: System, a: Action)
    ensures var t := Apply(s, a);
            && (forall id | id in s.loaders :: id in t.loaders
                  && (t.loaders[id] == s.loaders[id] || t.loaders[id] == LoaderStep(s, s.loaders[id], a)))
            && (forall id | id in t.loaders && id !in s.loaders ::
                  a.Start? && t.loaders[id] == Started(a.p, Now(s, a.p)) && t.g == s.g)
  {
  }

  /** Soundness of the shared state does not depend on where the loaders are. */
  lemma LoadersDoNotMatter(s: System, loaders: map<nat, Loader>)
    requires CacheSound(s) && FloorsSound(s)
    ensures CacheSound(s.(loaders := loaders)) && FloorsSound(s.(loaders := loaders))
  {
    var t := s.(loaders := loaders);
    assert forall p :: Floors(t, p) == Floors(s, p) && Version(t, p) == Version(s, p);
    forall p | p in t.g.cache
      ensures var e := t.g.cache[p]; e.captured == e.config.born == GenerationOf(t.g, p) && SoundEntry(t, p, e)
    {
      assert SoundEntry(s, p, s.g.cache[p]);
      SameHistory(s, t, p);
    }
  }

  lemma FinishStaysSound(s: System, id: nat)
    requires Inv(s) && id in s.loaders && s.loaders[id].Built?
    ensures CacheSound(Apply(s, Finish(id))) && FloorsSound(Apply(s, Finish(id)))
  {
    hide SoundEntry, EntryToStore, CacheSound, FloorsSound, LoaderStep, Stored;
    var l := s.loaders[id];
    var g := Stored(s.g, l.p, l.captured, EntryToStore(l, s.now));
    assert LoaderSound(s, l);
    hide LoaderSound;
    StoreIsSound(s, l);
    FloorsIgnoreCache(s, g);
    LoadersDoNotMatter(s.(g := g), Apply(s, Finish(id)).loaders);
  }

  lemma FloorsIgnoreCache(s: System, g: Globals)
    requires FloorsSound(s)
    ensures FloorsSound(s.(g := g))
  {
    var t := s.(g := g);
    assert forall p :: Floors(t, p) == Floors(s, p) && Version(t, p) == Version(s, p);
  }

  /** The other actions of a loader touch nothing but the loaders. */
  lemma OnlyLoadersMove(s: System, a: Action)
    requires a.Start? || a.TakeStamp? || a.Look? || a.Build? || (a.Finish? && !(a.id in s.loaders && s.loaders[a.id].Built?))
    ensures Apply(s, a) == s.(loaders := Apply(s, a).loaders)
  {
    hide LoaderStep;
  }

  lemma SharedStateStaysSound(s: System, a: Action)
    requires Inv(s)
    ensures CacheSound(Apply(s, a)) && FloorsSound(Apply(s, a))
  {
    hide CacheSound, FloorsSound, LoaderSound, EntryToStore, LoaderStep, Apply;
    if a.Commit? || a.Touch? || a.Invalidate? || a.Edit? || a.Tick? {
      WorldStepIsSound(s, a);
    } else if a.Finish? && a.id in s.loaders && s.loaders[a.id].Built? {
      FinishStaysSound(s, a.id);
    } else {
      OnlyLoadersMove(s, a);
      LoadersDoNotMatter(s, Apply(s, a).loaders);
    }
  }

  lemma StepKeepsInv(s: System, a: Action)
    requires Inv(s)
    ensures Inv(Apply(s, a))
  {
    var t := Apply(s, a);
    StepGrows(s, a);
    SharedStateStaysSound(s, a);
    LoadersMove(s, a);
    forall id | id in t.loaders ensures LoaderSound(t, t.loaders[id]) {
      if id in s.loaders {
        LoaderStepIsSound(s, s.loaders[id], a);
        SoundnessIsStable(s, t, t.loaders[id]);
      }
    }
  }

  lemma {:induction false} RunKeepsInv(s: System, actions: seq<Action>)
    requires Inv(s)
    ensures Inv(Run(s, actions)) && Grows(s, Run(s, actions))
    decreases |actions|
  {
    if actions != [] {
      StepKeepsInv(s, actions[0]);
      StepGrows(s, actions[0]);
      RunKeepsInv(Apply(s, actions[0]), actions[1..]);
    }
  }

  // ---------------------------------------------------------------- what every interleaving guarantees

  /**
   * On every interleaving: a cached entry was captured, and its config looked up, under the current
   * generation; a config with a database layer comes from a successful read; every config was built
   * from an environment and TOML file no older than some version with the entry's stamp; and an
   * undegraded one from a database at least as new as its settings stamp.
   */
  lemma CacheIsAlwaysSound(actions: seq<Action>, p: Project)
    requires p in Run(EMPTY, actions).g.cache
    ensures var s := Run(EMPTY, actions);
            var e := s.g.cache[p];
            && e.captured == e.config.born == GenerationOf(s.g, p)
            && (e.hasDbLayer ==> e.config.db.Some?)
            && (exists k :: 0 <= k <= e.config.under && k < |Stamps(s, p)| && Stamps(s, p)[k] == e.fingerprint.files)
            && (e.backoff.None? ==> e.hasDbLayer && e.fingerprint.stamp < |Floors(s, p)|
                                    && e.config.db.value >= Floors(s, p)[e.fingerprint.stamp])
  {
    RunKeepsInv(EMPTY, actions);
  }

  /** A loader keeps the moment it began. */
  ghost predicate Began(s: System, id: nat, p: Project, start: Moment) {
    id in s.loaders && s.loaders[id].p == p && s.loaders[id].start == start
  }

  lemma {:induction false} RunKeepsBegan(s: System, actions: seq<Action>, id: nat, p: Project, start: Moment)
    requires Inv(s) && Began(s, id, p, start)
    ensures Began(Run(s, actions), id, p, start)
    decreases |actions|
  {
    if actions != [] {
      var a := actions[0];
      LoadersMove(s, a);
      LoaderStepIsSound(s, s.loaders[id], a);
      StepKeepsInv(s, a);
      RunKeepsBegan(Apply(s, a), actions[1..], id, p, start);
    }
  }

  /** A load that starts now remembers the current moment for good, and nothing shrinks meanwhile. */
  lemma StartAndRun(s: System, id: nat, p: Project, after: seq<Action>)
    requires Inv(s) && id !in s.loaders
    ensures var t := Run(Apply(s, Start(id, p)), after);
            && Inv(t) && Began(t, id, p, Now(s, p)) && Floors(s, p) <= Floors(t, p)
  {
    var t := Apply(s, Start(id, p));
    StepKeepsInv(s, Start(id, p));
    assert Floors(t, p) == Floors(s, p);
    RunKeepsInv(t, after);
    RunKeepsBegan(t, after, id, p, Now(s, p));
  }

  /**
   * A load that starts after an invalidation never serves a config whose load looked up before it,
   * from the cache or otherwise, whatever else runs in between and alongside.
   */
  lemma InvalidatedIsNeverServed(
    before: seq<Action>, target: Option<Project>, between: seq<Action>, id: nat, p: Project, after: seq<Action>)
    requires target.None? || target.value == p
    requires id !in Run(Apply(Run(EMPTY, before), Invalidate(target)), between).loaders
    ensures var s0 := Run(EMPTY, before);
            var s1 := Apply(s0, Invalidate(target));
            var l := Run(Apply(Run(s1, between), Start(id, p)), after).loaders;
            id in l && (l[id].Served? ==> GenerationOf(s1.g, p).AtMost(l[id].config.born)
                                          && !l[id].config.born.AtMost(GenerationOf(s0.g, p)))
  {
    hide Run;
    var s0 := Run(EMPTY, before);
    RunKeepsInv(EMPTY, before);
    var s1 := Apply(s0, Invalidate(target));
    StepKeepsInv(s0, Invalidate(target));
    RunKeepsInv(s1, between);
    var s2 := Run(s1, between);
    StartAndRun(s2, id, p, after);
    assert GenerationOf(s1.g, p).AtMost(GenerationOf(s2.g, p));
  }

  /** Every commit advances the version, replacing the stamp records it, an edit's stamp comes last, and time goes on. */
  lemma WorldMoves(s: System, p: Project, n: nat)
    ensures Version(Apply(s, Commit(p)), p) == Version(s, p) + 1 && Apply(s, Tick(n)).now == s.now + n
    ensures Stamps(Apply(s, Edit(p, n)), p) == Stamps(s, p) + [n] && Current(Apply(s, Edit(p, n)), p).files == n
    ensures var floors := Floors(Apply(s, Touch(p)), p); floors[|floors| - 1] == Version(s, p)
  {
  }

  /**
   * Once a write has been committed and its stamp replaced, a load that starts later never accepts
   * an older undegraded entry: what it takes from the cache was read from a version that has the write.
   */
  lemma WrittenIsNeverMissed(before: seq<Action>, between: seq<Action>, id: nat, p: Project, after: seq<Action>)
    requires id !in Run(Apply(Run(EMPTY, before), Touch(p)), between).loaders
    ensures var s0 := Run(EMPTY, before);
            var l := Run(Apply(Run(Apply(s0, Touch(p)), between), Start(id, p)), after).loaders;
            id in l && (l[id].Served? && l[id].hit.Some? && l[id].hit.value.backoff.None?
                        ==> l[id].config.db.Some? && l[id].config.db.value >= Version(s0, p))
  {
    hide Apply, Run;
    var s0 := Run(EMPTY, before);
    RunKeepsInv(EMPTY, before);
    var s1 := Apply(s0, Touch(p));
    StepKeepsInv(s0, Touch(p));
    WorldMoves(s0, p, 0);
    RunKeepsInv(s1, between);
    var s2 := Run(s1, between);
    StartAndRun(s2, id, p, after);
    var s4 := Run(Apply(s2, Start(id, p)), after);
    var touched, at := |Floors(s1, p)| - 1, |Floors(s2, p)| - 1;
    assert Floors(s1, p) <= Floors(s2, p) <= Floors(s4, p);
    assert Floors(s4, p)[touched] <= Floors(s4, p)[at];
  }

  /**
   * As long as no stamp of the environment and TOML file repeats, a load never serves a config built
   * from files older than those current when it started, degraded or not, cached or not.
   */
  lemma FilesAreNeverStale(before: seq<Action>, id: nat, p: Project, after: seq<Action>)
    requires id !in Run(EMPTY, before).loaders
    requires Distinct(Stamps(Run(Apply(Run(EMPTY, before), Start(id, p)), after), p))
    ensures var s := Run(EMPTY, before);
            var l := Run(Apply(s, Start(id, p)), after).loaders;
            id in l && (l[id].Served? ==> l[id].config.under >= |Stamps(s, p)| - 1)
  {
    RunKeepsInv(EMPTY, before);
    StartAndRun(Run(EMPTY, before), id, p, after);
  }

  // ---------------------------------------------------------------- what is fresh, and what an outage serves

  function Power(n: nat): nat {
    if n == 0 then 1 else 2 * Power(n - 1)
  }

  /** Windows double from 15 seconds, up to two minutes. */
  lemma BackoffDoubles(failures: nat)
    requires failures > 0
    ensures Backoff(failures) == if 15 * Power(failures - 1) < 120 then 15 * Power(failures - 1) else 120
  {
    if failures > 3 {
      PowerGrows(failures - 1);
    } else {
      assert Power(0) == 1 && Power(1) == 2 && Power(2) == 4;
    }
  }

  lemma {:induction false} PowerGrows(n: nat)
    requires n >= 3
    ensures Power(n) >= 8
  {
    if n == 3 { assert Power(1) == 2 && Power(2) == 4; } else { PowerGrows(n - 1); }
  }

  /** A degraded entry counts its failed reads, and its window is theirs. */
  ghost predicate Windowed(e: Entry) {
    (e.failures > 0 <==> e.backoff.Some?) && (e.failures > 0 ==> e.backoff == Some(Backoff(e.failures)))
  }

  ghost predicate AllWindowed(s: System) {
    forall p | p in s.g.cache :: Windowed(s.g.cache[p])
  }

  lemma {:induction false} RunKeepsWindows(s: System, actions: seq<Action>)
    requires AllWindowed(s)
    ensures AllWindowed(Run(s, actions))
    decreases |actions|
  {
    if actions != [] {
      StepKeepsWindows(s, actions[0]);
      hide Apply, AllWindowed;
      RunKeepsWindows(Apply(s, actions[0]), actions[1..]);
    }
  }

  lemma StepKeepsWindows(s: System, a: Action)
    requires AllWindowed(s)
    ensures AllWindowed(Apply(s, a))
  {
    hide LoaderStep, Backoff, Stamps, Floors, Current, Now, Version;
  }

  /**
   * On every run, a lookup is answered from the cache exactly when there is an entry and it is fresh:
   * an undegraded one under an unchanged fingerprint for less than a minute; one behind `failures`
   * failed reads under an unchanged environment and TOML file, whatever the settings stamp, for less
   * than 15 seconds doubled with every further failure, or less than two minutes.
   */
  lemma HitExactly(actions: seq<Action>, id: nat)
    requires id in Run(EMPTY, actions).loaders && Run(EMPTY, actions).loaders[id].Stamped?
    ensures var s := Run(EMPTY, actions);
            var l := s.loaders[id];
            var next := Apply(s, Look(id)).loaders[id];
            if l.p !in s.g.cache then next.Missed? && next.entry == None
            else
              var e := s.g.cache[l.p];
              var taken :=
                if e.failures == 0 then e.fingerprint == l.fp && s.now - e.builtAt < 60
                else
                  var window := 15 * Power(e.failures - 1);
                  e.fingerprint.files == l.fp.files && s.now - e.builtAt < (if window < 120 then window else 120);
              if taken then next.Served? && next.config == e.config && next.hit == Some(e)
              else next.Missed? && next.entry == Some(e)
  {
    var s := Run(EMPTY, actions);
    var l := s.loaders[id];
    RunKeepsWindows(EMPTY, actions);
    hide Run, Backoff;
    if l.p in s.g.cache {
      var e := s.g.cache[l.p];
      assert Windowed(e);
      if e.failures > 0 { BackoffDoubles(e.failures); }
    }
  }

  /**
   * How a rebuild ends. One that read the database is served and stored as an undegraded entry of its
   * fingerprint. One that could not serves the entry it had found, when that has a database layer and
   * the environment and TOML file are unchanged, else itself without one, and counts one more failure.
   * It is stored if and only if no invalidation came in between.
   */
  lemma RebuildEnds(s: System, id: nat)
    requires id in s.loaders && s.loaders[id].Built?
    ensures var l := s.loaders[id];
            var t := Apply(s, Finish(id));
            var before := if l.entry.Some? then l.entry.value.failures else 0;
            var layered := l.entry.Some? && l.entry.value.hasDbLayer && l.entry.value.fingerprint.files == l.fp.files;
            && t.loaders[id].Served? && t.loaders[id].hit.None?
            && t.loaders[id].config == (if l.config.db.None? && layered then l.entry.value.config else l.config)
            && (GenerationOf(s.g, l.p) != l.captured ==> t.g == s.g)
            && (GenerationOf(s.g, l.p) == l.captured ==>
                  && l.p in t.g.cache && t.g == s.g.(cache := s.g.cache[l.p := t.g.cache[l.p]])
                  && var e := t.g.cache[l.p];
                     && e.config == t.loaders[id].config && e.fingerprint == l.fp && e.builtAt == s.now && e.captured == l.captured
                     && e.hasDbLayer == (l.config.db.Some? || layered)
                     && e.failures == if l.config.db.Some? then 0 else before + 1)
  {
    hide Backoff, Stamps, Floors, Current, Now, Version;
  }

  /** The cached config of p, with its database layer, under the current stamp of the files. */
  ghost predicate HasGood(s: System, p: Project, config: Config) {
    && p in s.g.cache && s.g.cache[p].config == config && s.g.cache[p].hasDbLayer
    && s.g.cache[p].fingerprint.files == Current(s, p).files
  }

  /** One step of an outage: no load of p reads the database, its files are not edited, nothing of it is invalidated. */
  predicate InOutage(s: System, p: Project, a: Action) {
    && (a.Build? && a.readable && a.id in s.loaders ==> s.loaders[a.id].p != p)
    && (a.Edit? ==> a.p != p)
    && (a.Invalidate? ==> a.target.Some? && a.target.value != p)
  }

  predicate OutageRun(s: System, p: Project, actions: seq<Action>)
    decreases |actions|
  {
    actions == [] || (InOutage(s, p, actions[0]) && OutageRun(Apply(s, actions[0]), p, actions[1..]))
  }

  /** A load under way during the outage has found the last good config, or will serve it. */
  ghost predicate OnLastGood(s: System, p: Project, config: Config, l: Loader) {
    l.p == p ==>
      && (l.Stamped? || l.Missed? || l.Built? ==> l.fp.files == Current(s, p).files)
      && (l.Missed? || l.Built? ==>
            && l.entry.Some? && l.entry.value.config == config && l.entry.value.hasDbLayer
            && l.entry.value.fingerprint.files == Current(s, p).files)
      && (l.Built? ==> l.config.db.None?)
      && (l.Served? ==> l.config == config)
  }

  ghost predicate AllOnLastGood(s: System, p: Project, config: Config, older: set<nat>) {
    && HasGood(s, p, config)
    && forall id | id in s.loaders ::
         if id in older then s.loaders[id].p == p ==> s.loaders[id].Served? else OnLastGood(s, p, config, s.loaders[id])
  }

  lemma SameStampInOutage(s: System, p: Project, a: Action)
    requires InOutage(s, p, a)
    ensures Current(Apply(s, a), p).files == Current(s, p).files
  {
    hide LoaderStep, EntryToStore, Floors, Now, Stored, Invalidated;
  }

  lemma LoaderStaysOnLastGood(s: System, p: Project, config: Config, a: Action, l: Loader)
    requires HasGood(s, p, config) && OnLastGood(s, p, config, l)
    requires l.p == p && a.Build? ==> !a.readable
    ensures OnLastGood(s, p, config, LoaderStep(s, l, a))
  {
    hide Backoff, Stamps, Floors, Version, GenerationOf;
  }

  lemma GoodStays(s: System, p: Project, config: Config, older: set<nat>, a: Action)
    requires AllOnLastGood(s, p, config, older) && InOutage(s, p, a)
    ensures HasGood(Apply(s, a), p, config)
  {
    SameStampInOutage(s, p, a);
    hide Stamps, Floors, Version, Current, Now, LoaderStep, Backoff;
    if a.Finish? && a.id in s.loaders && s.loaders[a.id].Built? && s.loaders[a.id].p == p {
      assert OnLastGood(s, p, config, s.loaders[a.id]);
    }
  }

  lemma OutageStep(s: System, p: Project, config: Config, older: set<nat>, a: Action)
    requires AllOnLastGood(s, p, config, older) && InOutage(s, p, a) && older <= s.loaders.Keys
    ensures AllOnLastGood(Apply(s, a), p, config, older) && older <= Apply(s, a).loaders.Keys
  {
    var t := Apply(s, a);
    GoodStays(s, p, config, older, a);
    SameStampInOutage(s, p, a);
    LoadersMove(s, a);
    OnlyItsLoader(s, a);
    hide Apply, HasGood, Current, LoaderStep;
    forall id | id in t.loaders
      ensures if id in older then t.loaders[id].p == p ==> t.loaders[id].Served? else OnLastGood(t, p, config, t.loaders[id])
    {
      if id in s.loaders && t.loaders[id] != s.loaders[id] {
        ServedStays(s, s.loaders[id], a);
        if id !in older { LoaderStaysOnLastGood(s, p, config, a, s.loaders[id]); }
      }
    }
  }

  lemma ServedStays(s: System, l: Loader, a: Action)
    ensures (l.Served? ==> LoaderStep(s, l, a) == l) && LoaderStep(s, l, a).p == l.p
  {
  }

  /** An action moves no loader but its own. */
  lemma OnlyItsLoader(s: System, a: Action)
    ensures forall id | id in s.loaders && Apply(s, a).loaders[id] != s.loaders[id] ::
              (a.TakeStamp? || a.Look? || a.Build? || a.Finish?) && a.id == id
  {
    hide LoaderStep;
  }

  lemma {:induction false} OutageKeepsLastGood(s: System, p: Project, config: Config, older: set<nat>, actions: seq<Action>)
    requires AllOnLastGood(s, p, config, older) && older <= s.loaders.Keys && OutageRun(s, p, actions)
    ensures AllOnLastGood(Run(s, actions), p, config, older)
    decreases |actions|
  {
    if actions != [] {
      OutageStep(s, p, config, older, actions[0]);
      hide Apply, AllOnLastGood, InOutage;
      OutageKeepsLastGood(Apply(s, actions[0]), p, config, older, actions[1..]);
    }
  }

  /**
   * As long as the database cannot be read, and neither the environment nor the TOML file changes nor
   * is the project invalidated, every load that starts is served the last good config, however the
   * loads interleave and however often the window ends.
   */
  lemma OutageServesLastGood(s: System, p: Project, actions: seq<Action>)
    requires p in s.g.cache && s.g.cache[p].hasDbLayer && s.g.cache[p].fingerprint.files == Current(s, p).files
    requires forall id | id in s.loaders && s.loaders[id].p == p :: s.loaders[id].Served?
    requires OutageRun(s, p, actions)
    ensures var t := Run(s, actions);
            && p in t.g.cache && t.g.cache[p].config == s.g.cache[p].config && t.g.cache[p].hasDbLayer
            && forall id | id in t.loaders && id !in s.loaders && t.loaders[id].p == p && t.loaders[id].Served? ::
                 t.loaders[id].config == s.g.cache[p].config
  {
    hide Run, Current, OutageRun;
    OutageKeepsLastGood(s, p, s.g.cache[p].config, s.loaders.Keys, actions);
  }

  // ---------------------------------------------------------------- exactly when no load is stale

  /** The project's environment and TOML file take these stamps, one after the other. */
  function Edits(p: Project, stamps: seq<nat>): seq<Action> {
    if stamps == [] then [] else [Edit(p, stamps[0])] + Edits(p, stamps[1..])
  }

  lemma {:induction false} RunConcat(s: System, a: seq<Action>, b: seq<Action>)
    ensures Run(s, a + b) == Run(Run(s, a), b)
    decreases |a|
  {
    hide Apply;
    if a == [] {
      assert a + b == b;
    } else {
      assert (a + b)[1..] == a[1..] + b;
      RunConcat(Apply(s, a[0]), a[1..], b);
    }
  }

  /** Everything but the history of p's stamps is as before. */
  ghost predicate OnlyEdited(s: System, p: Project, stamps: seq<nat>, t: System) {
    t == s.(files := t.files) && Stamps(t, p) == Stamps(s, p) + stamps
  }

  lemma {:induction false} RunEdits(s: System, p: Project, stamps: seq<nat>)
    ensures OnlyEdited(s, p, stamps, Run(s, Edits(p, stamps)))
    decreases |stamps|
  {
    if stamps != [] {
      RunOne(s, Edit(p, stamps[0]), Edits(p, stamps[1..]));
      RunEdits(Apply(s, Edit(p, stamps[0])), p, stamps[1..]);
      assert Stamps(s, p) + [stamps[0]] + stamps[1..] == Stamps(s, p) + stamps;
    }
  }

  function WholeLoad(id: nat, p: Project): seq<Action> {
    [Start(id, p), TakeStamp(id), Look(id), Build(id, true), Finish(id)]
  }

  /** A load's first two steps, when nothing comes in between. */
  lemma LoadBegins(s: System, id: nat, p: Project)
    requires id !in s.loaders
    ensures Apply(Apply(s, Start(id, p)), TakeStamp(id)) == s.(loaders := s.loaders[id := Stamped(p, Now(s, p), Current(s, p))])
  {
    hide Stamps, Floors, GenerationOf;
    SameFiles(s, Apply(s, Start(id, p)), p);
  }

  lemma SameFiles(s: System, t: System, p: Project)
    requires s.files == t.files && s.floors == t.floors && s.versions == t.versions
    ensures Stamps(s, p) == Stamps(t, p) && Floors(s, p) == Floors(t, p) && Current(s, p) == Current(t, p)
    ensures Version(s, p) == Version(t, p)
  {
  }

  /** An undisturbed first load leaves an entry with the current stamp and version. */
  lemma FirstLoad(s: System, id: nat, p: Project)
    requires id !in s.loaders && p !in s.g.cache
    ensures var t := Run(s, WholeLoad(id, p));
            && t == s.(g := t.g, loaders := t.loaders) && t.loaders.Keys == s.loaders.Keys + {id}
            && p in t.g.cache && var e := t.g.cache[p];
               e.fingerprint == Current(s, p) && e.config.under == |Stamps(s, p)| - 1 && e.builtAt == s.now && e.backoff.None?
  {
    hide Stamps, Floors, Current, Now, Version;
    LoadBegins(s, id, p);
    var s2 := Apply(Apply(s, Start(id, p)), TakeStamp(id));
    var s3 := Apply(s2, Look(id));
    assert s3 == s.(loaders := s.loaders[id := Missed(p, Now(s, p), Current(s, p), GenerationOf(s.g, p), None)]);
    SameFiles(s, s3, p);
    FirstStore(s3, id, p);
    RunFive(s, Start(id, p), TakeStamp(id), Look(id), Build(id, true), Finish(id), []);
    assert WholeLoad(id, p) + [] == WholeLoad(id, p);
    RunNothing(Apply(Apply(s3, Build(id, true)), Finish(id)));
  }

  lemma RunNothing(s: System)
    ensures Run(s, []) == s
  {
  }

  lemma FirstStore(s: System, id: nat, p: Project)
    requires id in s.loaders && s.loaders[id].Missed? && s.loaders[id].p == p && s.loaders[id].entry.None?
    requires s.loaders[id].captured == GenerationOf(s.g, p)
    ensures var t := Apply(Apply(s, Build(id, true)), Finish(id));
            && t == s.(g := t.g, loaders := t.loaders) && t.loaders.Keys == s.loaders.Keys
            && p in t.g.cache && var e := t.g.cache[p];
               e.fingerprint == s.loaders[id].fp && e.config.under == |Stamps(s, p)| - 1 && e.builtAt == s.now && e.backoff.None?
  {
    hide Stamps, Floors, Version;
    var l := s.loaders[id];
    var u := Apply(s, Build(id, true));
    assert u == s.(loaders := u.loaders) && u.loaders[id].Built?;
    assert u.loaders[id].config.under == |Stamps(s, p)| - 1 && u.loaders[id].config.db.Some?;
  }

  /** A load that finds a fresh entry serves its config. */
  lemma SecondLoad(s: System, id: nat, p: Project)
    requires id !in s.loaders && p in s.g.cache
    requires var e := s.g.cache[p]; e.fingerprint == Current(s, p) && e.builtAt == s.now && e.backoff.None?
    ensures var t := Run(s, [Start(id, p), TakeStamp(id), Look(id)]);
            && t == s.(loaders := t.loaders)
            && id in t.loaders && t.loaders[id] == Served(p, Now(s, p), s.g.cache[p].config, Some(s.g.cache[p]))
  {
    hide Stamps, Floors, Current, Now;
    LoadBegins(s, id, p);
    var s1 := Apply(s, Start(id, p));
    var s2 := Apply(s1, TakeStamp(id));
    var s3 := Apply(s2, Look(id));
    assert s3 == s.(loaders := s.loaders[id := Served(p, Now(s, p), s.g.cache[p].config, Some(s.g.cache[p]))]);
    hide Apply;
    RunOne(s, Start(id, p), [TakeStamp(id), Look(id)]);
    RunOne(s1, TakeStamp(id), [Look(id)]);
    RunOne(s2, Look(id), []);
    RunNothing(s3);
    assert [Look(id)] + [] == [Look(id)] && [TakeStamp(id)] + [Look(id)] == [TakeStamp(id), Look(id)];
    assert [Start(id, p)] + [TakeStamp(id), Look(id)] == [Start(id, p), TakeStamp(id), Look(id)];
  }

  /** A history of stamps, cut after its versions i and j. */
  lemma Cut(f: seq<nat>, i: nat, j: nat)
    requires i < j < |f| && f[0] == 0
    ensures [0] + f[1..i + 1] == f[..i + 1] && f[..i + 1] + f[i + 1..j + 1] == f[..j + 1] && f[..j + 1] + f[j + 1..] == f
    ensures f[..i + 1][i] == f[i] && f[..j + 1][j] == f[j]
  {
  }

  /** The cache holds a fresh entry with this stamp, built from this version of the files. */
  ghost predicate Holds(s: System, p: Project, stamp: nat, version: nat) {
    && Floors(s, p) == [0] && p in s.g.cache
    && var e := s.g.cache[p];
       e.fingerprint == Fingerprint(stamp, 0) && e.config.under == version && e.builtAt == s.now && e.backoff.None?
  }

  lemma LoadedAt(p: Project, f: seq<nat>, i: nat, j: nat)
    requires i < j < |f| && f[0] == 0
    ensures var s := Run(EMPTY, Edits(p, f[1..i + 1]) + WholeLoad(0, p));
            Stamps(s, p) == f[..i + 1] && s.loaders.Keys == {0} && Holds(s, p, f[i], i)
  {
    hide Apply, Run;
    var a := Edits(p, f[1..i + 1]);
    var s1 := Run(EMPTY, a);
    RunEdits(EMPTY, p, f[1..i + 1]);
    Cut(f, i, j);
    assert Stamps(EMPTY, p) == [0];
    RunConcat(EMPTY, a, WholeLoad(0, p));
    FirstLoad(s1, 0, p);
    SameFiles(s1, Run(s1, WholeLoad(0, p)), p);
  }

  lemma ServedAt(s: System, p: Project, f: seq<nat>, i: nat, j: nat)
    requires i < j < |f| && f[i] == f[j] && f[0] == 0
    requires Stamps(s, p) == f[..i + 1] && s.loaders.Keys == {0} && Holds(s, p, f[i], i)
    ensures var t := Run(s, Edits(p, f[i + 1..j + 1]) + [Start(1, p), TakeStamp(1), Look(1)]);
            && Stamps(t, p) == f[..j + 1] && 1 in t.loaders && t.loaders[1].p == p && t.loaders[1].Served?
            && t.loaders[1].start.files == j && t.loaders[1].config.under == i
  {
    hide Apply, Run, Stamps;
    var b, again := Edits(p, f[i + 1..j + 1]), [Start(1, p), TakeStamp(1), Look(1)];
    var t := Run(s, b);
    RunEdits(s, p, f[i + 1..j + 1]);
    Cut(f, i, j);
    assert Floors(t, p) == Floors(s, p);
    RunConcat(s, b, again);
    SecondLoad(t, 1, p);
    SameFiles(t, Run(t, again), p);
  }

  /**
   * When a stamp repeats, it does happen: a load at the later of the two versions is served a config
   * built from the earlier one.
   */
  lemma RepeatedStampServesOtherFiles(p: Project, f: seq<nat>, i: nat, j: nat) returns (actions: seq<Action>)
    requires i < j < |f| && f[i] == f[j] && f[0] == 0
    ensures var s := Run(EMPTY, actions);
            && Stamps(s, p) == f && 1 in s.loaders && s.loaders[1].p == p && s.loaders[1].Served?
            && s.loaders[1].start.files == j && s.loaders[1].config.under == i
  {
    hide Apply, Run, Stamps, Holds;
    var a, b := Edits(p, f[1..i + 1]) + WholeLoad(0, p), Edits(p, f[i + 1..j + 1]) + [Start(1, p), TakeStamp(1), Look(1)];
    var c := Edits(p, f[j + 1..]);
    LoadedAt(p, f, i, j);
    ServedAt(Run(EMPTY, a), p, f, i, j);
    RunEdits(Run(Run(EMPTY, a), b), p, f[j + 1..]);
    Cut(f, i, j);
    actions := a + (b + c);
    RunConcat(EMPTY, a, b + c);
    RunConcat(Run(EMPTY, a), b, c);
  }

  /** A run in which p's files took the stamps `f` served this loader nothing older than its start. */
  ghost predicate NeverStale(actions: seq<Action>, id: nat, p: Project, f: seq<nat>) {
    var s := Run(EMPTY, actions);
    Stamps(s, p) == f && id in s.loaders && s.loaders[id].p == p && s.loaders[id].Served?
    ==> s.loaders[id].start.files <= s.loaders[id].config.under
  }

  /**
   * For every history of stamps that p's environment and TOML file can go through: no load is ever
   * served a config built from files older than when it began if and only if no stamp repeats.
   */
  lemma NeverStaleExactly(p: Project, f: seq<nat>)
    requires f != [] && f[0] == 0
    ensures Distinct(f) <==>
            forall actions, id :: NeverStale(actions, id, p, f)
  {
    if Distinct(f) {
      forall actions, id ensures NeverStale(actions, id, p, f) { RunKeepsInv(EMPTY, actions); }
    } else {
      var i, j :| 0 <= i < j < |f| && f[i] == f[j];
      var actions := RepeatedStampServesOtherFiles(p, f, i, j);
      assert !NeverStale(actions, 1, p, f);
    }
  }

  /**
   * A stamp that comes back can also serve newer files than those it stood for: stamped before an edit
   * and built after it, an entry is served again once the edit is reverted to the old stamp.
   */
  lemma EditedWhileBuilt(p: Project)
    ensures var events := [Start(0, p), TakeStamp(0), Edit(p, 1), Look(0), Build(0, true), Finish(0),
                           Edit(p, 0), Start(1, p), TakeStamp(1), Look(1)];
            var s := Run(EMPTY, events);
            && 1 in s.loaders && s.loaders[1].Served? && s.loaders[1].start.files == 2
            && s.loaders[1].config.under == 1 && Stamps(s, p) == [0, 1, 0]
  {
    var first, second := [Start(0, p), TakeStamp(0), Edit(p, 1), Look(0), Build(0, true)],
                         [Finish(0), Edit(p, 0), Start(1, p), TakeStamp(1), Look(1)];
    BuiltAfterEdit(p);
    ServedAfterRevert(Run(EMPTY, first), p);
    RunFive(EMPTY, Start(0, p), TakeStamp(0), Edit(p, 1), Look(0), Build(0, true), second);
    RunFive(EMPTY, Start(0, p), TakeStamp(0), Edit(p, 1), Look(0), Build(0, true), []);
    assert first + [] == first;
    assert first + second == [Start(0, p), TakeStamp(0), Edit(p, 1), Look(0), Build(0, true), Finish(0),
                              Edit(p, 0), Start(1, p), TakeStamp(1), Look(1)];
  }

  lemma BuiltAfterEdit(p: Project)
    ensures var s := Run(EMPTY, [Start(0, p), TakeStamp(0), Edit(p, 1), Look(0), Build(0, true)]);
            var none := Generation(0, 0);
            s == EMPTY.(files := map[p := [0, 1]],
                        loaders := map[0 := Built(p, Moment(none, 0, 0), Fingerprint(0, 0), none, None, Config(Some(0), 1, none))])
  {
    var s1 := Apply(EMPTY, Start(0, p));
    var s2 := Apply(s1, TakeStamp(0));
    assert s2.loaders[0] == Stamped(p, Moment(Generation(0, 0), 0, 0), Fingerprint(0, 0));
    var s3 := Apply(s2, Edit(p, 1));
    assert s2.files == map[] && Stamps(s2, p) + [1] == [0, 1];
    assert s3.files == map[p := [0, 1]] && s3.loaders[0] == s2.loaders[0];
    var s4 := Apply(s3, Look(0));
    assert s4.loaders[0] == Missed(p, Moment(Generation(0, 0), 0, 0), Fingerprint(0, 0), Generation(0, 0), None);
    var s5 := Apply(s4, Build(0, true));
    assert s5.loaders.Keys == {0};
    RunFive(EMPTY, Start(0, p), TakeStamp(0), Edit(p, 1), Look(0), Build(0, true), []);
    assert [Start(0, p), TakeStamp(0), Edit(p, 1), Look(0), Build(0, true)] + []
        == [Start(0, p), TakeStamp(0), Edit(p, 1), Look(0), Build(0, true)];
  }

  lemma ServedAfterRevert(s: System, p: Project)
    requires var none := Generation(0, 0);
             s == EMPTY.(files := map[p := [0, 1]],
                         loaders := map[0 := Built(p, Moment(none, 0, 0), Fingerprint(0, 0), none, None, Config(Some(0), 1, none))])
    ensures var t := Run(s, [Finish(0), Edit(p, 0), Start(1, p), TakeStamp(1), Look(1)]);
            && 1 in t.loaders && t.loaders[1].Served? && t.loaders[1].start.files == 2
            && t.loaders[1].config.under == 1 && Stamps(t, p) == [0, 1, 0]
  {
    var again := [Start(1, p), TakeStamp(1), Look(1)];
    var s6 := Apply(s, Finish(0));
    assert s6.g.cache[p].fingerprint == Fingerprint(0, 0) && s6.g.cache[p].config.under == 1;
    var s7 := Apply(s6, Edit(p, 0));
    assert Stamps(s6, p) + [0] == [0, 1, 0];
    assert s7 == s6.(files := s7.files) && Stamps(s7, p) == [0, 1, 0];
    assert Current(s7, p) == Fingerprint(0, 0);
    hide Apply, Current, Stamps;
    SecondLoad(s7, 1, p);
    SameFiles(s7, Run(s7, again), p);
    RunOne(s, Finish(0), [Edit(p, 0)] + again);
    RunOne(s6, Edit(p, 0), again);
    assert [Finish(0)] + ([Edit(p, 0)] + again) == [Finish(0), Edit(p, 0), Start(1, p), TakeStamp(1), Look(1)];
  }

  lemma RunFive(s: System, a: Action, b: Action, c: Action, d: Action, e: Action, rest: seq<Action>)
    ensures Run(s, [a, b, c, d, e] + rest) == Run(Apply(Apply(Apply(Apply(Apply(s, a), b), c), d), e), rest)
  {
    hide Apply, Run;
    RunOne(s, a, [b, c, d, e] + rest);
    RunOne(Apply(s, a), b, [c, d, e] + rest);
    RunOne(Apply(Apply(s, a), b), c, [d, e] + rest);
    RunOne(Apply(Apply(Apply(s, a), b), c), d, [e] + rest);
    RunOne(Apply(Apply(Apply(Apply(s, a), b), c), d), e, rest);
    assert [a, b, c, d, e] + rest == [a] + ([b, c, d, e] + rest);
    assert [b, c, d, e] + rest == [b] + ([c, d, e] + rest);
    assert [c, d, e] + rest == [c] + ([d, e] + rest);
    assert [d, e] + rest == [d] + ([e] + rest);
  }

  lemma RunOne(s: System, a: Action, rest: seq<Action>)
    ensures Run(s, [a] + rest) == Run(Apply(s, a), rest)
  {
    hide Apply;
    assert ([a] + rest)[1..] == rest;
  }
}
