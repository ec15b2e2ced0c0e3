/** The guard against silently reverting a sibling's change (sova/core/pr_diff_guard.py). */
module RevertGuard {
  import opened Basics

  type FilePath = string
  type Blob = string

  /** A commit's tree: the blob of each path. */
  type Commit = map<FilePath, Blob>

  function BlobAt(c: Commit, p: FilePath): Option<Blob> {
    if p in c then Some(c[p]) else None
  }

  /** The paths on which two commits differ. */
  function Diff(a: Commit, b: Commit): set<FilePath> {
    set p | p in a.Keys + b.Keys && BlobAt(a, p) != BlobAt(b, p)
  }

  /** New to the diff, and changed by the base. */
  function DetectRevertedFiles(preRunFiles: set<FilePath>, postRunFiles: set<FilePath>, baseChanged: set<FilePath>): set<FilePath> {
    (postRunFiles - preRunFiles) * baseChanged
  }

  datatype Finding = Reverted | Inconclusive | Innocent

  /** What the three blobs of a candidate say. */
  function ConfirmContent(head: Option<Blob>, pre: Option<Blob>, base: Option<Blob>): Finding {
    if head.None? then Inconclusive
    else if pre.None? then Innocent
    else if base.None? then Reverted
    else if head == pre && head != base then Reverted
    else Innocent
  }

  /** What git answers: whether each step succeeds, and the commits it resolves. */
  datatype Repository = Repository(
    fetched: bool,
    baselineAtOnce: bool,
    baselineAfterFetch: bool,
    preRun: Commit,
    head: Commit,
    base: Commit,
    preFork: Option<Commit>,
    postFork: Option<Commit>,
    preDiffed: bool,
    postDiffed: bool,
    baseDiffed: bool)

  datatype Reason =
    | Fine
    | BaselineMissing
    | Unverifiable
    | SilentRevert
    | BranchDeleted

  datatype GuardResult = GuardResult(ok: bool, reason: Reason, files: set<FilePath>, inconclusive: bool)

  predicate BaselinePresent(repo: Repository) {
    repo.baselineAtOnce || repo.baselineAfterFetch
  }

  /** Every reference and difference the verdict needs could be computed. */
  predicate Resolved(repo: Repository) {
    && repo.fetched && BaselinePresent(repo)
    && repo.preFork.Some? && repo.postFork.Some?
    && repo.preDiffed && repo.postDiffed && repo.baseDiffed
  }

  function Candidates(repo: Repository): set<FilePath>
    requires Resolved(repo)
  {
    DetectRevertedFiles(
      Diff(repo.preFork.value, repo.preRun), Diff(repo.postFork.value, repo.head), Diff(repo.preFork.value, repo.base))
  }

  function FindingAt(repo: Repository, p: FilePath): Finding
    requires Resolved(repo)
  {
    ConfirmContent(BlobAt(repo.head, p), BlobAt(repo.preFork.value, p), BlobAt(repo.base, p))
  }

  function FilesFound(repo: Repository, finding: Finding): set<FilePath>
    requires Resolved(repo)
  {
    set p | p in Candidates(repo) && FindingAt(repo, p) == finding
  }

  /** The verdict as a function of what is found, in no particular order. */
  function Verdict(repo: Repository): GuardResult {
    if repo.fetched && !BaselinePresent(repo) then GuardResult(true, BaselineMissing, {}, false)
    else if !Resolved(repo) then GuardResult(false, Unverifiable, {}, true)
    else if FilesFound(repo, Reverted) != {} then GuardResult(false, SilentRevert, FilesFound(repo, Reverted), false)
    else if FilesFound(repo, Inconclusive) != {} then GuardResult(false, BranchDeleted, {}, true)
    else GuardResult(true, Fine, {}, false)
  }

  method CheckSilentRevert(repo: Repository) returns (r: GuardResult)
    ensures r == Verdict(repo)
  {
    if !repo.fetched {
      return GuardResult(false, Unverifiable, {}, true);
    }
    if !repo.baselineAtOnce {
      if !repo.baselineAfterFetch {
        return GuardResult(true, BaselineMissing, {}, false);
      }
    }
    if repo.preFork.None? {
      return GuardResult(false, Unverifiable, {}, true);
    }
    if repo.postFork.None? {
      return GuardResult(false, Unverifiable, {}, true);
    }
    if !repo.preDiffed || !repo.postDiffed || !repo.baseDiffed {
      return GuardResult(false, Unverifiable, {}, true);
    }
    var confirmed, deleted := SortCandidates(Candidates(repo), repo.head, repo.preFork.value, repo.base);
    assert confirmed == FilesFound(repo, Reverted) && deleted == FilesFound(repo, Inconclusive);
    if confirmed != {} {
      return GuardResult(false, SilentRevert, confirmed, false);
    }
    if deleted != {} {
      return GuardResult(false, BranchDeleted, {}, true);
    }
    return GuardResult(true, Fine, {}, false);
  }

  predicate Finds(head: Commit, pre: Commit, base: Commit, p: FilePath, finding: Finding) {
    ConfirmContent(BlobAt(head, p), BlobAt(pre, p), BlobAt(base, p)) == finding
  }

  /** Every candidate is looked at, in whatever order. */
  method SortCandidates(candidates: set<FilePath>, head: Commit, pre: Commit, base: Commit)
    returns (confirmed: set<FilePath>, deleted: set<FilePath>)
    ensures forall p :: p in confirmed <==> p in candidates && Finds(head, pre, base, p, Reverted)
    ensures forall p :: p in deleted <==> p in candidates && Finds(head, pre, base, p, Inconclusive)
  {
    confirmed, deleted := {}, {};
    var todo := candidates;
    while todo != {}
      invariant todo <= candidates
      invariant forall p :: p in confirmed <==> p in candidates && p !in todo && Finds(head, pre, base, p, Reverted)
      invariant forall p :: p in deleted <==> p in candidates && p !in todo && Finds(head, pre, base, p, Inconclusive)
      decreases |todo|
    {
      var p :| p in todo;
      todo := todo - {p};
      match ConfirmContent(BlobAt(head, p), BlobAt(pre, p), BlobAt(base, p)) {
        case Inconclusive => deleted := deleted + {p};
        case Reverted => confirmed := confirmed + {p};
        case Innocent =>
      }
    }
  }

  // ---------------------------------------------------------------- what the verdict means

  /** A path that was not the pull request's own before the run, and that the base changed since the fork. */
  predicate SiblingChanged(repo: Repository, p: FilePath)
    requires Resolved(repo)
  {
    && BlobAt(repo.preFork.value, p) == BlobAt(repo.preRun, p)
    && BlobAt(repo.preFork.value, p) != BlobAt(repo.base, p)
  }

  /** The pull request, which has changed nothing there before, now does, while a sibling has changed it too. */
  predicate Overlaps(repo: Repository, p: FilePath)
    requires Resolved(repo)
  {
    SiblingChanged(repo, p) && BlobAt(repo.head, p) != BlobAt(repo.postFork.value, p)
  }

  /** It holds what it held before the sibling, or what the base has deleted. */
  predicate BringsBackOld(repo: Repository, p: FilePath)
    requires Resolved(repo)
  {
    && Overlaps(repo, p) && p in repo.head && p in repo.preFork.value
    && (p in repo.base ==> repo.head[p] == repo.preFork.value[p])
  }

  lemma FoundExactly(repo: Repository, p: FilePath)
    requires Resolved(repo)
    ensures p in FilesFound(repo, Reverted) <==> BringsBackOld(repo, p)
    ensures p in FilesFound(repo, Inconclusive) <==> Overlaps(repo, p) && p !in repo.head
  {
    InDiff(repo.preFork.value, repo.preRun, p);
    InDiff(repo.postFork.value, repo.head, p);
    InDiff(repo.preFork.value, repo.base, p);
  }

  /**
   * The whole verdict. A missing baseline passes; anything else that cannot be resolved is inconclusive
   * and fails. Then exactly the files that bring back old content are reported; without one, a deleted
   * file that a sibling had changed makes the verdict an inconclusive failure; and otherwise it is ok.
   */
  lemma VerdictExactly(repo: Repository)
    ensures var v := Verdict(repo);
            && (v.reason == BaselineMissing <==> repo.fetched && !repo.baselineAtOnce && !repo.baselineAfterFetch)
            && (v.reason == Unverifiable <==>
                  !repo.fetched
                  || ((repo.baselineAtOnce || repo.baselineAfterFetch)
                      && (repo.preFork.None? || repo.postFork.None? || !repo.preDiffed || !repo.postDiffed || !repo.baseDiffed)))
            && (v.ok <==> v.reason == Fine || v.reason == BaselineMissing)
            && (v.inconclusive <==> v.reason == Unverifiable || v.reason == BranchDeleted)
            && (v.files != {} <==> v.reason == SilentRevert)
            && (Resolved(repo) <==> v.reason != Unverifiable && v.reason != BaselineMissing)
            && (Resolved(repo) ==>
                  && (forall p :: p in v.files <==> BringsBackOld(repo, p))
                  && (v.reason == SilentRevert <==> exists p :: BringsBackOld(repo, p))
                  && (v.reason == BranchDeleted <==> v.files == {} && exists p :: Overlaps(repo, p) && p !in repo.head))
  {
    if Resolved(repo) {
      forall p
        ensures p in FilesFound(repo, Reverted) <==> BringsBackOld(repo, p)
        ensures p in FilesFound(repo, Inconclusive) <==> Overlaps(repo, p) && p !in repo.head
      {
        FoundExactly(repo, p);
      }
      hide FilesFound, BringsBackOld, Overlaps;
      if p :| p in FilesFound(repo, Reverted) { assert BringsBackOld(repo, p); }
      if p :| p in FilesFound(repo, Inconclusive) { assert Overlaps(repo, p) && p !in repo.head; }
    }
  }

  /** The head took the base's version, or has new content of its own for a file the base kept. */
  predicate Respected(repo: Repository, p: FilePath)
    requires Resolved(repo)
  {
    || BlobAt(repo.head, p) == BlobAt(repo.base, p)
    || (p in repo.head && p in repo.base && BlobAt(repo.head, p) != BlobAt(repo.preFork.value, p))
  }

  /** On a branch rebased onto the base tip the candidates are exactly the siblings' paths that the head has otherwise. */
  lemma CandidatesAfterRebase(repo: Repository, p: FilePath)
    requires Resolved(repo) && repo.postFork == Some(repo.base)
    ensures p in Candidates(repo) <==> SiblingChanged(repo, p) && BlobAt(repo.head, p) != BlobAt(repo.base, p)
  {
    InDiff(repo.preFork.value, repo.preRun, p);
    InDiff(repo.base, repo.head, p);
    InDiff(repo.preFork.value, repo.base, p);
  }

  lemma InDiff(a: Commit, b: Commit, p: FilePath)
    ensures p in Diff(a, b) <==> BlobAt(a, p) != BlobAt(b, p)
  {
  }

  /** After a rebase the verdict is ok exactly when every sibling's change was respected. */
  lemma OkMeansRespected(repo: Repository)
    requires Resolved(repo) && repo.postFork == Some(repo.base)
    ensures Verdict(repo).ok <==> forall p :: SiblingChanged(repo, p) ==> Respected(repo, p)
  {
    forall p ensures (SiblingChanged(repo, p) ==> Respected(repo, p)) <==>
                     p !in FilesFound(repo, Reverted) && p !in FilesFound(repo, Inconclusive) {
      CandidatesAfterRebase(repo, p);
    }
    if !Verdict(repo).ok {
      var p :| p in FilesFound(repo, Reverted) + FilesFound(repo, Inconclusive);
    }
  }

  /** The branch's new fork point no longer has the path as it was at the old one. */
  predicate MovedOn(repo: Repository, p: FilePath)
    requires Resolved(repo)
  {
    BlobAt(repo.postFork.value, p) != BlobAt(repo.preFork.value, p)
  }

  /** Whatever the head, an ok verdict rules out that the path stands as it was before the sibling. */
  ghost predicate Guarded(repo: Repository, p: FilePath)
    requires Resolved(repo)
  {
    forall head :: Verdict(repo.(head := head)).ok ==> BlobAt(head, p) != BlobAt(repo.preFork.value, p)
  }

  /**
   * The guard protects a sibling's path exactly when the branch's new fork point has moved on from
   * the old one there, which the two fork points tell before any head is looked at.
   */
  lemma GuardedExactly(repo: Repository, p: FilePath)
    requires Resolved(repo) && SiblingChanged(repo, p)
    ensures Guarded(repo, p) <==> MovedOn(repo, p)
  {
    if MovedOn(repo, p) {
      forall head | Verdict(repo.(head := head)).ok ensures BlobAt(head, p) != BlobAt(repo.preFork.value, p) {
        MovedOnIsGuarded(repo.(head := head), p);
      }
    } else {
      UnmovedPasses(repo);
      assert Verdict(repo.(head := repo.postFork.value)).ok;
    }
  }

  lemma MovedOnIsGuarded(repo: Repository, p: FilePath)
    requires Resolved(repo) && SiblingChanged(repo, p) && MovedOn(repo, p) && Verdict(repo).ok
    ensures BlobAt(repo.head, p) != BlobAt(repo.preFork.value, p)
  {
    InDiff(repo.preFork.value, repo.preRun, p);
    InDiff(repo.postFork.value, repo.head, p);
    InDiff(repo.preFork.value, repo.base, p);
    assert p !in FilesFound(repo, Reverted) && p !in FilesFound(repo, Inconclusive);
  }

  /** A head that is its own fork point has no candidates. */
  lemma UnmovedPasses(repo: Repository)
    requires Resolved(repo)
    ensures Verdict(repo.(head := repo.postFork.value)).ok
  {
    var same := repo.(head := repo.postFork.value);
    assert Diff(same.postFork.value, same.head) == {};
    assert Candidates(same) == {};
    assert FilesFound(same, Reverted) == {} && FilesFound(same, Inconclusive) == {};
  }

  /** So the guard protects every sibling's path exactly when the fork point has moved on from all of them. */
  lemma SoundExactly(repo: Repository)
    requires Resolved(repo)
    ensures (forall p | SiblingChanged(repo, p) :: Guarded(repo, p)) <==> (forall p | SiblingChanged(repo, p) :: MovedOn(repo, p))
  {
    forall p | SiblingChanged(repo, p) ensures Guarded(repo, p) <==> MovedOn(repo, p) { GuardedExactly(repo, p); }
  }

  /** In particular on a branch rebased onto the base tip, whose fork point has every sibling's change. */
  lemma OkIsSound(repo: Repository, p: FilePath)
    requires Resolved(repo) && repo.postFork == Some(repo.base) && Verdict(repo).ok && SiblingChanged(repo, p)
    ensures BlobAt(repo.head, p) != BlobAt(repo.preFork.value, p)
  {
    GuardedExactly(repo, p);
    assert repo.(head := repo.head) == repo;
  }

  /** A reported file carries the pre-fork content although the base has another, or the base has deleted it. */
  lemma ReportedIsReverted(repo: Repository, p: FilePath)
    requires p in Verdict(repo).files
    ensures Resolved(repo) && SiblingChanged(repo, p) && p in repo.head && p in repo.preFork.value
    ensures p in repo.base ==> repo.head[p] == repo.preFork.value[p] && repo.head[p] != repo.base[p]
  {
    InDiff(repo.preFork.value, repo.preRun, p);
    InDiff(repo.preFork.value, repo.base, p);
  }

  /** A confirmed revert is reported as one, whatever else the branch deleted. */
  lemma RevertBeatsDeletion(repo: Repository, p: FilePath)
    requires Resolved(repo) && p in Candidates(repo) && FindingAt(repo, p) == Reverted
    ensures Verdict(repo).reason == SilentRevert && !Verdict(repo).inconclusive && p in Verdict(repo).files
  {
    assert p in FilesFound(repo, Reverted);
  }

  /** An ok verdict is a verified one, except that a missing baseline is let through. */
  lemma OkIsVerified(repo: Repository)
    ensures Verdict(repo).ok && Verdict(repo).reason != BaselineMissing ==> Resolved(repo)
    ensures Verdict(repo).inconclusive ==> !Verdict(repo).ok && Verdict(repo).files == {}
    ensures Verdict(repo).reason == BaselineMissing <==> repo.fetched && !BaselinePresent(repo)
  {
  }

  /** Before any rebase, for instance, an untouched old file is not in the diff at all, so the verdict is ok although the head still has it. */
  lemma StaleBranchPasses(p: FilePath, before: Blob, after: Blob)
    requires before != after
    ensures var fork: Commit := map[p := before];
            var repo := Repository(true, true, true, fork, fork, map[p := after], Some(fork), Some(fork), true, true, true);
            Resolved(repo) && Verdict(repo).ok && SiblingChanged(repo, p) && BlobAt(repo.head, p) == BlobAt(fork, p)
  {
  }
}
