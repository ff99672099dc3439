/**
 A batch of downloads as its callers see it (Many in fetch/fetch.go).

 Jobs run here one after the other. The Pool module proves the same promises of
 workers whose system calls interleave arbitrarily.
 */
module Transfers {

  import opened Wrappers
  import opened Disk
  import opened Fetch
  import Missing

  datatype Job = Job(req: string, dst: Path, want: Option<Expect>, optional: bool, stage: bool)

  predicate EndsWith(s: string, suffix: string) {
    |suffix| <= |s| && s[|s| - |suffix|..] == suffix
  }

  /** Names the mirror itself writes next to a destination. */
  predicate IsWork(p: Path) {
    EndsWith(p, STAGED_SUFFIX) || EndsWith(p, PARTIAL_SUFFIX)
  }

  /** Clients see no difference between the two trees. */
  ghost predicate LiveSame(a: Files, b: Files) {
    forall p | !IsWork(p) :: Same(a, b, p)
  }

  /** No two jobs share a destination, and no destination is a work name. */
  predicate Distinct(jobs: seq<Job>) {
    && (forall i | 0 <= i < |jobs| :: !IsWork(jobs[i].dst))
    && (forall i, j | 0 <= i < j < |jobs| :: jobs[i].dst != jobs[j].dst)
  }

  /** What fails on a prefix of a list fails on the list, if one more entry never
      helps. */
  lemma {:induction false} FailsFromPrefix<E>(fails: seq<E> -> bool, es: seq<E>, n: nat)
    requires forall s: seq<E> | s != [] && fails(s[..|s| - 1]) :: fails(s)
    requires n <= |es| && fails(es[..n])
    ensures fails(es)
    decreases |es| - n
  {
    if n < |es| {
      var s := es[..n + 1];
      assert s[..|s| - 1] == es[..n];
      FailsFromPrefix(fails, es, n + 1);
    } else {
      assert es[..n] == es;
    }
  }

  function Dsts(jobs: seq<Job>): set<Path> {
    set i | 0 <= i < |jobs| :: jobs[i].dst
  }

  function Footprint(job: Job): set<Path> {
    {Target(job.dst, job.stage), Partial(job.dst)}
  }

  function Footprints(jobs: seq<Job>): set<Path> {
    set i, p | 0 <= i < |jobs| && p in Footprint(jobs[i]) :: p
  }

  lemma {:induction false} WorkNames(dst: Path)
    ensures IsWork(Staged(dst)) && IsWork(Partial(dst))
    ensures Staged(dst)[..|dst|] == dst && Partial(dst)[..|dst|] == dst
  {
  }

  /** Different plain destinations have different staged and partial names. */
  lemma {:induction false} WorkNamesDiffer(a: Path, b: Path)
    requires a != b && !IsWork(a) && !IsWork(b)
    ensures {a, Staged(a), Partial(a)} !! {b, Staged(b), Partial(b)}
  {
    WorkNames(a);
    WorkNames(b);
    assert Staged(a)[|Staged(a)| - 1] == 'd' && Staged(b)[|Staged(b)| - 1] == 'd';
    assert Partial(a)[|Partial(a)| - 1] == 'l' && Partial(b)[|Partial(b)| - 1] == 'l';
  }

  lemma {:induction false} FootprintsDiffer(jobs: seq<Job>, i: nat, j: nat)
    requires Distinct(jobs) && i < |jobs| && j < |jobs| && i != j
    ensures jobs[i].dst !in Footprint(jobs[j]) && Staged(jobs[i].dst) !in Footprint(jobs[j])
  {
    assert jobs[i].dst != jobs[j].dst;
    WorkNamesDiffer(jobs[i].dst, jobs[j].dst);
  }

  /** What the state recorded for a job says about the tree. */
  predicate Ended(hash: Hash, verify: bool, files: Files, job: Job, state: FileState) {
    match state
    case FileMissing => true
    case FileUnchanged =>
      job.dst in files && (job.want.Some? ==> Acceptable(hash, job.want.value, verify, files[job.dst]))
    case FileFetched => !job.stage && job.dst in files && Matches(hash, job.want, files[job.dst])
    case FileStaged => job.stage && Staged(job.dst) in files && Matches(hash, job.want, files[Staged(job.dst)])
  }

  lemma {:induction false} EndedKept(hash: Hash, verify: bool, a: Files, b: Files, job: Job, state: FileState)
    requires Ended(hash, verify, a, job, state)
    requires Same(a, b, job.dst) && Same(a, b, Staged(job.dst))
    ensures Ended(hash, verify, b, job, state)
  {
  }

  datatype JobEnd = Counted(state: FileState) | Skipped | Hard(error: FetchError)

  /** Unless this run staged the file, a staged copy is there exactly when an
      earlier one could not be removed, and is that one. */
  ghost predicate LeftAlone(a: Files, b: Files, job: Job, state: FileState, leftover: bool) {
    job.stage && !state.FileStaged? ==>
      (leftover <==> Staged(job.dst) in b) && (leftover ==> Same(a, b, Staged(job.dst)))
  }

  /** Who is counted as missing after one more job. */
  function Seen(job: Job, seen: set<string>, end: JobEnd): set<string> {
    if end.Skipped? && !job.optional then seen + {job.req} else seen
  }

  /** One job of the batch, as a worker runs it. */
  method RunJob(tree: Tree, hash: Hash, job: Job, verify: bool, miss: Missing.Missing?)
    returns (end: JobEnd, leftover: bool, ghost replies: seq<Reply>)
    requires tree.Valid() && (miss != null ==> miss.Valid())
    modifies tree, if miss == null then {} else {miss}
    ensures tree.statFaults >= old(tree.statFaults)
    ensures tree.Valid() && old(tree.log) <= tree.log
    ensures miss != null ==> miss.Valid() && miss.seen == Seen(job, old(miss.seen), end)
    ensures KeptSince(tree.log, |old(tree.log)|, old(tree.files), Footprint(job))
    ensures SameOutside(old(tree.files), tree.files, Footprint(job))
    ensures end.Counted? ==> !end.state.FileMissing? && Ended(hash, verify, tree.files, job, end.state)
    ensures end.Skipped? ==> |replies| > 0 && replies[|replies| - 1] == Failed(NotFound)
    ensures end.Skipped? && !job.optional ==> miss != null
    ensures end.Hard? ==> end.error != NotFound || (!job.optional && miss == null)
    ensures job.stage && Staged(job.dst) in tree.files ==> end == Counted(FileStaged) || leftover
    ensures leftover ==> Staged(job.dst) in old(tree.files)
    ensures LeftAlone(old(tree.files), tree.files, job, if end.Counted? then end.state else FileMissing, leftover)
  {
    var r, _, kept, said := File(tree, hash, job.dst, job.want, job.stage, verify, false);
    leftover, replies := kept, said;
    if r.Ok? {
      return Counted(r.value), leftover, replies;
    }
    if r.error == NotFound && job.optional {
      return Skipped, leftover, replies;
    }
    if r.error == NotFound && miss != null {
      var _ := miss.Tolerate(job.req);
      return Skipped, leftover, replies;
    }
    return Hard(r.error), leftover, replies;
  }

  /** A job's state, the keep set and the tree agree; a staged copy is either
      this run's or one that could not be removed. */
  predicate Settled(hash: Hash, verify: bool, files: Files, job: Job, state: FileState, leftovers: set<Path>, keep: set<Path>) {
    && Ended(hash, verify, files, job, state)
    && (!state.FileMissing? ==> job.dst in keep)
    && (job.stage && Staged(job.dst) in files ==> state.FileStaged? || job.dst in leftovers)
  }

  /** The first i jobs are settled and the others untouched since a. */
  ghost predicate Progress(hash: Hash, verify: bool, jobs: seq<Job>, i: nat, a: Files, files: Files,
                           states: seq<FileState>, leftovers: set<Path>, keep: set<Path>) {
    && i <= |jobs| == |states|
    && (forall k | 0 <= k < i :: Settled(hash, verify, files, jobs[k], states[k], leftovers, keep))
    && (forall k | i <= k < |jobs| :: Same(a, files, Staged(jobs[k].dst)) && states[k] == FileMissing)
    && (forall k | 0 <= k < i :: LeftAlone(a, files, jobs[k], states[k], jobs[k].dst in leftovers))
    && (forall p | p in leftovers :: Staged(p) in a && exists k :: 0 <= k < i && jobs[k].dst == p)
  }

  lemma {:induction false} ProgressStep(hash: Hash, verify: bool, jobs: seq<Job>, i: nat, a: Files, b: Files, c: Files,
                     states: seq<FileState>, leftovers: set<Path>, keep: set<Path>, end: JobEnd, leftover: bool)
    requires Distinct(jobs) && i < |jobs| && !end.Hard?
    requires Progress(hash, verify, jobs, i, a, b, states, leftovers, keep)
    requires SameOutside(b, c, Footprint(jobs[i]))
    requires end.Counted? ==> !end.state.FileMissing? && Ended(hash, verify, c, jobs[i], end.state)
    requires jobs[i].stage && Staged(jobs[i].dst) in c ==> end == Counted(FileStaged) || leftover
    requires leftover ==> Staged(jobs[i].dst) in b
    requires LeftAlone(b, c, jobs[i], if end.Counted? then end.state else FileMissing, leftover)
    ensures Progress(hash, verify, jobs, i + 1, a, c,
                     if end.Counted? then states[i := end.state] else states,
                     if leftover then leftovers + {jobs[i].dst} else leftovers,
                     if end.Counted? then keep + {jobs[i].dst} else keep)
  {
    forall k | 0 <= k < |jobs| && k != i
      ensures Same(b, c, jobs[k].dst) && Same(b, c, Staged(jobs[k].dst))
    {
      FootprintsDiffer(jobs, k, i);
    }
    forall k | 0 <= k < i
      ensures Ended(hash, verify, c, jobs[k], states[k])
    {
      assert Settled(hash, verify, b, jobs[k], states[k], leftovers, keep);
      EndedKept(hash, verify, b, c, jobs[k], states[k]);
    }
    LeftStep(jobs, i, a, b, c, states, leftovers, end, leftover);
  }

  lemma {:induction false} LeftStep(jobs: seq<Job>, i: nat, a: Files, b: Files, c: Files, states: seq<FileState>, leftovers: set<Path>, end: JobEnd, leftover: bool)
    requires Distinct(jobs) && i < |jobs| == |states| && SameOutside(b, c, Footprint(jobs[i])) && Same(a, b, Staged(jobs[i].dst))
    requires states[i] == FileMissing && forall k | 0 <= k < i :: LeftAlone(a, b, jobs[k], states[k], jobs[k].dst in leftovers)
    requires LeftAlone(b, c, jobs[i], if end.Counted? then end.state else FileMissing, leftover)
    requires forall p | p in leftovers :: exists k :: 0 <= k < i && jobs[k].dst == p
    ensures
      var states' := if end.Counted? then states[i := end.state] else states;
      var leftovers' := if leftover then leftovers + {jobs[i].dst} else leftovers;
      forall k | 0 <= k <= i :: LeftAlone(a, c, jobs[k], states'[k], jobs[k].dst in leftovers')
  {
    forall k | 0 <= k < i ensures Same(b, c, Staged(jobs[k].dst)) && jobs[k].dst != jobs[i].dst {
      FootprintsDiffer(jobs, k, i);
    }
    assert jobs[i].dst !in leftovers;
  }

  lemma {:induction false} TouchedStep(log: seq<Files>, n: nat, m: nat, a: Files, b: Files, c: Files, jobs: seq<Job>, i: nat)
    requires i < |jobs| && n <= m <= |log|
    requires KeptSince(log[..m], n, a, Footprints(jobs)) && SameOutside(a, b, Footprints(jobs))
    requires KeptSince(log, m, b, Footprint(jobs[i])) && SameOutside(b, c, Footprint(jobs[i]))
    ensures KeptSince(log, n, a, Footprints(jobs)) && SameOutside(a, c, Footprints(jobs))
  {
    KeptJoin(log, n, m, a, b, Footprints(jobs), Footprint(jobs[i]));
    SameOutsideTrans(a, b, c, Footprints(jobs), Footprint(jobs[i]));
  }

  predicate Pending(states: seq<FileState>, n: nat) {
    forall k | n <= k < |states| :: states[k].FileMissing?
  }

  /** What was counted as missing are mandatory jobs without a file. */
  predicate Absences(jobs: seq<Job>, states: seq<FileState>, n: nat, before: set<string>, seen: set<string>)
    requires n <= |jobs| == |states|
  {
    forall p | p in seen && p !in before :: exists k | 0 <= k < n :: jobs[k].req == p && !jobs[k].optional && states[k].FileMissing?
  }

  /** What the batch adds to the keep set are destinations that have a file. */
  predicate KeepsLive(jobs: seq<Job>, states: seq<FileState>, n: nat, keep: set<Path>, keep': set<Path>)
    requires n <= |jobs| == |states|
  {
    forall p | p in keep' && p !in keep :: exists k | 0 <= k < n :: jobs[k].dst == p && !states[k].FileMissing?
  }

  lemma {:induction false} KeepsStep(jobs: seq<Job>, states: seq<FileState>, i: nat, keep: set<Path>, keep': set<Path>, end: JobEnd)
    requires i < |jobs| == |states| && Pending(states, i) && KeepsLive(jobs, states, i, keep, keep')
    requires end.Counted? ==> !end.state.FileMissing?
    ensures KeepsLive(jobs, if end.Counted? then states[i := end.state] else states, i + 1, keep, if end.Counted? then keep' + {jobs[i].dst} else keep')
  {
    var states' := if end.Counted? then states[i := end.state] else states;
    forall p | p in keep' && p !in keep ensures exists k | 0 <= k < i + 1 :: jobs[k].dst == p && !states'[k].FileMissing? {
      var k :| 0 <= k < i && jobs[k].dst == p && !states[k].FileMissing?;
      assert states'[k] == states[k];
    }
    assert end.Counted? ==> states'[i] == end.state;
  }

  lemma {:induction false} AbsencesStep(jobs: seq<Job>, states: seq<FileState>, i: nat, before: set<string>, seen: set<string>, end: JobEnd)
    requires i < |jobs| == |states| && Pending(states, i) && Absences(jobs, states, i, before, seen)
    ensures Absences(jobs, if end.Counted? then states[i := end.state] else states, i + 1, before, Seen(jobs[i], seen, end))
    ensures Pending(if end.Counted? then states[i := end.state] else states, i + 1)
    ensures end.Hard? ==> Absences(jobs, states, |jobs|, before, Seen(jobs[i], seen, end))
  {
    var states' := if end.Counted? then states[i := end.state] else states;
    forall p | p in Seen(jobs[i], seen, end) && p !in before
      ensures exists k | 0 <= k < i + 1 :: jobs[k].req == p && !jobs[k].optional && states'[k].FileMissing?
    {
      if p in seen {
        var k :| 0 <= k < i && jobs[k].req == p && !jobs[k].optional && states[k].FileMissing?;
        assert states'[k] == states[k];
      } else {
        assert states'[i] == states[i];
      }
    }
  }

  /** How states, missing files and the keep set agree after n jobs. */
  predicate Tally(jobs: seq<Job>, states: seq<FileState>, n: nat, tolerant: bool, before: set<string>, seen: set<string>, keep: set<Path>, keep': set<Path>)
    requires n <= |jobs| == |states|
  {
    && Pending(states, n) && Absences(jobs, states, n, before, seen) && KeepsLive(jobs, states, n, keep, keep')
    && forall k | 0 <= k < n && states[k].FileMissing? && !jobs[k].optional :: tolerant && jobs[k].req in seen
  }

  lemma {:induction false} TallyStep(jobs: seq<Job>, states: seq<FileState>, i: nat, tolerant: bool, before: set<string>, seen: set<string>, keep: set<Path>,
                                     keep': set<Path>, end: JobEnd)
    requires i < |jobs| == |states| && Tally(jobs, states, i, tolerant, before, seen, keep, keep')
    requires end.Counted? ==> !end.state.FileMissing?
    requires end.Skipped? && !jobs[i].optional ==> tolerant
    ensures !end.Hard? ==>
              Tally(jobs, if end.Counted? then states[i := end.state] else states, i + 1, tolerant, before, Seen(jobs[i], seen, end),
                    keep, if end.Counted? then keep' + {jobs[i].dst} else keep')
    ensures end.Hard? ==> Absences(jobs, states, |jobs|, before, Seen(jobs[i], seen, end))
  {
    AbsencesStep(jobs, states, i, before, seen, end);
    KeepsStep(jobs, states, i, keep, keep', end);
  }

  /** On success every job ended as its state says and all absences were
      allowed, if no two jobs share a destination; an allowed absence is never the
      failure; in any case, and at every moment, nothing but the jobs' own targets
      and partial files changes. */
  method Many(tree: Tree, hash: Hash, jobs: seq<Job>, verify: bool, keep: set<Path>, miss: Missing.Missing?)
    returns (ok: bool, states: seq<FileState>, keep': set<Path>, leftovers: set<Path>, error: Option<FetchError>)
    requires tree.Valid()
    requires miss != null ==> miss.Valid()
    modifies tree, if miss == null then {} else {miss}
    ensures tree.statFaults >= old(tree.statFaults)
    ensures tree.Valid() && old(tree.log) <= tree.log
    ensures miss != null ==> miss.Valid() && old(miss.seen) <= miss.seen
    ensures KeptSince(tree.log, |old(tree.log)|, old(tree.files), Footprints(jobs))
    ensures SameOutside(old(tree.files), tree.files, Footprints(jobs))
    ensures |states| == |jobs| && keep <= keep'
    ensures ok && Distinct(jobs) ==> forall i | 0 <= i < |jobs| :: Settled(hash, verify, tree.files, jobs[i], states[i], leftovers, keep')
    ensures ok ==> forall i | 0 <= i < |jobs| && states[i].FileMissing? && !jobs[i].optional :: miss != null && jobs[i].req in miss.seen
    ensures miss != null ==> Absences(jobs, states, |jobs|, old(miss.seen), miss.seen)
    ensures ok ==> KeepsLive(jobs, states, |jobs|, keep, keep')
    ensures Distinct(jobs) ==> forall p | p in leftovers :: Staged(p) in old(tree.files)
    ensures ok && Distinct(jobs) ==> forall i | 0 <= i < |jobs| :: LeftAlone(old(tree.files), tree.files, jobs[i], states[i], jobs[i].dst in leftovers)
    ensures leftovers <= Dsts(jobs)
    ensures ok <==> error.None?
    ensures error == Some(NotFound) ==> miss == null && exists i | 0 <= i < |jobs| :: !jobs[i].optional
  {
    error := None;
    states := seq(|jobs|, _ => FileMissing);
    keep', leftovers := keep, {};
    ghost var n, a := |tree.log|, tree.files;
    ghost var before := if miss == null then {} else miss.seen;
    ghost var seen := before;
    for i := 0 to |jobs|
      invariant tree.Valid() && old(tree.log) <= tree.log && tree.statFaults >= old(tree.statFaults)
      invariant miss != null ==> miss.Valid() && old(miss.seen) <= miss.seen
      invariant KeptSince(tree.log, n, a, Footprints(jobs)) && SameOutside(a, tree.files, Footprints(jobs))
      invariant keep <= keep' && |states| == |jobs| && leftovers <= Dsts(jobs)
      invariant Tally(jobs, states, i, miss != null, before, seen, keep, keep') && (miss != null ==> miss.seen == seen)
      invariant Distinct(jobs) ==> Progress(hash, verify, jobs, i, a, tree.files, states, leftovers, keep')
    {
      ghost var b, m := tree.files, |tree.log|;
      var end, leftover, _ := RunJob(tree, hash, jobs[i], verify, miss);
      TouchedStep(tree.log, n, m, a, b, tree.files, jobs, i);
      TallyStep(jobs, states, i, miss != null, before, seen, keep, keep', end);
      seen := Seen(jobs[i], seen, end);
      if end.Hard? {
        return false, states, keep', leftovers, Some(end.error);
      }
      if Distinct(jobs) { ProgressStep(hash, verify, jobs, i, a, b, tree.files, states, leftovers, keep', end, leftover); }
      assert jobs[i].dst in Dsts(jobs);
      leftovers := if leftover then leftovers + {jobs[i].dst} else leftovers;
      keep' := if end.Counted? then keep' + {jobs[i].dst} else keep';
      states := if end.Counted? then states[i := end.state] else states;
    }
    ok := true;
  }
}
