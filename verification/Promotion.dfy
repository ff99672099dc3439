/**
 Promotion of a batch of staged files (mirror/arch.go, mirror/deb.go, PromoteStaged
 in fetch/fetch.go): each live name changes at most once, to the staged bytes.
 */
module Promotion {

  import opened Wrappers
  import opened Disk
  import opened Fetch
  import opened Transfers
  import opened Staging

  function AllNames(jobs: seq<Job>): set<Path> {
    set i, p | 0 <= i < |jobs| && p in StageNames(jobs[i].dst) :: p
  }

  lemma {:induction false} NamesApart(jobs: seq<Job>, i: nat, j: nat)
    requires Distinct(jobs) && i < |jobs| && j < |jobs| && i != j
    ensures jobs[i].dst !in StageNames(jobs[j].dst) && Staged(jobs[i].dst) !in StageNames(jobs[j].dst)
  {
    assert jobs[i].dst != jobs[j].dst;
    WorkNamesDiffer(jobs[i].dst, jobs[j].dst);
    WorkNames(jobs[j].dst);
  }

  /** Every job that is not missing has bytes to promote. */
  predicate AllChosen(files: Files, jobs: seq<Job>, states: seq<FileState>)
    requires |states| == |jobs|
  {
    forall i | 0 <= i < |jobs| && !states[i].FileMissing? :: Chosen(files, jobs[i].dst).Some?
  }

  /** Promoting the destination has changed, if anything, only the live name,
      and to the bytes that were staged in a. */
  ghost predicate Moving(a: Files, files: Files, dst: Path) {
    && Chosen(files, dst) == Chosen(a, dst)
    && (Same(a, files, dst) || (dst in files && Chosen(a, dst) == Some(files[dst])))
  }

  ghost predicate AllMoving(a: Files, files: Files, jobs: seq<Job>, states: seq<FileState>)
    requires |states| == |jobs|
  {
    forall i | 0 <= i < |jobs| && !states[i].FileMissing? :: Moving(a, files, jobs[i].dst)
  }

  ghost predicate LogMoving(log: seq<Files>, n: nat, a: Files, jobs: seq<Job>, states: seq<FileState>)
    requires |states| == |jobs|
  {
    forall k | n <= k < |log| :: AllMoving(a, log[k], jobs, states)
  }

  predicate InPlace(files: Files, dst: Path) {
    dst in files && Staged(dst) !in files
  }

  function PromoteNames(jobs: seq<Job>): set<Path> {
    set i, p | 0 <= i < |jobs| && p in {jobs[i].dst} + {Staged(jobs[i].dst)} :: p
  }

  /** One job of a promotion pass; drop removes what the upstream dropped. */
  method PromoteOne(tree: Tree, job: Job, state: FileState, drop: bool) returns (ok: bool, failed: bool)
    requires tree.Valid()
    modifies tree
    ensures tree.Valid() && old(tree.log) <= tree.log && tree.statFaults >= old(tree.statFaults)
    ensures forall k | |old(tree.log)| <= k < |tree.log| :: tree.log[k] == tree.files
    ensures Stepped(old(tree.files), tree.files, job.dst, state)
    ensures ok && !state.FileMissing? ==> tree.files == Promoted(old(tree.files), job.dst)
    ensures state.FileMissing? && (!drop || failed) ==> tree.files == old(tree.files)
    ensures state.FileMissing? && drop && !failed ==> job.dst !in tree.files
    ensures state.FileMissing? ==> ok
  {
    failed := false;
    if state.FileMissing? {
      if drop {
        failed := RemoveStale(tree, job.dst);
      }
      return true, failed;
    }
    ok := PromoteStaged(tree, job.dst);
  }

  ghost predicate Stepped(b: Files, c: Files, dst: Path, state: FileState) {
    c == b || if state.FileMissing? then c == b - {dst} else c == Promoted(b, dst)
  }

  lemma {:induction false} StepMoves(a: Files, b: Files, c: Files, jobs: seq<Job>, states: seq<FileState>, i: nat)
    requires |states| == |jobs| && i < |jobs| && Distinct(jobs)
    requires AllMoving(a, b, jobs, states) && Stepped(b, c, jobs[i].dst, states[i])
    ensures AllMoving(a, c, jobs, states)
    ensures forall j | 0 <= j < |jobs| && j != i :: Same(b, c, jobs[j].dst) && (InPlace(b, jobs[j].dst) ==> InPlace(c, jobs[j].dst))
    ensures c == Promoted(b, jobs[i].dst) && !states[i].FileMissing? && Chosen(a, jobs[i].dst).Some? ==> InPlace(c, jobs[i].dst)
  {
    WorkNames(jobs[i].dst);
    forall j | 0 <= j < |jobs| && j != i ensures Same(b, c, jobs[j].dst) && Same(b, c, Staged(jobs[j].dst)) {
      NamesApart(jobs, j, i);
      NamesApart(jobs, i, j);
      WorkNames(jobs[j].dst);
    }
    forall j | 0 <= j < |jobs| && !states[j].FileMissing? ensures Moving(a, c, jobs[j].dst) {
      assert Moving(a, b, jobs[j].dst);
    }
  }

  lemma {:induction false} JoinPass(log: seq<Files>, n: nat, m: nat, a: Files, b: Files, c: Files, jobs: seq<Job>, states: seq<FileState>, i: nat)
    requires n <= m <= |log| && |states| == |jobs| && i < |jobs|
    requires Within(log[..m], n, a, b, PromoteNames(jobs)) && Stepped(b, c, jobs[i].dst, states[i])
    requires forall k | m <= k < |log| :: log[k] == c
    ensures Within(log, n, a, c, PromoteNames(jobs))
  {
    var mine := {jobs[i].dst} + {Staged(jobs[i].dst)};
    assert SameOutside(b, c, mine);
    WithinJoin(log, n, m, a, b, c, PromoteNames(jobs), mine);
    assert PromoteNames(jobs) + mine == PromoteNames(jobs);
  }

  lemma {:induction false} StagedFootprints(jobs: seq<Job>)
    requires forall i | 0 <= i < |jobs| :: jobs[i].stage
    ensures Footprints(jobs) == AllNames(jobs)
    ensures forall p | p in AllNames(jobs) :: IsWork(p)
  {
    forall i | 0 <= i < |jobs| ensures Footprint(jobs[i]) == StageNames(jobs[i].dst) && forall p | p in StageNames(jobs[i].dst) :: IsWork(p) {
      WorkNames(jobs[i].dst);
    }
  }

  function ExtraNames(jobs: seq<Job>): set<Path> {
    AllNames(jobs) + PromoteNames(jobs)
  }

  lemma {:induction false} Besides(x: Path, jobs: seq<Job>)
    requires !IsWork(x) && Distinct(jobs) && forall i | 0 <= i < |jobs| :: jobs[i].dst != x
    ensures x !in ExtraNames(jobs) && Staged(x) !in ExtraNames(jobs)
  {
    WorkNames(x);
    forall i | 0 <= i < |jobs| ensures {x, Staged(x)} !! {jobs[i].dst} + {Staged(jobs[i].dst)} + StageNames(jobs[i].dst) {
      WorkNamesDiffer(x, jobs[i].dst);
    }
  }

  lemma {:induction false} ChosenBeside(a: Files, b: Files, c: Files, x: Path, first: set<Path>, second: set<Path>)
    requires SameOutside(a, b, first) && SameOutside(b, c, second)
    requires x !in first + second && Staged(x) !in first + second
    ensures Chosen(a, x) == Chosen(c, x)
  {
    assert Same(a, b, x) && Same(b, c, x) && Same(a, b, Staged(x)) && Same(b, c, Staged(x));
  }

  /** A pass over all jobs, or over every other one from the given parity. */
  predicate InPass(i: nat, pass: Option<nat>) {
    pass.None? || i % 2 == pass.value
  }

  /** The live names of jobs outside the pass stay as they are in b. */
  ghost predicate OthersSame(b: Files, f: Files, jobs: seq<Job>, pass: Option<nat>) {
    forall j | 0 <= j < |jobs| && !InPass(j, pass) :: Same(b, f, jobs[j].dst)
  }

  ghost predicate LogOthersSame(log: seq<Files>, n: nat, b: Files, jobs: seq<Job>, pass: Option<nat>) {
    forall k | n <= k < |log| :: OthersSame(b, log[k], jobs, pass)
  }

  lemma {:induction false} OthersStep(log: seq<Files>, n: nat, m: nat, a: Files, b: Files, c: Files, jobs: seq<Job>, pass: Option<nat>)
    requires n <= m <= |log| && LogOthersSame(log[..m], n, a, jobs, pass) && OthersSame(a, b, jobs, pass) && OthersSame(b, c, jobs, pass)
    requires forall k | m <= k < |log| :: log[k] == c
    ensures LogOthersSame(log, n, a, jobs, pass) && OthersSame(a, c, jobs, pass)
  {
    forall j | 0 <= j < |jobs| && !InPass(j, pass) ensures Same(a, c, jobs[j].dst) {
      assert Same(a, b, jobs[j].dst) && Same(b, c, jobs[j].dst);
    }
    forall k | n <= k < |log| ensures OthersSame(a, log[k], jobs, pass) {
      if k < m { assert OthersSame(a, log[..m][k], jobs, pass); }
    }
  }

  /** The missing jobs among the first n are dropped by such a pass, apart from
      those of which the removal failed; other missing jobs' live files are as in
      b. */
  ghost predicate MissingDropped(b: Files, f: Files, jobs: seq<Job>, states: seq<FileState>, pass: Option<nat>, drop: bool, n: nat, stuck: set<Path>)
    requires |states| == |jobs|
  {
    forall j | 0 <= j < |jobs| && states[j].FileMissing? ::
      if drop && j < n && InPass(j, pass) && jobs[j].dst !in stuck then jobs[j].dst !in f else Same(b, f, jobs[j].dst)
  }

  lemma {:induction false} MissingStep(a: Files, b: Files, c: Files, jobs: seq<Job>, states: seq<FileState>, pass: Option<nat>, drop: bool, i: nat, stuck: set<Path>, failed: bool)
    requires |states| == |jobs| && i < |jobs| && InPass(i, pass) && Distinct(jobs) && MissingDropped(a, b, jobs, states, pass, drop, i, stuck)
    requires forall p | p in stuck :: exists k :: 0 <= k < i && jobs[k].dst == p
    requires states[i].FileMissing? && (!drop || failed) ==> c == b
    requires states[i].FileMissing? && drop && !failed ==> jobs[i].dst !in c
    requires forall j | 0 <= j < |jobs| && j != i :: Same(b, c, jobs[j].dst)
    ensures MissingDropped(a, c, jobs, states, pass, drop, i + 1, if failed then stuck + {jobs[i].dst} else stuck)
  {
    forall j | 0 <= j < |jobs| && states[j].FileMissing? && j != i
      ensures if drop && j < i && InPass(j, pass) && jobs[j].dst !in stuck then jobs[j].dst !in c else Same(a, c, jobs[j].dst)
      ensures jobs[j].dst != jobs[i].dst
    {
      assert Same(b, c, jobs[j].dst);
    }
    assert jobs[i].dst !in stuck;
  }

  /** One pass: whatever happens, each live name has its earlier bytes or the
      staged ones; and a pass that succeeds leaves its jobs in place, and dropped
      the missing ones apart from those it reports. */
  method PromotePass(tree: Tree, jobs: seq<Job>, states: seq<FileState>, pass: Option<nat>, drop: bool, ghost n: nat, ghost a: Files)
    returns (ok: bool, stuck: set<Path>)
    requires tree.Valid() && |states| == |jobs| && n <= |tree.log|
    requires Within(tree.log, n, a, tree.files, PromoteNames(jobs))
    requires Distinct(jobs) ==> AllMoving(a, tree.files, jobs, states) && LogMoving(tree.log, n, a, jobs, states)
    modifies tree
    ensures tree.Valid() && old(tree.log) <= tree.log && tree.statFaults >= old(tree.statFaults)
    ensures Within(tree.log, n, a, tree.files, PromoteNames(jobs))
    ensures Distinct(jobs) ==> AllMoving(a, tree.files, jobs, states) && LogMoving(tree.log, n, a, jobs, states)
    ensures Distinct(jobs) ==> LogOthersSame(tree.log, |old(tree.log)|, old(tree.files), jobs, pass) && OthersSame(old(tree.files), tree.files, jobs, pass)
    ensures ok && Distinct(jobs) ==> forall j | 0 <= j < |jobs| && !states[j].FileMissing? && Chosen(a, jobs[j].dst).Some? ::
              InPass(j, pass) || InPlace(old(tree.files), jobs[j].dst) ==> InPlace(tree.files, jobs[j].dst)
    ensures ok && Distinct(jobs) ==> MissingDropped(old(tree.files), tree.files, jobs, states, pass, drop, |jobs|, stuck)
  {
    stuck := {};
    for i := 0 to |jobs|
      invariant tree.Valid() && old(tree.log) <= tree.log && tree.statFaults >= old(tree.statFaults)
      invariant Within(tree.log, n, a, tree.files, PromoteNames(jobs))
      invariant Distinct(jobs) ==> AllMoving(a, tree.files, jobs, states) && LogMoving(tree.log, n, a, jobs, states)
      invariant Distinct(jobs) ==> LogOthersSame(tree.log, |old(tree.log)|, old(tree.files), jobs, pass) && OthersSame(old(tree.files), tree.files, jobs, pass)
      invariant Distinct(jobs) ==> forall j | 0 <= j < |jobs| && !states[j].FileMissing? && Chosen(a, jobs[j].dst).Some? ::
                  (j < i && InPass(j, pass)) || InPlace(old(tree.files), jobs[j].dst) ==> InPlace(tree.files, jobs[j].dst)
      invariant Distinct(jobs) ==> MissingDropped(old(tree.files), tree.files, jobs, states, pass, drop, i, stuck)
      invariant forall p | p in stuck :: exists k :: 0 <= k < i && jobs[k].dst == p
    {
      if !InPass(i, pass) {
        continue;
      }
      ghost var b, m := tree.files, |tree.log|;
      var failed;
      ok, failed := PromoteOne(tree, jobs[i], states[i], drop);
      JoinPass(tree.log, n, m, a, b, tree.files, jobs, states, i);
      if Distinct(jobs) {
        StepMoves(a, b, tree.files, jobs, states, i);
        OthersStep(tree.log, |old(tree.log)|, m, old(tree.files), b, tree.files, jobs, pass);
        if ok { MissingStep(old(tree.files), b, tree.files, jobs, states, pass, drop, i, stuck, failed); }
      }
      if !ok {
        return false, stuck;
      }
      if failed {
        stuck := stuck + {jobs[i].dst};
      }
    }
    ok := true;
  }
}
