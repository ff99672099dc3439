/**
 What the repository formats share around a publication (mirror/rpm.go,
 mirror/arch.go, mirror/deb.go): root files are staged, read back from whichever
 copy a promotion would leave live, checked against a signature, and cleaned up.
 */
module Staging {

  import opened Wrappers
  import opened Disk
  import opened Fetch
  import opened Transfers
  import Missing

  /** Accepts a detached signature (second) over some data (first). */
  type Verify = (Bytes, Bytes) -> bool

  datatype SignatureMode = Off | IfPresent | Required

  /** Neither now nor at any moment since did anything but these paths differ
      from a. */
  ghost predicate Within(log: seq<Files>, n: nat, a: Files, files: Files, changed: set<Path>) {
    KeptSince(log, n, a, changed) && SameOutside(a, files, changed)
  }

  lemma {:induction false} WithinJoin(log: seq<Files>, n: nat, m: nat, a: Files, b: Files, c: Files, changed: set<Path>, more: set<Path>)
    requires n <= m <= |log| && Within(log[..m], n, a, b, changed) && Within(log, m, b, c, more)
    ensures Within(log, n, a, c, changed + more)
  {
    KeptJoin(log, n, m, a, b, changed, more);
    SameOutsideTrans(a, b, c, changed, more);
  }

  lemma {:induction false} WithinMore(log: seq<Files>, n: nat, a: Files, files: Files, changed: set<Path>, more: set<Path>)
    requires Within(log, n, a, files, changed) && changed <= more
    ensures Within(log, n, a, files, more)
  {
    forall k | n <= k < |log| ensures SameOutside(a, log[k], more) {
      assert SameOutside(a, log[k], changed);
    }
  }

  /** The bytes a promotion of dst would leave live. */
  function Chosen(files: Files, dst: Path): Option<Bytes> {
    if Staged(dst) in files then Some(files[Staged(dst)])
    else if dst in files then Some(files[dst])
    else None
  }

  lemma {:induction false} ChosenIsPromoted(files: Files, dst: Path)
    ensures Chosen(files, dst) == if dst in Promoted(files, dst) then Some(Promoted(files, dst)[dst]) else None
  {
    WorkNames(dst);
  }

  /** Reads the staged copy, or the final file where there is none. */
  method ReadChosen(tree: Tree, dst: Path) returns (r: Option<Bytes>)
    requires tree.Valid()
    modifies tree`statFaults
    ensures tree.statFaults >= old(tree.statFaults)
    ensures r.Some? && tree.statFaults == old(tree.statFaults) ==> r == Chosen(tree.files, dst)
  {
    var name := StagedOrFinal(tree, dst);
    var data := tree.Read(name);
    return if data.Ok? then Some(data.value) else None;
  }

  /** verifyDetached over the copies that would be published; it may also fail
      for reasons of its own. */
  method VerifyPair(tree: Tree, verify: Verify, dst: Path, sigDst: Path) returns (ok: bool)
    requires tree.Valid()
    modifies tree`statFaults
    ensures tree.statFaults >= old(tree.statFaults)
    ensures ok && tree.statFaults == old(tree.statFaults) ==> Accepted(verify, tree.files, dst, sigDst)
  {
    var data := ReadChosen(tree, dst);
    var sig := ReadChosen(tree, sigDst);
    var fails: bool := *;
    return data.Some? && sig.Some? && verify(data.value, sig.value) && !fails;
  }

  /** The verifier takes the pair a promotion would leave live. */
  predicate Accepted(verify: Verify, files: Files, dst: Path, sigDst: Path) {
    && Chosen(files, dst).Some? && Chosen(files, sigDst).Some?
    && verify(Chosen(files, dst).value, Chosen(files, sigDst).value)
  }

  function StageNames(dst: Path): set<Path> {
    {Staged(dst), Partial(dst)}
  }

  /** One staged root file, as part of a longer stretch of work. What a
      promotion would publish meets the expectation if it is a new copy; an
      unchanged live file was checked by size alone, and counts only when no
      earlier staged copy is left over. */
  method StageOne(tree: Tree, hash: Hash, dst: Path, want: Option<Expect>, again: bool, ghost n: nat, ghost a: Files, ghost changed: set<Path>)
    returns (r: FileResult, leftover: bool)
    requires tree.Valid() && n <= |tree.log|
    requires Within(tree.log, n, a, tree.files, changed) && StageNames(dst) <= changed
    modifies tree
    ensures tree.Valid() && old(tree.log) <= tree.log && tree.statFaults >= old(tree.statFaults)
    ensures Within(tree.log, n, a, tree.files, changed)
    ensures SameOutside(old(tree.files), tree.files, StageNames(dst))
    ensures r.Ok? ==> Chosen(tree.files, dst).Some? && (r.value.FileStaged? || r.value.FileUnchanged?)
    ensures r.Ok? && want.Some? && (r.value.FileStaged? || !leftover) ==>
              Acceptable(hash, want.value, r.value.FileStaged?, Chosen(tree.files, dst).value)
    ensures r == Ok(FileUnchanged) && leftover ==>
              Staged(dst) in old(tree.files) && Chosen(tree.files, dst) == Some(old(tree.files)[Staged(dst)])
    ensures r == Ok(FileUnchanged) && !leftover ==>
              dst in old(tree.files) && Chosen(tree.files, dst) == Some(old(tree.files)[dst])
    ensures want.Some? && tree.statFaults == old(tree.statFaults) && r.Ok? ==>
              (r.value.FileUnchanged? <==> OfSize(old(tree.files), dst, want.value))
  {
    ghost var b, m := tree.files, |tree.log|;
    var state, _, kept, _ := File(tree, hash, dst, want, true, false, again);
    r, leftover := state, kept;
    WithinJoin(tree.log, n, m, a, b, tree.files, changed, StageNames(dst));
    assert changed + StageNames(dst) == changed;
  }

  /** One optional companion of the main root file: absent when the upstream
      has none or forbids it. */
  method StageOptional(tree: Tree, hash: Hash, dst: Path, again: bool, ghost n: nat, ghost a: Files, ghost changed: set<Path>, ghost main: Path)
    returns (ok: bool, missing: bool, ghost error: Option<FetchError>)
    requires tree.Valid() && n <= |tree.log|
    requires Within(tree.log, n, a, tree.files, changed) && StageNames(dst) <= changed
    requires main != dst && !IsWork(main) && !IsWork(dst)
    modifies tree
    ensures tree.Valid() && old(tree.log) <= tree.log && tree.statFaults >= old(tree.statFaults)
    ensures Within(tree.log, n, a, tree.files, changed)
    ensures Chosen(tree.files, main) == Chosen(old(tree.files), main)
    ensures ok <==> error.None? || missing
    ensures missing <==> error == Some(NotFound) || error == Some(Forbidden)
    ensures ok && !missing ==> Chosen(tree.files, dst).Some?
  {
    WorkNamesDiffer(main, dst);
    ghost var b := tree.files;
    var r, _ := StageOne(tree, hash, dst, None, again, n, a, changed);
    assert Same(b, tree.files, main) && Same(b, tree.files, Staged(main));
    error := if r.Err? then Some(r.error) else None;
    missing := r.Err? && (r.error == NotFound || r.error == Forbidden);
    ok := r.Ok? || missing;
  }

  function StagedNames(names: seq<Path>): set<Path> {
    set i | 0 <= i < |names| :: Staged(names[i])
  }

  /** Nothing staged is left of these names, but what could not be removed. */
  predicate Cleared(files: Files, names: seq<Path>, stuck: set<Path>) {
    forall p | p in names && Staged(p) in files :: p in stuck
  }

  /** Removes what staging left unpublished; failures are ignored. */
  method Cleanup(tree: Tree, names: seq<Path>) returns (stuck: set<Path>)
    requires tree.Valid()
    modifies tree`files, tree`log
    ensures tree.Valid() && old(tree.log) <= tree.log
    ensures Within(tree.log, |old(tree.log)|, old(tree.files), tree.files, StagedNames(names))
    ensures Cleared(tree.files, names, stuck)
  {
    stuck := {};
    for i := 0 to |names|
      invariant tree.Valid() && old(tree.log) <= tree.log
      invariant Within(tree.log, |old(tree.log)|, old(tree.files), tree.files, StagedNames(names))
      invariant forall k | 0 <= k < i && Staged(names[k]) in tree.files :: names[k] in stuck
    {
      ghost var b, m := tree.files, |tree.log|;
      var err := tree.Remove(Staged(names[i]));
      if err.Fault? { stuck := stuck + {names[i]}; }
      WithinJoin(tree.log, |old(tree.log)|, m, old(tree.files), b, tree.files, StagedNames(names), {Staged(names[i])});
      assert StagedNames(names) + {Staged(names[i])} == StagedNames(names);
    }
  }

  /** Work on work names alone is invisible to clients. */
  lemma {:induction false} WithinWorkIsLive(log: seq<Files>, n: nat, a: Files, files: Files, changed: set<Path>)
    requires Within(log, n, a, files, changed) && forall p | p in changed :: IsWork(p)
    ensures LiveSame(a, files) && LiveSince(log, n, a)
  {
    forall k | n <= k < |log| ensures LiveSame(a, log[k]) {
      assert SameOutside(a, log[k], changed);
    }
  }

  /** No client has seen any difference from a since. */
  ghost predicate LiveSince(log: seq<Files>, n: nat, a: Files) {
    forall k | n <= k < |log| :: LiveSame(a, log[k])
  }

  /** The locations this run recorded as missing. */
  ghost function Recorded(miss: Missing.Missing?): set<string>
    reads miss
  {
    if miss == null then {} else miss.seen
  }

  /** Finish let the run go on: no missing file is inside its retry budget. */
  ghost predicate Resolved(miss: Missing.Missing?)
    reads miss
  {
    miss != null ==> Missing.Unresolved(miss.loaded, miss.seen, miss.mode, miss.retries) == {}
  }

  /** Two stretches of a log, the first ending in the tree c. */
  lemma {:induction false} LiveJoin(log: seq<Files>, n: nat, m: nat, a: Files, c: Files)
    requires n <= m <= |log| && LiveSince(log[..m], n, a) && LiveSame(a, c) && LiveSince(log, m, c)
    ensures LiveSince(log, n, a)
  {
    forall k | n <= k < |log| ensures LiveSame(a, log[k]) {
      if k < m {
        assert LiveSame(a, log[..m][k]);
      } else {
        assert LiveSame(c, log[k]);
      }
    }
  }

  // ---------- Unstaged batches ----------

  /** Each job's file is live and accepted and kept, or recorded missing; a new
      one has its digest whether digests are checked or not. */
  predicate Ready(hash: Hash, checked: bool, files: Files, jobs: seq<Job>, states: seq<FileState>, kept: set<Path>, missing: set<string>) {
    && |states| == |jobs|
    && forall i | 0 <= i < |jobs| ::
      if states[i].FileMissing? then jobs[i].req in missing
      else
        && jobs[i].dst in kept && jobs[i].dst in files
        && (jobs[i].want.Some? ==> Acceptable(hash, jobs[i].want.value, checked || states[i].FileFetched?, files[jobs[i].dst]))
  }

  /** The destinations that are live after a batch. */
  function LiveDsts(jobs: seq<Job>, states: seq<FileState>): set<Path>
    requires |states| == |jobs|
  {
    set i | 0 <= i < |jobs| && !states[i].FileMissing? :: jobs[i].dst
  }

  /** The destinations this run downloaded. */
  function FetchedDsts(jobs: seq<Job>, states: seq<FileState>): set<Path>
    requires |states| == |jobs|
  {
    set i | 0 <= i < |jobs| && states[i].FileFetched? :: jobs[i].dst
  }

  /** What a batch of its own adds to the keep set. */
  lemma {:induction false} KeepIsLive(jobs: seq<Job>, states: seq<FileState>, keep: set<Path>)
    requires |states| == |jobs| && KeepsLive(jobs, states, |jobs|, {}, keep)
    ensures keep <= LiveDsts(jobs, states)
  {
    var none: set<Path> := {};
    forall p | p in keep ensures p in LiveDsts(jobs, states) {
      assert p !in none;
    }
  }

  lemma {:induction false} ReadyFromMany(hash: Hash, checked: bool, files: Files, jobs: seq<Job>, states: seq<FileState>,
                      leftovers: set<Path>, keep: set<Path>, missing: set<string>)
    requires |states| == |jobs| && forall j | j in jobs :: !j.optional && !j.stage
    requires forall i | 0 <= i < |jobs| :: Settled(hash, checked, files, jobs[i], states[i], leftovers, keep)
    requires forall i | 0 <= i < |jobs| && states[i].FileMissing? && !jobs[i].optional :: jobs[i].req in missing
    ensures Ready(hash, checked, files, jobs, states, LiveDsts(jobs, states), missing) && LiveDsts(jobs, states) <= keep
  {
    forall i | 0 <= i < |jobs|
      ensures if states[i].FileMissing? then jobs[i].req in missing
              else jobs[i].dst in keep && jobs[i].dst in files && (jobs[i].want.Some? ==> Acceptable(hash, jobs[i].want.value, checked || states[i].FileFetched?, files[jobs[i].dst]))
    {
      assert Settled(hash, checked, files, jobs[i], states[i], leftovers, keep);
      assert jobs[i] in jobs;
    }
  }

  lemma {:induction false} ReadyKept(hash: Hash, checked: bool, a: Files, b: Files, jobs: seq<Job>, states: seq<FileState>, kept: set<Path>, missing: set<string>)
    requires Ready(hash, checked, a, jobs, states, kept, missing) && forall p | p in kept :: Same(a, b, p)
    ensures Ready(hash, checked, b, jobs, states, kept, missing)
  {
    forall i | 0 <= i < |jobs| && !states[i].FileMissing? ensures Same(a, b, jobs[i].dst) {
    }
  }
}
