/**
 A signed, non-dry run of syncArch (mirror/arch.go) without traces: the database
 is staged and checked, packages are staged with their signatures, every pair is
 verified before any is promoted, and the database is promoted last.

 Parsing, hashing, the signature check, LocalJoin and the database name are
 parameters.
 */
module ArchSync {

  import opened Wrappers
  import opened Disk
  import opened Fetch
  import opened Transfers
  import opened Staging
  import opened Promotion
  import FileSteps
  import Interleaving
  import Missing
  import Prune

  /** What the database lists for a package. */
  datatype Package = Package(filename: string, size: int, sums: map<string, string>) {
    function Want(): Expect { SumsExpect(size, sums) }
  }

  datatype World = World(
    hash: Hash,
    verify: Verify,
    parse: Bytes -> Option<seq<Package>>,
    join: string -> Option<Path>)

  const EXTRAS := [".files", ".db.tar.gz", ".files.tar.gz", ".links.tar.gz",
                   ".db.tar.gz.sig", ".files.sig", ".files.tar.gz.sig", ".links.tar.gz.sig"]

  /** A package's two downloads. */
  function PairOf(p: Package, dst: Path): seq<Job> {
    [Job(p.filename, dst, Some(p.Want()), false, true), Job(p.filename + ".sig", dst + ".sig", None, true, true)]
  }

  function JobsOf(w: World, pkgs: seq<Package>): (r: Option<seq<Job>>)
    ensures r.Some? ==> |r.value| == 2 * |pkgs| && forall i | 0 <= i < |r.value| :: r.value[i].stage
  {
    if pkgs == [] then Some([])
    else
      var rest, p := JobsOf(w, pkgs[..|pkgs| - 1]), pkgs[|pkgs| - 1];
      if rest.None? || w.join(p.filename).None? then None
      else Some(rest.value + PairOf(p, w.join(p.filename).value))
  }

  lemma {:induction false} JobsAt(w: World, pkgs: seq<Package>, i: nat)
    requires JobsOf(w, pkgs).Some? && i < |pkgs|
    ensures w.join(pkgs[i].filename).Some?
    ensures JobsOf(w, pkgs).value[2 * i..2 * i + 2] == PairOf(pkgs[i], w.join(pkgs[i].filename).value)
  {
    if i < |pkgs| - 1 {
      JobsAt(w, pkgs[..|pkgs| - 1], i);
    }
  }

  /** What is downloaded for the i-th package: the file the database names, held to
      the size and digest it lists, and an optional signature beside it. */
  lemma {:induction false} JobsSay(w: World, pkgs: seq<Package>, i: nat)
    requires JobsOf(w, pkgs).Some? && i < |pkgs|
    ensures w.join(pkgs[i].filename).Some?
    ensures
      var job, dst := JobsOf(w, pkgs).value[2 * i], w.join(pkgs[i].filename).value;
      && job.req == pkgs[i].filename && job.dst == dst && !job.optional && job.stage && job.want.Some?
      && (forall checked, data :: Acceptable(w.hash, job.want.value, checked, data) <==> MeetsSums(w.hash, pkgs[i].size, pkgs[i].sums, checked, data))
      && forall data :: SizeMatches(job.want.value, data) <==> (pkgs[i].size > 0 ==> |data| == pkgs[i].size)
    ensures
      var job, dst := JobsOf(w, pkgs).value[2 * i + 1], w.join(pkgs[i].filename).value;
      job.req == pkgs[i].filename + ".sig" && job.dst == dst + ".sig" && job.optional && job.stage && job.want.None?
  {
    JobsAt(w, pkgs, i);
    var jobs := JobsOf(w, pkgs).value;
    assert jobs[2 * i] == jobs[2 * i..2 * i + 2][0] && jobs[2 * i + 1] == jobs[2 * i..2 * i + 2][1];
    forall checked, data
      ensures Acceptable(w.hash, pkgs[i].Want(), checked, data) <==> MeetsSums(w.hash, pkgs[i].size, pkgs[i].sums, checked, data)
    {
      SumsMean(w.hash, pkgs[i].size, pkgs[i].sums, checked, data);
    }
  }

  lemma {:induction false} JobsNext(w: World, pkgs: seq<Package>, i: nat)
    requires i < |pkgs|
    ensures
      var before, dst := JobsOf(w, pkgs[..i]), w.join(pkgs[i].filename);
      JobsOf(w, pkgs[..i + 1]) == if before.None? || dst.None? then None else Some(before.value + PairOf(pkgs[i], dst.value))
  {
    assert pkgs[..i + 1][..i] == pkgs[..i];
  }

  method CollectJobs(w: World, pkgs: seq<Package>) returns (jobs: Option<seq<Job>>)
    ensures jobs == JobsOf(w, pkgs)
  {
    var js: seq<Job> := [];
    for i := 0 to |pkgs|
      invariant JobsOf(w, pkgs[..i]) == Some(js)
    {
      JobsNext(w, pkgs, i);
      var dst := w.join(pkgs[i].filename);
      if dst.None? {
        FailsFromPrefix((s: seq<Package>) => JobsOf(w, s).None?, pkgs, i + 1);
        return None;
      }
      js := js + PairOf(pkgs[i], dst.value);
    }
    assert pkgs[..|pkgs|] == pkgs;
    return Some(js);
  }

  // ---------- Verification before promotion ----------

  /** What a refetch did: it staged a new copy; it kept the live file, because that
      has the listed size; or it meant to, and an earlier staged copy was still
      there. */
  datatype Refetched = NewCopy | LiveKept | StagedKept

  /** The bytes that would be published after a refetch that began with the tree
      a. */
  predicate RefetchLeaves(hash: Hash, e: Expect, a: Files, dst: Path, re: Refetched, data: Option<Bytes>) {
    && data.Some? && (re.NewCopy? <==> !OfSize(a, dst, e))
    && match re
       case NewCopy => Acceptable(hash, e, true, data.value)
       case LiveKept => dst in a && data.value == a[dst]
       case StagedKept => Staged(dst) in a && data.value == a[Staged(dst)]
  }

  /** Two files that can be told apart and from work names. */
  predicate Apart(dst: Path, sigDst: Path) {
    dst != sigDst && !IsWork(dst) && !IsWork(sigDst)
  }

  /** Refetches both halves of a pair as one generation. */
  method Refetch(tree: Tree, w: World, dst: Path, want: Option<Expect>, sigDst: Path, ghost n: nat, ghost a: Files, ghost changed: set<Path>)
    returns (ok: bool, re: Refetched)
    requires tree.Valid() && n <= |tree.log| && Within(tree.log, n, a, tree.files, changed)
    requires StageNames(dst) + StageNames(sigDst) <= changed
    modifies tree
    ensures tree.Valid() && old(tree.log) <= tree.log && tree.statFaults >= old(tree.statFaults)
    ensures Within(tree.log, n, a, tree.files, changed)
    ensures ok && want.Some? && Apart(dst, sigDst) && tree.statFaults == old(tree.statFaults) ==>
              RefetchLeaves(w.hash, want.value, old(tree.files), dst, re, Chosen(tree.files, dst))
  {
    re := NewCopy;
    var r, leftover := StageOne(tree, w.hash, dst, want, true, n, a, changed);
    if r.Err? {
      return false, re;
    }
    re := if !r.value.FileUnchanged? then NewCopy else if leftover then StagedKept else LiveKept;
    ghost var b := tree.files;
    r, leftover := StageOne(tree, w.hash, sigDst, None, true, n, a, changed);
    if Apart(dst, sigDst) {
      WorkNamesDiffer(dst, sigDst);
      assert Same(b, tree.files, dst) && Same(b, tree.files, Staged(dst));
    }
    ok := r.Ok?;
  }

  /** Verifies one staged pair; a failure refetches it once, and it is not given
      up without. */
  method VerifyOrRefetch(tree: Tree, w: World, dst: Path, want: Option<Expect>, sigDst: Path) returns (ok: bool, re: Option<Refetched>)
    requires tree.Valid()
    modifies tree
    ensures tree.Valid() && old(tree.log) <= tree.log && tree.statFaults >= old(tree.statFaults)
    ensures Within(tree.log, |old(tree.log)|, old(tree.files), tree.files, StageNames(dst) + StageNames(sigDst))
    ensures ok && tree.statFaults == old(tree.statFaults) ==> Accepted(w.verify, tree.files, dst, sigDst)
    ensures (ok && re.None? ==> tree.files == old(tree.files)) && (!ok ==> re.Some?)
    ensures ok && re.Some? && want.Some? && Apart(dst, sigDst) && tree.statFaults == old(tree.statFaults) ==>
              RefetchLeaves(w.hash, want.value, old(tree.files), dst, re.value, Chosen(tree.files, dst))
  {
    ghost var n, a, changed := |tree.log|, tree.files, StageNames(dst) + StageNames(sigDst);
    ok := VerifyPair(tree, w.verify, dst, sigDst);
    re := None;
    if ok {
      return;
    }
    var kind;
    ok, kind := Refetch(tree, w, dst, want, sigDst, n, a, changed);
    re := Some(kind);
    if ok {
      ok := VerifyPair(tree, w.verify, dst, sigDst);
    }
  }

  /** The database and its signature up to parsing. */
  method StageDatabase(tree: Tree, w: World, db: Path, dbSig: Path)
    returns (ok: bool, sigMissing: bool, pkgs: seq<Package>)
    requires tree.Valid() && db != dbSig && !IsWork(db) && !IsWork(dbSig)
    modifies tree
    ensures tree.Valid() && old(tree.log) <= tree.log && tree.statFaults >= old(tree.statFaults)
    ensures Within(tree.log, |old(tree.log)|, old(tree.files), tree.files, StageNames(db) + StageNames(dbSig))
    ensures ok && tree.statFaults == old(tree.statFaults) ==>
              && Chosen(tree.files, db).Some? && w.parse(Chosen(tree.files, db).value) == Some(pkgs)
              && (!sigMissing ==> Accepted(w.verify, tree.files, db, dbSig))
  {
    ghost var n, a, changed := |tree.log|, tree.files, StageNames(db) + StageNames(dbSig);
    pkgs := [];
    var r, _ := StageOne(tree, w.hash, db, None, false, n, a, changed);
    if r.Err? {
      return false, false, pkgs;
    }
    ghost var error;
    ok, sigMissing, error := StageOptional(tree, w.hash, dbSig, false, n, a, changed, db);
    if !ok {
      return false, false, pkgs;
    }
    if !sigMissing {
      ghost var b, m := tree.files, |tree.log|;
      var good, _ := VerifyOrRefetch(tree, w, db, None, dbSig);
      ok := good;
      WithinJoin(tree.log, n, m, a, b, tree.files, changed, changed);
      assert changed + changed == changed;
      if !ok {
        return false, sigMissing, pkgs;
      }
    }
    var data := ReadChosen(tree, db);
    if data.None? || w.parse(data.value).None? {
      return false, sigMissing, pkgs;
    }
    pkgs := w.parse(data.value).value;
  }

  /** What a run says about its pairs: whether signatures are required; the tree
      it began with; the pairs of which an earlier staged package was in the way
      of an unchanged one; and the pairs it refetched. */
  datatype Terms = Terms(required: bool, hash: Hash, before: Files, left: set<nat>, refetched: map<nat, Refetched>)

  /** Where the bytes to publish for a package come from. */
  predicate Origin(terms: Terms, job: Job, i: nat, data: Option<Bytes>) {
    && data.Some?
    && (job.want.Some? ==>
          && (i in terms.refetched ==> (terms.refetched[i].NewCopy? <==> !OfSize(terms.before, job.dst, job.want.value)))
          && if i in terms.refetched && terms.refetched[i].LiveKept? then
               job.dst in terms.before && data.value == terms.before[job.dst]
             else if Earlier(terms, i) then
               Staged(job.dst) in terms.before && data.value == terms.before[Staged(job.dst)]
             else Acceptable(terms.hash, job.want.value, true, data.value))
  }

  /** An earlier staged copy is to be published. */
  predicate Earlier(terms: Terms, i: nat) {
    i in terms.left && (i in terms.refetched ==> terms.refetched[i].StagedKept?)
  }

  predicate PackagesMeet(files: Files, jobs: seq<Job>, states: seq<FileState>, terms: Terms)
    requires |states| == |jobs| && |jobs| % 2 == 0
  {
    forall i | 0 <= i < |jobs| / 2 && !states[2 * i].FileMissing? ::
      Origin(terms, jobs[2 * i], i, Chosen(files, jobs[2 * i].dst))
  }

  /** A package that is present is accepted together with its signature, or the
      upstream has no signature for it and none is required. */
  predicate PairAccepted(verify: Verify, files: Files, jobs: seq<Job>, states: seq<FileState>, terms: Terms, i: nat)
    requires |states| == |jobs| && 2 * i + 1 < |jobs|
  {
    !states[2 * i].FileMissing? ==>
      if states[2 * i + 1].FileMissing? then !terms.required
      else Accepted(verify, files, jobs[2 * i].dst, jobs[2 * i + 1].dst)
  }

  predicate PairsAccepted(verify: Verify, files: Files, jobs: seq<Job>, states: seq<FileState>, terms: Terms, n: nat)
    requires |states| == |jobs| && 2 * n <= |jobs|
  {
    forall i | 0 <= i < n :: PairAccepted(verify, files, jobs, states, terms, i)
  }

  function PairNames(jobs: seq<Job>, i: nat): set<Path>
    requires 2 * i + 1 < |jobs|
  {
    StageNames(jobs[2 * i].dst) + StageNames(jobs[2 * i + 1].dst)
  }

  /** Working on one pair leaves the verdicts on the others. */
  lemma {:induction false} OtherPairsKept(verify: Verify, a: Files, b: Files, jobs: seq<Job>, states: seq<FileState>, terms: Terms, terms': Terms, n: nat)
    requires |states| == |jobs| && 2 * n + 1 < |jobs| && Distinct(jobs) && terms'.required == terms.required
    requires SameOutside(a, b, PairNames(jobs, n)) && PairsAccepted(verify, a, jobs, states, terms, n)
    ensures PairsAccepted(verify, b, jobs, states, terms', n)
  {
    forall i | 0 <= i < n ensures PairAccepted(verify, b, jobs, states, terms', i) {
      assert PairAccepted(verify, a, jobs, states, terms, i);
      NamesApart(jobs, 2 * i, 2 * n);
      NamesApart(jobs, 2 * i, 2 * n + 1);
      NamesApart(jobs, 2 * i + 1, 2 * n);
      NamesApart(jobs, 2 * i + 1, 2 * n + 1);
      assert Same(a, b, jobs[2 * i].dst) && Same(a, b, jobs[2 * i + 1].dst);
      assert Same(a, b, Staged(jobs[2 * i].dst)) && Same(a, b, Staged(jobs[2 * i + 1].dst));
    }
  }

  lemma {:induction false} OthersChosen(verify: Verify, a: Files, b: Files, jobs: seq<Job>, states: seq<FileState>, n: nat)
    requires |states| == |jobs| && 2 * n + 1 < |jobs| && Distinct(jobs)
    requires SameOutside(a, b, PairNames(jobs, n)) && AllChosen(a, jobs, states)
    requires Accepted(verify, b, jobs[2 * n].dst, jobs[2 * n + 1].dst)
    ensures AllChosen(b, jobs, states)
  {
    forall i | 0 <= i < |jobs| && !states[i].FileMissing? ensures Chosen(b, jobs[i].dst).Some? {
      if i != 2 * n && i != 2 * n + 1 {
        NamesApart(jobs, i, 2 * n);
        NamesApart(jobs, i, 2 * n + 1);
        assert Same(a, b, jobs[i].dst) && Same(a, b, Staged(jobs[i].dst));
      }
    }
  }

  /** Where the verification loop stands after n pairs. */
  ghost predicate Verifying(verify: Verify, files: Files, jobs: seq<Job>, states: seq<FileState>, terms: Terms, n: nat)
    requires |states| == |jobs| && |jobs| % 2 == 0 && 2 * n <= |jobs|
  {
    && PairsAccepted(verify, files, jobs, states, terms, n) && AllChosen(files, jobs, states) && PackagesMeet(files, jobs, states, terms)
    && (forall i | i in terms.refetched :: i < n) && LiveStill(terms.before, files, jobs)
  }

  /** No destination has changed yet. */
  ghost predicate LiveStill(before: Files, files: Files, jobs: seq<Job>) {
    forall i | 0 <= i < |jobs| :: Same(before, files, jobs[i].dst)
  }

  lemma {:induction false} OthersMeet(a: Files, b: Files, jobs: seq<Job>, states: seq<FileState>, terms: Terms, terms': Terms, n: nat)
    requires |states| == |jobs| && |jobs| % 2 == 0 && 2 * n + 1 < |jobs| && Distinct(jobs)
    requires SameOutside(a, b, PairNames(jobs, n)) && PackagesMeet(a, jobs, states, terms)
    requires terms' == terms.(refetched := terms'.refetched)
    requires forall i: nat | i != n :: (i in terms'.refetched <==> i in terms.refetched) && (i in terms.refetched ==> terms'.refetched[i] == terms.refetched[i])
    requires Origin(terms', jobs[2 * n], n, Chosen(b, jobs[2 * n].dst))
    ensures PackagesMeet(b, jobs, states, terms')
  {
    forall i | 0 <= i < |jobs| / 2 && !states[2 * i].FileMissing?
      ensures Origin(terms', jobs[2 * i], i, Chosen(b, jobs[2 * i].dst))
    {
      if i != n {
        NamesApart(jobs, 2 * i, 2 * n);
        NamesApart(jobs, 2 * i, 2 * n + 1);
        assert Same(a, b, jobs[2 * i].dst) && Same(a, b, Staged(jobs[2 * i].dst));
      }
    }
  }

  /** What a refetch leaves, in terms of the tree the run began with. */
  lemma {:induction false} RefetchOrigin(terms: Terms, a: Files, job: Job, i: nat, re: Refetched, data: Option<Bytes>)
    requires i !in terms.refetched && Origin(terms, job, i, Chosen(a, job.dst)) && Same(terms.before, a, job.dst)
    requires data.Some? && (job.want.Some? ==> RefetchLeaves(terms.hash, job.want.value, a, job.dst, re, data))
    ensures Origin(terms.(refetched := terms.refetched[i := re]), job, i, data)
  {
  }

  lemma {:induction false} LiveStillStaged(before: Files, a: Files, b: Files, jobs: seq<Job>, n: nat)
    requires 2 * n + 1 < |jobs| && Distinct(jobs) && LiveStill(before, a, jobs) && SameOutside(a, b, PairNames(jobs, n))
    ensures LiveStill(before, b, jobs)
  {
    WorkNames(jobs[2 * n].dst);
    WorkNames(jobs[2 * n + 1].dst);
    forall i | 0 <= i < |jobs| ensures Same(before, b, jobs[i].dst) {
      assert Same(before, a, jobs[i].dst) && Same(a, b, jobs[i].dst);
    }
  }

  /** One more pair accepted, as it was or after a refetch. */
  lemma {:induction false} VerifyingNext(verify: Verify, a: Files, b: Files, jobs: seq<Job>, states: seq<FileState>, terms: Terms, re: Option<Refetched>, n: nat)
    requires |states| == |jobs| && |jobs| % 2 == 0 && 2 * n + 1 < |jobs| && Distinct(jobs)
    requires Verifying(verify, a, jobs, states, terms, n) && SameOutside(a, b, PairNames(jobs, n))
    requires !states[2 * n].FileMissing? && !states[2 * n + 1].FileMissing? && Accepted(verify, b, jobs[2 * n].dst, jobs[2 * n + 1].dst)
    requires re.None? ==> a == b
    requires re.Some? && jobs[2 * n].want.Some? ==>
               RefetchLeaves(terms.hash, jobs[2 * n].want.value, a, jobs[2 * n].dst, re.value, Chosen(b, jobs[2 * n].dst))
    ensures Verifying(verify, b, jobs, states, terms.(refetched := Noted(terms.refetched, n, re)), n + 1)
  {
    var terms' := terms.(refetched := Noted(terms.refetched, n, re));
    OtherPairsKept(verify, a, b, jobs, states, terms, terms', n);
    OthersChosen(verify, a, b, jobs, states, n);
    LiveStillStaged(terms.before, a, b, jobs, n);
    if re.Some? { RefetchOrigin(terms, a, jobs[2 * n], n, re.value, Chosen(b, jobs[2 * n].dst)); }
    OthersMeet(a, b, jobs, states, terms, terms', n);
  }

  function Noted(refetched: map<nat, Refetched>, i: nat, re: Option<Refetched>): map<nat, Refetched> {
    if re.Some? then refetched[i := re.value] else refetched
  }

  /** One pair of the verification loop. */
  method VerifyNext(tree: Tree, w: World, required: bool, jobs: seq<Job>, states: seq<FileState>, i: nat,
                    refetched: map<nat, Refetched>, ghost before: Files, ghost left: set<nat>)
    returns (ok: bool, refetched': map<nat, Refetched>)
    requires tree.Valid() && |states| == |jobs| && |jobs| % 2 == 0 && 2 * i + 1 < |jobs|
    modifies tree
    ensures tree.Valid() && old(tree.log) <= tree.log && tree.statFaults >= old(tree.statFaults)
    ensures Within(tree.log, |old(tree.log)|, old(tree.files), tree.files, PairNames(jobs, i))
    ensures ok && Distinct(jobs) && tree.statFaults == old(tree.statFaults) &&
            Verifying(w.verify, old(tree.files), jobs, states, Terms(required, w.hash, before, left, refetched), i) ==>
              Verifying(w.verify, tree.files, jobs, states, Terms(required, w.hash, before, left, refetched'), i + 1)
  {
    refetched' := refetched;
    if states[2 * i].FileMissing? {
      return true, refetched';
    }
    if states[2 * i + 1].FileMissing? {
      return !required, refetched';
    }
    var re;
    ok, re := VerifyOrRefetch(tree, w, jobs[2 * i].dst, jobs[2 * i].want, jobs[2 * i + 1].dst);
    refetched' := Noted(refetched, i, re);
    ghost var terms := Terms(required, w.hash, before, left, refetched);
    if ok && Distinct(jobs) && tree.statFaults == old(tree.statFaults) && Verifying(w.verify, old(tree.files), jobs, states, terms, i) {
      assert jobs[2 * i].dst != jobs[2 * i + 1].dst;
      VerifyingNext(w.verify, old(tree.files), tree.files, jobs, states, terms, re, i);
    }
  }

  /** The verification loop: it succeeds only when every present pair is
      accepted; only staged and partial names change. */
  method VerifyPairs(tree: Tree, w: World, required: bool, jobs: seq<Job>, states: seq<FileState>, ghost before: Files, ghost left: set<nat>)
    returns (ok: bool, refetched: map<nat, Refetched>)
    requires tree.Valid() && |states| == |jobs| && |jobs| % 2 == 0
    modifies tree
    ensures tree.Valid() && old(tree.log) <= tree.log && tree.statFaults >= old(tree.statFaults)
    ensures Within(tree.log, |old(tree.log)|, old(tree.files), tree.files, AllNames(jobs))
    ensures ok && Distinct(jobs) && tree.statFaults == old(tree.statFaults) &&
            Verifying(w.verify, old(tree.files), jobs, states, Terms(required, w.hash, before, left, map[]), 0) ==>
              Verifying(w.verify, tree.files, jobs, states, Terms(required, w.hash, before, left, refetched), |jobs| / 2)
  {
    ghost var n, a := |tree.log|, tree.files;
    refetched := map[];
    ghost var sound := Distinct(jobs) && Verifying(w.verify, a, jobs, states, Terms(required, w.hash, before, left, refetched), 0);
    for i := 0 to |jobs| / 2
      invariant tree.Valid() && old(tree.log) <= tree.log && tree.statFaults >= old(tree.statFaults)
      invariant Within(tree.log, n, a, tree.files, AllNames(jobs))
      invariant sound && tree.statFaults == old(tree.statFaults) ==>
                  Verifying(w.verify, tree.files, jobs, states, Terms(required, w.hash, before, left, refetched), i)
    {
      ghost var b, m := tree.files, |tree.log|;
      ok, refetched := VerifyNext(tree, w, required, jobs, states, i, refetched, before, left);
      WithinJoin(tree.log, n, m, a, b, tree.files, AllNames(jobs), PairNames(jobs, i));
      assert AllNames(jobs) + PairNames(jobs, i) == AllNames(jobs);
      if !ok {
        return false, refetched;
      }
    }
    ok := true;
  }

  // ---------- Before promotion ----------

  function DbOf(dir: Path, name: string): Path { dir + "/" + name + ".db" }

  function DbSigOf(dir: Path, name: string): Path { dir + "/" + name + ".db.sig" }

  function ExtraJobs(dir: Path, name: string): seq<Job> {
    seq(|EXTRAS|, i requires 0 <= i < |EXTRAS| => Job(name + EXTRAS[i], dir + "/" + name + EXTRAS[i], None, true, true))
  }

  lemma {:induction false} DbNames(dir: Path, name: string)
    ensures DbOf(dir, name) != DbSigOf(dir, name) && !IsWork(DbOf(dir, name)) && !IsWork(DbSigOf(dir, name))
  {
    var db, dbSig := DbOf(dir, name), DbSigOf(dir, name);
    assert db[|db| - 1] == 'b' && dbSig[|dbSig| - 1] == 'g';
  }

  /** Every destination of the run; its file names are distinct when these are. */
  function Everything(db: Path, dbSig: Path, jobs: seq<Job>, extras: seq<Job>): seq<Job> {
    [Job("", db, None, false, true), Job("", dbSig, None, true, true)] + jobs + extras
  }

  lemma {:induction false} EverythingApart(db: Path, dbSig: Path, jobs: seq<Job>, extras: seq<Job>)
    requires Distinct(Everything(db, dbSig, jobs, extras))
    ensures Distinct(jobs) && Distinct(extras) && db != dbSig && !IsWork(db) && !IsWork(dbSig)
    ensures forall i | 0 <= i < |jobs| :: jobs[i].dst != db && jobs[i].dst != dbSig
    ensures forall i | 0 <= i < |extras| :: extras[i].dst != db && extras[i].dst != dbSig
    ensures forall i, j | 0 <= i < |jobs| && 0 <= j < |extras| :: jobs[i].dst != extras[j].dst
  {
    var all := Everything(db, dbSig, jobs, extras);
    assert all[0].dst == db && all[1].dst == dbSig;
    forall i | 0 <= i < |jobs| ensures all[2 + i] == jobs[i] {
    }
    forall i | 0 <= i < |extras| ensures all[2 + |jobs| + i] == extras[i] {
    }
  }

  /** What verification leaves for promotion. */
  ghost predicate Verified(w: World, files: Files, db: Path, dbSig: Path, sigMissing: bool, pkgs: seq<Package>,
                           jobs: seq<Job>, states: seq<FileState>, terms: Terms) {
    && |states| == |jobs| && |jobs| % 2 == 0
    && Verifying(w.verify, files, jobs, states, terms, |jobs| / 2)
    && Chosen(files, db).Some? && w.parse(Chosen(files, db).value) == Some(pkgs)
    && (!sigMissing ==> Accepted(w.verify, files, db, dbSig))
  }

  /** The database's staged files are no package's. */
  lemma {:induction false} DatabaseKept(verify: Verify, a: Files, b: Files, db: Path, dbSig: Path, jobs: seq<Job>, extras: seq<Job>)
    requires Distinct(Everything(db, dbSig, jobs, extras)) && SameOutside(a, b, AllNames(jobs))
    ensures Chosen(a, db) == Chosen(b, db) && Chosen(a, dbSig) == Chosen(b, dbSig)
  {
    EverythingApart(db, dbSig, jobs, extras);
    forall i, x | 0 <= i < |jobs| && x in {db, dbSig} ensures x !in StageNames(jobs[i].dst) && Staged(x) !in StageNames(jobs[i].dst) {
      WorkNamesDiffer(x, jobs[i].dst);
      WorkNames(jobs[i].dst);
    }
    assert Same(a, b, db) && Same(a, b, Staged(db)) && Same(a, b, dbSig) && Same(a, b, Staged(dbSig));
  }

  /** The pairs whose package is unchanged while an earlier staged copy of it
      could not be removed. */
  function Left(jobs: seq<Job>, states: seq<FileState>, leftovers: set<Path>): set<nat>
    requires |states| == |jobs| && |jobs| % 2 == 0
  {
    set i | 0 <= i < |jobs| / 2 && states[2 * i].FileUnchanged? && jobs[2 * i].dst in leftovers
  }

  /** The names of the jobs have not changed at all. */
  ghost predicate NotBegun(before: Files, a: Files, jobs: seq<Job>) {
    forall i | 0 <= i < |jobs| :: Same(before, a, jobs[i].dst) && Same(before, a, Staged(jobs[i].dst))
  }

  /** What the batch leaves: bytes to publish for every present job, and for
      packages the database's bytes unless an earlier staged copy is in the way. */
  lemma {:induction false} StagedMeet(w: World, before: Files, a: Files, files: Files, jobs: seq<Job>, states: seq<FileState>, leftovers: set<Path>, keep: set<Path>, required: bool)
    requires |states| == |jobs| && |jobs| % 2 == 0 && (forall i | 0 <= i < |jobs| :: jobs[i].stage) && Distinct(jobs)
    requires forall i | 0 <= i < |jobs| :: Settled(w.hash, true, files, jobs[i], states[i], leftovers, keep)
    requires forall i | 0 <= i < |jobs| :: LeftAlone(a, files, jobs[i], states[i], jobs[i].dst in leftovers)
    requires NotBegun(before, a, jobs) && SameOutside(a, files, AllNames(jobs))
    ensures Verifying(w.verify, files, jobs, states, Terms(required, w.hash, before, Left(jobs, states, leftovers), map[]), 0)
    ensures forall i | 0 <= i < |jobs| && !states[i].FileMissing? :: jobs[i].dst in keep
  {
    var terms := Terms(required, w.hash, before, Left(jobs, states, leftovers), map[]);
    StagedFootprints(jobs);
    forall i | 0 <= i < |jobs| ensures Same(before, files, jobs[i].dst) {
      assert Same(a, files, jobs[i].dst);
    }
    forall i | 0 <= i < |jobs| && !states[i].FileMissing? ensures Chosen(files, jobs[i].dst).Some? && jobs[i].dst in keep {
      assert Settled(w.hash, true, files, jobs[i], states[i], leftovers, keep);
    }
    forall i | 0 <= i < |jobs| / 2 && !states[2 * i].FileMissing?
      ensures Origin(terms, jobs[2 * i], i, Chosen(files, jobs[2 * i].dst))
    {
      assert Settled(w.hash, true, files, jobs[2 * i], states[2 * i], leftovers, keep);
      assert LeftAlone(a, files, jobs[2 * i], states[2 * i], jobs[2 * i].dst in leftovers);
    }
  }

  /** The batch of packages and signatures. */
  method StageBatch(tree: Tree, w: World, jobs: seq<Job>, miss: Missing.Missing?, ghost required: bool, ghost before: Files)
    returns (ok: bool, states: seq<FileState>, keep: set<Path>, left: set<nat>)
    requires tree.Valid() && (miss != null ==> miss.Valid()) && |jobs| % 2 == 0
    requires forall i | 0 <= i < |jobs| :: jobs[i].stage
    modifies tree, if miss == null then {} else {miss}
    ensures tree.Valid() && old(tree.log) <= tree.log && tree.statFaults >= old(tree.statFaults)
    ensures miss != null ==> miss.Valid()
    ensures Within(tree.log, |old(tree.log)|, old(tree.files), tree.files, AllNames(jobs)) && |states| == |jobs|
    ensures ok ==> forall i | 0 <= i < |jobs| && states[i].FileMissing? && !jobs[i].optional :: jobs[i].req in Recorded(miss)
    ensures ok && Distinct(jobs) ==> forall i | 0 <= i < |jobs| && !states[i].FileMissing? :: jobs[i].dst in keep
    ensures ok ==> keep <= LiveDsts(jobs, states)
    ensures ok && Distinct(jobs) && NotBegun(before, old(tree.files), jobs) ==>
              Verifying(w.verify, tree.files, jobs, states, Terms(required, w.hash, before, left, map[]), 0)
  {
    ghost var a := tree.files;
    StagedFootprints(jobs);
    var leftovers, error;
    ok, states, keep, leftovers, error := Many(tree, w.hash, jobs, true, {}, miss);
    if ok { KeepIsLive(jobs, states, keep); }
    left := Left(jobs, states, leftovers);
    if ok && Distinct(jobs) {
      StagedMeet(w, a, a, tree.files, jobs, states, leftovers, keep, required);
      if NotBegun(before, a, jobs) {
        StagedMeet(w, before, a, tree.files, jobs, states, leftovers, keep, required);
      }
    }
  }

  /** Packages staged and every pair verified, up to miss.Finish. */
  method StagePackages(tree: Tree, w: World, required: bool, jobs: seq<Job>, miss: Missing.Missing?, ghost before: Files)
    returns (ready: bool, states: seq<FileState>, keep: set<Path>, left: set<nat>, refetched: map<nat, Refetched>)
    requires tree.Valid() && (miss != null ==> miss.Valid()) && |jobs| % 2 == 0
    requires forall i | 0 <= i < |jobs| :: jobs[i].stage
    modifies tree, if miss == null then {} else {miss}
    ensures tree.Valid() && old(tree.log) <= tree.log && tree.statFaults >= old(tree.statFaults)
    ensures Within(tree.log, |old(tree.log)|, old(tree.files), tree.files, AllNames(jobs))
    ensures |states| == |jobs| && (ready ==> Resolved(miss))
    ensures ready ==> forall i | 0 <= i < |jobs| && states[i].FileMissing? && !jobs[i].optional :: jobs[i].req in Recorded(miss)
    ensures ready && Distinct(jobs) ==> forall i | 0 <= i < |jobs| && !states[i].FileMissing? :: jobs[i].dst in keep
    ensures ready ==> keep <= LiveDsts(jobs, states)
    ensures ready && Distinct(jobs) && NotBegun(before, old(tree.files), jobs) && tree.statFaults == old(tree.statFaults) ==>
              Verifying(w.verify, tree.files, jobs, states, Terms(required, w.hash, before, left, refetched), |jobs| / 2)
  {
    ghost var n, a := |tree.log|, tree.files;
    refetched := map[];
    ready, states, keep, left := StageBatch(tree, w, jobs, miss, required, before);
    ghost var b, m := tree.files, |tree.log|;
    if !ready {
      return;
    }
    ready, refetched := VerifyPairs(tree, w, required, jobs, states, before, left);
    WithinJoin(tree.log, n, m, a, b, tree.files, AllNames(jobs), AllNames(jobs));
    assert AllNames(jobs) + AllNames(jobs) == AllNames(jobs);
    if ready && miss != null {
      var err := miss.Finish();
      ready := err.None?;
    }
  }

  /** Staging the database touches no package. */
  lemma {:induction false} DatabaseFirst(db: Path, dbSig: Path, jobs: seq<Job>, extras: seq<Job>, a: Files, b: Files)
    requires Distinct(Everything(db, dbSig, jobs, extras)) && SameOutside(a, b, StageNames(db) + StageNames(dbSig))
    ensures NotBegun(a, b, jobs)
  {
    EverythingApart(db, dbSig, jobs, extras);
    WorkNames(db);
    WorkNames(dbSig);
    forall i | 0 <= i < |jobs| ensures Same(a, b, jobs[i].dst) && Same(a, b, Staged(jobs[i].dst)) {
      WorkNamesDiffer(jobs[i].dst, db);
      WorkNamesDiffer(jobs[i].dst, dbSig);
    }
  }

  /** Everything syncArch does before it promotes anything. */
  method Prepare(tree: Tree, w: World, db: Path, dbSig: Path, required: bool, miss: Missing.Missing?, ghost extras: seq<Job>)
    returns (ready: bool, sigMissing: bool, pkgs: seq<Package>, jobs: seq<Job>, states: seq<FileState>, keep: set<Path>,
             left: set<nat>, refetched: map<nat, Refetched>)
    requires tree.Valid() && (miss != null ==> miss.Valid()) && db != dbSig && !IsWork(db) && !IsWork(dbSig)
    modifies tree, if miss == null then {} else {miss}
    ensures tree.Valid() && old(tree.log) <= tree.log && tree.statFaults >= old(tree.statFaults)
    ensures LiveSince(tree.log, |old(tree.log)|, old(tree.files)) && LiveSame(old(tree.files), tree.files)
    ensures |states| == |jobs| && |jobs| % 2 == 0
    ensures ready ==> Resolved(miss) && JobsOf(w, pkgs) == Some(jobs)
    ensures ready ==> forall i | 0 <= i < |jobs| && states[i].FileMissing? && !jobs[i].optional :: jobs[i].req in Recorded(miss)
    ensures ready && Distinct(jobs) ==> forall i | 0 <= i < |jobs| && !states[i].FileMissing? :: jobs[i].dst in keep
    ensures ready ==> keep <= LiveDsts(jobs, states)
    ensures ready && Distinct(Everything(db, dbSig, jobs, extras)) && tree.statFaults == old(tree.statFaults) ==>
              Verified(w, tree.files, db, dbSig, sigMissing, pkgs, jobs, states, Terms(required, w.hash, old(tree.files), left, refetched))
  {
    ghost var n, a := |tree.log|, tree.files;
    jobs, states, keep, left, refetched := [], [], {}, {}, map[];
    WorkNames(db);
    WorkNames(dbSig);
    ready, sigMissing, pkgs := StageDatabase(tree, w, db, dbSig);
    WithinWorkIsLive(tree.log, n, a, tree.files, StageNames(db) + StageNames(dbSig));
    if !ready {
      return;
    }
    var planned := CollectJobs(w, pkgs);
    if planned.None? {
      return false, sigMissing, pkgs, jobs, states, keep, left, refetched;
    }
    jobs := planned.value;
    ghost var b, m := tree.files, |tree.log|;
    if Distinct(Everything(db, dbSig, jobs, extras)) {
      EverythingApart(db, dbSig, jobs, extras);
      DatabaseFirst(db, dbSig, jobs, extras, a, b);
    }
    ready, states, keep, left, refetched := StagePackages(tree, w, required, jobs, miss, a);
    StagedFootprints(jobs);
    WithinWorkIsLive(tree.log, m, b, tree.files, AllNames(jobs));
    LiveJoin(tree.log, n, m, a, b);
    assert LiveSame(a, tree.files);
    if Distinct(Everything(db, dbSig, jobs, extras)) {
      DatabaseKept(w.verify, b, tree.files, db, dbSig, jobs, extras);
    }
  }

  // ---------- From promotion to the end ----------

  /** Each package that is present is live with bytes of known origin, and so is
      its signature, which the verifier takes; a package without one is live only
      if none is required. */
  predicate PairLive(verify: Verify, files: Files, jobs: seq<Job>, states: seq<FileState>, terms: Terms, i: nat)
    requires |states| == |jobs| && 2 * i + 1 < |jobs|
  {
    var pkg, sig := jobs[2 * i].dst, jobs[2 * i + 1].dst;
    !states[2 * i].FileMissing? ==>
      && pkg in files && Origin(terms, jobs[2 * i], i, Some(files[pkg]))
      && if states[2 * i + 1].FileMissing? then !terms.required else sig in files && verify(files[pkg], files[sig])
  }

  predicate PairsLive(verify: Verify, files: Files, jobs: seq<Job>, states: seq<FileState>, terms: Terms)
    requires |states| == |jobs| && |jobs| % 2 == 0
  {
    forall i | 0 <= i < |jobs| / 2 :: PairLive(verify, files, jobs, states, terms, i)
  }

  /** After both passes the accepted bytes are the live bytes. */
  lemma {:induction false} PairsNowLive(verify: Verify, a: Files, b: Files, jobs: seq<Job>, states: seq<FileState>, terms: Terms)
    requires |states| == |jobs| && |jobs| % 2 == 0
    requires Verifying(verify, a, jobs, states, terms, |jobs| / 2) && AllMoving(a, b, jobs, states)
    requires forall i | 0 <= i < |jobs| && !states[i].FileMissing? :: InPlace(b, jobs[i].dst)
    ensures PairsLive(verify, b, jobs, states, terms)
  {
    forall i | 0 <= i < |jobs| / 2 ensures PairLive(verify, b, jobs, states, terms, i) {
      assert PairAccepted(verify, a, jobs, states, terms, i);
      assert !states[2 * i].FileMissing? ==> Moving(a, b, jobs[2 * i].dst);
      assert !states[2 * i + 1].FileMissing? ==> Moving(a, b, jobs[2 * i + 1].dst);
    }
  }

  lemma {:induction false} PairsLiveKept(verify: Verify, a: Files, b: Files, jobs: seq<Job>, states: seq<FileState>, terms: Terms)
    requires |states| == |jobs| && |jobs| % 2 == 0 && PairsLive(verify, a, jobs, states, terms)
    requires forall i | 0 <= i < |jobs| && !states[i].FileMissing? :: Same(a, b, jobs[i].dst)
    ensures PairsLive(verify, b, jobs, states, terms)
  {
    forall i | 0 <= i < |jobs| / 2 ensures PairLive(verify, b, jobs, states, terms, i) {
      assert PairLive(verify, a, jobs, states, terms, i);
    }
  }

  /** The live file is the one the tree a had ready for dst. */
  ghost predicate FileDone(a: Files, f: Files, dst: Path) {
    dst in f && Chosen(a, dst) == Some(f[dst])
  }

  /** No package is new before all signatures are. */
  ghost predicate SignaturesFirst(a: Files, f: Files, jobs: seq<Job>, states: seq<FileState>)
    requires |states| == |jobs|
  {
    || (forall i | 0 <= i < |jobs| && i % 2 == 0 && !states[i].FileMissing? :: Same(a, f, jobs[i].dst))
    || (forall i | 0 <= i < |jobs| && i % 2 == 1 && !states[i].FileMissing? :: FileDone(a, f, jobs[i].dst))
  }

  ghost predicate LogSignaturesFirst(log: seq<Files>, n: nat, a: Files, jobs: seq<Job>, states: seq<FileState>)
    requires |states| == |jobs|
  {
    forall k | n <= k < |log| :: SignaturesFirst(a, log[k], jobs, states)
  }

  /** The two passes in this order keep signatures first. */
  lemma {:induction false} PassesKeepOrder(log: seq<Files>, n: nat, m: nat, a: Files, b: Files, c: Files, jobs: seq<Job>, states: seq<FileState>)
    requires |states| == |jobs| && n <= m <= |log|
    requires LogOthersSame(log[..m], n, a, jobs, Some(1))
    requires LogOthersSame(log, m, b, jobs, Some(0)) && OthersSame(b, c, jobs, Some(0)) && AllMoving(a, b, jobs, states)
    requires forall i | 0 <= i < |jobs| && i % 2 == 1 && !states[i].FileMissing? :: InPlace(b, jobs[i].dst)
    ensures LogSignaturesFirst(log, n, a, jobs, states) && SignaturesFirst(a, c, jobs, states)
  {
    forall i | 0 <= i < |jobs| && i % 2 == 1 && !states[i].FileMissing? ensures FileDone(a, b, jobs[i].dst) {
      assert Moving(a, b, jobs[i].dst);
    }
    forall i | 0 <= i < |jobs| && i % 2 == 1 && !states[i].FileMissing? ensures FileDone(a, c, jobs[i].dst) {
      assert Same(b, c, jobs[i].dst);
    }
    forall k | n <= k < |log| ensures SignaturesFirst(a, log[k], jobs, states) {
      if k < m {
        assert OthersSame(a, log[..m][k], jobs, Some(1));
      } else {
        assert OthersSame(b, log[k], jobs, Some(0));
        forall i | 0 <= i < |jobs| && i % 2 == 1 && !states[i].FileMissing? ensures FileDone(a, log[k], jobs[i].dst) {
          assert Same(b, log[k], jobs[i].dst);
        }
      }
    }
  }

  /** Where every job ends: a file that was served has the bytes staged for it; a
      package that was not is as it was before, or pruned; and a signature that
      was not is dropped, or as it was when that failed. */
  ghost predicate JobsEnded(a: Files, f: Files, jobs: seq<Job>, states: seq<FileState>, pruned: bool, stuck: set<Path>)
    requires |states| == |jobs|
  {
    forall j | 0 <= j < |jobs| ::
      if !states[j].FileMissing? then FileDone(a, f, jobs[j].dst)
      else (jobs[j].dst !in f && (pruned || j % 2 == 1)) || (Same(a, f, jobs[j].dst) && (j % 2 == 0 || jobs[j].dst in stuck))
  }

  lemma {:induction false} JobsEndedKept(a: Files, b: Files, c: Files, jobs: seq<Job>, states: seq<FileState>, pruned: bool, pruning: bool, stuck: set<Path>, stuck': set<Path>)
    requires |states| == |jobs| && JobsEnded(a, b, jobs, states, pruned, stuck) && stuck <= stuck'
    requires forall j | 0 <= j < |jobs| ::
               Same(b, c, jobs[j].dst) || (pruning && states[j].FileMissing? && jobs[j].dst !in c)
    ensures JobsEnded(a, c, jobs, states, pruned || pruning, stuck')
  {
    forall j | 0 <= j < |jobs|
      ensures if !states[j].FileMissing? then FileDone(a, c, jobs[j].dst)
              else (jobs[j].dst !in c && (pruned || pruning || j % 2 == 1)) || (Same(a, c, jobs[j].dst) && (j % 2 == 0 || jobs[j].dst in stuck'))
    {
      assert Same(b, c, jobs[j].dst) || (pruning && states[j].FileMissing? && jobs[j].dst !in c);
    }
  }

  lemma {:induction false} PassesEnd(a: Files, b: Files, c: Files, jobs: seq<Job>, states: seq<FileState>, stuck: set<Path>, none: set<Path>)
    requires |states| == |jobs| && AllMoving(a, c, jobs, states)
    requires MissingDropped(a, b, jobs, states, Some(1), true, |jobs|, stuck) && MissingDropped(b, c, jobs, states, Some(0), false, |jobs|, none)
    requires forall i | 0 <= i < |jobs| && !states[i].FileMissing? :: InPlace(c, jobs[i].dst)
    ensures JobsEnded(a, c, jobs, states, false, stuck)
  {
    forall j | 0 <= j < |jobs| && states[j].FileMissing? ensures Same(b, c, jobs[j].dst) {
    }
    forall j | 0 <= j < |jobs| && !states[j].FileMissing? ensures FileDone(a, c, jobs[j].dst) {
      assert Moving(a, c, jobs[j].dst);
    }
  }

  /** Both passes: signatures, then packages. */
  method PromotePairs(tree: Tree, w: World, jobs: seq<Job>, states: seq<FileState>, ghost terms: Terms, ghost sound: bool)
    returns (ok: bool, stuck: set<Path>)
    requires tree.Valid() && |states| == |jobs| && |jobs| % 2 == 0
    requires sound ==> Distinct(jobs) && Verifying(w.verify, tree.files, jobs, states, terms, |jobs| / 2)
    modifies tree
    ensures tree.Valid() && old(tree.log) <= tree.log && tree.statFaults >= old(tree.statFaults)
    ensures Within(tree.log, |old(tree.log)|, old(tree.files), tree.files, PromoteNames(jobs))
    ensures Distinct(jobs) ==> LogMoving(tree.log, |old(tree.log)|, old(tree.files), jobs, states) && AllMoving(old(tree.files), tree.files, jobs, states)
    ensures sound ==> LogSignaturesFirst(tree.log, |old(tree.log)|, old(tree.files), jobs, states) && SignaturesFirst(old(tree.files), tree.files, jobs, states)
    ensures ok && sound ==> PairsLive(w.verify, tree.files, jobs, states, terms) && JobsEnded(old(tree.files), tree.files, jobs, states, false, stuck)
  {
    ghost var n, a := |tree.log|, tree.files;
    ok, stuck := PromotePass(tree, jobs, states, Some(1), true, n, a);
    ghost var b, m := tree.files, |tree.log|;
    if !ok {
      return;
    }
    var none;
    ok, none := PromotePass(tree, jobs, states, Some(0), false, n, a);
    if sound {
      PassesKeepOrder(tree.log, n, m, a, b, tree.files, jobs, states);
      if ok {
        PairsNowLive(w.verify, a, tree.files, jobs, states, terms);
        PassesEnd(a, b, tree.files, jobs, states, stuck, none);
      }
    }
  }

  /** What becomes of the companions: those the upstream serves are live, and the
      others dropped, apart from those of which that failed. */
  ghost predicate CompanionsEnded(f: Files, extras: seq<Job>, states: seq<FileState>, stuck: set<Path>)
    requires |states| == |extras|
  {
    forall i | 0 <= i < |extras| ::
      if states[i].FileMissing? then extras[i].dst !in f || extras[i].dst in stuck else extras[i].dst in f
  }

  /** All that is optional beside the packages. */
  ghost predicate Companions(f: Files, dbSig: Path, sigMissing: bool, extras: seq<Job>, states: seq<FileState>, stuck: set<Path>) {
    && |states| == |extras| && CompanionsEnded(f, extras, states, stuck)
    && (sigMissing ==> dbSig !in f || dbSig in stuck)
  }

  lemma {:induction false} CompanionsKept(b: Files, c: Files, dbSig: Path, sigMissing: bool, extras: seq<Job>, states: seq<FileState>, stuck: set<Path>, keep: set<Path>)
    requires Companions(b, dbSig, sigMissing, extras, states, stuck)
    requires forall i | 0 <= i < |extras| && !states[i].FileMissing? :: extras[i].dst in keep
    requires forall p | p in keep :: Same(b, c, p)
    requires forall p | p in c && !IsWork(p) :: p in b
    requires forall i | 0 <= i < |extras| :: !IsWork(extras[i].dst)
    requires !IsWork(dbSig)
    ensures Companions(c, dbSig, sigMissing, extras, states, stuck)
  {
    forall i | 0 <= i < |extras|
      ensures if states[i].FileMissing? then extras[i].dst !in c || extras[i].dst in stuck else extras[i].dst in c
    {
    }
  }

  /** The database's steps come after the companions and touch none. */
  lemma {:induction false} CompanionsBefore(b: Files, c: Files, db: Path, dbSig: Path, sigMissing: bool, jobs: seq<Job>, extras: seq<Job>, states: seq<FileState>,
                         stuck: set<Path>, stuck': set<Path>)
    requires Distinct(Everything(db, dbSig, jobs, extras)) && |states| == |extras| && CompanionsEnded(b, extras, states, stuck) && stuck <= stuck'
    requires SameOutside(b, c, DatabaseNames(db, dbSig)) && (sigMissing ==> dbSig !in c || dbSig in stuck')
    ensures Companions(c, dbSig, sigMissing, extras, states, stuck')
  {
    EverythingApart(db, dbSig, jobs, extras);
    WorkNames(db);
    WorkNames(dbSig);
    forall i | 0 <= i < |extras| ensures Same(b, c, extras[i].dst) {
    }
  }

  /** By name: the file list, the archives and links, and their signatures. */
  lemma {:induction false} CompanionsNamed(dir: Path, name: string, suffix: string)
    requires suffix in {".files", ".db.tar.gz", ".files.tar.gz", ".links.tar.gz",
                        ".db.tar.gz.sig", ".files.sig", ".files.tar.gz.sig", ".links.tar.gz.sig"}
    ensures Job(name + suffix, dir + "/" + name + suffix, None, true, true) in ExtraJobs(dir, name)
  {
    assert EXTRAS[0] == ".files" && EXTRAS[1] == ".db.tar.gz" && EXTRAS[2] == ".files.tar.gz" && EXTRAS[3] == ".links.tar.gz";
    assert EXTRAS[4] == ".db.tar.gz.sig" && EXTRAS[5] == ".files.sig" && EXTRAS[6] == ".files.tar.gz.sig" && EXTRAS[7] == ".links.tar.gz.sig";
    var i :| 0 <= i < |EXTRAS| && EXTRAS[i] == suffix;
    assert ExtraJobs(dir, name)[i] == Job(name + EXTRAS[i], dir + "/" + name + EXTRAS[i], None, true, true);
  }

  /** Companion files, each staged and promoted, or dropped with the upstream's. */
  method SyncExtras(tree: Tree, w: World, extras: seq<Job>, verify: bool)
    returns (ok: bool, keep: set<Path>, states: seq<FileState>, stuck: set<Path>)
    requires tree.Valid() && forall i | 0 <= i < |extras| :: extras[i].stage
    modifies tree
    ensures tree.Valid() && old(tree.log) <= tree.log && tree.statFaults >= old(tree.statFaults)
    ensures Within(tree.log, |old(tree.log)|, old(tree.files), tree.files, ExtraNames(extras))
    ensures |states| == |extras| && (ok ==> keep <= LiveDsts(extras, states))
    ensures ok && Distinct(extras) ==>
              && CompanionsEnded(tree.files, extras, states, stuck)
              && forall i | 0 <= i < |extras| && !states[i].FileMissing? :: extras[i].dst in keep
  {
    ghost var n, a := |tree.log|, tree.files;
    StagedFootprints(extras);
    var leftovers, error;
    ok, states, keep, leftovers, error := Many(tree, w.hash, extras, verify, {}, null);
    stuck := {};
    WithinMore(tree.log, n, a, tree.files, Footprints(extras), ExtraNames(extras));
    if !ok {
      return;
    }
    KeepIsLive(extras, states, keep);
    ghost var b, m := tree.files, |tree.log|;
    if Distinct(extras) { ExtrasChosen(w.hash, verify, b, extras, states, leftovers, keep); }
    ok, stuck := PromotePass(tree, extras, states, None, true, m, b);
    WithinJoin(tree.log, n, m, a, b, tree.files, ExtraNames(extras), PromoteNames(extras));
    assert ExtraNames(extras) + PromoteNames(extras) == ExtraNames(extras);
  }

  lemma {:induction false} ExtrasChosen(hash: Hash, verify: bool, b: Files, extras: seq<Job>, states: seq<FileState>, leftovers: set<Path>, keep: set<Path>)
    requires |states| == |extras| && forall i | 0 <= i < |extras| :: extras[i].stage
    requires forall i | 0 <= i < |extras| :: Settled(hash, verify, b, extras[i], states[i], leftovers, keep)
    ensures AllChosen(b, extras, states) && AllMoving(b, b, extras, states)
    ensures forall i | 0 <= i < |extras| && !states[i].FileMissing? :: extras[i].dst in keep
  {
    forall i | 0 <= i < |extras| && !states[i].FileMissing? ensures Chosen(b, extras[i].dst).Some? && extras[i].dst in keep {
      assert Settled(hash, verify, b, extras[i], states[i], leftovers, keep);
    }
  }

  function DatabaseNames(db: Path, dbSig: Path): set<Path> {
    {db, Staged(db), dbSig, Staged(dbSig)}
  }

  function DatabaseFiles(db: Path, dbSig: Path, sigMissing: bool): set<Path> {
    if sigMissing then {db} else {db, dbSig}
  }

  /** The database, after its signature; it changes with the last step. */
  method PromoteDatabase(tree: Tree, db: Path, dbSig: Path, sigMissing: bool) returns (ok: bool, keep: set<Path>, failed: bool)
    requires tree.Valid() && db != dbSig && !IsWork(db) && !IsWork(dbSig)
    modifies tree
    ensures tree.Valid() && old(tree.log) <= tree.log && tree.statFaults >= old(tree.statFaults)
    ensures Within(tree.log, |old(tree.log)|, old(tree.files), tree.files, DatabaseNames(db, dbSig))
    ensures forall k | |old(tree.log)| <= k < |tree.log| :: Same(old(tree.files), tree.log[k], db) || (ok && tree.log[k] == tree.files)
    ensures !ok ==> Same(old(tree.files), tree.files, db)
    ensures ok ==> db in keep && (Chosen(old(tree.files), db).Some? ==> InPlace(tree.files, db) && Chosen(old(tree.files), db) == Some(tree.files[db]))
    ensures ok && !sigMissing ==>
              dbSig in keep && (Chosen(old(tree.files), dbSig).Some? ==> InPlace(tree.files, dbSig) && Chosen(old(tree.files), dbSig) == Some(tree.files[dbSig]))
    ensures ok && sigMissing && !failed ==> dbSig !in tree.files
    ensures keep <= DatabaseFiles(db, dbSig, sigMissing)
  {
    ghost var n, a := |tree.log|, tree.files;
    WorkNamesDiffer(db, dbSig);
    WorkNames(db);
    WorkNames(dbSig);
    keep, failed := {}, false;
    ok := true;
    if sigMissing {
      failed := RemoveStale(tree, dbSig);
    } else {
      ok := PromoteStaged(tree, dbSig);
      if !ok {
        return;
      }
      keep := {dbSig};
    }
    ok := PromoteStaged(tree, db);
    keep := keep + {db};
  }

  /** The database is live, lists these packages and, if it is signed, comes
      with a signature the verifier takes. */
  predicate DatabaseLive(w: World, files: Files, db: Path, dbSig: Path, sigMissing: bool, pkgs: seq<Package>) {
    && db in files && w.parse(files[db]) == Some(pkgs)
    && (!sigMissing ==> dbSig in files && w.verify(files[db], files[dbSig]))
  }

  /** A tree as a client may see it once promotion has begun from a: every
      package and signature has its earlier bytes or the verified ones, no
      package is new before all signatures are, and the database is the earlier
      one unless every pair is live. */
  ghost predicate Orderly(verify: Verify, a: Files, files: Files, db: Path, jobs: seq<Job>, states: seq<FileState>, terms: Terms)
    requires |states| == |jobs| && |jobs| % 2 == 0
  {
    && (forall i | 0 <= i < |jobs| && !states[i].FileMissing? ::
          Same(a, files, jobs[i].dst) || (jobs[i].dst in files && Chosen(a, jobs[i].dst) == Some(files[jobs[i].dst])))
    && SignaturesFirst(a, files, jobs, states)
    && (Same(a, files, db) || PairsLive(verify, files, jobs, states, terms))
  }

  ghost predicate LogOrderly(verify: Verify, log: seq<Files>, n: nat, a: Files, db: Path, jobs: seq<Job>, states: seq<FileState>, terms: Terms)
    requires |states| == |jobs| && |jobs| % 2 == 0
  {
    forall k | n <= k < |log| :: Orderly(verify, a, log[k], db, jobs, states, terms)
  }

  lemma {:induction false} OrderlyKept(verify: Verify, a: Files, b: Files, c: Files, db: Path, jobs: seq<Job>, states: seq<FileState>, terms: Terms)
    requires |states| == |jobs| && |jobs| % 2 == 0 && Orderly(verify, a, b, db, jobs, states, terms)
    requires forall i | 0 <= i < |jobs| && !states[i].FileMissing? :: Same(b, c, jobs[i].dst)
    requires Same(b, c, db) || PairsLive(verify, b, jobs, states, terms)
    ensures Orderly(verify, a, c, db, jobs, states, terms)
    ensures PairsLive(verify, b, jobs, states, terms) ==> PairsLive(verify, c, jobs, states, terms)
  {
    if PairsLive(verify, b, jobs, states, terms) {
      PairsLiveKept(verify, b, c, jobs, states, terms);
    }
    forall i | 0 <= i < |jobs| && !states[i].FileMissing?
      ensures Same(a, c, jobs[i].dst) || (jobs[i].dst in c && Chosen(a, jobs[i].dst) == Some(c[jobs[i].dst]))
    {
      assert Same(b, c, jobs[i].dst);
    }
  }

  /** A stretch of work beside the packages and the database. */
  lemma {:induction false} OrderlyBeside(verify: Verify, log: seq<Files>, n: nat, a: Files, b: Files, c: Files, changed: set<Path>, db: Path, jobs: seq<Job>, states: seq<FileState>, terms: Terms)
    requires |states| == |jobs| && |jobs| % 2 == 0 && Orderly(verify, a, b, db, jobs, states, terms)
    requires Within(log, n, b, c, changed)
    requires forall i | 0 <= i < |jobs| && !states[i].FileMissing? :: jobs[i].dst !in changed
    requires db !in changed || PairsLive(verify, b, jobs, states, terms)
    ensures LogOrderly(verify, log, n, a, db, jobs, states, terms) && Orderly(verify, a, c, db, jobs, states, terms)
    ensures PairsLive(verify, b, jobs, states, terms) ==> PairsLive(verify, c, jobs, states, terms)
  {
    OrderlyKept(verify, a, b, c, db, jobs, states, terms);
    forall k | n <= k < |log| ensures Orderly(verify, a, log[k], db, jobs, states, terms) {
      assert SameOutside(b, log[k], changed);
      OrderlyKept(verify, a, b, log[k], db, jobs, states, terms);
    }
  }

  /** Which names the steps after the packages leave alone. */
  lemma {:induction false} StepsApart(db: Path, dbSig: Path, jobs: seq<Job>, extras: seq<Job>)
    requires Distinct(Everything(db, dbSig, jobs, extras))
    ensures forall i | 0 <= i < |jobs| :: jobs[i].dst !in ExtraNames(extras) && jobs[i].dst !in DatabaseNames(db, dbSig)
    ensures forall x | x in {db} + {dbSig} :: x !in PromoteNames(jobs) && Staged(x) !in PromoteNames(jobs)
    ensures forall x | x in {db} + {dbSig} :: x !in ExtraNames(extras) && Staged(x) !in ExtraNames(extras)
  {
    EverythingApart(db, dbSig, jobs, extras);
    WorkNames(db);
    WorkNames(dbSig);
    forall i, j | 0 <= i < |jobs| && 0 <= j < |extras| ensures jobs[i].dst !in {extras[j].dst} + {Staged(extras[j].dst)} + StageNames(extras[j].dst) {
      WorkNamesDiffer(jobs[i].dst, extras[j].dst);
    }
    forall x | x in {db} + {dbSig} ensures x !in PromoteNames(jobs) && Staged(x) !in PromoteNames(jobs) {
      Besides(x, jobs);
    }
    forall x | x in {db} + {dbSig} ensures x !in ExtraNames(extras) && Staged(x) !in ExtraNames(extras) {
      Besides(x, extras);
    }
  }

  /** Promotion of pairs, companions and database. */
  method Promote(tree: Tree, w: World, db: Path, dbSig: Path, sigMissing: bool, jobs: seq<Job>, states: seq<FileState>, extras: seq<Job>, verify: bool,
                 ghost pkgs: seq<Package>, ghost terms: Terms, ghost sound: bool)
    returns (ok: bool, keep: set<Path>, extraStates: seq<FileState>, stuck: set<Path>)
    requires tree.Valid() && |states| == |jobs| && |jobs| % 2 == 0 && db != dbSig && !IsWork(db) && !IsWork(dbSig)
    requires forall i | 0 <= i < |extras| :: extras[i].stage
    requires sound ==> Distinct(Everything(db, dbSig, jobs, extras)) && Verified(w, tree.files, db, dbSig, sigMissing, pkgs, jobs, states, terms)
    modifies tree
    ensures tree.Valid() && old(tree.log) <= tree.log && tree.statFaults >= old(tree.statFaults)
    ensures sound ==> LogOrderly(w.verify, tree.log, |old(tree.log)|, old(tree.files), db, jobs, states, terms)
    ensures sound && ok ==> PairsLive(w.verify, tree.files, jobs, states, terms) && DatabaseLive(w, tree.files, db, dbSig, sigMissing, pkgs)
    ensures sound && ok ==> JobsEnded(old(tree.files), tree.files, jobs, states, false, stuck)
    ensures sound && ok ==> Companions(tree.files, dbSig, sigMissing, extras, extraStates, stuck)
    ensures |extraStates| == |extras| && (ok ==> keep <= LiveDsts(extras, extraStates) + DatabaseFiles(db, dbSig, sigMissing))
    ensures sound && ok ==> forall i | 0 <= i < |extras| && !extraStates[i].FileMissing? :: extras[i].dst in keep
    ensures ok ==> db in keep && (!sigMissing ==> dbSig in keep)
  {
    ghost var n, a := |tree.log|, tree.files;
    if sound {
      EverythingApart(db, dbSig, jobs, extras);
      StepsApart(db, dbSig, jobs, extras);
    }
    extraStates := seq(|extras|, _ => FileMissing);
    ok, stuck := PromotePairs(tree, w, jobs, states, terms, sound);
    ghost var b, m1 := tree.files, |tree.log|;
    if sound {
      PassesOrderly(w.verify, tree.log, n, a, b, db, jobs, states, terms);
    }
    if !ok {
      return false, {}, extraStates, stuck;
    }
    ghost var first := stuck;
    var second;
    ok, keep, extraStates, second := SyncExtras(tree, w, extras, verify);
    ghost var c, m2 := tree.files, |tree.log|;
    if sound {
      OrderlyBeside(w.verify, tree.log, m1, a, b, c, ExtraNames(extras), db, jobs, states, terms);
    }
    if !ok {
      return false, keep, extraStates, stuck;
    }
    var more, failed;
    ok, more, failed := PromoteDatabase(tree, db, dbSig, sigMissing);
    keep := keep + more;
    stuck := stuck + second + if failed then {dbSig} else {};
    if sound {
      OrderlyBeside(w.verify, tree.log, m2, a, c, tree.files, DatabaseNames(db, dbSig), db, jobs, states, terms);
      ChosenBeside(a, b, c, db, PromoteNames(jobs), ExtraNames(extras));
      ChosenBeside(a, b, c, dbSig, PromoteNames(jobs), ExtraNames(extras));
      if ok {
        JobsEndedKept(a, b, c, jobs, states, false, false, first, stuck);
        JobsEndedKept(a, c, tree.files, jobs, states, false, false, stuck, stuck);
        CompanionsBefore(c, tree.files, db, dbSig, sigMissing, jobs, extras, extraStates, second, stuck);
      }
    }
  }

  lemma {:induction false} PassesOrderly(verify: Verify, log: seq<Files>, n: nat, a: Files, b: Files, db: Path, jobs: seq<Job>, states: seq<FileState>, terms: Terms)
    requires |states| == |jobs| && |jobs| % 2 == 0 && n <= |log|
    requires Within(log, n, a, b, PromoteNames(jobs)) && db !in PromoteNames(jobs)
    requires LogMoving(log, n, a, jobs, states) && AllMoving(a, b, jobs, states)
    requires LogSignaturesFirst(log, n, a, jobs, states) && SignaturesFirst(a, b, jobs, states)
    ensures LogOrderly(verify, log, n, a, db, jobs, states, terms) && Orderly(verify, a, b, db, jobs, states, terms)
  {
    forall k | n <= k < |log| ensures Orderly(verify, a, log[k], db, jobs, states, terms) {
      assert AllMoving(a, log[k], jobs, states) && SignaturesFirst(a, log[k], jobs, states) && SameOutside(a, log[k], PromoteNames(jobs));
    }
  }

  /** Pruning takes nothing a complete repository needs. */
  method PruneAfter(tree: Tree, w: World, dir: Path, db: Path, dbSig: Path, sigMissing: bool, jobs: seq<Job>, states: seq<FileState>,
                    keep: set<Path>, dirs: set<Path>, saved: Prune.Saved, now: int, grace: int,
                    ghost a: Files, ghost pkgs: seq<Package>, ghost terms: Terms, ghost stuck: set<Path>, ghost sound: bool)
    returns (saved': Prune.Saved, report: Option<Prune.Report>)
    requires tree.Valid() && |states| == |jobs| && |jobs| % 2 == 0
    requires sound ==>
               && Orderly(w.verify, a, tree.files, db, jobs, states, terms) && PairsLive(w.verify, tree.files, jobs, states, terms)
               && DatabaseLive(w, tree.files, db, dbSig, sigMissing, pkgs)
               && db in keep && (!sigMissing ==> dbSig in keep)
               && JobsEnded(a, tree.files, jobs, states, false, stuck)
               && forall i | 0 <= i < |jobs| && !states[i].FileMissing? :: jobs[i].dst in keep
    modifies tree
    ensures tree.Valid() && old(tree.log) <= tree.log && tree.statFaults >= old(tree.statFaults)
    ensures sound ==> JobsEnded(a, tree.files, jobs, states, true, stuck)
    ensures (forall p | p in keep :: Same(old(tree.files), tree.files, p)) && forall p | p in tree.files :: p in old(tree.files)
    ensures Prune.Pruned(report, true, keep, tree.files, dir, saved, saved', now, grace)
    ensures sound ==>
              && LogOrderly(w.verify, tree.log, |old(tree.log)|, a, db, jobs, states, terms)
              && Orderly(w.verify, a, tree.files, db, jobs, states, terms) && PairsLive(w.verify, tree.files, jobs, states, terms)
              && DatabaseLive(w, tree.files, db, dbSig, sigMissing, pkgs)
  {
    ghost var d, n := tree.files, |tree.log|;
    var pruned, run, complete, _, _ := Prune.PruneTree(tree, dir, dirs, keep, saved, now, grace);
    saved', report := pruned, Some(Prune.Report(run, complete));
    Prune.KeptNotRemoved(run, if grace > 0 then saved else map[], grace);
    if sound {
      OrderlyKept(w.verify, a, d, tree.files, db, jobs, states, terms);
      JobsEndedKept(a, d, tree.files, jobs, states, false, true, stuck, stuck);
      forall k | n <= k < |tree.log| ensures Orderly(w.verify, a, tree.log[k], db, jobs, states, terms) {
        assert Prune.OnlyRemoves(d, tree.log[k], run.removed);
        OrderlyKept(w.verify, a, d, tree.log[k], db, jobs, states, terms);
      }
    }
  }

  function Names(jobs: seq<Job>): seq<Path> {
    seq(|jobs|, i requires 0 <= i < |jobs| => jobs[i].dst)
  }

  /** The deferred removal of staged leftovers, which clients do not see. */
  method CleanAfter(tree: Tree, names: seq<Path>) returns (uncleared: set<Path>)
    requires tree.Valid()
    modifies tree`files, tree`log
    ensures tree.Valid() && old(tree.log) <= tree.log
    ensures LiveSame(old(tree.files), tree.files) && LiveSince(tree.log, |old(tree.log)|, old(tree.files))
    ensures Cleared(tree.files, names, uncleared)
  {
    uncleared := Cleanup(tree, names);
    forall p | p in StagedNames(names) ensures IsWork(p) {
      var i :| 0 <= i < |names| && p == Staged(names[i]);
      WorkNames(names[i]);
    }
    WithinWorkIsLive(tree.log, |old(tree.log)|, old(tree.files), tree.files, StagedNames(names));
  }

  lemma {:induction false} OrderlyLive(verify: Verify, log: seq<Files>, n: nat, a: Files, b: Files, c: Files, db: Path, jobs: seq<Job>, states: seq<FileState>, terms: Terms)
    requires |states| == |jobs| && |jobs| % 2 == 0 && Orderly(verify, a, b, db, jobs, states, terms)
    requires LiveSince(log, n, b) && LiveSame(b, c) && Distinct(jobs) && !IsWork(db)
    ensures LogOrderly(verify, log, n, a, db, jobs, states, terms)
    ensures PairsLive(verify, b, jobs, states, terms) ==> PairsLive(verify, c, jobs, states, terms)
  {
    OrderlyKept(verify, a, b, c, db, jobs, states, terms);
    forall k | n <= k < |log| ensures Orderly(verify, a, log[k], db, jobs, states, terms) {
      assert LiveSame(b, log[k]);
      OrderlyKept(verify, a, b, log[k], db, jobs, states, terms);
    }
  }

  datatype Options = Options(required: bool, verify: bool, prune: bool, grace: int)

  /** The files that make up the repository after a run. */
  function Belonging(db: Path, dbSig: Path, sigMissing: bool, jobs: seq<Job>, states: seq<FileState>, extras: seq<Job>, extraStates: seq<FileState>): set<Path>
    requires |states| == |jobs| && |extraStates| == |extras|
  {
    DatabaseFiles(db, dbSig, sigMissing) + LiveDsts(jobs, states) + LiveDsts(extras, extraStates)
  }

  /** Promotion and then, if it is wanted, pruning. */
  method PromoteAndPrune(tree: Tree, w: World, dir: Path, db: Path, dbSig: Path, sigMissing: bool, jobs: seq<Job>, states: seq<FileState>, extras: seq<Job>,
                         opts: Options, keep: set<Path>, dirs: set<Path>, saved: Prune.Saved, now: int, ghost pkgs: seq<Package>, ghost terms: Terms, ghost sound: bool)
    returns (ok: bool, saved': Prune.Saved, extraStates: seq<FileState>, stuck: set<Path>, report: Option<Prune.Report>)
    requires tree.Valid() && |states| == |jobs| && |jobs| % 2 == 0 && db != dbSig && !IsWork(db) && !IsWork(dbSig)
    requires forall i | 0 <= i < |extras| :: extras[i].stage
    requires keep <= LiveDsts(jobs, states)
    requires sound ==>
               && Distinct(Everything(db, dbSig, jobs, extras)) && Verified(w, tree.files, db, dbSig, sigMissing, pkgs, jobs, states, terms)
               && forall i | 0 <= i < |jobs| && !states[i].FileMissing? :: jobs[i].dst in keep
    modifies tree
    ensures tree.Valid() && old(tree.log) <= tree.log && tree.statFaults >= old(tree.statFaults)
    ensures |extraStates| == |extras|
    ensures ok ==> Prune.Pruned(report, opts.prune, Belonging(db, dbSig, sigMissing, jobs, states, extras, extraStates), tree.files, dir,
                                saved, saved', now, opts.grace)
    ensures sound ==> LogOrderly(w.verify, tree.log, |old(tree.log)|, old(tree.files), db, jobs, states, terms)
    ensures sound ==> Orderly(w.verify, old(tree.files), tree.files, db, jobs, states, terms)
    ensures sound && ok ==>
              && PairsLive(w.verify, tree.files, jobs, states, terms)
              && DatabaseLive(w, tree.files, db, dbSig, sigMissing, pkgs)
              && JobsEnded(old(tree.files), tree.files, jobs, states, opts.prune, stuck)
              && Companions(tree.files, dbSig, sigMissing, extras, extraStates, stuck)
  {
    ghost var a := tree.files;
    saved', report := saved, None;
    var more;
    ok, more, extraStates, stuck := Promote(tree, w, db, dbSig, sigMissing, jobs, states, extras, opts.verify, pkgs, terms, sound);
    if sound { EverythingApart(db, dbSig, jobs, extras); }
    if ok && opts.prune {
      ghost var b := tree.files;
      saved', report := PruneAfter(tree, w, dir, db, dbSig, sigMissing, jobs, states, keep + more, dirs, saved, now, opts.grace, a, pkgs, terms, stuck, sound);
      if sound { CompanionsKept(b, tree.files, dbSig, sigMissing, extras, extraStates, stuck, keep + more); }
    }
  }

  /** Everything from the first promotion on, with the deferred cleanup. */
  method Publish(tree: Tree, w: World, dir: Path, db: Path, dbSig: Path, sigMissing: bool, jobs: seq<Job>, states: seq<FileState>, extras: seq<Job>,
                 opts: Options, keep: set<Path>, dirs: set<Path>, saved: Prune.Saved, now: int, ghost pkgs: seq<Package>, ghost terms: Terms, ghost sound: bool)
    returns (ok: bool, saved': Prune.Saved, extraStates: seq<FileState>, stuck: set<Path>, report: Option<Prune.Report>, uncleared: set<Path>)
    requires tree.Valid() && |states| == |jobs| && |jobs| % 2 == 0 && db != dbSig && !IsWork(db) && !IsWork(dbSig)
    requires forall i | 0 <= i < |extras| :: extras[i].stage
    requires keep <= LiveDsts(jobs, states)
    requires sound ==>
               && Distinct(Everything(db, dbSig, jobs, extras)) && Verified(w, tree.files, db, dbSig, sigMissing, pkgs, jobs, states, terms)
               && forall i | 0 <= i < |jobs| && !states[i].FileMissing? :: jobs[i].dst in keep
    modifies tree
    ensures tree.Valid() && old(tree.log) <= tree.log && tree.statFaults >= old(tree.statFaults)
    ensures |extraStates| == |extras| && Cleared(tree.files, [db, dbSig] + Names(jobs) + Names(extras), uncleared)
    ensures ok ==> Prune.Pruned(report, opts.prune, Belonging(db, dbSig, sigMissing, jobs, states, extras, extraStates), tree.files, dir,
                                saved, saved', now, opts.grace)
    ensures sound ==> LogOrderly(w.verify, tree.log, |old(tree.log)|, old(tree.files), db, jobs, states, terms)
    ensures sound && ok ==>
              && PairsLive(w.verify, tree.files, jobs, states, terms)
              && DatabaseLive(w, tree.files, db, dbSig, sigMissing, pkgs)
              && JobsEnded(old(tree.files), tree.files, jobs, states, opts.prune, stuck)
              && Companions(tree.files, dbSig, sigMissing, extras, extraStates, stuck)
  {
    ghost var n, a := |tree.log|, tree.files;
    ok, saved', extraStates, stuck, report :=
      PromoteAndPrune(tree, w, dir, db, dbSig, sigMissing, jobs, states, extras, opts, keep, dirs, saved, now, pkgs, terms, sound);
    ghost var d, m := tree.files, |tree.log|;
    uncleared := CleanAfter(tree, [db, dbSig] + Names(jobs) + Names(extras));
    if ok {
      Prune.PrunedStays(report, opts.prune, Belonging(db, dbSig, sigMissing, jobs, states, extras, extraStates), d, tree.files, dir,
                        saved, saved', now, opts.grace);
    }
    if sound {
      EverythingApart(db, dbSig, jobs, extras);
      OrderlyLive(w.verify, tree.log, m, a, d, tree.files, db, jobs, states, terms);
      if ok {
        JobsEndedKept(a, d, tree.files, jobs, states, opts.prune, false, stuck, stuck);
        CompanionsKept(d, tree.files, dbSig, sigMissing, extras, extraStates, stuck, set i | 0 <= i < |extras| :: extras[i].dst);
      }
    }
  }

  /** The part of a run before promotion, cleaned up when it stops there. */
  method Begin(tree: Tree, w: World, db: Path, dbSig: Path, required: bool, miss: Missing.Missing?, ghost extras: seq<Job>)
    returns (ready: bool, sigMissing: bool, pkgs: seq<Package>, jobs: seq<Job>, states: seq<FileState>, keep: set<Path>,
             left: set<nat>, refetched: map<nat, Refetched>, uncleared: set<Path>)
    requires tree.Valid() && (miss != null ==> miss.Valid()) && db != dbSig && !IsWork(db) && !IsWork(dbSig)
    modifies tree, if miss == null then {} else {miss}
    ensures tree.Valid() && old(tree.log) <= tree.log && tree.statFaults >= old(tree.statFaults)
    ensures LiveSince(tree.log, |old(tree.log)|, old(tree.files)) && LiveSame(old(tree.files), tree.files)
    ensures |states| == |jobs| && |jobs| % 2 == 0
    ensures !ready ==> Cleared(tree.files, [db, dbSig] + Names(jobs), uncleared)
    ensures ready ==> Resolved(miss) && JobsOf(w, pkgs) == Some(jobs)
    ensures ready ==> forall i | 0 <= i < |jobs| && states[i].FileMissing? && !jobs[i].optional :: jobs[i].req in Recorded(miss)
    ensures ready && Distinct(Everything(db, dbSig, jobs, extras)) ==> forall i | 0 <= i < |jobs| && !states[i].FileMissing? :: jobs[i].dst in keep
    ensures ready ==> keep <= LiveDsts(jobs, states)
    ensures ready && Distinct(Everything(db, dbSig, jobs, extras)) && tree.statFaults == old(tree.statFaults) ==>
              Verified(w, tree.files, db, dbSig, sigMissing, pkgs, jobs, states, Terms(required, w.hash, old(tree.files), left, refetched))
  {
    ghost var n, a := |tree.log|, tree.files;
    ready, sigMissing, pkgs, jobs, states, keep, left, refetched := Prepare(tree, w, db, dbSig, required, miss, extras);
    if Distinct(Everything(db, dbSig, jobs, extras)) { EverythingApart(db, dbSig, jobs, extras); }
    uncleared := {};
    if !ready {
      ghost var b, m := tree.files, |tree.log|;
      uncleared := CleanAfter(tree, [db, dbSig] + Names(jobs));
      LiveJoin(tree.log, n, m, a, b);
    }
  }

  /** Before promotion, after a failed promotion, or done. */
  datatype Outcome = Stopped | Broken | Synced

  /** syncArch with signatures on. A run that returns before promotion shows
      clients nothing. Once promotion begins, and whether or not it succeeds,
      every package and signature that was served has its earlier bytes or those
      staged, which the verifier took if both were served; and the database
      changes only when every pair is live. A run that succeeds leaves the
      database it parsed, with its signature if it has one, every pair not
      recorded missing, each package with the database's digest unless Origin
      says where else its bytes are from, the others as JobsEnded says, and the
      companion files; `stuck` are the files it could not drop.
      `verified` is the tree promotion began with. */
  method Sync(tree: Tree, w: World, dir: Path, name: string, opts: Options, miss: Missing.Missing?,
              dirs: set<Path>, saved: Prune.Saved, now: int)
    returns (outcome: Outcome, sigMissing: bool, pkgs: seq<Package>, jobs: seq<Job>, states: seq<FileState>,
             left: set<nat>, refetched: map<nat, Refetched>, extraStates: seq<FileState>, stuck: set<Path>,
             saved': Prune.Saved, report: Option<Prune.Report>, uncleared: set<Path>, ghost verified: Files, ghost begun: nat)
    requires tree.Valid() && (miss != null ==> miss.Valid())
    modifies tree, if miss == null then {} else {miss}
    ensures tree.Valid() && old(tree.log) <= tree.log && |states| == |jobs| && |jobs| % 2 == 0
    ensures outcome.Synced? ==>
              && |extraStates| == |ExtraJobs(dir, name)|
              && Prune.Pruned(report, opts.prune,
                              Belonging(DbOf(dir, name), DbSigOf(dir, name), sigMissing, jobs, states, ExtraJobs(dir, name), extraStates),
                              tree.files, dir, saved, saved', now, opts.grace)
    ensures Cleared(tree.files, [DbOf(dir, name), DbSigOf(dir, name)] + Names(jobs), uncleared)
    ensures !outcome.Stopped? ==> Cleared(tree.files, Names(ExtraJobs(dir, name)), uncleared)
    ensures outcome.Stopped? ==> LiveSince(tree.log, |old(tree.log)|, old(tree.files)) && LiveSame(old(tree.files), tree.files)
    ensures !outcome.Stopped? ==>
              && |old(tree.log)| <= begun <= |tree.log| && LiveSame(old(tree.files), verified)
              && LiveSince(tree.log[..begun], |old(tree.log)|, old(tree.files))
              && Resolved(miss) && JobsOf(w, pkgs) == Some(jobs)
              && forall i | 0 <= i < |jobs| && states[i].FileMissing? && !jobs[i].optional :: jobs[i].req in Recorded(miss)
    ensures !outcome.Stopped? && tree.statFaults == old(tree.statFaults) &&
            Distinct(Everything(DbOf(dir, name), DbSigOf(dir, name), jobs, ExtraJobs(dir, name))) ==>
              var terms := Terms(opts.required, w.hash, old(tree.files), left, refetched);
              && Verifying(w.verify, verified, jobs, states, terms, |jobs| / 2)
              && LogOrderly(w.verify, tree.log, begun, verified, DbOf(dir, name), jobs, states, terms)
              && (outcome.Synced? ==>
                    && PairsLive(w.verify, tree.files, jobs, states, terms)
                    && JobsEnded(verified, tree.files, jobs, states, opts.prune, stuck)
                    && Companions(tree.files, DbSigOf(dir, name), sigMissing, ExtraJobs(dir, name), extraStates, stuck)
                    && DatabaseLive(w, tree.files, DbOf(dir, name), DbSigOf(dir, name), sigMissing, pkgs))
  {
    ghost var a, faults := tree.files, tree.statFaults;
    var db, dbSig, extras := DbOf(dir, name), DbSigOf(dir, name), ExtraJobs(dir, name);
    DbNames(dir, name);
    saved', extraStates, stuck, report := saved, [], {}, None;
    var ready, keep;
    ready, sigMissing, pkgs, jobs, states, keep, left, refetched, uncleared := Begin(tree, w, db, dbSig, opts.required, miss, extras);
    verified, begun := tree.files, |tree.log|;
    outcome := Stopped;
    if ready {
      ghost var sound := Distinct(Everything(db, dbSig, jobs, extras)) && tree.statFaults == faults;
      assert tree.log[..begun] == tree.log;
      var ok;
      ok, saved', extraStates, stuck, report, uncleared := Publish(tree, w, dir, db, dbSig, sigMissing, jobs, states, extras, opts, keep, dirs, saved, now, pkgs,
                            Terms(opts.required, w.hash, a, left, refetched), sound);
      outcome := if ok then Synced else Broken;
    }
  }

  // ---------- Pairs of which one half is missing ----------

  /** What a finished run leaves of one pair. A signature served for a package
      that is not is promoted unchecked, beside the earlier package. */
  lemma {:induction false} PairEnds(verify: Verify, before: Files, a: Files, f: Files, jobs: seq<Job>, states: seq<FileState>, terms: Terms, pruned: bool, stuck: set<Path>, i: nat)
    requires |states| == |jobs| && |jobs| % 2 == 0 && i < |jobs| / 2 && Distinct(jobs) && LiveSame(before, a)
    requires Verifying(verify, a, jobs, states, terms, |jobs| / 2) && JobsEnded(a, f, jobs, states, pruned, stuck)
    ensures
      var pkg, sig := jobs[2 * i].dst, jobs[2 * i + 1].dst;
      if !states[2 * i].FileMissing? then
        && FileDone(a, f, pkg)
        && if states[2 * i + 1].FileMissing? then !terms.required && (sig !in f || (sig in stuck && Same(before, f, sig)))
           else FileDone(a, f, sig) && verify(f[pkg], f[sig])
      else
        && (Same(before, f, pkg) || (pruned && pkg !in f))
        && if states[2 * i + 1].FileMissing? then sig !in f || (sig in stuck && Same(before, f, sig)) else FileDone(a, f, sig)
  {
    assert PairAccepted(verify, a, jobs, states, terms, i);
  }

  /** The package was not served but its signature was. */
  predicate Halved(states: seq<FileState>, i: nat)
    requires 2 * i + 1 < |states|
  {
    states[2 * i].FileMissing? && !states[2 * i + 1].FileMissing?
  }

  /** The live half of such a pair, if there is one, goes with the signature
      about to be promoted. */
  predicate HalvedFits(verify: Verify, before: Files, a: Files, f: Files, jobs: seq<Job>, i: nat)
    requires 2 * i + 1 < |jobs|
  {
    var pkg, sig := jobs[2 * i].dst, Chosen(a, jobs[2 * i + 1].dst);
    pkg in f && pkg in before && sig.Some? ==> verify(before[pkg], sig.value)
  }

  /** After a finished run, every live package whose signature this run served
      is accepted with it, exactly when that is so for the packages that were
      not served themselves: the earlier package with the new signature. */
  lemma {:induction false} VerifiedExactly(verify: Verify, before: Files, a: Files, f: Files, jobs: seq<Job>, states: seq<FileState>, terms: Terms, pruned: bool, stuck: set<Path>)
    requires |states| == |jobs| && |jobs| % 2 == 0 && Distinct(jobs) && LiveSame(before, a)
    requires Verifying(verify, a, jobs, states, terms, |jobs| / 2) && JobsEnded(a, f, jobs, states, pruned, stuck)
    ensures
      (forall i | 0 <= i < |jobs| / 2 && !states[2 * i + 1].FileMissing? && jobs[2 * i].dst in f ::
         jobs[2 * i + 1].dst in f && verify(f[jobs[2 * i].dst], f[jobs[2 * i + 1].dst]))
      <==>
      (forall i | 0 <= i < |jobs| / 2 && Halved(states, i) :: HalvedFits(verify, before, a, f, jobs, i))
  {
    forall i | 0 <= i < |jobs| / 2 && !states[2 * i + 1].FileMissing? && jobs[2 * i].dst in f
      ensures jobs[2 * i + 1].dst in f
      ensures verify(f[jobs[2 * i].dst], f[jobs[2 * i + 1].dst]) <==> (Halved(states, i) ==> HalvedFits(verify, before, a, f, jobs, i))
    {
      PairEnds(verify, before, a, f, jobs, states, terms, pruned, stuck, i);
    }
    forall i | 0 <= i < |jobs| / 2 && Halved(states, i) && jobs[2 * i].dst !in f ensures HalvedFits(verify, before, a, f, jobs, i) {
    }
  }

  /** One package with its signature; the verifier takes equal bytes. */
  function OnePair(): seq<Job> {
    PairOf(Package("p", 0, map[]), "p")
  }

  /** The case that fails: upstream a new signature is served and its package is
      not yet. Although signatures are required, any run that finishes then
      replaces the signature of a pair that was good. */
  lemma {:induction false} HalvedPairBreaks(hash: Hash, f: Files)
    requires
      var before := map["p" := "old", "p.sig" := "old"];
      JobsEnded(before[Staged("p.sig") := "new"], f, OnePair(), [FileMissing, FileStaged], false, {})
    ensures
      var verify := (data: Bytes, sig: Bytes) => data == sig;
      var before := map["p" := "old", "p.sig" := "old"];
      var a := before[Staged("p.sig") := "new"];
      && Distinct(OnePair()) && LiveSame(before, a)
      && Verifying(verify, a, OnePair(), [FileMissing, FileStaged], Terms(true, hash, before, {}, map[]), 1)
      && verify(before["p"], before["p.sig"])
      && "p" in f && "p.sig" in f && !verify(f["p"], f["p.sig"])
  {
    var before := map["p" := "old", "p.sig" := "old"];
    var a := before[Staged("p.sig") := "new"];
    var jobs := OnePair();
    assert jobs[0].dst == "p" && jobs[1].dst == "p.sig" && |"p"| == 1 && |"p.sig"| == 5;
    assert "p.sig"[4] == 'g' && "old"[0] == 'o' && "new"[0] == 'n';
    WorkNames("p.sig");
    assert |Staged("p")| == 8 && |Staged("p.sig")| == 12;
    assert JobsEnded(a, f, jobs, [FileMissing, FileStaged], false, {});
    assert Same(a, f, jobs[0].dst) && FileDone(a, f, jobs[1].dst);
  }

  /** Neither half was served. */
  predicate Unserved(states: seq<FileState>, i: nat)
    requires 2 * i + 1 < |states|
  {
    states[2 * i].FileMissing? && states[2 * i + 1].FileMissing?
  }

  /** With signatures required, every live package has a signature after a
      finished run exactly when no pair that was not served at all has lost its
      signature and kept a package it had before. If nothing was pruned and no
      removal failed, that is: none of them had a package. */
  lemma {:induction false} SignedExactly(verify: Verify, before: Files, a: Files, f: Files, jobs: seq<Job>, states: seq<FileState>, terms: Terms, pruned: bool, stuck: set<Path>)
    requires |states| == |jobs| && |jobs| % 2 == 0 && Distinct(jobs) && LiveSame(before, a) && terms.required
    requires Verifying(verify, a, jobs, states, terms, |jobs| / 2) && JobsEnded(a, f, jobs, states, pruned, stuck)
    ensures
      (forall i | 0 <= i < |jobs| / 2 && jobs[2 * i].dst in f :: jobs[2 * i + 1].dst in f)
      <==>
      (forall i | 0 <= i < |jobs| / 2 && Unserved(states, i) && jobs[2 * i + 1].dst !in f ::
         jobs[2 * i].dst !in before || (pruned && jobs[2 * i].dst !in f))
    ensures
      !pruned && stuck == {} ==>
        ((forall i | 0 <= i < |jobs| / 2 && jobs[2 * i].dst in f :: jobs[2 * i + 1].dst in f)
         <==> (forall i | 0 <= i < |jobs| / 2 && Unserved(states, i) :: jobs[2 * i].dst !in before))
  {
    forall i | 0 <= i < |jobs| / 2
      ensures !Unserved(states, i) ==> jobs[2 * i].dst in f ==> jobs[2 * i + 1].dst in f
      ensures Unserved(states, i) ==> (jobs[2 * i].dst in f <==> jobs[2 * i].dst in before && !(pruned && jobs[2 * i].dst !in f))
      ensures Unserved(states, i) && stuck == {} ==> jobs[2 * i + 1].dst !in f
    {
      PairEnds(verify, before, a, f, jobs, states, terms, pruned, stuck, i);
    }
  }

  /** The case that fails: the upstream lists a package but serves neither half.
      Although signatures are required, a good pair loses its signature and keeps
      the package, as long as no removal fails. */
  lemma {:induction false} UnservedPairBreaks(hash: Hash, f: Files)
    requires
      var before := map["p" := "old", "p.sig" := "old"];
      JobsEnded(before, f, OnePair(), [FileMissing, FileMissing], false, {})
    ensures
      var verify := (data: Bytes, sig: Bytes) => data == sig;
      var before := map["p" := "old", "p.sig" := "old"];
      && Distinct(OnePair()) && verify(before["p"], before["p.sig"])
      && Verifying(verify, before, OnePair(), [FileMissing, FileMissing], Terms(true, hash, before, {}, map[]), 1)
      && JobsEnded(before, before - {"p.sig"}, OnePair(), [FileMissing, FileMissing], false, {})
      && "p" in f && f["p"] == "old" && "p.sig" !in f
  {
    var before := map["p" := "old", "p.sig" := "old"];
    var jobs := OnePair();
    assert jobs[0].dst == "p" && jobs[1].dst == "p.sig" && |"p"| == 1 && |"p.sig"| == 5 && "p.sig"[4] == 'g';
    assert Same(before, f, jobs[0].dst) && jobs[1].dst !in f;
    assert Same(before, before - {"p.sig"}, jobs[0].dst);
  }

  // ---------- Packages and the database's digests ----------

  /** The live file has the size and the strongest digest that the database
      lists. */
  predicate HasDigest(hash: Hash, f: Files, dst: Path, p: Package) {
    dst in f && MeetsSums(hash, p.size, p.sums, true, f[dst])
  }

  /** After a finished run a served package is live, and has the digest the
      database lists exactly when the live file of the listed size that a refetch
      kept had it, or the earlier staged copy that could not be removed. */
  lemma {:induction false} DigestExactly(w: World, pkgs: seq<Package>, a: Files, f: Files, jobs: seq<Job>, states: seq<FileState>, terms: Terms, pruned: bool, stuck: set<Path>, i: nat)
    requires JobsOf(w, pkgs) == Some(jobs) && |states| == |jobs| && i < |pkgs| && !states[2 * i].FileMissing? && terms.hash == w.hash
    requires Verifying(w.verify, a, jobs, states, terms, |jobs| / 2) && JobsEnded(a, f, jobs, states, pruned, stuck)
    ensures w.join(pkgs[i].filename).Some? && w.join(pkgs[i].filename).value in f
    ensures
      var dst := w.join(pkgs[i].filename).value;
      HasDigest(w.hash, f, dst, pkgs[i]) <==>
        && (i in terms.refetched && terms.refetched[i].LiveKept? ==> HasDigest(w.hash, terms.before, dst, pkgs[i]))
        && (Earlier(terms, i) ==> HasDigest(w.hash, terms.before, Staged(dst), pkgs[i]))
  {
    JobsSay(w, pkgs, i);
    assert FileDone(a, f, jobs[2 * i].dst);
    assert Origin(terms, jobs[2 * i], i, Chosen(a, jobs[2 * i].dst));
  }

  /** A live file of the listed size and another digest. */
  predicate Lookalike(hash: Hash, before: Files, dst: Path, p: Package) {
    dst in before && (p.size > 0 ==> |before[dst]| == p.size) && !HasDigest(hash, before, dst, p)
  }

  /** What a caller can check before a run: without such files and without staged
      copies every served package ends with the database's digest. */
  lemma {:induction false} DigestUnlessLookalike(w: World, pkgs: seq<Package>, a: Files, f: Files, jobs: seq<Job>, states: seq<FileState>, terms: Terms, pruned: bool, stuck: set<Path>)
    requires JobsOf(w, pkgs) == Some(jobs) && |states| == |jobs| && terms.hash == w.hash
    requires Verifying(w.verify, a, jobs, states, terms, |jobs| / 2) && JobsEnded(a, f, jobs, states, pruned, stuck)
    requires forall i | 0 <= i < |pkgs| && w.join(pkgs[i].filename).Some? ::
               var dst := w.join(pkgs[i].filename).value;
               !Lookalike(w.hash, terms.before, dst, pkgs[i]) && Staged(dst) !in terms.before
    ensures forall i | 0 <= i < |pkgs| && !states[2 * i].FileMissing? ::
              w.join(pkgs[i].filename).Some? && HasDigest(w.hash, f, w.join(pkgs[i].filename).value, pkgs[i])
  {
    forall i | 0 <= i < |pkgs| && !states[2 * i].FileMissing?
      ensures w.join(pkgs[i].filename).Some? && HasDigest(w.hash, f, w.join(pkgs[i].filename).value, pkgs[i])
    {
      DigestExactly(w, pkgs, a, f, jobs, states, terms, pruned, stuck, i);
      JobsSay(w, pkgs, i);
      var dst := w.join(pkgs[i].filename).value;
      assert Origin(terms, jobs[2 * i], i, Chosen(a, jobs[2 * i].dst));
      assert !Lookalike(w.hash, terms.before, dst, pkgs[i]) && Staged(dst) !in terms.before;
      assert dst in terms.before ==> (SizeMatches(jobs[2 * i].want.value, terms.before[dst]) <==> (pkgs[i].size > 0 ==> |terms.before[dst]| == pkgs[i].size));
    }
  }

  /** The converse: a refetched package over such a file ends without that
      digest, unless an earlier staged copy was published instead. */
  lemma {:induction false} RefetchKeepsLookalike(w: World, pkgs: seq<Package>, a: Files, f: Files, jobs: seq<Job>, states: seq<FileState>, terms: Terms, pruned: bool, stuck: set<Path>, i: nat)
    requires JobsOf(w, pkgs) == Some(jobs) && |states| == |jobs| && i < |pkgs| && !states[2 * i].FileMissing? && terms.hash == w.hash
    requires Verifying(w.verify, a, jobs, states, terms, |jobs| / 2) && JobsEnded(a, f, jobs, states, pruned, stuck)
    requires i in terms.refetched && w.join(pkgs[i].filename).Some? && Lookalike(w.hash, terms.before, w.join(pkgs[i].filename).value, pkgs[i])
    ensures
      var dst := w.join(pkgs[i].filename).value;
      || terms.refetched[i].StagedKept?
      || (dst in f && f[dst] == terms.before[dst] && !HasDigest(w.hash, f, dst, pkgs[i]))
  {
    DigestExactly(w, pkgs, a, f, jobs, states, terms, pruned, stuck, i);
    JobsSay(w, pkgs, i);
    assert Origin(terms, jobs[2 * i], i, Chosen(a, jobs[2 * i].dst));
    assert SizeMatches(jobs[2 * i].want.value, terms.before[jobs[2 * i].dst]);
  }

  /** What a finished run leaves of each package the database lists: if it was
      served, it is live, and so is its signature, which the verifier takes; if
      that was not served, none was required. */
  lemma {:induction false} DatabaseServed(w: World, pkgs: seq<Package>, f: Files, jobs: seq<Job>, states: seq<FileState>, terms: Terms, i: nat)
    requires JobsOf(w, pkgs) == Some(jobs) && |states| == |jobs| && i < |pkgs| && PairsLive(w.verify, f, jobs, states, terms)
    requires !states[2 * i].FileMissing?
    ensures w.join(pkgs[i].filename).Some?
    ensures
      var dst := w.join(pkgs[i].filename).value;
      && dst in f
      && if states[2 * i + 1].FileMissing? then !terms.required else dst + ".sig" in f && w.verify(f[dst], f[dst + ".sig"])
  {
    JobsSay(w, pkgs, i);
    assert PairLive(w.verify, f, jobs, states, terms, i);
  }

  /** The download of a refetch, call by call: clearing the staged copy and one
      stat are enough for it to leave a file of another digest in place. */
  lemma {:induction false} RefetchTrustsSize(env: FileSteps.Env)
    requires env.fate(0).Works? && env.fate(1).Works?
    ensures
      var hash: Hash := (algo, data) => data;
      var job := Job("p", "p", Some(Expect(3, map["sha256" := "new"])), false, true);
      var before: Files := map["p" := "old", Staged("p") := "new"];
      var args := FileSteps.Args(hash, false, job);
      var (t, b) := Interleaving.Alone(FileSteps.FileProgram(args), FileSteps.Start(args, env), before, 2);
      && t.pc == FileSteps.Ended(Ok(FileUnchanged))
      && Chosen(before, "p") == Some("new") && Acceptable(hash, job.want.value, true, "new")
      && Chosen(b, "p") == Some("old") && !Acceptable(hash, job.want.value, true, "old")
  {
    var hash: Hash := (algo, data) => data;
    var want := Expect(3, map["sha256" := "new"]);
    var job := Job("p", "p", Some(want), false, true);
    var before: Files := map["p" := "old", Staged("p") := "new"];
    NewIsBest(want);
    FileSteps.SizeIsEnough(FileSteps.Args(hash, false, job), env, before);
    assert |Staged("p")| == 8 && |"p"| == 1;
    assert "old"[0] == 'o' && "new"[0] == 'n';
  }

  lemma {:induction false} NewIsBest(want: Expect)
    requires want == Expect(3, map["sha256" := "new"])
    ensures BestSum(want) == Some(("sha256", "new"))
  {
    assert Listed(want, HASH_ORDER[2]);
    assert HASH_ORDER[0] == "sha512" && "sha512"[3] == '5' && "sha256"[3] == '2' && HASH_ORDER[1] == "sha384" && "sha384"[3] == '3';
    assert !Listed(want, HASH_ORDER[0]) && !Listed(want, HASH_ORDER[1]);
  }
}
