/**
 A whole call of Many (fetch/fetch.go): the coordinator and its workers, and
 inside each worker the system calls of the download it runs, all interleaved
 arbitrarily. It keeps what the sequential Transfers.Many promises.
 */
module Pool {

  import opened Wrappers
  import opened Disk
  import opened Fetch
  import opened Interleaving
  import FileSteps
  import Transfers
  import WorkerPool

  /** The arguments of one call, the tree it begins with, and what each download
      will meet. */
  datatype Batch = Batch(
    hash: Hash, verify: bool, jobs: seq<Transfers.Job>, tolerant: bool, keep: set<Path>, workers: int,
    envs: seq<FileSteps.Env>, before: Files)
  {
    predicate Valid() {
      |envs| == |jobs|
    }

    function Args(i: nat): FileSteps.Args
      requires i < |jobs|
    {
      FileSteps.Args(hash, verify, jobs[i])
    }

    function Call(): WorkerPool.Call {
      WorkerPool.Call(seq(|jobs|, i requires 0 <= i < |jobs| => WorkerPool.Job(jobs[i].dst, jobs[i].optional)), tolerant, keep)
    }

    function Programs(): seq<Program<FileSteps.Task>> {
      seq(|jobs|, i requires 0 <= i < |jobs| => FileSteps.FileProgram(Args(i)))
    }

    function Start(): State<FileSteps.Task>
      requires Valid()
    {
      State(before, seq(|jobs|, i requires 0 <= i < |jobs| => FileSteps.Start(Args(i), envs[i])))
    }
  }

  datatype Joint = Joint(pool: WorkerPool.State, work: State<FileSteps.Task>)

  /** A step of the pool, or the next system call of the download of a job. */
  datatype Move = Pool(step: WorkerPool.Step) | Work(idx: nat)

  /** What a download's result is to the pool. */
  function OutcomeOf(r: FileResult): WorkerPool.Outcome {
    match r
    case Ok(state) => WorkerPool.Served(state)
    case Err(NotFound) => WorkerPool.Failed(WorkerPool.NotFound)
    case Err(error) =>
      WorkerPool.Failed(WorkerPool.Other(
        if error == Forbidden then 1 else if error == Transport then 2 else if error == BadSize then 3
        else if error == BadSum then 4 else 5))
  }

  /** A download makes its calls while a worker runs it; a worker is done with it
      when it has ended, with its result. */
  ghost predicate Enabled(batch: Batch, j: Joint, move: Move) {
    match move
    case Work(idx) => idx < |batch.jobs| == |j.work.locals| && WorkerPool.Busy(j.pool, idx) && !j.work.locals[idx].pc.Ended?
    case Pool(step) =>
      && WorkerPool.Enabled(batch.Call(), j.pool, step)
      && (step.Finish? ==>
            var idx := j.pool.workers[step.w].idx;
            idx < |j.work.locals| && j.work.locals[idx].pc.Ended? && step.outcome == OutcomeOf(j.work.locals[idx].pc.result))
  }

  ghost function Apply(batch: Batch, j: Joint, move: Move): Joint
    requires Enabled(batch, j, move)
  {
    match move
    case Work(idx) =>
      var (l, files) := Step(batch.Programs()[idx], j.work.locals[idx], j.work.files);
      j.(work := State(files, j.work.locals[idx := l]))
    case Pool(step) => j.(pool := WorkerPool.Apply(batch.Call(), j.pool, step))
  }

  /** The state these moves lead to, if each was possible. */
  ghost function After(batch: Batch, moves: seq<Move>): Option<Joint>
    requires batch.Valid()
    decreases |moves|
  {
    if moves == [] then Some(Joint(WorkerPool.Init(batch.Call(), batch.workers), batch.Start()))
    else
      var mid := After(batch, moves[..|moves| - 1]);
      if mid.Some? && Enabled(batch, mid.value, moves[|moves| - 1])
      then Some(Apply(batch, mid.value, moves[|moves| - 1]))
      else None
  }

  ghost predicate Leads(batch: Batch, moves: seq<Move>, j: Joint) {
    batch.Valid() && After(batch, moves) == Some(j)
  }

  // ---------- The two sides of a schedule ----------

  function Steps(moves: seq<Move>): seq<WorkerPool.Step> {
    if moves == [] then []
    else
      var last := moves[|moves| - 1];
      Steps(moves[..|moves| - 1]) + if last.Pool? then [last.step] else []
  }

  function Works(moves: seq<Move>): seq<nat> {
    if moves == [] then []
    else
      var last := moves[|moves| - 1];
      Works(moves[..|moves| - 1]) + if last.Work? then [last.idx] else []
  }

  ghost predicate Sides(batch: Batch, moves: seq<Move>, j: Joint)
    requires batch.Valid()
  {
    && WorkerPool.Runs(batch.Call(), batch.workers, Steps(moves), j.pool)
    && Schedule(|batch.jobs|, Works(moves)) && j.work == Run(batch.Programs(), batch.Start(), Works(moves))
  }

  lemma {:induction false} SidesPool(batch: Batch, front: seq<Move>, step: WorkerPool.Step, mid: Joint)
    requires batch.Valid() && Sides(batch, front, mid) && Enabled(batch, mid, Pool(step))
    ensures Sides(batch, front + [Pool(step)], Apply(batch, mid, Pool(step)))
  {
    assert (front + [Pool(step)])[..|front|] == front;
    PoolSide(batch.Call(), batch.workers, Steps(front), step, mid.pool);
    assert Works(front + [Pool(step)]) == Works(front);
  }

  lemma {:induction false} SidesWork(batch: Batch, front: seq<Move>, idx: nat, mid: Joint)
    requires batch.Valid() && Sides(batch, front, mid) && Enabled(batch, mid, Work(idx))
    ensures Sides(batch, front + [Work(idx)], Apply(batch, mid, Work(idx)))
  {
    WorkAppended(front, idx);
    WorkSide(batch.Programs(), batch.Start(), Works(front), idx);
    assert Schedule(|batch.jobs|, Works(front) + [idx]);
    assert Apply(batch, mid, Work(idx)).pool == mid.pool;
  }

  lemma {:induction false} WorkAppended(front: seq<Move>, idx: nat)
    ensures Works(front + [Work(idx)]) == Works(front) + [idx] && Steps(front + [Work(idx)]) == Steps(front)
  {
    assert (front + [Work(idx)])[..|front|] == front;
  }

  /** The pool takes part as in WorkerPool and the downloads as in Interleaving. */
  lemma {:induction false} TwoSides(batch: Batch, moves: seq<Move>, j: Joint)
    requires Leads(batch, moves, j)
    ensures WorkerPool.Runs(batch.Call(), batch.workers, Steps(moves), j.pool)
    ensures Schedule(|batch.jobs|, Works(moves)) && j.work == Run(batch.Programs(), batch.Start(), Works(moves))
    decreases |moves|
  {
    if moves != [] {
      var front, last := moves[..|moves| - 1], moves[|moves| - 1];
      var mid := After(batch, front).value;
      TwoSides(batch, front, mid);
      assert moves == front + [last];
      match last
      case Pool(step) => SidesPool(batch, front, step, mid);
      case Work(idx) => SidesWork(batch, front, idx, mid);
    }
  }

  lemma {:induction false} PoolSide(call: WorkerPool.Call, workers: int, steps: seq<WorkerPool.Step>, step: WorkerPool.Step, s: WorkerPool.State)
    requires WorkerPool.Runs(call, workers, steps, s) && WorkerPool.Enabled(call, s, step)
    ensures WorkerPool.Runs(call, workers, steps + [step], WorkerPool.Apply(call, s, step))
  {
    assert (steps + [step])[..|steps|] == steps;
  }

  lemma {:induction false} WorkSide<L>(programs: seq<Program<L>>, start: State<L>, works: seq<nat>, idx: nat)
    requires |start.locals| == |programs| && Schedule(|programs|, works) && idx < |programs|
    ensures
      var mid := Run(programs, start, works);
      var (l, files) := Step(programs[idx], mid.locals[idx], mid.files);
      Run(programs, start, works + [idx]) == State(files, mid.locals[idx := l])
  {
    assert (works + [idx])[..|works|] == works;
  }

  /** Whatever the interleaving, the tree and every download are where running
      the downloads one after the other, with as many calls each, would be. */
  lemma {:induction false} OneAfterTheOther(batch: Batch, moves: seq<Move>, j: Joint)
    requires Leads(batch, moves, j) && Transfers.Distinct(batch.jobs)
    ensures
      var serial := OneByOne(seq(|batch.jobs|, i requires 0 <= i => Count(Works(moves), i)));
      Schedule(|batch.jobs|, serial) && j.work == Run(batch.Programs(), batch.Start(), serial)
  {
    TwoSides(batch, moves, j);
    NamesApart(batch);
    SameAsOneByOne(batch.Programs(), NamesOf(batch.jobs), batch.Start(), Works(moves));
  }

  /** A job the pool counts as ended has a download that ended so. */
  ghost predicate Agrees(batch: Batch, j: Joint) {
    && |j.work.locals| == |batch.jobs|
    && forall i | i in j.pool.ends ::
         && i < |batch.jobs| && j.work.locals[i].pc.Ended?
         && j.pool.ends[i] == WorkerPool.EndOf(batch.Call(), batch.Call().jobs[i], OutcomeOf(j.work.locals[i].pc.result))
         && i in j.pool.outcomes && j.pool.outcomes[i] == OutcomeOf(j.work.locals[i].pc.result)
  }

  lemma {:induction false} AgreesStep(batch: Batch, j: Joint, move: Move)
    requires Agrees(batch, j) && Enabled(batch, j, move)
    ensures Agrees(batch, Apply(batch, j, move))
  {
    match move
    case Work(idx) => AgreesWork(batch, j, idx);
    case Pool(step) => AgreesPool(batch, j, step);
  }

  /** A download that has ended stays where it is. */
  lemma {:induction false} AgreesWork(batch: Batch, j: Joint, idx: nat)
    requires Agrees(batch, j) && Enabled(batch, j, Work(idx))
    ensures Agrees(batch, Apply(batch, j, Work(idx)))
  {
    FileSteps.StepIs(batch.Args(idx), j.work.locals[idx], j.work.files);
  }

  lemma {:induction false} AgreesPool(batch: Batch, j: Joint, step: WorkerPool.Step)
    requires Agrees(batch, j) && Enabled(batch, j, Pool(step))
    ensures Agrees(batch, Apply(batch, j, Pool(step)))
  {
    var s' := WorkerPool.Apply(batch.Call(), j.pool, step);
    if !step.Finish? { assert s'.ends == j.pool.ends && s'.outcomes == j.pool.outcomes; }
  }

  lemma {:induction false} AlwaysAgrees(batch: Batch, moves: seq<Move>, j: Joint)
    requires Leads(batch, moves, j)
    ensures Agrees(batch, j)
    decreases |moves|
  {
    if moves != [] {
      var mid := After(batch, moves[..|moves| - 1]).value;
      AlwaysAgrees(batch, moves[..|moves| - 1], mid);
      AgreesStep(batch, mid, moves[|moves| - 1]);
    }
  }

  // ---------- Each download is as if alone ----------

  lemma {:induction false} NamesApart(batch: Batch)
    requires batch.Valid() && Transfers.Distinct(batch.jobs)
    ensures Apart(batch.Programs(), NamesOf(batch.jobs))
  {
    forall i | 0 <= i < |batch.jobs| ensures Owns(batch.Programs()[i], NamesOf(batch.jobs)[i]) {
      FileSteps.OwnsItsNames(batch.Args(i));
    }
    forall a, b | 0 <= a < |batch.jobs| && 0 <= b < |batch.jobs| && a != b ensures Names(batch.jobs[a]) !! Names(batch.jobs[b]) {
      Transfers.WorkNamesDiffer(batch.jobs[a].dst, batch.jobs[b].dst);
    }
  }

  /** Job i's download, where it would be alone, and the files it names. */
  ghost predicate AsAlone(batch: Batch, j: Joint, i: nat, alone: Files)
    requires i < |batch.jobs|
  {
    && i < |j.work.locals|
    && SameInside(j.work.files, alone, Names(batch.jobs[i]))
    && FileSteps.Keeps(batch.Args(i), batch.before, j.work.locals[i], alone)
  }

  lemma {:induction false} DownloadAlone(batch: Batch, moves: seq<Move>, j: Joint, i: nat) returns (alone: Files)
    requires Leads(batch, moves, j) && Transfers.Distinct(batch.jobs) && i < |batch.jobs|
    ensures AsAlone(batch, j, i, alone)
  {
    TwoSides(batch, moves, j);
    NamesApart(batch);
    AsIfAlone(batch.Programs(), NamesOf(batch.jobs), batch.Start(), Works(moves));
    var n := Count(Works(moves), i);
    assert batch.Programs()[i] == FileSteps.FileProgram(batch.Args(i));
    FileSteps.AloneKeeps(batch.Args(i), batch.envs[i], batch.before, n);
    alone := Alone(batch.Programs()[i], batch.Start().locals[i], batch.before, n).1;
    assert NamesOf(batch.jobs)[i] == Names(batch.jobs[i]);
  }

  // ---------- What Many promises ----------

  /** At every moment of every call, whatever becomes of it: no other file is
      touched, and each job's target is as before, cleared, or has bytes that
      match its expectation. */
  lemma {:induction false} EveryMoment(batch: Batch, moves: seq<Move>, j: Joint)
    requires Leads(batch, moves, j) && Transfers.Distinct(batch.jobs)
    ensures SameOutside(batch.before, j.work.files, Transfers.Footprints(batch.jobs))
    ensures forall i | 0 <= i < |batch.jobs| :: FileSteps.TargetFine(batch.Args(i), batch.before, j.work.files)
  {
    forall i | 0 <= i < |batch.jobs| ensures FileSteps.TargetFine(batch.Args(i), batch.before, j.work.files) {
      var alone := DownloadAlone(batch, moves, j, i);
      assert batch.Args(i).Goal() in Names(batch.jobs[i]);
      assert Same(j.work.files, alone, batch.Args(i).Goal());
    }
    OthersUntouched(batch, moves, j);
  }

  lemma {:induction false} OthersUntouched(batch: Batch, moves: seq<Move>, j: Joint)
    requires Leads(batch, moves, j) && Transfers.Distinct(batch.jobs)
    ensures SameOutside(batch.before, j.work.files, Transfers.Footprints(batch.jobs))
  {
    forall p | p !in Transfers.Footprints(batch.jobs) ensures Same(batch.before, j.work.files, p) {
      if i :| 0 <= i < |batch.jobs| && p in Names(batch.jobs[i]) {
        var alone := DownloadAlone(batch, moves, j, i);
        assert p !in Transfers.Footprint(batch.jobs[i]);
        assert Same(batch.before, alone, p) && Same(j.work.files, alone, p);
      } else {
        TwoSides(batch, moves, j);
        NamesApart(batch);
        AsIfAlone(batch.Programs(), NamesOf(batch.jobs), batch.Start(), Works(moves));
        assert p !in AllOf(NamesOf(batch.jobs));
      }
    }
  }

  /** The jobs of which an earlier staged copy could not be cleared. */
  function Leftovers(batch: Batch, j: Joint): set<Path>
    requires |j.work.locals| == |batch.jobs|
  {
    set i | 0 <= i < |batch.jobs| && j.work.locals[i].leftover :: batch.jobs[i].dst
  }

  /** A call that returns nil, in whatever interleaving: every job is settled, as
      Transfers.Many says of jobs run one after the other, and every absence was
      allowed. */
  lemma {:induction false} NilSettles(batch: Batch, moves: seq<Move>, j: Joint)
    requires Leads(batch, moves, j) && Transfers.Distinct(batch.jobs) && j.pool.coordinator == WorkerPool.Returned(None)
    ensures |j.pool.states| == |batch.jobs| == |j.work.locals|
    ensures forall i | 0 <= i < |batch.jobs| ::
              Transfers.Settled(batch.hash, batch.verify, j.work.files, batch.jobs[i], j.pool.states[i], Leftovers(batch, j), j.pool.keep)
    ensures forall i | 0 <= i < |batch.jobs| && j.pool.states[i].FileMissing? && !batch.jobs[i].optional ::
              batch.tolerant && i in j.pool.missed
  {
    TwoSides(batch, moves, j);
    AlwaysAgrees(batch, moves, j);
    WorkerPool.NilMeansDone(batch.Call(), batch.workers, Steps(moves), j.pool);
    forall i | 0 <= i < |batch.jobs|
      ensures Transfers.Settled(batch.hash, batch.verify, j.work.files, batch.jobs[i], j.pool.states[i], Leftovers(batch, j), j.pool.keep)
      ensures j.pool.states[i].FileMissing? && !batch.jobs[i].optional ==> batch.tolerant && i in j.pool.missed
    {
      var alone := DownloadAlone(batch, moves, j, i);
      EndIsState(batch, j, i);
    }
  }

  /** Job i's download ended in an error that is not an allowed absence. */
  predicate FatalDownload(batch: Batch, j: Joint, i: nat) {
    && i < |batch.jobs| && i < |j.work.locals| && j.work.locals[i].pc.Ended?
    && var r := j.work.locals[i].pc.result;
    r.Err? && (r.error != FetchError.NotFound || (!batch.jobs[i].optional && !batch.tolerant))
  }

  /** A call that was not cancelled returns an error exactly when some download
      ended in one that is not an allowed absence, in whatever interleaving. */
  lemma {:induction false} ErrorsExactly(batch: Batch, moves: seq<Move>, j: Joint)
    requires Leads(batch, moves, j) && j.pool.coordinator.Returned? && j.pool.coordinator.result != Some(WorkerPool.Canceled)
    ensures j.pool.coordinator.result.Some? <==> exists i :: FatalDownload(batch, j, i)
  {
    TwoSides(batch, moves, j);
    WorkerPool.ErrorsAreReported(batch.Call(), batch.workers, Steps(moves), j.pool);
    if i :| FatalDownload(batch, j, i) {
      EndedIsCounted(batch, moves, j, i);
      FatalIs(batch, moves, j, i);
    }
    if j.pool.coordinator.result.Some? {
      var i :| WorkerPool.Fatal(batch.Call(), j.pool, i);
      FatalIs(batch, moves, j, i);
    }
  }

  lemma {:induction false} FatalIs(batch: Batch, moves: seq<Move>, j: Joint, i: nat)
    requires Leads(batch, moves, j) && i in j.pool.outcomes
    ensures WorkerPool.Fatal(batch.Call(), j.pool, i) <==> FatalDownload(batch, j, i)
  {
    TwoSides(batch, moves, j);
    AlwaysAgrees(batch, moves, j);
    WorkerPool.RunsFollow(batch.Call(), batch.workers, Steps(moves), j.pool);
    assert i in j.pool.ends;
  }

  /** Downloads that were not handed out have not begun. */
  ghost predicate Begun(batch: Batch, j: Joint)
    requires batch.Valid()
  {
    && |j.work.locals| == |batch.jobs|
    && forall i | 0 <= i < |batch.jobs| :: j.work.locals[i] == batch.Start().locals[i] || i in j.pool.handed
  }

  lemma {:induction false} AlwaysBegun(batch: Batch, moves: seq<Move>, j: Joint)
    requires Leads(batch, moves, j)
    ensures Begun(batch, j)
    decreases |moves|
  {
    if moves != [] {
      var front, last := moves[..|moves| - 1], moves[|moves| - 1];
      var mid := After(batch, front).value;
      AlwaysBegun(batch, front, mid);
      TwoSides(batch, front, mid);
      WorkerPool.RunsInv(batch.Call(), batch.workers, Steps(front), mid.pool);
      BegunStep(batch, mid, last);
    }
  }

  lemma {:induction false} BegunStep(batch: Batch, j: Joint, move: Move)
    requires batch.Valid() && Begun(batch, j) && WorkerPool.Inv(batch.Call(), j.pool) && Enabled(batch, j, move)
    ensures Begun(batch, Apply(batch, j, move))
  {
    match move
    case Work(idx) =>
      var w :| 0 <= w < |j.pool.workers| && j.pool.workers[w] == WorkerPool.Running(idx);
      assert j.pool.handed[idx] == idx;
    case Pool(step) =>
      var j' := Apply(batch, j, move);
      assert forall i | i in j.pool.handed :: i in j'.pool.handed;
  }

  /** When the call has returned, the pool has counted every download that
      ended. */
  lemma {:induction false} EndedIsCounted(batch: Batch, moves: seq<Move>, j: Joint, i: nat)
    requires Leads(batch, moves, j) && j.pool.coordinator.Returned? && i < |batch.jobs| == |j.work.locals| && j.work.locals[i].pc.Ended?
    ensures i in j.pool.ends && i in j.pool.outcomes
  {
    AlwaysAgrees(batch, moves, j);
    AlwaysBegun(batch, moves, j);
    TwoSides(batch, moves, j);
    WorkerPool.RunsInv(batch.Call(), batch.workers, Steps(moves), j.pool);
    assert i in j.pool.handed;
    assert !WorkerPool.Busy(j.pool, i);
  }

  /** The state recorded for a job that ended well is its download's. */
  lemma {:induction false} EndIsState(batch: Batch, j: Joint, i: nat)
    requires Agrees(batch, j) && i < |batch.jobs| == |j.pool.states| && i in j.pool.ends && !j.pool.ends[i].Hard?
    requires j.pool.states[i] == (if j.pool.ends[i].Success? then j.pool.ends[i].state else FileMissing)
    requires forall p :: p in j.pool.keep <==>
               p in batch.keep || exists k | 0 <= k < |batch.jobs| :: WorkerPool.Succeeded(j.pool, k) && batch.Call().jobs[k].dst == p
    ensures
      var r := j.work.locals[i].pc.result;
      if r.Ok? then j.pool.states[i] == r.value && batch.jobs[i].dst in j.pool.keep else j.pool.states[i] == FileMissing
  {
    if j.work.locals[i].pc.result.Ok? {
      assert WorkerPool.Succeeded(j.pool, i) && batch.Call().jobs[i].dst == batch.jobs[i].dst;
    }
  }

  // ---------- Every call ends ----------

  /** No reachable unfinished call is stuck. */
  lemma {:induction false} NeverStuck(batch: Batch, moves: seq<Move>, j: Joint)
    requires Leads(batch, moves, j) && !j.pool.coordinator.Returned?
    ensures exists move :: Enabled(batch, j, move) && move != Pool(WorkerPool.Cancel)
  {
    TwoSides(batch, moves, j);
    AlwaysAgrees(batch, moves, j);
    WorkerPool.RunsInv(batch.Call(), batch.workers, Steps(moves), j.pool);
    if w :| 0 <= w < |j.pool.workers| && j.pool.workers[w].Running? {
      var idx := j.pool.workers[w].idx;
      assert WorkerPool.Busy(j.pool, idx);
      if j.work.locals[idx].pc.Ended? {
        assert Enabled(batch, j, Pool(WorkerPool.Finish(w, OutcomeOf(j.work.locals[idx].pc.result))));
      } else {
        assert Enabled(batch, j, Work(idx));
      }
    } else {
      WorkerPool.NeverStuck(batch.Call(), batch.workers, Steps(moves), j.pool);
      var step :| WorkerPool.Enabled(batch.Call(), j.pool, step) && !step.Cancel?;
      assert Enabled(batch, j, Pool(step));
    }
  }

  /** How often the first m jobs occur. */
  function Total(works: seq<nat>, m: nat): nat {
    if m == 0 then 0 else Total(works, m - 1) + Count(works, m - 1)
  }

  lemma {:induction false} TotalNext(works: seq<nat>, idx: nat, m: nat)
    ensures Total(works + [idx], m) == Total(works, m) + if idx < m then 1 else 0
  {
    if m > 0 {
      TotalNext(works, idx, m - 1);
      assert (works + [idx])[..|works|] == works;
    }
  }

  lemma {:induction false} TotalIsLength(works: seq<nat>, m: nat)
    requires Schedule(m, works)
    ensures Total(works, m) == |works|
  {
    if works == [] {
      NothingTotal(m);
    } else {
      var front := works[..|works| - 1];
      TotalIsLength(front, m);
      TotalNext(front, works[|works| - 1], m);
      assert front + [works[|works| - 1]] == works;
    }
  }

  lemma {:induction false} NothingTotal(m: nat)
    ensures Total([], m) == 0
  {
    if m > 0 { NothingTotal(m - 1); }
  }

  lemma {:induction false} TotalBound(works: seq<nat>, m: nat, n: nat)
    requires forall i | 0 <= i < m :: Count(works, i) <= n
    ensures Total(works, m) <= n * m
  {
    if m > 0 { TotalBound(works, m - 1, n); }
  }

  /** No download makes more than nineteen system calls. */
  lemma {:induction false} CallsBounded(batch: Batch, moves: seq<Move>, j: Joint, i: nat)
    requires Leads(batch, moves, j) && Transfers.Distinct(batch.jobs) && i < |batch.jobs|
    ensures Count(Works(moves), i) <= 19
    decreases |moves|
  {
    if moves != [] {
      var front, last := moves[..|moves| - 1], moves[|moves| - 1];
      var mid := After(batch, front).value;
      CallsBounded(batch, front, mid, i);
      if last.Work? {
        assert Works(moves)[..|Works(moves)| - 1] == Works(front);
        if last.idx == i { NotEndedYet(batch, front, mid, i); }
      } else {
        assert Works(moves) == Works(front);
      }
    }
  }

  lemma {:induction false} NotEndedYet(batch: Batch, moves: seq<Move>, j: Joint, i: nat)
    requires Leads(batch, moves, j) && Transfers.Distinct(batch.jobs) && i < |batch.jobs| == |j.work.locals|
    requires !j.work.locals[i].pc.Ended?
    ensures Count(Works(moves), i) < 19
  {
    TwoSides(batch, moves, j);
    NamesApart(batch);
    AsIfAlone(batch.Programs(), NamesOf(batch.jobs), batch.Start(), Works(moves));
    var n := Count(Works(moves), i);
    assert batch.Programs()[i] == FileSteps.FileProgram(batch.Args(i));
    FileSteps.StartKeeps(batch.Args(i), batch.envs[i], batch.before);
    if n >= 19 { FileSteps.EndsAlone(batch.Args(i), batch.Start().locals[i], batch.before, n); }
  }

  lemma {:induction false} MovesAreBoth(moves: seq<Move>)
    ensures |moves| == |Steps(moves)| + |Works(moves)|
    decreases |moves|
  {
    if moves != [] { MovesAreBoth(moves[..|moves| - 1]); }
  }

  /** Every schedule of a call is bounded by its jobs and workers, so with no
      stuck state every call returns. */
  lemma {:induction false} CallsEnd(batch: Batch, moves: seq<Move>, j: Joint)
    requires Leads(batch, moves, j) && Transfers.Distinct(batch.jobs)
    ensures |moves| <= 24 * |batch.jobs| + 2 + if batch.workers < 1 then 1 else batch.workers
  {
    TwoSides(batch, moves, j);
    WorkerPool.CallsEnd(batch.Call(), batch.workers, Steps(moves), j.pool);
    forall i | 0 <= i < |batch.jobs| ensures Count(Works(moves), i) <= 19 {
      CallsBounded(batch, moves, j, i);
    }
    TotalIsLength(Works(moves), |batch.jobs|);
    TotalBound(Works(moves), |batch.jobs|, 19);
    MovesAreBoth(moves);
  }
}
