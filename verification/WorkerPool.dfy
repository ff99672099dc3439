/**
 Many (fetch/fetch.go): the coordinator, its workers, the unbuffered index
 channel, the one-slot error channel and context cancellation, interleaved
 arbitrarily. What one call of File does is an arbitrary outcome here; the
 Fetch module says what it does to the tree.
 */
module WorkerPool {

  import opened Wrappers

  datatype Error = NotFound | Canceled | Other(code: nat)

  /** What File answered for one job. */
  datatype Outcome = Served(state: FileState) | Failed(error: Error)

  datatype Job = Job(dst: string, optional: bool)

  /** How one job ended. */
  datatype End = Success(state: FileState) | Absent | Tolerated | Hard(error: Error)

  datatype Worker = Receiving | Running(idx: nat) | Reporting(error: Error) | Exited

  datatype Coordinator =
    | Handing(next: nat)
    | Waiting(failure: Option<Error>)
    | Returned(result: Option<Error>)

  /** The arguments of one call; miss.Tolerate answers the same for every path. */
  datatype Call = Call(jobs: seq<Job>, tolerant: bool, keep: set<string>)

  datatype State = State(
    coordinator: Coordinator,
    workers: seq<Worker>,
    errs: Option<Error>,
    handed: seq<nat>,
    states: seq<FileState>,
    keep: set<string>,
    missed: set<nat>,
    ends: map<nat, End>,
    outcomes: map<nat, Outcome>)

  datatype Step =
    | Hand(w: nat)
    | TakeError
    | Cancel
    | Close
    | Return
    | Finish(w: nat, outcome: Outcome)
    | Report(w: nat)
    | Leave(w: nat)

  function Init(call: Call, workers: int): State {
    State(Handing(0), seq(if workers < 1 then 1 else workers, _ => Receiving), None, [],
          seq(|call.jobs|, _ => FileMissing), call.keep, {}, map[], map[])
  }

  predicate Enabled(call: Call, s: State, step: Step) {
    match step
    case Hand(w) =>
      s.coordinator.Handing? && s.coordinator.next < |call.jobs| && w < |s.workers| && s.workers[w].Receiving?
    case TakeError => s.coordinator.Handing? && s.coordinator.next < |call.jobs| && s.errs.Some?
    case Cancel => s.coordinator.Handing? && s.coordinator.next < |call.jobs|
    case Close => s.coordinator.Handing? && s.coordinator.next >= |call.jobs|
    case Return => s.coordinator.Waiting? && forall w | 0 <= w < |s.workers| :: s.workers[w].Exited?
    case Finish(w, outcome) =>
      w < |s.workers| && s.workers[w].Running? && s.workers[w].idx < |call.jobs| && s.workers[w].idx < |s.states|
    case Report(w) => w < |s.workers| && s.workers[w].Reporting?
    case Leave(w) => !s.coordinator.Handing? && w < |s.workers| && s.workers[w].Receiving?
  }

  function EndOf(call: Call, job: Job, outcome: Outcome): End {
    match outcome
    case Served(state) => Success(state)
    case Failed(NotFound) => if job.optional then Absent else if call.tolerant then Tolerated else Hard(NotFound)
    case Failed(error) => Hard(error)
  }

  function Apply(call: Call, s: State, step: Step): State
    requires Enabled(call, s, step)
  {
    match step
    case Hand(w) =>
      s.(coordinator := Handing(s.coordinator.next + 1),
         workers := s.workers[w := Running(s.coordinator.next)],
         handed := s.handed + [s.coordinator.next])
    case TakeError => s.(coordinator := Waiting(s.errs), errs := None)
    case Cancel => s.(coordinator := Waiting(Some(Canceled)))
    case Close => s.(coordinator := Waiting(None))
    case Return =>
      if s.coordinator.failure.Some? then s.(coordinator := Returned(s.coordinator.failure))
      else s.(coordinator := Returned(s.errs), errs := None)
    case Finish(w, outcome) =>
      var idx := s.workers[w].idx;
      var job := call.jobs[idx];
      var end := EndOf(call, job, outcome);
      var s' := s.(ends := s.ends[idx := end],
                   outcomes := s.outcomes[idx := outcome],
                   missed := if outcome == Failed(NotFound) && !job.optional then s.missed + {idx} else s.missed,
                   workers := s.workers[w := if end.Hard? then Reporting(end.error) else Receiving]);
      if end.Success? then s'.(states := s.states[idx := end.state], keep := s.keep + {job.dst}) else s'
    case Report(w) =>
      s.(errs := if s.errs.None? then Some(s.workers[w].error) else s.errs, workers := s.workers[w := Exited])
    case Leave(w) => s.(workers := s.workers[w := Exited])
  }

  /** The state a schedule leads to, if each of its steps was possible. */
  ghost function After(call: Call, workers: int, steps: seq<Step>): Option<State>
    decreases |steps|
  {
    if steps == [] then Some(Init(call, workers))
    else
      var mid := After(call, workers, steps[..|steps| - 1]);
      if mid.Some? && Enabled(call, mid.value, steps[|steps| - 1])
      then Some(Apply(call, mid.value, steps[|steps| - 1]))
      else None
  }

  ghost predicate Runs(call: Call, workers: int, steps: seq<Step>, s: State) {
    After(call, workers, steps) == Some(s)
  }

  // ---------- The inductive invariant ----------

  predicate Busy(s: State, idx: nat) {
    exists w | 0 <= w < |s.workers| :: s.workers[w] == Running(idx)
  }

  /** Every index handed out is with one worker or has ended, never both. */
  ghost predicate Handed(call: Call, s: State) {
    && |s.workers| > 0
    && |s.handed| <= |call.jobs|
    && (s.coordinator.Handing? ==> s.coordinator.next == |s.handed|)
    && (forall i | 0 <= i < |s.handed| :: s.handed[i] == i)
    && (forall idx | 0 <= idx < |s.handed| :: idx in s.ends || Busy(s, idx))
    && (forall idx | idx in s.ends :: idx < |s.handed|)
    && (forall w | 0 <= w < |s.workers| && s.workers[w].Running? ::
          s.workers[w].idx < |s.handed| && s.workers[w].idx !in s.ends)
    && (forall w, v | 0 <= w < |s.workers| && 0 <= v < |s.workers| && s.workers[w].Running? && s.workers[w] == s.workers[v] :: w == v)
  }

  predicate Succeeded(s: State, i: nat) {
    i in s.ends && s.ends[i].Success?
  }

  predicate Kept(call: Call, s: State, p: string) {
    p in call.keep || exists i | 0 <= i < |call.jobs| :: Succeeded(s, i) && call.jobs[i].dst == p
  }

  /** What has been recorded about the jobs that ended, and nothing else. */
  ghost predicate Recorded(call: Call, s: State) {
    && |s.states| == |call.jobs|
    && (forall i | 0 <= i < |call.jobs| :: s.states[i] == if Succeeded(s, i) then s.ends[i].state else FileMissing)
    && (forall p :: p in s.keep <==> Kept(call, s, p))
    && (forall i | i in s.ends :: i < |call.jobs| &&
          (s.ends[i].Absent? ==> call.jobs[i].optional) &&
          (s.ends[i].Tolerated? ==> call.tolerant && !call.jobs[i].optional))
    && (forall i :: i in s.missed <==>
          i in s.ends && (s.ends[i].Tolerated? || (s.ends[i] == Hard(NotFound) && !call.jobs[i].optional)))
  }

  predicate SomeHard(s: State) {
    exists i | i in s.ends :: s.ends[i].Hard?
  }

  predicate SomeReporting(s: State) {
    exists w | 0 <= w < |s.workers| :: s.workers[w].Reporting?
  }

  /** A hard error stays visible until the coordinator has an error to return,
      and every error seen comes from some job. */
  ghost predicate Errors(s: State) {
    && (SomeHard(s) ==>
          s.errs.Some? || SomeReporting(s) ||
          (s.coordinator.Waiting? && s.coordinator.failure.Some?) ||
          (s.coordinator.Returned? && s.coordinator.result.Some?))
    && (s.errs.Some? ==> exists i | i in s.ends :: s.ends[i] == Hard(s.errs.value))
    && (forall w | 0 <= w < |s.workers| && s.workers[w].Reporting? ::
          exists i | i in s.ends :: s.ends[i] == Hard(s.workers[w].error))
    && (s.coordinator.Waiting? && s.coordinator.failure.Some? && s.coordinator.failure != Some(Canceled) ==>
          exists i | i in s.ends :: s.ends[i] == Hard(s.coordinator.failure.value))
    && (s.coordinator.Returned? && s.coordinator.result.Some? && s.coordinator.result != Some(Canceled) ==>
          exists i | i in s.ends :: s.ends[i] == Hard(s.coordinator.result.value))
  }

  ghost predicate Phases(call: Call, s: State) {
    && (s.coordinator.Handing? && (exists w | 0 <= w < |s.workers| :: s.workers[w].Exited?) ==> s.errs.Some?)
    && (s.coordinator.Waiting? && s.coordinator.failure.None? ==> |s.handed| == |call.jobs|)
    && (s.coordinator.Returned? ==> forall w | 0 <= w < |s.workers| :: s.workers[w].Exited?)
    && (s.coordinator.Returned? && s.coordinator.result.None? ==> |s.handed| == |call.jobs| && s.errs.None?)
  }

  ghost predicate Inv(call: Call, s: State) {
    Handed(call, s) && Recorded(call, s) && Errors(s) && Phases(call, s)
  }

  lemma {:induction false} HandedStep(call: Call, s: State, step: Step)
    requires Inv(call, s) && Enabled(call, s, step)
    ensures Handed(call, Apply(call, s, step))
  {
    var s' := Apply(call, s, step);
    forall idx | 0 <= idx < |s.handed| && idx !in s'.ends ensures Busy(s', idx) {
      BusyKept(call, s, step, idx);
    }
    if step.Hand? {
      HandedNext(call, s, s', step.w);
    } else {
      HandedSame(call, s, s', step);
    }
  }

  lemma {:induction false} BusyKept(call: Call, s: State, step: Step, idx: nat)
    requires Inv(call, s) && Enabled(call, s, step) && idx < |s.handed| && idx !in Apply(call, s, step).ends
    ensures Busy(Apply(call, s, step), idx)
  {
    assert Busy(s, idx);
    var w :| 0 <= w < |s.workers| && s.workers[w] == Running(idx);
    assert Apply(call, s, step).workers[w] == Running(idx);
  }

  lemma {:induction false} HandedNext(call: Call, s: State, s': State, w: nat)
    requires Inv(call, s) && Enabled(call, s, Hand(w)) && s' == Apply(call, s, Hand(w))
    requires forall idx | 0 <= idx < |s.handed| && idx !in s'.ends :: Busy(s', idx)
    ensures Handed(call, s')
  {
    assert s'.workers[w] == Running(|s.handed|);
  }

  lemma {:induction false} HandedSame(call: Call, s: State, s': State, step: Step)
    requires Inv(call, s) && Enabled(call, s, step) && s' == Apply(call, s, step) && !step.Hand?
    requires forall idx | 0 <= idx < |s.handed| && idx !in s'.ends :: Busy(s', idx)
    ensures Handed(call, s')
  {
  }

  lemma {:induction false} KeptStep(call: Call, s: State, s': State, idx: nat, end: End, p: string)
    requires idx !in s.ends && s'.ends == s.ends[idx := end] && idx < |call.jobs|
    ensures Kept(call, s', p) <==> Kept(call, s, p) || (end.Success? && p == call.jobs[idx].dst)
  {
    if i :| 0 <= i < |call.jobs| && Succeeded(s, i) && call.jobs[i].dst == p {
      assert Succeeded(s', i);
    }
    if end.Success? { assert Succeeded(s', idx); }
  }

  lemma {:induction false} RecordedStep(call: Call, s: State, step: Step)
    requires Inv(call, s) && Enabled(call, s, step)
    ensures Recorded(call, Apply(call, s, step))
  {
    var s' := Apply(call, s, step);
    if step.Finish? {
      RecordedFinish(call, s, step.w, step.outcome);
    } else {
      forall p ensures Kept(call, s', p) <==> Kept(call, s, p) {
        assert forall i :: Succeeded(s, i) == Succeeded(s', i);
      }
    }
  }

  lemma {:induction false} RecordedFinish(call: Call, s: State, w: nat, outcome: Outcome)
    requires Inv(call, s) && Enabled(call, s, Finish(w, outcome))
    ensures Recorded(call, Apply(call, s, Finish(w, outcome)))
  {
    var s', idx := Apply(call, s, Finish(w, outcome)), s.workers[w].idx;
    var end := s'.ends[idx];
    assert idx !in s.ends && s'.ends == s.ends[idx := end];
    forall p ensures p in s'.keep <==> Kept(call, s', p) {
      KeptStep(call, s, s', idx, end, p);
    }
  }

  lemma {:induction false} ErrorsStep(call: Call, s: State, step: Step)
    requires Errors(s) && Phases(call, s) && Enabled(call, s, step)
    requires step.Finish? ==> s.workers[step.w].idx !in s.ends
    ensures Errors(Apply(call, s, step))
  {
    var s' := Apply(call, s, step);
    if step.Finish? {
      ErrorsFinish(call, s, step.w, step.outcome);
    } else {
      assert s'.ends == s.ends;
      if SomeReporting(s) && !step.Report? {
        var w :| 0 <= w < |s.workers| && s.workers[w].Reporting?;
        assert s'.workers[w].Reporting?;
      }
    }
  }

  lemma {:induction false} ErrorsFinish(call: Call, s: State, w: nat, outcome: Outcome)
    requires Errors(s) && Enabled(call, s, Finish(w, outcome)) && s.workers[w].idx !in s.ends
    ensures Errors(Apply(call, s, Finish(w, outcome)))
  {
    var s', idx := Apply(call, s, Finish(w, outcome)), s.workers[w].idx;
    assert forall i | i in s.ends :: i in s'.ends && s'.ends[i] == s.ends[i];
    assert s'.ends[idx].Hard? ==> s'.workers[w].Reporting?;
    if SomeReporting(s) {
      var v :| 0 <= v < |s.workers| && s.workers[v].Reporting?;
      assert s'.workers[v].Reporting?;
    }
  }

  lemma {:induction false} PhasesStep(call: Call, s: State, step: Step)
    requires Inv(call, s) && Enabled(call, s, step)
    ensures Phases(call, Apply(call, s, step))
  {
  }

  lemma {:induction false} InvStep(call: Call, s: State, step: Step)
    requires Inv(call, s) && Enabled(call, s, step)
    ensures Inv(call, Apply(call, s, step))
  {
    HandedStep(call, s, step);
    RecordedStep(call, s, step);
    ErrorsStep(call, s, step);
    PhasesStep(call, s, step);
  }

  /** Each end is what the job's outcome leads to. */
  ghost predicate EndsFollow(call: Call, s: State) {
    && s.outcomes.Keys == s.ends.Keys
    && forall i | i in s.ends :: i < |call.jobs| && s.ends[i] == EndOf(call, call.jobs[i], s.outcomes[i])
  }

  lemma {:induction false} FollowStep(call: Call, s: State, step: Step)
    requires EndsFollow(call, s) && Enabled(call, s, step)
    ensures EndsFollow(call, Apply(call, s, step))
  {
    var s' := Apply(call, s, step);
    if step.Finish? {
      var idx := s.workers[step.w].idx;
      assert s'.ends == s.ends[idx := s'.ends[idx]] && s'.outcomes == s.outcomes[idx := step.outcome];
    } else {
      assert s'.ends == s.ends && s'.outcomes == s.outcomes;
    }
  }

  lemma {:induction false} RunsFollow(call: Call, workers: int, steps: seq<Step>, s: State)
    requires Runs(call, workers, steps, s)
    ensures EndsFollow(call, s)
    decreases |steps|
  {
    if steps != [] {
      var mid := After(call, workers, steps[..|steps| - 1]).value;
      RunsFollow(call, workers, steps[..|steps| - 1], mid);
      FollowStep(call, mid, steps[|steps| - 1]);
    }
  }

  lemma {:induction false} RunsInv(call: Call, workers: int, steps: seq<Step>, s: State)
    requires Runs(call, workers, steps, s)
    ensures Inv(call, s)
    decreases |steps|
  {
    if steps != [] {
      var mid := After(call, workers, steps[..|steps| - 1]).value;
      RunsInv(call, workers, steps[..|steps| - 1], mid);
      InvStep(call, mid, steps[|steps| - 1]);
    }
  }

  // ---------- What a call of Many guarantees ----------

  /** The file was answered to be absent, and that is allowed. */
  predicate Excused(call: Call, i: nat, outcome: Outcome)
    requires i < |call.jobs|
  {
    outcome == Failed(NotFound) && (call.jobs[i].optional || call.tolerant)
  }

  /** A nil result: every index was handed out exactly once, every file was served
      or its absence is allowed, and the states, the keep set and the misses say
      exactly which. */
  lemma {:induction false} NilMeansDone(call: Call, workers: int, steps: seq<Step>, s: State)
    requires Runs(call, workers, steps, s) && s.coordinator == Returned(None)
    ensures s.handed == seq(|call.jobs|, i => i) && |s.states| == |call.jobs|
    ensures forall i | 0 <= i < |call.jobs| ::
              && i in s.outcomes && i in s.ends && !s.ends[i].Hard?
              && s.states[i] == (if s.ends[i].Success? then s.ends[i].state else FileMissing)
              && (s.outcomes[i].Failed? ==> Excused(call, i, s.outcomes[i]))
              && s.states[i] == (if s.outcomes[i].Served? then s.outcomes[i].state else FileMissing)
              && (i in s.missed <==> s.outcomes[i].Failed? && !call.jobs[i].optional)
    ensures forall p :: p in s.keep <==>
              p in call.keep || exists i | 0 <= i < |call.jobs| :: i in s.outcomes && s.outcomes[i].Served? && call.jobs[i].dst == p
    ensures forall p :: p in s.keep <==>
              p in call.keep || exists i | 0 <= i < |call.jobs| :: Succeeded(s, i) && call.jobs[i].dst == p
  {
    RunsInv(call, workers, steps, s);
    RunsFollow(call, workers, steps, s);
    forall i | 0 <= i < |call.jobs| ensures i in s.ends && !s.ends[i].Hard? {
      assert !Busy(s, i);
      assert s.ends[i].Hard? ==> SomeHard(s);
    }
    forall i | 0 <= i < |call.jobs| ensures Succeeded(s, i) <==> i in s.outcomes && s.outcomes[i].Served? {
    }
    forall p ensures p in s.keep <==>
              p in call.keep || exists i | 0 <= i < |call.jobs| :: Succeeded(s, i) && call.jobs[i].dst == p {
      assert p in s.keep <==> Kept(call, s, p);
    }
  }

  /** Job i failed, and not by an absence that is allowed. */
  predicate Fatal(call: Call, s: State, i: nat) {
    i in s.outcomes && i < |call.jobs| && s.outcomes[i].Failed? && !Excused(call, i, s.outcomes[i])
  }

  /** A job that failed in a way that is not allowed makes the result an error,
      and an error result is the cancellation or such a job's own error. */
  lemma {:induction false} ErrorsAreReported(call: Call, workers: int, steps: seq<Step>, s: State)
    requires Runs(call, workers, steps, s) && s.coordinator.Returned?
    ensures (exists i :: Fatal(call, s, i)) ==> s.coordinator.result.Some?
    ensures s.coordinator.result.Some? && s.coordinator.result != Some(Canceled) ==>
              exists i :: Fatal(call, s, i) && s.outcomes[i].error == s.coordinator.result.value
  {
    RunsInv(call, workers, steps, s);
    RunsFollow(call, workers, steps, s);
    if i :| Fatal(call, s, i) {
      assert s.ends[i].Hard?;
      assert SomeHard(s);
    }
    if s.coordinator.result.Some? && s.coordinator.result != Some(Canceled) {
      var i :| i in s.ends && s.ends[i] == Hard(s.coordinator.result.value);
      assert Fatal(call, s, i);
    }
  }

  /** No reachable unfinished state is stuck: workers that stopped on an error
      have left one in the channel for the coordinator to find. */
  lemma {:induction false} NeverStuck(call: Call, workers: int, steps: seq<Step>, s: State)
    requires Runs(call, workers, steps, s) && !s.coordinator.Returned?
    ensures exists step :: Enabled(call, s, step) && !step.Cancel?
  {
    RunsInv(call, workers, steps, s);
    if w :| 0 <= w < |s.workers| && s.workers[w].Running? {
      assert Enabled(call, s, Finish(w, Failed(NotFound)));
    } else if w :| 0 <= w < |s.workers| && s.workers[w].Reporting? {
      assert Enabled(call, s, Report(w));
    } else if s.coordinator.Handing? && s.coordinator.next >= |call.jobs| {
      assert Enabled(call, s, Close);
    } else if w :| 0 <= w < |s.workers| && s.workers[w].Receiving? {
      assert Enabled(call, s, if s.coordinator.Handing? then Hand(w) else Leave(w));
    } else {
      assert s.workers[0].Exited?;
      assert Enabled(call, s, if s.coordinator.Handing? then TakeError else Return);
    }
  }

  function Weight(w: Worker): nat {
    match w
    case Receiving => 1
    case Running(_) => 4
    case Reporting(_) => 2
    case Exited => 0
  }

  function Load(ws: seq<Worker>): nat {
    if ws == [] then 0 else Load(ws[..|ws| - 1]) + Weight(ws[|ws| - 1])
  }

  lemma {:induction false} LoadUpdate(ws: seq<Worker>, w: nat, worker: Worker)
    requires w < |ws|
    ensures Load(ws[w := worker]) == Load(ws) - Weight(ws[w]) + Weight(worker)
    decreases |ws|
  {
    var last := |ws| - 1;
    if w == last {
      assert ws[w := worker][..last] == ws[..last];
    } else {
      assert ws[w := worker][..last] == ws[..last][w := worker];
      LoadUpdate(ws[..last], w, worker);
    }
  }

  lemma {:induction false} LoadIdle(n: nat)
    ensures Load(seq(n, _ => Receiving)) == n
  {
    if n > 0 {
      assert seq(n, _ => Receiving)[..n - 1] == seq(n - 1, _ => Receiving);
      LoadIdle(n - 1);
    }
  }

  function Remaining(call: Call, s: State): int {
    Load(s.workers) +
    match s.coordinator
    case Handing(next) => 5 * (|call.jobs| - next) + 2
    case Waiting(_) => 1
    case Returned(_) => 0
  }

  lemma {:induction false} RemainingDrops(call: Call, s: State, step: Step)
    requires Handed(call, s) && Enabled(call, s, step)
    ensures Remaining(call, Apply(call, s, step)) < Remaining(call, s)
  {
    if step.Hand? || step.Finish? || step.Report? || step.Leave? {
      LoadUpdate(s.workers, step.w, Apply(call, s, step).workers[step.w]);
    }
  }

  lemma {:induction false} StepsBounded(call: Call, workers: int, steps: seq<Step>, s: State)
    requires Runs(call, workers, steps, s)
    ensures |steps| + Remaining(call, s) <= Remaining(call, Init(call, workers))
    decreases |steps|
  {
    if steps != [] {
      var mid := After(call, workers, steps[..|steps| - 1]).value;
      StepsBounded(call, workers, steps[..|steps| - 1], mid);
      RunsInv(call, workers, steps[..|steps| - 1], mid);
      RemainingDrops(call, mid, steps[|steps| - 1]);
    }
  }

  /** Every schedule ends: a call takes at most five steps a job, one a worker
      and two more, so with no stuck state every call returns. */
  lemma {:induction false} CallsEnd(call: Call, workers: int, steps: seq<Step>, s: State)
    requires Runs(call, workers, steps, s)
    ensures |steps| <= 5 * |call.jobs| + 2 + if workers < 1 then 1 else workers
  {
    RunsInv(call, workers, steps, s);
    StepsBounded(call, workers, steps, s);
    LoadIdle(if workers < 1 then 1 else workers);
  }
}
