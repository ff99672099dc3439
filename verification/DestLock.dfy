/**
 The destination lock of mirror/sync.go as a protocol between any number of
 runs: open (creating when the path names nothing), flock, compare the held
 file with the one at the path, and later unlink before closing.

 A file has an identity of its own and an inode number. Numbers are reused as
 soon as no path and no open descriptor refers to the file that had them, and
 the comparison only sees numbers.
 */
module DestLock {

  import opened Wrappers

  type Run = nat
  type FileId = nat

  const LOCK_ATTEMPTS: nat := 5

  /** One call's progress: the attempt it is on, how many of its earlier
      comparisons failed for a reason other than an absent path, and how many
      releases had happened when the call began. */
  datatype Try = Try(attempt: nat, statErrors: nat, start: nat)

  datatype Pc =
    | Opening(try: Try)
    | Opened(file: FileId, try: Try)
    | Locked(file: FileId, try: Try)
    | Replaced(file: FileId, try: Try)
    | Refused(file: FileId)
    | Holding(file: FileId)
    | Unlinked(file: FileId)
    | Failed
    | GaveUp(try: Try)
    | Finished
    | Crashed

  datatype State = State(
    link: Option<FileId>,
    inode: map<FileId, nat>,
    flock: map<FileId, Run>,
    runs: map<Run, Pc>,
    releases: seq<Run>)

  datatype Step =
    | Start(run: Run)
    | Open(run: Run, created: FileId, number: nat)
    | OpenFails(run: Run)
    | Flock(run: Run)
    | Compare(run: Run, statWorks: bool)
    | CloseReplaced(run: Run)
    | CloseRefused(run: Run)
    | Unlink(run: Run, works: bool)
    | CloseHeld(run: Run)
    | Crash(run: Run)

  const INIT := State(None, map[], map[], map[], [])

  function OpenFile(pc: Pc): Option<FileId> {
    match pc
    case Opened(f, _) => Some(f)
    case Locked(f, _) => Some(f)
    case Replaced(f, _) => Some(f)
    case Refused(f) => Some(f)
    case Holding(f) => Some(f)
    case Unlinked(f) => Some(f)
    case _ => None
  }

  /** The file whose flock the run was granted and has not given back. */
  function Owned(pc: Pc): Option<FileId> {
    if pc.Locked? || pc.Replaced? || pc.Holding? || pc.Unlinked? then Some(pc.file) else None
  }

  /** A file the kernel keeps: named by the path or open in some run. */
  predicate Live(s: State, f: FileId) {
    s.link == Some(f) || exists r | r in s.runs :: OpenFile(s.runs[r]) == Some(f)
  }

  predicate Enabled(s: State, step: Step) {
    if step.Start? then step.run !in s.runs else
    step.run in s.runs &&
    var pc := s.runs[step.run];
    match step
    case Open(_, f, n) =>
      pc.Opening? &&
      (s.link.None? ==> f !in s.inode && forall g | g in s.inode && Live(s, g) :: s.inode[g] != n)
    case OpenFails(_) => pc.Opening?
    case Flock(_) => pc.Opened?
    case Compare(_, _) => pc.Locked?
    case CloseReplaced(_) => pc.Replaced?
    case CloseRefused(_) => pc.Refused?
    case Unlink(_, _) => pc.Holding?
    case CloseHeld(_) => pc.Unlinked?
    case Crash(_) => true
  }

  /** os.SameFile on the descriptor and the path: inode numbers only. */
  predicate SameFile(s: State, f: FileId) {
    s.link.Some? && f in s.inode && s.link.value in s.inode && s.inode[f] == s.inode[s.link.value]
  }

  function Closed(s: State, r: Run, f: FileId): map<FileId, Run> {
    if f in s.flock && s.flock[f] == r then s.flock - {f} else s.flock
  }

  function Apply(s: State, step: Step): (s': State)
    requires Enabled(s, step)
  {
    var r := step.run;
    match step
    case Start(_) => s.(runs := s.runs[r := Opening(Try(0, 0, |s.releases|))])
    case Open(_, f, n) =>
      var try := s.runs[r].try;
      if s.link.Some? then s.(runs := s.runs[r := Opened(s.link.value, try)])
      else s.(link := Some(f), inode := s.inode[f := n], runs := s.runs[r := Opened(f, try)])
    case OpenFails(_) => s.(runs := s.runs[r := Failed])
    case Flock(_) =>
      var f, try := s.runs[r].file, s.runs[r].try;
      if f in s.flock then s.(runs := s.runs[r := Refused(f)])
      else s.(flock := s.flock[f := r], runs := s.runs[r := Locked(f, try)])
    case Compare(_, statWorks) =>
      var f, try := s.runs[r].file, s.runs[r].try;
      if !statWorks then s.(runs := s.runs[r := Replaced(f, try.(statErrors := try.statErrors + 1))])
      else if SameFile(s, f) then s.(runs := s.runs[r := Holding(f)])
      else s.(runs := s.runs[r := Replaced(f, try)])
    case CloseReplaced(_) =>
      var f, try := s.runs[r].file, s.runs[r].try;
      var next := try.(attempt := try.attempt + 1);
      s.(flock := Closed(s, r, f),
         runs := s.runs[r := if next.attempt < LOCK_ATTEMPTS then Opening(next) else GaveUp(next)])
    case CloseRefused(_) =>
      s.(flock := Closed(s, r, s.runs[r].file), runs := s.runs[r := Failed])
    case Unlink(_, works) =>
      var s' := s.(runs := s.runs[r := Unlinked(s.runs[r].file)]);
      if works && s.link.Some? then s'.(link := None, releases := s.releases + [r]) else s'
    case CloseHeld(_) =>
      s.(flock := Closed(s, r, s.runs[r].file), runs := s.runs[r := Finished])
    case Crash(_) =>
      var held := OpenFile(s.runs[r]);
      s.(flock := if held.Some? then Closed(s, r, held.value) else s.flock, runs := s.runs[r := Crashed])
  }

  /** The state a run of steps leads to, if each step was possible. */
  ghost function After(steps: seq<Step>): (s: Option<State>)
    decreases |steps|
  {
    if steps == [] then Some(INIT)
    else
      var mid := After(steps[..|steps| - 1]);
      if mid.Some? && Enabled(mid.value, steps[|steps| - 1])
      then Some(Apply(mid.value, steps[|steps| - 1]))
      else None
  }

  ghost predicate Trace(steps: seq<Step>, s: State) {
    After(steps) == Some(s)
  }

  // ---------- The inductive invariant ----------

  ghost predicate Files(s: State) {
    && (s.link.Some? ==> s.link.value in s.inode)
    && (forall r | r in s.runs && OpenFile(s.runs[r]).Some? :: OpenFile(s.runs[r]).value in s.inode)
    && (forall f, g | f in s.inode && g in s.inode && Live(s, f) && Live(s, g) && s.inode[f] == s.inode[g] :: f == g)
  }

  ghost predicate Locks(s: State) {
    && Owners(s.runs, s.flock)
    && (forall r | r in s.runs && s.runs[r].Holding? :: s.link == Some(s.runs[r].file))
  }

  /** Each attempt that ended without a stat error paid for itself with one
      release by some other run. */
  ghost predicate Paid(s: State, r: Run, pc: Pc) {
    match pc
    case Opening(t) => Spent(s, r, t, 0) && t.attempt < LOCK_ATTEMPTS
    case Opened(f, t) => Spent(s, r, t, if s.link == Some(f) then 0 else 1) && t.attempt < LOCK_ATTEMPTS
    case Locked(f, t) => Spent(s, r, t, if s.link == Some(f) then 0 else 1) && t.attempt < LOCK_ATTEMPTS
    case Replaced(f, t) => Spent(s, r, t, 1) && t.attempt < LOCK_ATTEMPTS
    case GaveUp(t) => Spent(s, r, t, 0) && t.attempt == LOCK_ATTEMPTS
    case Refused(_) => r !in s.releases
    case Holding(_) => r !in s.releases
    case _ => true
  }

  ghost predicate Spent(s: State, r: Run, t: Try, extra: nat) {
    && t.start <= |s.releases|
    && t.start + t.attempt + extra <= |s.releases| + t.statErrors
    && r !in s.releases
  }

  ghost predicate Inv(s: State) {
    && Files(s)
    && Locks(s)
    && (forall r | r in s.runs :: Paid(s, r, s.runs[r]))
    && (forall r | r in s.releases :: r in s.runs)
  }

  lemma {:induction false} LiveAfter(s: State, step: Step, f: FileId)
    requires Enabled(s, step) && f in s.inode && Live(Apply(s, step), f)
    ensures Live(s, f)
  {
    var s' := Apply(s, step);
    if s'.link != Some(f) {
      var r :| r in s'.runs && OpenFile(s'.runs[r]) == Some(f);
      if r == step.run && step.Open? {
      } else {
        assert r in s.runs && OpenFile(s.runs[r]) == Some(f);
      }
    }
  }

  lemma {:induction false} FilesStep(s: State, step: Step)
    requires Files(s) && Enabled(s, step)
    ensures Files(Apply(s, step))
  {
    var s' := Apply(s, step);
    if step.Open? && s.link.None? {
      assert s'.inode == s.inode[step.created := step.number];
    } else {
      assert s'.inode == s.inode;
    }
    forall f, g | f in s'.inode && g in s'.inode && Live(s', f) && Live(s', g) && s'.inode[f] == s'.inode[g]
      ensures f == g
    {
      if f in s.inode { LiveAfter(s, step, f); }
      if g in s.inode { LiveAfter(s, step, g); }
    }
  }

  lemma {:induction false} SameFileIsSame(s: State, r: Run)
    requires Inv(s) && r in s.runs && s.runs[r].Locked? && SameFile(s, s.runs[r].file)
    ensures s.link == Some(s.runs[r].file)
  {
    assert OpenFile(s.runs[r]) == Some(s.runs[r].file);
    assert Live(s, s.runs[r].file) && Live(s, s.link.value);
  }

  ghost predicate Owners(runs: map<Run, Pc>, flock: map<FileId, Run>) {
    && (forall f | f in flock :: flock[f] in runs && Owned(runs[flock[f]]) == Some(f))
    && (forall r | r in runs && Owned(runs[r]).Some? :: Owned(runs[r]).value in flock && flock[Owned(runs[r]).value] == r)
  }

  lemma {:induction false} OwnersUpdate(runs: map<Run, Pc>, flock: map<FileId, Run>, r: Run, pc: Pc, flock': map<FileId, Run>)
    requires Owners(runs, flock)
    requires
      var before := if r in runs then Owned(runs[r]) else None;
      || (before == Owned(pc) && flock' == flock)
      || (before.None? && Owned(pc).Some? && Owned(pc).value !in flock && flock' == flock[Owned(pc).value := r])
      || (before.Some? && Owned(pc).None? && flock' == flock - {before.value})
    ensures Owners(runs[r := pc], flock')
  {
  }

  lemma {:induction false} OwnersStep(s: State, step: Step)
    requires Owners(s.runs, s.flock) && Enabled(s, step)
    ensures Owners(Apply(s, step).runs, Apply(s, step).flock)
  {
    var s' := Apply(s, step);
    OwnersUpdate(s.runs, s.flock, step.run, s'.runs[step.run], s'.flock);
  }

  lemma {:induction false} HeldLinkStep(s: State, step: Step)
    requires Inv(s) && Enabled(s, step)
    ensures forall r | r in Apply(s, step).runs && Apply(s, step).runs[r].Holding? :: Apply(s, step).link == Some(Apply(s, step).runs[r].file)
  {
    var s' := Apply(s, step);
    if step.Compare? && step.statWorks && SameFile(s, s.runs[step.run].file) {
      SameFileIsSame(s, step.run);
    }
    forall r | r in s'.runs && s'.runs[r].Holding? ensures s'.link == Some(s'.runs[r].file) {
    }
  }

  lemma {:induction false} LocksStep(s: State, step: Step)
    requires Inv(s) && Enabled(s, step)
    ensures Locks(Apply(s, step))
  {
    OwnersStep(s, step);
    HeldLinkStep(s, step);
  }

  /** A step of another run takes nothing from what a run has paid. */
  lemma {:induction false} OthersPaid(s: State, step: Step, r: Run)
    requires Inv(s) && Enabled(s, step) && r != step.run && r in s.runs
    ensures r in Apply(s, step).runs && Apply(s, step).runs[r] == s.runs[r] && Paid(Apply(s, step), r, s.runs[r])
  {
    var s' := Apply(s, step);
    assert s'.runs[r] == s.runs[r] && Paid(s, r, s.runs[r]);
    assert s'.releases == s.releases || (s'.releases == s.releases + [step.run] && s.link.Some?);
  }

  lemma {:induction false} OwnPaid(s: State, step: Step)
    requires Inv(s) && Enabled(s, step)
    ensures step.run in Apply(s, step).runs ==> Paid(Apply(s, step), step.run, Apply(s, step).runs[step.run])
  {
    var r := step.run;
    if step.Start? {
      assert r !in s.releases;
    } else {
      assert Paid(s, r, s.runs[r]);
      if step.Compare? && !SameFile(s, s.runs[r].file) {
        assert s.link != Some(s.runs[r].file);
      }
    }
  }

  lemma {:induction false} PaidStep(s: State, step: Step)
    requires Inv(s) && Enabled(s, step)
    ensures forall r | r in Apply(s, step).runs :: Paid(Apply(s, step), r, Apply(s, step).runs[r])
  {
    var s' := Apply(s, step);
    OwnPaid(s, step);
    forall r | r in s'.runs && r != step.run ensures Paid(s', r, s'.runs[r]) {
      assert r in s.runs;
      OthersPaid(s, step, r);
    }
  }

  lemma {:induction false} InvStep(s: State, step: Step)
    requires Inv(s) && Enabled(s, step)
    ensures Inv(Apply(s, step))
  {
    FilesStep(s, step);
    LocksStep(s, step);
    PaidStep(s, step);
    ReleasesStep(s, step);
  }

  lemma {:induction false} ReleasesStep(s: State, step: Step)
    requires Enabled(s, step) && forall r | r in s.releases :: r in s.runs
    ensures forall r | r in Apply(s, step).releases :: r in Apply(s, step).runs
  {
  }

  lemma {:induction false} ReachableInv(steps: seq<Step>, s: State)
    requires Trace(steps, s)
    ensures Inv(s)
    decreases |steps|
  {
    if steps != [] {
      var mid := After(steps[..|steps| - 1]).value;
      ReachableInv(steps[..|steps| - 1], mid);
      InvStep(mid, steps[|steps| - 1]);
    }
  }

  /** However any number of runs interleave and crash, at most one of them is
      between a successful lockDestination and its unlink, and while it is, the
      path still names the file it has locked. */
  lemma {:induction false} MutualExclusion(steps: seq<Step>, s: State, p: Run, q: Run)
    requires Trace(steps, s)
    requires p in s.runs && q in s.runs && s.runs[p].Holding? && s.runs[q].Holding?
    ensures p == q
    ensures s.link == Some(s.runs[p].file) && s.runs[p].file in s.flock && s.flock[s.runs[p].file] == p
  {
    ReachableInv(steps, s);
    assert Owned(s.runs[p]) == Some(s.runs[p].file);
  }

  lemma {:induction false} HoldsAlone(steps: seq<Step>, s: State, me: Run)
    requires Trace(steps, s) && me in s.runs && s.runs[me].Holding?
    ensures s.link == Some(s.runs[me].file) && forall r | r in s.runs && s.runs[r].Holding? :: r == me
  {
    MutualExclusion(steps, s, me, me);
    forall r | r in s.runs && s.runs[r].Holding? ensures r == me {
      MutualExclusion(steps, s, me, r);
    }
  }

  /** A run gives up only if other runs unlinked the lock file, since its call
      began, at least once for every attempt that did not end in a stat error. */
  lemma {:induction false} GivingUpNeedsReleases(steps: seq<Step>, s: State, p: Run)
    requires Trace(steps, s)
    requires p in s.runs && s.runs[p].GaveUp?
    ensures
      var t := s.runs[p].try;
      && t.attempt == 5
      && t.start <= |s.releases|
      && |s.releases[t.start..]| >= 5 - t.statErrors
      && p !in s.releases[t.start..]
  {
    ReachableInv(steps, s);
  }

  /** A run has this file open and was granted its flock. */
  predicate Owns(s: State, q: Run, f: FileId) {
    q in s.runs && (s.runs[q].Locked? || s.runs[q].Replaced? || s.runs[q].Holding? || s.runs[q].Unlinked?) && s.runs[q].file == f
  }

  /** A run is refused exactly when another run has the lock on the file it
      opened; and the comparison takes it for the file at the path exactly when
      it is. */
  lemma {:induction false} LockedExactly(steps: seq<Step>, s: State, r: Run)
    requires Trace(steps, s) && r in s.runs
    ensures s.runs[r].Opened? ==>
              Enabled(s, Flock(r)) &&
              var pc := Apply(s, Flock(r)).runs[r];
              if exists q :: Owns(s, q, s.runs[r].file) then pc == Refused(s.runs[r].file) else pc == Locked(s.runs[r].file, s.runs[r].try)
    ensures s.runs[r].Locked? ==>
              Enabled(s, Compare(r, true)) &&
              (Apply(s, Compare(r, true)).runs[r].Holding? <==> s.link == Some(s.runs[r].file))
  {
    ReachableInv(steps, s);
    if s.runs[r].Opened? {
      var f := s.runs[r].file;
      if f in s.flock { assert Owns(s, s.flock[f], f); }
      if q :| Owns(s, q, f) { assert Owned(s.runs[q]) == Some(f); }
    }
    if s.runs[r].Locked? {
      assert OpenFile(s.runs[r]) == Some(s.runs[r].file);
      if SameFile(s, s.runs[r].file) { SameFileIsSame(s, r); }
    }
  }

  /** A run alone gets the lock at its first attempt, whether an earlier run left
      the lock file behind or not, unless a stat fails. */
  lemma {:induction false} LoneRunLocks(steps: seq<Step>, s: State, r: Run, created: FileId, number: nat)
    requires Trace(steps, s) && r !in s.runs && created !in s.inode && forall q | q in s.runs :: OpenFile(s.runs[q]).None?
    ensures Enabled(s, Start(r))
    ensures
      var s1 := Apply(s, Start(r));
      Enabled(s1, Step.Open(r, created, number)) &&
      var s2 := Apply(s1, Step.Open(r, created, number));
      Enabled(s2, Flock(r)) &&
      var s3 := Apply(s2, Flock(r));
      Enabled(s3, Compare(r, true)) &&
      var s4 := Apply(s3, Compare(r, true));
      s4.runs[r].Holding? && s4.link == Some(s4.runs[r].file)
  {
    ReachableInv(steps, s);
    assert forall q | q in s.runs :: Owned(s.runs[q]).None?;
    assert s.flock == map[];
    if s.link.None? {
      forall g | g in s.inode ensures !Live(s, g) {
      }
    }
  }

  // ---------- The calls, run against arbitrary interference ----------

  /** The states a trace goes through. */
  ghost predicate Walk(steps: seq<Step>, states: seq<State>) {
    && |states| == |steps| + 1
    && forall i | 0 <= i < |steps| :: Enabled(states[i], steps[i]) && states[i + 1] == Apply(states[i], steps[i])
  }

  /** Where a run stands is not changed by others. */
  lemma {:induction false} RunKept(s: State, step: Step, me: Run)
    requires Enabled(s, step) && step.run != me
    ensures me in Apply(s, step).runs <==> me in s.runs
    ensures me in s.runs ==> Apply(s, step).runs[me] == s.runs[me]
  {
  }

  class Kernel {
    var st: State
    ghost var steps: seq<Step>
    ghost var states: seq<State>

    ghost predicate Valid()
      reads this
    {
      Trace(steps, st) && Walk(steps, states) && states[0] == INIT && states[|steps|] == st
    }

    constructor ()
      ensures Valid() && st == INIT
    {
      st := INIT;
      steps := [];
      states := [INIT];
    }

    method Perform(step: Step)
      requires Valid() && Enabled(st, step)
      modifies this
      ensures Valid() && st == Apply(old(st), step) && steps == old(steps) + [step] && states == old(states) + [st]
    {
      st := Apply(st, step);
      steps := steps + [step];
      states := states + [st];
    }

    /** A step of another run, or none. */
    method Other(me: Run)
      requires Valid()
      modifies this
      ensures Valid()
      ensures me in st.runs <==> me in old(st).runs
      ensures me in st.runs ==> st.runs[me] == old(st).runs[me]
      ensures old(steps) <= steps && forall i | |old(steps)| <= i < |steps| :: steps[i].run != me
      ensures old(states) <= states
    {
      var step: Step := *;
      if step.run != me && Enabled(st, step) {
        RunKept(st, step, me);
        Perform(step);
      }
    }

    /** Any number of steps of other runs. */
    method Others(me: Run)
      requires Valid()
      modifies this
      ensures Valid()
      ensures me in st.runs <==> me in old(st).runs
      ensures me in st.runs ==> st.runs[me] == old(st).runs[me]
      ensures old(steps) <= steps && forall i | |old(steps)| <= i < |steps| :: steps[i].run != me
      ensures old(states) <= states
    {
      var n: int := *;
      while 0 < n
        invariant Valid()
        invariant me in st.runs <==> me in old(st).runs
        invariant me in st.runs ==> st.runs[me] == old(st).runs[me]
        invariant old(steps) <= steps && forall i | |old(steps)| <= i < |steps| :: steps[i].run != me
        invariant old(states) <= states
      {
        Other(me);
        n := n - 1;
      }
    }

    ghost predicate At(me: Run, pc: Pc)
      reads this
    {
      Valid() && me in st.runs && st.runs[me] == pc
    }

    /** os.OpenFile on the lock path; the number a new file gets is the
        kernel's choice among those no live file has. */
    method Open(me: Run, ghost try: Try) returns (works: bool, ghost f: FileId)
      requires At(me, Opening(try))
      modifies this
      ensures old(steps) <= steps
      ensures At(me, if works then Opened(f, try) else Failed)
    {
      Others(me);
      var created: FileId, number: nat := *, *;
      works := *;
      works := works && Enabled(st, Step.Open(me, created, number));
      Perform(if works then Step.Open(me, created, number) else OpenFails(me));
      f := if works then st.runs[me].file else 0;
    }

    method TryLock(me: Run, ghost f: FileId, ghost try: Try) returns (works: bool)
      requires At(me, Opened(f, try))
      modifies this
      ensures old(steps) <= steps
      ensures At(me, if works then Locked(f, try) else Refused(f))
    {
      Others(me);
      Perform(Flock(me));
      works := st.runs[me].Locked?;
    }

    /** The comparison of the held file with the path; it may also fail
        because one of the stats does. */
    method StillAtPath(me: Run, ghost f: FileId, ghost try: Try) returns (same: bool)
      requires At(me, Locked(f, try))
      modifies this
      ensures old(steps) <= steps
      ensures same ==> At(me, Holding(f))
      ensures !same ==> At(me, Replaced(f, try)) || At(me, Replaced(f, try.(statErrors := try.statErrors + 1)))
    {
      Others(me);
      var statWorks: bool := *;
      Perform(Compare(me, statWorks));
      same := st.runs[me].Holding?;
    }

    /** Closing the descriptor the run has open, which drops its flock. */
    method Close(me: Run, ghost pc: Pc)
      requires At(me, pc) && (pc.Replaced? || pc.Refused?)
      modifies this
      ensures old(steps) <= steps
      ensures pc.Refused? ==> At(me, Failed)
      ensures
        pc.Replaced? ==>
          var next := pc.try.(attempt := pc.try.attempt + 1);
          At(me, if next.attempt < LOCK_ATTEMPTS then Opening(next) else GaveUp(next))
    {
      Others(me);
      Perform(if st.runs[me].Replaced? then CloseReplaced(me) else CloseRefused(me));
    }
  }

  /** One attempt: locked, failed for good, or to be tried again. */
  datatype Attempt = Got(file: FileId) | Lost | Again

  function NextTry(try: Try, statErrors: nat): Pc {
    var next := Try(try.attempt + 1, statErrors, try.start);
    if next.attempt < LOCK_ATTEMPTS then Opening(next) else GaveUp(next)
  }

  method TryOnce(k: Kernel, me: Run, ghost try: Try) returns (r: Attempt, ghost statErrors: nat)
    requires k.At(me, Opening(try))
    modifies k
    ensures old(k.steps) <= k.steps
    ensures k.At(me, match r case Got(f) => Holding(f) case Lost => Failed case Again => NextTry(try, statErrors))
  {
    statErrors := 0;
    var isOpen, f := k.Open(me, try);
    if !isOpen {
      return Lost, 0;
    }
    var locked := k.TryLock(me, f, try);
    if !locked {
      k.Close(me, Refused(f));
      return Lost, 0;
    }
    var same := k.StillAtPath(me, f, try);
    if same {
      return Got(k.st.runs[me].file), 0;
    }
    statErrors := k.st.runs[me].try.statErrors;
    k.Close(me, k.st.runs[me]);
    r := Again;
  }

  /** lockDestination: on success the run is the only one holding the
      destination at that moment; a call that gives up made every attempt. */
  method LockDestination(k: Kernel, me: Run) returns (held: Option<FileId>)
    requires k.Valid() && me !in k.st.runs
    modifies k
    ensures k.Valid() && old(k.steps) <= k.steps && me in k.st.runs
    ensures held.Some? ==> k.st.runs[me] == Holding(held.value) && k.st.link == held
    ensures held.Some? ==> forall r | r in k.st.runs && k.st.runs[r].Holding? :: r == me
    ensures held.None? ==> k.st.runs[me].Failed? || (k.st.runs[me].GaveUp? && k.st.runs[me].try.attempt == LOCK_ATTEMPTS)
  {
    k.Perform(Start(me));
    for attempt := 0 to LOCK_ATTEMPTS
      invariant k.Valid() && old(k.steps) <= k.steps && me in k.st.runs
      invariant
        var pc := k.st.runs[me];
        (if attempt < LOCK_ATTEMPTS then pc.Opening? else pc.GaveUp?) && pc.try.attempt == attempt
    {
      var r, _ := TryOnce(k, me, k.st.runs[me].try);
      if r.Got? {
        HoldsAlone(k.steps, k.st, me);
        return Some(r.file);
      }
      if r.Lost? {
        return None;
      }
    }
    return None;
  }

  // ---------- The order of a release ----------

  lemma {:induction false} OtherStep(s: State, step: Step, me: Run)
    requires Enabled(s, step) && me in s.runs && step.run != me
    ensures me in Apply(s, step).runs && Apply(s, step).runs[me] == s.runs[me]
  {
  }

  lemma {:induction false} GoneStep(s: State, step: Step, f: FileId)
    requires Enabled(s, step) && f in s.inode && s.link != Some(f)
    ensures f in Apply(s, step).inode && Apply(s, step).link != Some(f)
  {
  }

  /** Steps of others leave a run where it is. */
  lemma {:induction false} StaysWhere(steps: seq<Step>, states: seq<State>, n: nat, m: nat, me: Run, pc: Pc)
    requires Walk(steps, states) && n <= m <= |steps| && me in states[n].runs && states[n].runs[me] == pc
    requires forall i | n <= i < m :: steps[i].run != me
    ensures me in states[m].runs && states[m].runs[me] == pc
    decreases m - n
  {
    if n < m {
      StaysWhere(steps, states, n, m - 1, me, pc);
      OtherStep(states[m - 1], steps[m - 1], me);
    }
  }

  /** A file the path does not name is never named again. */
  lemma {:induction false} StaysGone(steps: seq<Step>, states: seq<State>, n: nat, m: nat, f: FileId)
    requires Walk(steps, states) && n <= m <= |steps| && f in states[n].inode && states[n].link != Some(f)
    ensures f in states[m].inode && states[m].link != Some(f)
    decreases m - n
  {
    if n < m {
      StaysGone(steps, states, n, m - 1, f);
      GoneStep(states[m - 1], steps[m - 1], f);
    }
  }

  lemma {:induction false} WalkInv(steps: seq<Step>, states: seq<State>, m: nat)
    requires Walk(steps, states) && states[0] == INIT && m <= |steps|
    ensures Inv(states[m])
  {
    if m > 0 {
      WalkInv(steps, states, m - 1);
      InvStep(states[m - 1], steps[m - 1]);
    }
  }

  ghost predicate HasLock(s: State, me: Run, f: FileId) {
    f in s.flock && s.flock[f] == me
  }

  /** From the n-th state on, me has the lock of f until, for good, the path
      does not name f. */
  ghost predicate NamedOnlyWhileLocked(states: seq<State>, n: nat, me: Run, f: FileId) {
    forall i | n <= i < |states| :: HasLock(states[i], me, f) || states[i].link != Some(f)
  }

  lemma {:induction false} HolderOwns(s: State, me: Run, f: FileId)
    requires Inv(s) && me in s.runs && s.runs[me] == Holding(f)
    ensures HasLock(s, me, f) && f in s.inode && s.link == Some(f)
  {
    assert Owned(s.runs[me]) == Some(f) == OpenFile(s.runs[me]);
  }

  /** A release that unlinks with the u-th step and closes with the c-th. */
  lemma {:induction false} ReleaseInOrder(steps: seq<Step>, states: seq<State>, n: nat, u: nat, c: nat, me: Run, f: FileId)
    requires Walk(steps, states) && states[0] == INIT
    requires n <= u < c < |steps| && steps[u] == Unlink(me, true) && steps[c] == CloseHeld(me)
    requires me in states[n].runs && states[n].runs[me] == Holding(f)
    requires forall i | n <= i < c && i != u :: steps[i].run != me
    ensures NamedOnlyWhileLocked(states, n, me, f)
  {
    forall i | n <= i < |states| ensures HasLock(states[i], me, f) || states[i].link != Some(f) {
      StaysWhere(steps, states, n, if i <= u then i else u, me, Holding(f));
      WalkInv(steps, states, if i <= u then i else u);
      HolderOwns(states[if i <= u then i else u], me, f);
      if i > u { StaysGone(steps, states, u + 1, i, f); }
    }
  }

  /** The steps made since are others' but for this last one. */
  ghost predicate LastOwn(before: seq<Step>, steps: seq<Step>, step: Step) {
    && before < steps && steps[|steps| - 1] == step
    && forall i | |before| <= i < |steps| - 1 :: steps[i].run != step.run
  }

  /** A step of this run's release. */
  method ReleaseStep(k: Kernel, me: Run, step: Step, ghost f: FileId)
    requires k.At(me, if step.Unlink? then Holding(f) else Unlinked(f))
    requires step.run == me && (step.Unlink? || step.CloseHeld?)
    modifies k
    ensures k.At(me, if step.Unlink? then Unlinked(f) else Finished)
    ensures LastOwn(old(k.steps), k.steps, step) && old(k.states) <= k.states
  {
    k.Others(me);
    k.Perform(step);
  }

  lemma {:induction false} NoLockAfter(steps: seq<Step>, s: State, me: Run)
    requires Trace(steps, s) && me in s.runs && s.runs[me].Finished?
    ensures forall g | g in s.flock :: s.flock[g] != me
  {
    ReachableInv(steps, s);
  }

  lemma {:induction false} ReleaseOrder(before: seq<Step>, between: seq<Step>, steps: seq<Step>, states: seq<State>, me: Run, f: FileId, worked: bool)
    requires LastOwn(before, between, Unlink(me, worked)) && LastOwn(between, steps, CloseHeld(me))
    requires Walk(steps, states) && states[0] == INIT && me in states[|before|].runs && states[|before|].runs[me] == Holding(f)
    ensures steps[|between| - 1] == Unlink(me, worked) && steps[|steps| - 1] == CloseHeld(me)
    ensures worked ==> NamedOnlyWhileLocked(states, |before|, me, f)
  {
    if worked { ReleaseInOrder(steps, states, |before|, |between| - 1, |steps| - 1, me, f); }
  }

  /** release: the unlink comes before the close; when it works, the path has
      stopped naming this run's file, for good, before the lock is given back. */
  method Release(k: Kernel, me: Run, ghost f: FileId) returns (worked: bool)
    requires k.At(me, Holding(f))
    modifies k
    ensures old(k.steps) <= k.steps && k.At(me, Finished)
    ensures exists u, c :: |old(k.steps)| <= u < c < |k.steps| && k.steps[u] == Unlink(me, worked) && k.steps[c] == CloseHeld(me)
    ensures worked ==> NamedOnlyWhileLocked(k.states, |old(k.steps)|, me, f)
    ensures forall g | g in k.st.flock :: k.st.flock[g] != me
  {
    worked := *;
    ReleaseStep(k, me, Unlink(me, worked), f);
    ghost var between := k.steps;
    ReleaseStep(k, me, CloseHeld(me), f);
    ReleaseOrder(old(k.steps), between, k.steps, k.states, me, f, worked);
    NoLockAfter(k.steps, k.st, me);
  }
}
