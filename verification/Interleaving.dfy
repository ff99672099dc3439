/**
 Why the order in which the workers of Many (fetch/fetch.go) run is immaterial
 to the tree.

 A job is a program that issues one system call after another; each call's
 answer decides what it does next, and what the upstream and the operating
 system will answer is part of its arbitrary local state. Programs whose files
 are disjoint behave in every interleaving as if each ran alone. FileSteps is
 the program of one download, and Pool runs them inside the worker pool.
 */
module Interleaving {

  import opened Wrappers
  import opened Disk
  import opened Fetch
  import Transfers

  datatype Call = Stat(p: Path) | Read(p: Path) | Remove(p: Path) | Rename(src: Path, dst: Path)
                | Write(p: Path, append: bool, data: Bytes)

  /** Whether the call works; a write may stop after some bytes. */
  datatype Fate = Works | Fails | Stops(written: nat)

  /** A stat gives the size and a read the bytes. */
  datatype Answer = Done | Sized(size: nat) | Content(data: Bytes) | Absent | Failure

  function Paths(call: Call): set<Path> {
    match call
    case Rename(src, dst) => {src, dst}
    case _ => {call.p}
  }

  function Written(files: Files, call: Call, count: nat): Files
    requires call.Write?
  {
    var data := if count <= |call.data| then call.data[..count] else call.data;
    files[call.p := (if call.append && call.p in files then files[call.p] else []) + data]
  }

  /** What a call answers and does to the tree. */
  function Effect(call: Call, fate: Fate, files: Files): (Answer, Files) {
    match call
    case Stat(p) =>
      if !fate.Works? then (Failure, files) else (if p in files then Sized(|files[p]|) else Absent, files)
    case Read(p) =>
      if !fate.Works? then (Failure, files) else (if p in files then Content(files[p]) else Absent, files)
    case Remove(p) =>
      if !fate.Works? then (Failure, files)
      else if p in files then (Done, files - {p})
      else (Absent, files)
    case Rename(src, dst) =>
      if !fate.Works? then (Failure, files)
      else if src !in files then (Absent, files)
      else (Done, files[dst := files[src]] - (if src == dst then {} else {src}))
    case Write(_, _, data) =>
      if fate.Works? then (Done, Written(files, call, |data|))
      else if fate.Stops? then (Failure, Written(files, call, fate.written))
      else (Failure, files)
  }

  /** One job; next is None once it has ended. */
  datatype Program<!L> = Program(next: L -> Option<(Call, Fate)>, resume: (L, Answer) -> L)

  function Step<L>(program: Program<L>, l: L, files: Files): (L, Files) {
    var next := program.next(l);
    if next.None? then (l, files)
    else
      var (answer, files') := Effect(next.value.0, next.value.1, files);
      (program.resume(l, answer), files')
  }

  /** The program only names files of this set. */
  ghost predicate Owns<L(!new)>(program: Program<L>, own: set<Path>) {
    forall l :: program.next(l).Some? ==> Paths(program.next(l).value.0) <= own
  }

  ghost predicate SameInside(a: Files, b: Files, own: set<Path>) {
    forall p | p in own :: Same(a, b, p)
  }

  /** The batch: a tree, and where each job is. */
  datatype State<L> = State(files: Files, locals: seq<L>)

  predicate Schedule(jobs: nat, steps: seq<nat>) {
    forall i | 0 <= i < |steps| :: steps[i] < jobs
  }

  /** The state after these jobs have each made one step, in this order. */
  function Run<L>(programs: seq<Program<L>>, s: State<L>, steps: seq<nat>): (s': State<L>)
    requires |s.locals| == |programs| && Schedule(|programs|, steps)
    ensures |s'.locals| == |programs|
    decreases |steps|
  {
    if steps == [] then s
    else
      var mid := Run(programs, s, steps[..|steps| - 1]);
      var j := steps[|steps| - 1];
      var (l, files) := Step(programs[j], mid.locals[j], mid.files);
      State(files, mid.locals[j := l])
  }

  /** The job by itself, n steps. */
  function Alone<L>(program: Program<L>, l: L, files: Files, n: nat): (L, Files) {
    if n == 0 then (l, files)
    else
      var (l', files') := Alone(program, l, files, n - 1);
      Step(program, l', files')
  }

  function Count(steps: seq<nat>, j: nat): nat {
    if steps == [] then 0
    else Count(steps[..|steps| - 1], j) + if steps[|steps| - 1] == j then 1 else 0
  }

  /** Every job owns files no other job names. */
  ghost predicate Apart<L(!new)>(programs: seq<Program<L>>, owned: seq<set<Path>>) {
    && |owned| == |programs|
    && (forall j | 0 <= j < |programs| :: Owns(programs[j], owned[j]))
    && (forall i, j | 0 <= i < |owned| && 0 <= j < |owned| && i != j :: owned[i] !! owned[j])
  }

  function AllOf(owned: seq<set<Path>>): set<Path> {
    set j, p | 0 <= j < |owned| && p in owned[j] :: p
  }

  /** A call's answer and effect depend on the files it names, and nothing else
      changes. */
  lemma {:induction false} EffectConfined(call: Call, fate: Fate, f: Files, g: Files, own: set<Path>)
    requires Paths(call) <= own && SameInside(f, g, own)
    ensures Effect(call, fate, f).0 == Effect(call, fate, g).0
    ensures SameInside(Effect(call, fate, f).1, Effect(call, fate, g).1, own)
    ensures SameOutside(f, Effect(call, fate, f).1, own)
  {
    forall p | p in Paths(call) ensures Same(f, g, p) {
      assert p in own;
    }
    if call.Rename? {
      assert call.src in Paths(call) && call.dst in Paths(call);
    } else {
      assert call.p in Paths(call);
    }
  }

  lemma {:induction false} StepConfined<L(!new)>(program: Program<L>, l: L, f: Files, g: Files, own: set<Path>)
    requires Owns(program, own) && SameInside(f, g, own)
    ensures Step(program, l, f).0 == Step(program, l, g).0
    ensures SameInside(Step(program, l, f).1, Step(program, l, g).1, own)
    ensures SameOutside(f, Step(program, l, f).1, own)
  {
    var next := program.next(l);
    if next.Some? {
      EffectConfined(next.value.0, next.value.1, f, g, own);
    }
  }

  /** Whatever the others do, and at every moment, a job is where it would be
      alone after as many steps, in its control state and in its files; and
      nobody's files stay as they were. */
  lemma {:induction false} AsIfAlone<L(!new)>(programs: seq<Program<L>>, owned: seq<set<Path>>, s: State<L>, steps: seq<nat>)
    requires Apart(programs, owned) && |s.locals| == |programs| && Schedule(|programs|, steps)
    ensures forall j | 0 <= j < |programs| ::
              && Run(programs, s, steps).locals[j] == Alone(programs[j], s.locals[j], s.files, Count(steps, j)).0
              && SameInside(Run(programs, s, steps).files, Alone(programs[j], s.locals[j], s.files, Count(steps, j)).1, owned[j])
    ensures SameOutside(s.files, Run(programs, s, steps).files, AllOf(owned))
    decreases |steps|
  {
    if steps != [] {
      var before, i := steps[..|steps| - 1], steps[|steps| - 1];
      AsIfAlone(programs, owned, s, before);
      var mid := Run(programs, s, before);
      var after := Run(programs, s, steps);
      StepConfined(programs[i], mid.locals[i], mid.files, mid.files, owned[i]);
      forall j | 0 <= j < |programs|
        ensures after.locals[j] == Alone(programs[j], s.locals[j], s.files, Count(steps, j)).0
        ensures SameInside(after.files, Alone(programs[j], s.locals[j], s.files, Count(steps, j)).1, owned[j])
      {
        if j == i {
          var alone := Alone(programs[j], s.locals[j], s.files, Count(before, j));
          StepConfined(programs[j], mid.locals[j], mid.files, alone.1, owned[j]);
        } else {
          assert forall p | p in owned[j] :: p !in owned[i];
        }
      }
      forall p | p !in AllOf(owned) ensures Same(s.files, after.files, p) {
        assert p !in owned[i];
      }
    }
  }

  lemma {:induction false} SameFiles<L(!new)>(programs: seq<Program<L>>, owned: seq<set<Path>>, s: State<L>, a: seq<nat>, b: seq<nat>, p: Path)
    requires Apart(programs, owned) && |s.locals| == |programs|
    requires Schedule(|programs|, a) && Schedule(|programs|, b)
    requires forall j | 0 <= j < |programs| :: Count(a, j) == Count(b, j)
    ensures Same(Run(programs, s, a).files, Run(programs, s, b).files, p)
  {
    AsIfAlone(programs, owned, s, a);
    AsIfAlone(programs, owned, s, b);
    if j :| 0 <= j < |owned| && p in owned[j] {
      var alone := Alone(programs[j], s.locals[j], s.files, Count(a, j)).1;
      assert SameInside(Run(programs, s, a).files, alone, owned[j]) && SameInside(Run(programs, s, b).files, alone, owned[j]);
    } else {
      assert p !in AllOf(owned);
    }
  }

  lemma {:induction false} SameLocals<L(!new)>(programs: seq<Program<L>>, owned: seq<set<Path>>, s: State<L>, a: seq<nat>, b: seq<nat>)
    requires Apart(programs, owned) && |s.locals| == |programs|
    requires Schedule(|programs|, a) && Schedule(|programs|, b)
    requires forall j | 0 <= j < |programs| :: Count(a, j) == Count(b, j)
    ensures Run(programs, s, a).locals == Run(programs, s, b).locals
  {
    AsIfAlone(programs, owned, s, a);
    AsIfAlone(programs, owned, s, b);
  }

  lemma {:induction false} SameEverywhere(a: Files, b: Files)
    requires forall p :: Same(a, b, p)
    ensures a == b
  {
    assert forall p :: (p in a <==> p in b) by {
      forall p ensures p in a <==> p in b { assert Same(a, b, p); }
    }
    forall p | p in a ensures a[p] == b[p] { assert Same(a, b, p); }
  }

  /** Two schedules in which every job makes the same number of steps end in
      the same state. */
  lemma {:induction false} OrderIsImmaterial<L(!new)>(programs: seq<Program<L>>, owned: seq<set<Path>>, s: State<L>, a: seq<nat>, b: seq<nat>)
    requires Apart(programs, owned) && |s.locals| == |programs|
    requires Schedule(|programs|, a) && Schedule(|programs|, b)
    requires forall j | 0 <= j < |programs| :: Count(a, j) == Count(b, j)
    ensures Run(programs, s, a) == Run(programs, s, b)
  {
    SameLocals(programs, owned, s, a, b);
    forall p ensures Same(Run(programs, s, a).files, Run(programs, s, b).files, p) {
      SameFiles(programs, owned, s, a, b, p);
    }
    SameEverywhere(Run(programs, s, a).files, Run(programs, s, b).files);
  }

  // ---------- One job after the other ----------

  function Repeat(j: nat, n: nat): seq<nat> {
    seq(n, _ => j)
  }

  /** Job 0 to its end, then job 1, and so on. */
  function OneByOne(counts: seq<nat>): seq<nat> {
    if counts == [] then []
    else OneByOne(counts[..|counts| - 1]) + Repeat(|counts| - 1, counts[|counts| - 1])
  }

  lemma {:induction false} CountConcat(a: seq<nat>, b: seq<nat>, j: nat)
    ensures Count(a + b, j) == Count(a, j) + Count(b, j)
    decreases |b|
  {
    if b == [] {
      assert a + b == a;
    } else {
      assert (a + b)[..|a + b| - 1] == a + b[..|b| - 1];
      CountConcat(a, b[..|b| - 1], j);
    }
  }

  lemma {:induction false} CountRepeat(i: nat, n: nat, j: nat)
    ensures Count(Repeat(i, n), j) == if i == j then n else 0
  {
    if n > 0 {
      assert Repeat(i, n)[..n - 1] == Repeat(i, n - 1);
      CountRepeat(i, n - 1, j);
    }
  }

  lemma {:induction false} OneByOneCounts(counts: seq<nat>)
    ensures Schedule(|counts|, OneByOne(counts))
    ensures forall j: nat :: Count(OneByOne(counts), j) == if j < |counts| then counts[j] else 0
    decreases |counts|
  {
    if counts != [] {
      var n := |counts| - 1;
      OneByOneCounts(counts[..n]);
      forall j: nat ensures Count(OneByOne(counts), j) == if j < |counts| then counts[j] else 0 {
        CountConcat(OneByOne(counts[..n]), Repeat(n, counts[n]), j);
        CountRepeat(n, counts[n], j);
      }
    }
  }

  /** Every interleaving ends where running the jobs one after the other does. */
  lemma {:induction false} SameAsOneByOne<L(!new)>(programs: seq<Program<L>>, owned: seq<set<Path>>, s: State<L>, steps: seq<nat>)
    requires Apart(programs, owned) && |s.locals| == |programs| && Schedule(|programs|, steps)
    ensures var serial := OneByOne(seq(|programs|, j requires 0 <= j => Count(steps, j)));
            Schedule(|programs|, serial) && Run(programs, s, steps) == Run(programs, s, serial)
  {
    var counts := seq(|programs|, j requires 0 <= j => Count(steps, j));
    OneByOneCounts(counts);
    OrderIsImmaterial(programs, owned, s, steps, OneByOne(counts));
  }

  // ---------- The batch of Many ----------

  /** The files one call of File names. */
  function Names(job: Transfers.Job): set<Path> {
    {job.dst, Staged(job.dst), Partial(job.dst)}
  }

  function NamesOf(jobs: seq<Transfers.Job>): seq<set<Path>> {
    seq(|jobs|, i requires 0 <= i < |jobs| => Names(jobs[i]))
  }
}
