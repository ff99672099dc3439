/**
 One call of file (fetch/fetch.go) as a program of single system calls, so that
 calls can interleave anywhere: which files it names, that it ends, and that,
 run alone, it ends as Fetch.File says.

 The upstream's answers, whether calls work, and cancellation are part of the
 program's local state, and arbitrary. Where they all work, the answers alone
 decide whether the call succeeds.
 */
module FileSteps {

  import opened Wrappers
  import opened Disk
  import opened Fetch
  import opened Interleaving
  import Transfers

  /** The arguments of the call. */
  datatype Args = Args(hash: Hash, verify: bool, job: Transfers.Job) {
    function Dst(): Path { job.dst }

    function Goal(): Path { Target(job.dst, job.stage) }
  }

  /** What the call will meet: the fate of its n-th system call, the answers to
      its first and its second request, and whether directories can be made. */
  datatype Env = Env(fate: nat -> Fate, reply: bool -> Reply, mkdirFails: bool -> bool, canceled: bool)

  /** Where the call is, before its next system call. */
  datatype Pc =
    | Clearing
    | Sizing
    | Checking
    | Probing
    | Asking
    | Prefix(from: nat, resp: Response)
    | Writing(from: nat, resp: Response, prefix: Option<Bytes>)
    | Renaming(from: nat, bytes: Bytes)
    | Dropping(from: nat, error: FetchError)
    | Retrying
    | Ended(result: FileResult)

  /** `leftover` says that clearing an earlier staged copy failed, `again` that
      this is the second attempt. */
  datatype Task = Task(env: Env, pc: Pc, leftover: bool, again: bool, tick: nat)

  // ---------- The program ----------

  function Start(args: Args, env: Env): Task {
    var t := Task(env, Clearing, false, false, 0);
    if args.job.stage then t else t.(pc := Entry(args, t))
  }

  /** A partial file of this expectation can be resumed, and is kept. */
  predicate Resumes(want: Option<Expect>) {
    want.Some? && want.value.size > 0 && BestSum(want.value).Some?
  }

  function Entry(args: Args, t: Task): (pc: Pc)
    ensures !pc.Clearing?
  {
    if args.job.want.Some? then Sizing else Asking
  }

  /** The live file was not accepted. */
  function Unverified(args: Args, t: Task): (pc: Pc)
    ensures !pc.Clearing?
  {
    if Resumes(args.job.want) then Probing else Request(args, t, 0, false)
  }

  /** One request, and what its answer leads to. */
  function Request(args: Args, t: Task, from: nat, conditional: bool): (pc: Pc)
    ensures !pc.Clearing?
  {
    match t.env.reply(t.again)
    case NotModified => if conditional then Ended(Ok(FileUnchanged)) else Fails(t, from, Transport)
    case Failed(error) => Fails(t, from, error)
    case Got(resp) =>
      if t.env.mkdirFails(t.again) then Fails(t, from, Local)
      else if from > 0 && resp.partialContent then Prefix(from, resp)
      else Writing(from, resp, None)
  }

  /** A failed attempt: the end, or a second one from scratch. */
  function Fails(t: Task, from: nat, error: FetchError): (pc: Pc)
    ensures !pc.Clearing?
  {
    if from == 0 || error == NotFound || t.env.canceled then Ended(Err(error)) else Retrying
  }

  /** The transfer broke off. */
  function Breaks(args: Args, t: Task, from: nat, error: FetchError): (pc: Pc)
    ensures !pc.Clearing?
  {
    if Resumes(args.job.want) then Fails(t, from, error) else Dropping(from, error)
  }

  /** The body is written, and the partial file holds these bytes. */
  function Received(args: Args, t: Task, from: nat, resp: Response, bytes: Bytes): (pc: Pc)
    ensures !pc.Clearing?
  {
    if resp.broken then Breaks(args, t, from, Transport)
    else if args.job.want.Some? && !SizeMatches(args.job.want.value, bytes) then Dropping(from, BadSize)
    else if args.job.want.Some? && !SumMatches(args.hash, args.job.want.value, bytes) then Dropping(from, BadSum)
    else Renaming(from, bytes)
  }

  /** The next system call. */
  function CallAt(args: Args, pc: Pc): Option<Call> {
    match pc
    case Clearing => Some(Remove(Staged(args.Dst())))
    case Sizing => Some(Stat(args.Dst()))
    case Checking => Some(Read(args.Dst()))
    case Probing => Some(Stat(Partial(args.Dst())))
    case Asking => Some(Stat(args.Dst()))
    case Prefix(_, _) => Some(Read(Partial(args.Dst())))
    case Writing(_, resp, prefix) => Some(Write(Partial(args.Dst()), prefix.Some?, resp.body))
    case Renaming(_, _) => Some(Rename(Partial(args.Dst()), args.Goal()))
    case Dropping(_, _) => Some(Remove(Partial(args.Dst())))
    case Retrying => Some(Remove(Partial(args.Dst())))
    case Ended(_) => None
  }

  /** Where its answer leads. */
  function Turn(args: Args, t: Task, answer: Answer): (pc: Pc)
    ensures !pc.Clearing?
  {
    match t.pc
    case Clearing => Entry(args, t)
    case Sizing =>
      if args.job.want.None? || !answer.Sized? || (args.job.want.value.size >= 0 && answer.size != args.job.want.value.size)
      then Unverified(args, t)
      else if !args.verify || BestSum(args.job.want.value).None? then Ended(Ok(FileUnchanged))
      else Checking
    case Checking =>
      if args.job.want.Some? && answer.Content? && SumMatches(args.hash, args.job.want.value, answer.data)
      then Ended(Ok(FileUnchanged)) else Unverified(args, t)
    case Probing =>
      var from := if args.job.want.Some? && answer.Sized? && answer.size < args.job.want.value.size then answer.size else 0;
      Request(args, t, from, false)
    case Asking => Request(args, t, 0, answer.Sized?)
    case Prefix(from, resp) => if answer.Content? then Writing(from, resp, Some(answer.data)) else Fails(t, from, Local)
    case Writing(from, resp, prefix) =>
      if answer.Done? then Received(args, t, from, resp, (if prefix.Some? then prefix.value else []) + resp.body)
      else Breaks(args, t, from, Local)
    case Renaming(from, _) =>
      if answer.Done? then Ended(Ok(if args.job.stage then FileStaged else FileFetched)) else Dropping(from, Local)
    case Dropping(from, error) => Fails(t, from, error)
    case Retrying => Request(args, t.(again := true), 0, false)
    case Ended(_) => t.pc
  }

  function Resume(args: Args, t: Task, answer: Answer): Task {
    t.(pc := Turn(args, t, answer), tick := t.tick + 1,
       leftover := t.leftover || (t.pc.Clearing? && answer.Failure?),
       again := t.again || t.pc.Retrying?)
  }

  function NextCall(args: Args, t: Task): Option<(Call, Fate)> {
    var call := CallAt(args, t.pc);
    if call.Some? then Some((call.value, t.env.fate(t.tick))) else None
  }

  function FileProgram(args: Args): Program<Task> {
    Program((t: Task) => NextCall(args, t), (t: Task, answer: Answer) => Resume(args, t, answer))
  }

  /** What the system call answers and does. */
  function Met(args: Args, t: Task, files: Files): (Answer, Files)
    requires !t.pc.Ended?
  {
    Effect(CallAt(args, t.pc).value, t.env.fate(t.tick), files)
  }

  lemma {:induction false} StepIs(args: Args, t: Task, files: Files)
    ensures Step(FileProgram(args), t, files) ==
            if t.pc.Ended? then (t, files) else (Resume(args, t, Met(args, t, files).0), Met(args, t, files).1)
  {
  }

  /** It names the destination, its staged copy and its partial file, and no
      other file. */
  lemma {:induction false} OwnsItsNames(args: Args)
    ensures Owns(FileProgram(args), Names(args.job))
  {
  }

  /** A staged call that is not to verify digests, as a refetch is, ends with its
      second system call when the live file has the expected size, and leaves
      that file and no staged copy. */
  lemma {:induction false} SizeIsEnough(args: Args, env: Env, a: Files)
    requires args.job.stage && args.job.want.Some? && !args.verify && OfSize(a, args.Dst(), args.job.want.value)
    requires env.fate(0).Works? && env.fate(1).Works?
    ensures
      var (t, b) := Alone(FileProgram(args), Start(args, env), a, 2);
      t.pc == Ended(Ok(FileUnchanged)) && b == a - {Staged(args.Dst())} && args.Dst() in b && b[args.Dst()] == a[args.Dst()]
  {
    var t0 := Start(args, env);
    assert |Staged(args.Dst())| == |args.Dst()| + 7;
    StepIs(args, t0, a);
    var (t1, b) := Step(FileProgram(args), t0, a);
    assert b == a - {Staged(args.Dst())} && t1.pc == Sizing;
    StepIs(args, t1, b);
    assert Alone(FileProgram(args), t0, a, 1) == (t1, b);
  }

  // ---------- It ends ----------

  function Rank(t: Task): nat {
    (if t.again then 0 else 10) +
    match t.pc
    case Clearing => 9
    case Sizing => 8
    case Checking => 7
    case Probing => 6
    case Asking => 6
    case Prefix(_, _) => 5
    case Writing(_, _, _) => 4
    case Renaming(_, _) => 3
    case Dropping(_, _) => 2
    case Retrying => 1
    case Ended(_) => 0
  }

  /** Nothing is resumed in a second attempt. */
  predicate Attempts(t: Task) {
    match t.pc
    case Prefix(from, _) => !t.again && from > 0
    case Writing(from, _, prefix) => (t.again ==> from == 0) && (prefix.Some? ==> from > 0)
    case Renaming(from, _) => t.again ==> from == 0
    case Dropping(from, _) => t.again ==> from == 0
    case Retrying => !t.again
    case Ended(_) => true
    case _ => !t.again
  }

  lemma {:induction false} RequestRank(args: Args, t: Task, from: nat, conditional: bool)
    requires t.again ==> from == 0
    ensures var t' := t.(pc := Request(args, t, from, conditional)); Attempts(t') && Rank(t') <= (if t.again then 5 else 15)
  {
  }

  /** The pc is the end, or ranks below n in this attempt. */
  predicate Under(t: Task, pc: Pc, n: nat) {
    pc.Ended? || (Attempts(t.(pc := pc)) && Rank(t.(pc := pc)) < n + if t.again then 0 else 10)
  }

  lemma {:induction false} LateDrops(args: Args, t: Task, answer: Answer)
    requires Attempts(t) && (t.pc.Prefix? || t.pc.Writing? || t.pc.Renaming? || t.pc.Dropping?)
    ensures Under(t, Turn(args, t, answer), Rank(t) - if t.again then 0 else 10)
  {
  }

  lemma {:induction false} TurnDrops(args: Args, t: Task, answer: Answer)
    requires Attempts(t) && !t.pc.Ended?
    ensures Attempts(Resume(args, t, answer)) && (Resume(args, t, answer).pc.Ended? || Rank(Resume(args, t, answer)) < Rank(t))
  {
    if t.pc.Retrying? {
      RequestRank(args, t.(again := true), 0, false);
    } else if t.pc.Prefix? || t.pc.Writing? || t.pc.Renaming? || t.pc.Dropping? {
      LateDrops(args, t, answer);
    } else {
    }
  }

  /** However it goes, a call takes at most nineteen system calls. */
  lemma {:induction false} EndsAlone(args: Args, t: Task, files: Files, n: nat)
    requires Attempts(t) && n >= Rank(t)
    ensures Attempts(Alone(FileProgram(args), t, files, n).0)
    ensures Alone(FileProgram(args), t, files, n).0.pc.Ended?
  {
    RanksAlone(args, t, files, n);
  }

  lemma {:induction false} RanksAlone(args: Args, t: Task, files: Files, n: nat)
    requires Attempts(t)
    ensures var t' := Alone(FileProgram(args), t, files, n).0;
            Attempts(t') && (t'.pc.Ended? || Rank(t') + n <= Rank(t))
  {
    if n > 0 {
      RanksAlone(args, t, files, n - 1);
      var (mid, between) := Alone(FileProgram(args), t, files, n - 1);
      StepIs(args, mid, between);
      if !mid.pc.Ended? { TurnDrops(args, mid, Met(args, mid, between).0); }
    }
  }

  // ---------- What it keeps ----------

  /** The target is as it was, cleared, or has bytes that match. */
  ghost predicate TargetFine(args: Args, a: Files, b: Files) {
    || Same(a, b, args.Goal())
    || (args.job.stage && args.Goal() !in b)
    || (args.Goal() in b && Matches(args.hash, args.job.want, b[args.Goal()]))
  }

  /** Before the rename: the target is as it was or cleared; and unless clearing
      failed there is no staged copy. */
  ghost predicate Untouched(args: Args, a: Files, t: Task, b: Files) {
    && (Same(a, b, args.Goal()) || (args.job.stage && args.Goal() !in b))
    && (args.job.stage && !t.pc.Clearing? && args.Goal() in b ==> t.leftover)
  }

  ghost predicate PartialHolds(args: Args, b: Files, bytes: Bytes) {
    Partial(args.Dst()) in b && b[Partial(args.Dst())] == bytes
  }

  ghost predicate At(args: Args, a: Files, t: Task, b: Files) {
    match t.pc
    case Checking => args.job.want.Some? && args.verify && args.Dst() in b && SizeMatches(args.job.want.value, b[args.Dst()])
    case Sizing => args.job.want.Some?
    case Asking => args.job.want.None?
    case Prefix(from, _) => true
    case Writing(_, _, prefix) => prefix.Some? ==> PartialHolds(args, b, prefix.value)
    case Renaming(_, bytes) => PartialHolds(args, b, bytes) && Matches(args.hash, args.job.want, bytes)
    case _ => true
  }

  /** Everything a call keeps, from the tree a it began with. */
  ghost predicate Keeps(args: Args, a: Files, t: Task, b: Files) {
    && SameOutside(a, b, Transfers.Footprint(args.job))
    && TargetFine(args, a, b) && At(args, a, t, b)
    && (if t.pc.Ended? then CallEnds(args.hash, args.verify, a, b, args.Dst(), args.job.want, args.job.stage, t.pc.result, t.leftover)
        else Untouched(args, a, t, b))
  }

  lemma {:induction false} NamesDiffer(args: Args)
    ensures Partial(args.Dst()) != args.Dst() && Partial(args.Dst()) != args.Goal()
    ensures args.job.stage ==> args.Goal() != args.Dst()
  {
    var dst := args.Dst();
    assert |Partial(dst)| == |dst| + 8 && |Staged(dst)| == |dst| + 7;
  }

  lemma {:induction false} StartKeeps(args: Args, env: Env, a: Files)
    ensures Keeps(args, a, Start(args, env), a) && Attempts(Start(args, env))
  {
    NamesDiffer(args);
  }

  /** A pc the request leads to needs nothing of the tree, unless it is an
      answer to a conditional one. */
  lemma {:induction false} RequestKeeps(args: Args, a: Files, t: Task, b: Files, from: nat, conditional: bool)
    requires SameOutside(a, b, Transfers.Footprint(args.job)) && Untouched(args, a, t, b) && !t.pc.Clearing?
    requires conditional ==> args.job.want.None? && args.Dst() in b
    ensures Keeps(args, a, t.(pc := Request(args, t, from, conditional)), b)
  {
    NamesDiffer(args);
    if conditional { assert args.job.stage ==> Same(a, b, args.Dst()); }
  }

  lemma {:induction false} FailsKeeps(args: Args, a: Files, t: Task, b: Files, from: nat, error: FetchError)
    requires SameOutside(a, b, Transfers.Footprint(args.job)) && Untouched(args, a, t, b) && !t.pc.Clearing?
    ensures Keeps(args, a, t.(pc := Fails(t, from, error)), b)
  {
    NamesDiffer(args);
  }

  lemma {:induction false} SameFootprint(args: Args, a: Files, b: Files, c: Files)
    requires SameOutside(a, b, Transfers.Footprint(args.job)) && SameOutside(b, c, Transfers.Footprint(args.job))
    ensures SameOutside(a, c, Transfers.Footprint(args.job))
  {
    forall p | p !in Transfers.Footprint(args.job) ensures Same(a, c, p) {
      assert Same(a, b, p) && Same(b, c, p);
    }
  }

  lemma {:induction false} LookKeeps(args: Args, a: Files, t: Task, b: Files, answer: Answer)
    requires Keeps(args, a, t, b) && (t.pc.Probing? || t.pc.Asking? || t.pc.Prefix?)
    requires (answer, b) == Met(args, t, b)
    ensures Keeps(args, a, Resume(args, t, answer), b)
  {
    NamesDiffer(args);
    match t.pc
    case Probing =>
      var from := if args.job.want.Some? && answer.Sized? && answer.size < args.job.want.value.size then answer.size else 0;
      RequestKeeps(args, a, t, b, from, false);
    case Asking => RequestKeeps(args, a, t, b, 0, answer.Sized?);
    case Prefix(from, _) => FailsKeeps(args, a, t, b, from, Local);
  }

  /** Acceptance of the live file, or going on without it. */
  lemma {:induction false} VerifyKeeps(args: Args, a: Files, t: Task, b: Files, answer: Answer)
    requires Keeps(args, a, t, b) && (t.pc.Sizing? || t.pc.Checking?)
    requires (answer, b) == Met(args, t, b)
    ensures Keeps(args, a, Resume(args, t, answer), b)
  {
    NamesDiffer(args);
    RequestKeeps(args, a, t, b, 0, false);
    assert args.job.stage ==> Same(a, b, args.Dst());
  }

  lemma {:induction false} ClearKeeps(args: Args, a: Files, t: Task, b: Files, answer: Answer, c: Files)
    requires Keeps(args, a, t, b) && t.pc.Clearing? && args.job.stage && (answer, c) == Met(args, t, b)
    ensures Keeps(args, a, Resume(args, t, answer), c)
  {
    NamesDiffer(args);
    assert SameOutside(b, c, Transfers.Footprint(args.job));
    SameFootprint(args, a, b, c);
  }

  /** A change of the partial file alone. */
  lemma {:induction false} PartialOnly(args: Args, a: Files, t: Task, b: Files, c: Files)
    requires Keeps(args, a, t, b) && !t.pc.Ended? && SameOutside(b, c, {Partial(args.Dst())})
    ensures SameOutside(a, c, Transfers.Footprint(args.job)) && TargetFine(args, a, c) && Untouched(args, a, t, c)
  {
    NamesDiffer(args);
    assert Same(b, c, args.Goal());
    SameFootprint(args, a, b, c);
  }

  lemma {:induction false} BreaksKeeps(args: Args, a: Files, t: Task, b: Files, from: nat, error: FetchError)
    requires SameOutside(a, b, Transfers.Footprint(args.job)) && Untouched(args, a, t, b) && !t.pc.Clearing?
    ensures Keeps(args, a, t.(pc := Breaks(args, t, from, error)), b)
  {
    FailsKeeps(args, a, t, b, from, error);
  }

  lemma {:induction false} ReceivedKeeps(args: Args, a: Files, t: Task, b: Files, from: nat, resp: Response, bytes: Bytes)
    requires SameOutside(a, b, Transfers.Footprint(args.job)) && Untouched(args, a, t, b) && !t.pc.Clearing?
    requires PartialHolds(args, b, bytes)
    ensures Keeps(args, a, t.(pc := Received(args, t, from, resp, bytes)), b)
  {
    BreaksKeeps(args, a, t, b, from, Transport);
  }

  lemma {:induction false} WriteKeeps(args: Args, a: Files, t: Task, b: Files, answer: Answer, c: Files)
    requires Keeps(args, a, t, b) && t.pc.Writing? && (answer, c) == Met(args, t, b)
    ensures Keeps(args, a, Resume(args, t, answer), c)
  {
    PartialOnly(args, a, t, b, c);
    if answer.Done? {
      var bytes := (if t.pc.prefix.Some? then t.pc.prefix.value else []) + t.pc.resp.body;
      assert t.pc.resp.body[..|t.pc.resp.body|] == t.pc.resp.body;
      assert PartialHolds(args, c, bytes);
      ReceivedKeeps(args, a, t, c, t.pc.from, t.pc.resp, bytes);
    } else {
      BreaksKeeps(args, a, t, c, t.pc.from, Local);
    }
  }

  lemma {:induction false} RenameKeeps(args: Args, a: Files, t: Task, b: Files, answer: Answer, c: Files)
    requires Keeps(args, a, t, b) && t.pc.Renaming? && (answer, c) == Met(args, t, b)
    ensures Keeps(args, a, Resume(args, t, answer), c)
  {
    NamesDiffer(args);
    assert SameOutside(b, c, Transfers.Footprint(args.job));
    SameFootprint(args, a, b, c);
  }

  lemma {:induction false} DropKeeps(args: Args, a: Files, t: Task, b: Files, answer: Answer, c: Files)
    requires Keeps(args, a, t, b) && (t.pc.Dropping? || t.pc.Retrying?) && (answer, c) == Met(args, t, b)
    ensures Keeps(args, a, Resume(args, t, answer), c)
  {
    PartialOnly(args, a, t, b, c);
    if t.pc.Dropping? {
      FailsKeeps(args, a, t, c, t.pc.from, t.pc.error);
    } else {
      RequestKeeps(args, a, t.(again := true), c, 0, false);
    }
  }

  lemma {:induction false} ResumeKeeps(args: Args, a: Files, t: Task, b: Files, answer: Answer, c: Files)
    requires Keeps(args, a, t, b) && !t.pc.Ended? && (t.pc.Clearing? ==> args.job.stage) && (answer, c) == Met(args, t, b)
    ensures Keeps(args, a, Resume(args, t, answer), c)
  {
    match t.pc
    case Clearing => ClearKeeps(args, a, t, b, answer, c);
    case Sizing => VerifyKeeps(args, a, t, b, answer);
    case Checking => VerifyKeeps(args, a, t, b, answer);
    case Writing(_, _, _) => WriteKeeps(args, a, t, b, answer, c);
    case Renaming(_, _) => RenameKeeps(args, a, t, b, answer, c);
    case Dropping(_, _) => DropKeeps(args, a, t, b, answer, c);
    case Retrying => DropKeeps(args, a, t, b, answer, c);
    case _ => LookKeeps(args, a, t, b, answer);
  }

  lemma {:induction false} StepKeeps(args: Args, a: Files, t: Task, b: Files)
    requires Keeps(args, a, t, b) && (t.pc.Clearing? ==> args.job.stage)
    ensures
      var (t', c) := Step(FileProgram(args), t, b);
      Keeps(args, a, t', c) && !t'.pc.Clearing?
  {
    StepIs(args, t, b);
    if !t.pc.Ended? {
      var (answer, c) := Met(args, t, b);
      ResumeKeeps(args, a, t, b, answer, c);
    }
  }

  /** A call run alone keeps all that at every moment, and ends as Fetch.File
      does. */
  lemma {:induction false} AloneKeeps(args: Args, env: Env, a: Files, n: nat)
    ensures
      var (t, b) := Alone(FileProgram(args), Start(args, env), a, n);
      Keeps(args, a, t, b) && (t.pc.Clearing? ==> args.job.stage)
  {
    if n == 0 {
      StartKeeps(args, env, a);
    } else {
      AloneKeeps(args, env, a, n - 1);
      var (t, b) := Alone(FileProgram(args), Start(args, env), a, n - 1);
      StepKeeps(args, a, t, b);
    }
  }

  /** So after nineteen system calls it has ended, and left what Fetch.File
      promises. */
  lemma {:induction false} AloneIsFile(args: Args, env: Env, a: Files, n: nat)
    requires n >= 19
    ensures
      var (t, b) := Alone(FileProgram(args), Start(args, env), a, n);
      t.pc.Ended? && CallEnds(args.hash, args.verify, a, b, args.Dst(), args.job.want, args.job.stage, t.pc.result, t.leftover)
  {
    StartKeeps(args, env, a);
    EndsAlone(args, Start(args, env), a, n);
    AloneKeeps(args, env, a, n);
  }

  // ---------- When it succeeds ----------

  /** Every system call works. */
  ghost predicate Calm(env: Env) {
    (forall n :: env.fate(n).Works?) && (forall again :: !env.mkdirFails(again))
  }

  /** The answer completes the file: all of it, or the rest of the prefix that
      was asked for, and it matches. */
  predicate Completes(args: Args, reply: Reply, conditional: bool, prefix: Bytes) {
    match reply
    case NotModified => conditional
    case Failed(_) => false
    case Got(resp) =>
      !resp.broken && Matches(args.hash, args.job.want, (if prefix != [] && resp.partialContent then prefix else []) + resp.body)
  }

  /** The partial file a ranged request continues. */
  function Prefixed(args: Args, b: Files): Bytes {
    var partial := Partial(args.Dst());
    if Resumes(args.job.want) && partial in b && |b[partial]| < args.job.want.value.size then b[partial] else []
  }

  /** What the second attempt needs. */
  predicate Again(args: Args, env: Env, from: nat) {
    from > 0 && !env.canceled && Completes(args, env.reply(true), false, [])
  }

  predicate Answered(args: Args, env: Env, b: Files) {
    var prefix := Prefixed(args, b);
    || Completes(args, env.reply(false), args.job.want.None? && args.Dst() in b, prefix)
    || (env.reply(false) != Failed(NotFound) && Again(args, env, |prefix|))
  }

  predicate UpToDate(args: Args, b: Files) {
    args.job.want.Some? && args.Dst() in b && Acceptable(args.hash, args.job.want.value, args.verify, b[args.Dst()])
  }

  /** The call will succeed, from where it is. */
  predicate WillSucceed(args: Args, t: Task, b: Files) {
    match t.pc
    case Clearing => UpToDate(args, b) || Answered(args, t.env, b)
    case Sizing => UpToDate(args, b) || Answered(args, t.env, b)
    case Checking => UpToDate(args, b) || Answered(args, t.env, b)
    case Probing => Answered(args, t.env, b)
    case Asking => Answered(args, t.env, b)
    case Prefix(from, resp) =>
      Partial(args.Dst()) in b && (Completes(args, Got(resp), false, b[Partial(args.Dst())]) || Again(args, t.env, from))
    case Writing(from, resp, prefix) =>
      || (!resp.broken && Matches(args.hash, args.job.want, (if prefix.Some? then prefix.value else []) + resp.body))
      || Again(args, t.env, from)
    case Renaming(_, _) => true
    case Dropping(from, error) => error != NotFound && Again(args, t.env, from)
    case Retrying => Completes(args, t.env.reply(true), false, [])
    case Ended(result) => result.Ok?
  }

  /** What its calls need of the tree. */
  predicate Ready(args: Args, t: Task, b: Files) {
    match t.pc
    case Clearing => args.job.stage
    case Sizing => args.job.want.Some?
    case Checking => args.job.want.Some? && args.verify && args.Dst() in b && SizeMatches(args.job.want.value, b[args.Dst()])
    case Probing => Resumes(args.job.want)
    case Asking => args.job.want.None?
    case Prefix(from, resp) =>
      resp.partialContent && from > 0 && Partial(args.Dst()) in b && |b[Partial(args.Dst())]| == from
    case Renaming(_, _) => Partial(args.Dst()) in b
    case _ => true
  }

  /** A request in the first attempt, or in the second. */
  lemma {:induction false} RequestDecides(args: Args, t: Task, b: Files, from: nat, conditional: bool)
    requires Calm(t.env)
    requires if t.again then from == 0 && !conditional
             else from == |Prefixed(args, b)| && (conditional <==> args.job.want.None? && args.Dst() in b)
    ensures var t' := t.(pc := Request(args, t, from, conditional));
            && Ready(args, t', b)
            && (WillSucceed(args, t', b) <==>
                if t.again then Completes(args, t.env.reply(true), false, []) else Answered(args, t.env, b))
  {
  }

  lemma {:induction false} ClearDecides(args: Args, t: Task, b: Files)
    requires Calm(t.env) && t.pc.Clearing? && Ready(args, t, b)
    ensures var (answer, c) := Met(args, t, b);
            Ready(args, Resume(args, t, answer), c) && (WillSucceed(args, Resume(args, t, answer), c) <==> WillSucceed(args, t, b))
  {
    NamesDiffer(args);
    assert t.env.fate(t.tick).Works?;
    assert Staged(args.Dst()) != Partial(args.Dst());
    assert Prefixed(args, Met(args, t, b).1) == Prefixed(args, b);
  }

  lemma {:induction false} UnverifiedDecides(args: Args, t: Task, b: Files)
    requires Calm(t.env) && !t.again && args.job.want.Some?
    ensures var t' := t.(pc := Unverified(args, t));
            Ready(args, t', b) && (WillSucceed(args, t', b) <==> Answered(args, t.env, b))
  {
    if !Resumes(args.job.want) { RequestDecides(args, t, b, 0, false); }
  }

  lemma {:induction false} SizeDecides(args: Args, t: Task, b: Files)
    requires Calm(t.env) && Attempts(t) && Ready(args, t, b) && t.pc.Sizing?
    ensures var (answer, c) := Met(args, t, b);
            Ready(args, Resume(args, t, answer), c) && (WillSucceed(args, Resume(args, t, answer), c) <==> WillSucceed(args, t, b))
  {
    assert t.env.fate(t.tick).Works?;
    UnverifiedDecides(args, t, b);
  }

  lemma {:induction false} CheckDecides(args: Args, t: Task, b: Files)
    requires Calm(t.env) && Attempts(t) && Ready(args, t, b) && t.pc.Checking?
    ensures var (answer, c) := Met(args, t, b);
            Ready(args, Resume(args, t, answer), c) && (WillSucceed(args, Resume(args, t, answer), c) <==> WillSucceed(args, t, b))
  {
    assert t.env.fate(t.tick).Works?;
    UnverifiedDecides(args, t, b);
  }

  lemma {:induction false} AskDecides(args: Args, t: Task, b: Files)
    requires Calm(t.env) && Attempts(t) && Ready(args, t, b) && (t.pc.Probing? || t.pc.Asking?)
    ensures var (answer, c) := Met(args, t, b);
            Ready(args, Resume(args, t, answer), c) && (WillSucceed(args, Resume(args, t, answer), c) <==> WillSucceed(args, t, b))
  {
    assert t.env.fate(t.tick).Works?;
    RequestDecides(args, t, b, |Prefixed(args, b)|, args.job.want.None? && args.Dst() in b);
  }

  lemma {:induction false} PrefixDecides(args: Args, t: Task, b: Files)
    requires Calm(t.env) && Attempts(t) && Ready(args, t, b) && (t.pc.Prefix?)
    ensures var (answer, c) := Met(args, t, b);
            Ready(args, Resume(args, t, answer), c) && (WillSucceed(args, Resume(args, t, answer), c) <==> WillSucceed(args, t, b))
  {
    assert t.env.fate(t.tick).Works?;
  }

  lemma {:induction false} WriteDecides(args: Args, t: Task, b: Files)
    requires Calm(t.env) && Attempts(t) && Ready(args, t, b) && (t.pc.Writing?)
    ensures var (answer, c) := Met(args, t, b);
            Ready(args, Resume(args, t, answer), c) && (WillSucceed(args, Resume(args, t, answer), c) <==> WillSucceed(args, t, b))
  {
    NamesDiffer(args);
    assert t.env.fate(t.tick).Works?;
  }

  lemma {:induction false} RenameDecides(args: Args, t: Task, b: Files)
    requires Calm(t.env) && Attempts(t) && Ready(args, t, b) && (t.pc.Renaming? || t.pc.Dropping?)
    ensures var (answer, c) := Met(args, t, b);
            Ready(args, Resume(args, t, answer), c) && (WillSucceed(args, Resume(args, t, answer), c) <==> WillSucceed(args, t, b))
  {
    NamesDiffer(args);
    assert t.env.fate(t.tick).Works?;
  }

  lemma {:induction false} RetryDecides(args: Args, t: Task, b: Files)
    requires Calm(t.env) && Attempts(t) && Ready(args, t, b) && (t.pc.Retrying?)
    ensures var (answer, c) := Met(args, t, b);
            Ready(args, Resume(args, t, answer), c) && (WillSucceed(args, Resume(args, t, answer), c) <==> WillSucceed(args, t, b))
  {
    assert t.env.fate(t.tick).Works?;
    RequestDecides(args, t.(again := true), Met(args, t, b).1, 0, false);
  }

  lemma {:induction false} StepDecides(args: Args, t: Task, b: Files)
    requires Calm(t.env) && Attempts(t) && Ready(args, t, b) && !t.pc.Ended?
    ensures var (answer, c) := Met(args, t, b);
            Ready(args, Resume(args, t, answer), c) && (WillSucceed(args, Resume(args, t, answer), c) <==> WillSucceed(args, t, b))
  {
    match t.pc
    case Clearing => ClearDecides(args, t, b);
    case Sizing => SizeDecides(args, t, b);
    case Checking => CheckDecides(args, t, b);
    case Probing => AskDecides(args, t, b);
    case Asking => AskDecides(args, t, b);
    case Prefix(_, _) => PrefixDecides(args, t, b);
    case Writing(_, _, _) => WriteDecides(args, t, b);
    case Retrying => RetryDecides(args, t, b);
    case _ => RenameDecides(args, t, b);
  }

  lemma {:induction false} AloneDecides(args: Args, env: Env, a: Files, n: nat)
    requires Calm(env)
    ensures var (t, b) := Alone(FileProgram(args), Start(args, env), a, n);
            t.env == env && Ready(args, t, b) && (WillSucceed(args, t, b) <==> UpToDate(args, a) || Answered(args, env, a))
  {
    if n > 0 {
      AloneDecides(args, env, a, n - 1);
      assert Attempts(Start(args, env));
      RanksAlone(args, Start(args, env), a, n - 1);
      var (t, b) := Alone(FileProgram(args), Start(args, env), a, n - 1);
      StepIs(args, t, b);
      if !t.pc.Ended? { StepDecides(args, t, b); }
    }
  }

  /** Where every system call works, a download succeeds exactly when the live
      file is accepted, or the answer to the first request completes the file,
      or a ranged request that was not answered "not found" led to a second one
      whose answer completes it. */
  lemma {:induction false} SucceedsExactly(args: Args, env: Env, a: Files, n: nat)
    requires Calm(env) && n >= 19
    ensures
      var t := Alone(FileProgram(args), Start(args, env), a, n).0;
      t.pc.Ended? && (t.pc.result.Ok? <==> UpToDate(args, a) || Answered(args, env, a))
  {
    AloneIsFile(args, env, a, n);
    AloneDecides(args, env, a, n);
  }

  /** And an accepted live file is not downloaded again: the call ends as
      unchanged, with the file as it was. */
  lemma {:induction false} AcceptedIsKept(args: Args, env: Env, a: Files, n: nat)
    requires Calm(env) && UpToDate(args, a)
    ensures
      var (t, b) := Alone(FileProgram(args), Start(args, env), a, n);
      && t.env == env && UpToDate(args, b) && b[args.Dst()] == a[args.Dst()]
      && (t.pc.Clearing? ==> args.job.stage)
      && (t.pc.Clearing? || t.pc.Sizing? || (t.pc.Checking? && args.verify) || t.pc == Ended(Ok(FileUnchanged)))
      && (n >= 19 ==> t.pc == Ended(Ok(FileUnchanged)))
  {
    if n > 0 {
      AcceptedIsKept(args, env, a, n - 1);
      var (t, b) := Alone(FileProgram(args), Start(args, env), a, n - 1);
      StepIs(args, t, b);
      NamesDiffer(args);
      assert env.fate(t.tick).Works?;
    }
    if n >= 19 { AloneIsFile(args, env, a, n); }
  }
}
