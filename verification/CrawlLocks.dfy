/**
 The server's crawl coordination (server/crawl_loop.go) as interleaved steps of
 any number of goroutines: the reference-counted per-resource lock table, the
 crawl slots with their condition variable, and the set of crawls in flight.

 A step is what the source does in one critical section of lockMu or slotMu,
 one mutex operation, or one broadcast.
 */
module CrawlLocks {

  type LockId = nat

  const DEB_ROOT := "deb-root:"
  const KINDS := {"rpm", "deb", "arch", "apk", "generic"}

  /** What a crawl or an eviction works on; classifyRequest and
      configuredResource build every key as kind, colon, path. */
  datatype Resource = Resource(kind: string, path: string, root: string) {
    predicate Valid() { kind in KINDS }

    function Key(): string { kind + ":" + path }

    /** The keys crawlResource, crawlProtectedRepository and evictStale lock,
        in the order they lock them. */
    function Plan(): seq<string> {
      if kind == "deb" && root != path then [DEB_ROOT + root, Key()] else [Key()]
    }
  }

  datatype Kind = Dispatched | Protected | Eviction

  datatype Phase =
    | WantSlot
    | Asleep
    | Look(at: nat)
    | Queue(at: nat)
    | Work
    | Unlock(at: nat)
    | Drop(at: nat)
    | FreeSlot
    | Wake
    | Clear
    | Done

  /** The two kinds of lock key; a plan takes at most one of each, the
      archive root's first. */
  predicate IsRootKey(key: string) { DEB_ROOT <= key }

  predicate PlanShape(plan: seq<string>, key: string) {
    && 1 <= |plan| <= 2
    && plan[|plan| - 1] == key
    && !IsRootKey(key)
    && (|plan| == 2 ==> IsRootKey(plan[0]))
  }

  datatype Thread = Thread(kind: Kind, res: Resource, key: string, plan: seq<string>, refs: seq<LockId>, phase: Phase) {
    /** How many of its lock objects the thread has acquired and not unlocked. */
    function Held(): nat {
      match phase
      case Look(i) => i
      case Queue(i) => i
      case Work => |plan|
      case Unlock(i) => i + 1
      case Drop(i) => i
      case _ => 0
    }

    predicate Shape() {
      && PlanShape(plan, key)
      && (match phase
          case Look(i) => |refs| == i < |plan|
          case Queue(i) => |refs| == i + 1 <= |plan|
          case Work => |refs| == |plan|
          case Unlock(i) => |refs| == i + 1 <= |plan|
          case Drop(i) => |refs| == i + 1 <= |plan|
          case _ => refs == [])
      && (kind.Eviction? ==> phase.Look? || phase.Queue? || phase.Work? || phase.Unlock? || phase.Drop? || phase.Done?)
      && (phase.Clear? ==> kind.Dispatched?)
    }

    predicate HasSlot() {
      !kind.Eviction? &&
      (phase.Look? || phase.Queue? || phase.Work? || phase.Unlock? || phase.Drop? || phase.FreeSlot?)
    }

    predicate InFlight() { kind.Dispatched? && !phase.Done? }
  }

  datatype State = State(
    table: map<string, LockId>,
    refs: map<LockId, nat>,
    owner: map<LockId, nat>,
    slots: int,
    limit: int,
    peak: int,
    inflight: set<string>,
    threads: seq<Thread>)

  datatype Action =
    | TrySlot(cancelled: bool)
    | LookUp(created: LockId)
    | Grant
    | EndWork
    | UnlockMutex
    | DropRef
    | ReleaseSlot
    | Broadcast
    | ClearInFlight

  datatype Step =
    | New(kind: Kind, res: Resource)
    | Reload(newLimit: int)
    | Act(t: nat, action: Action)

  function Init(limit: int): State {
    State(map[], map[], map[], 0, limit, limit, {}, [])
  }

  predicate CanAct(s: State, th: Thread, action: Action) {
    match action
    case TrySlot(cancelled) => th.phase.WantSlot? && (cancelled ==> th.kind.Dispatched?)
    case LookUp(created) => th.phase.Look? && created !in s.refs
    case Grant => th.phase.Queue? && th.phase.at < |th.refs| && th.refs[th.phase.at] !in s.owner
    case EndWork => th.phase.Work?
    case UnlockMutex => th.phase.Unlock?
    case DropRef => th.phase.Drop?
    case ReleaseSlot => th.phase.FreeSlot?
    case Broadcast => th.phase.Wake?
    case ClearInFlight => th.phase.Clear?
  }

  predicate Enabled(s: State, step: Step) {
    match step
    case New(_, res) => res.Valid()
    case Reload(newLimit) => newLimit > 0
    case Act(t, action) => t < |s.threads| && CanAct(s, s.threads[t], action)
  }

  function Woken(ts: seq<Thread>): (r: seq<Thread>)
    ensures |r| == |ts|
    ensures forall i | 0 <= i < |ts| :: r[i] == if ts[i].phase.Asleep? then ts[i].(phase := WantSlot) else ts[i]
  {
    seq(|ts|, i requires 0 <= i < |ts| => if ts[i].phase.Asleep? then ts[i].(phase := WantSlot) else ts[i])
  }

  function Apply(s: State, step: Step): State
    requires Enabled(s, step) && Shapes(s)
  {
    match step
    case New(kind, res) =>
      if kind.Dispatched? && res.Key() in s.inflight then s
      else
        s.(threads := s.threads + [Thread(kind, res, res.Key(), res.Plan(), [], if kind.Eviction? then Look(0) else WantSlot)],
           inflight := if kind.Dispatched? then s.inflight + {res.Key()} else s.inflight)
    case Reload(newLimit) => s.(limit := newLimit, peak := if newLimit > s.peak then newLimit else s.peak)
    case Act(t, action) => Effect(s, t, s.threads[t], action)
  }

  /** The acting goroutine after its step. */
  function Next(s: State, th: Thread, action: Action): Thread
    requires th.Shape() && CanAct(s, th, action)
  {
    match action
    case TrySlot(cancelled) =>
      th.(phase := if s.slots >= s.limit then Asleep else if cancelled then FreeSlot else Look(0))
    case LookUp(created) =>
      var key := th.plan[th.phase.at];
      th.(refs := th.refs + [if key in s.table then s.table[key] else created], phase := Queue(th.phase.at))
    case Grant => th.(phase := if th.phase.at + 1 < |th.plan| then Look(th.phase.at + 1) else Work)
    case EndWork => th.(phase := Unlock(|th.plan| - 1))
    case UnlockMutex => th.(phase := Drop(th.phase.at))
    case DropRef =>
      var i := th.phase.at;
      th.(refs := th.refs[..i], phase := if i > 0 then Unlock(i - 1) else if th.kind.Eviction? then Done else FreeSlot)
    case ReleaseSlot => th.(phase := Wake)
    case Broadcast => th.(phase := if th.kind.Dispatched? then Clear else Done)
    case ClearInFlight => th.(phase := Done)
  }

  function Effect(s: State, t: nat, th: Thread, action: Action): State
    requires t < |s.threads| && th == s.threads[t] && th.Shape() && CanAct(s, th, action)
  {
    var th' := Next(s, th, action);
    var s' := s.(threads := if action.Broadcast? then Woken(s.threads[t := th']) else s.threads[t := th']);
    match action
    case TrySlot(_) => if s.slots >= s.limit then s' else s'.(slots := s.slots + 1)
    case LookUp(_) =>
      var l := th'.refs[th.phase.at];
      s'.(table := s.table[th.plan[th.phase.at] := l],
          refs := s.refs[l := (if l in s.refs then s.refs[l] else 0) + 1])
    case Grant => s'.(owner := s.owner[th.refs[th.phase.at] := t])
    case UnlockMutex => s'.(owner := s.owner - {th.refs[th.phase.at]})
    case DropRef =>
      var l := th.refs[th.phase.at];
      var count := if l in s.refs && s.refs[l] > 0 then s.refs[l] - 1 else 0;
      s'.(refs := s.refs[l := count],
          table := if count == 0 then s.table - {th.plan[th.phase.at]} else s.table)
    case ReleaseSlot => s'.(slots := s.slots - 1)
    case ClearInFlight => s'.(inflight := s.inflight - {th.key})
    case _ => s'
  }

  // ---------- Counting threads ----------

  datatype Query = References(l: LockId) | Slots | Crawls(key: string)

  predicate Counts(q: Query, th: Thread) {
    match q
    case References(l) => l in th.refs
    case Slots => th.HasSlot()
    case Crawls(key) => th.InFlight() && th.key == key
  }

  function One(q: Query, th: Thread): nat { if Counts(q, th) then 1 else 0 }

  function Count(q: Query, ts: seq<Thread>): nat {
    if ts == [] then 0 else Count(q, ts[..|ts| - 1]) + One(q, ts[|ts| - 1])
  }

  lemma {:induction false} CountUpdate(q: Query, ts: seq<Thread>, t: nat, th: Thread)
    requires t < |ts|
    ensures Count(q, ts[t := th]) == Count(q, ts) - One(q, ts[t]) + One(q, th)
    ensures Count(q, ts) >= One(q, ts[t])
    decreases |ts|
  {
    var last := |ts| - 1;
    if t == last {
      assert ts[t := th][..last] == ts[..last];
    } else {
      assert ts[t := th][..last] == ts[..last][t := th];
      CountUpdate(q, ts[..last], t, th);
    }
  }

  lemma {:induction false} CountSame(q: Query, ts: seq<Thread>, us: seq<Thread>)
    requires |ts| == |us| && forall i | 0 <= i < |ts| :: Counts(q, ts[i]) == Counts(q, us[i])
    ensures Count(q, ts) == Count(q, us)
    decreases |ts|
  {
    if ts != [] { CountSame(q, ts[..|ts| - 1], us[..|us| - 1]); }
  }

  lemma {:induction false} CountAppend(q: Query, ts: seq<Thread>, th: Thread)
    ensures Count(q, ts + [th]) == Count(q, ts) + One(q, th)
  {
    assert (ts + [th])[..|ts|] == ts;
  }

  lemma {:induction false} CountNone(q: Query, ts: seq<Thread>)
    requires forall i | 0 <= i < |ts| :: !Counts(q, ts[i])
    ensures Count(q, ts) == 0
    decreases |ts|
  {
    if ts != [] { CountNone(q, ts[..|ts| - 1]); }
  }

  lemma {:induction false} CountTwo(q: Query, ts: seq<Thread>, i: nat, j: nat)
    requires i < j < |ts| && Counts(q, ts[i]) && Counts(q, ts[j])
    ensures Count(q, ts) >= 2
    decreases |ts|
  {
    var last := |ts| - 1;
    if j == last {
      CountUpdate(q, ts[..last], i, ts[i]);
    } else {
      CountTwo(q, ts[..last], i, j);
    }
  }

  // ---------- The inductive invariant ----------

  predicate Shapes(s: State) {
    forall i | 0 <= i < |s.threads| :: s.threads[i].Shape()
  }

  /** Every object the thread references is the one the table has, now, for
      the key it was looked up under. */
  ghost predicate Binds(table: map<string, LockId>, th: Thread) {
    |th.refs| <= |th.plan| &&
    forall j | 0 <= j < |th.refs| :: th.plan[j] in table && table[th.plan[j]] == th.refs[j]
  }

  /** The table has an object exactly for the keys somebody references, and
      the objects of different keys differ. */
  ghost predicate Entries(s: State) {
    && (forall i | 0 <= i < |s.threads| :: Binds(s.table, s.threads[i]))
    && (forall k | k in s.table :: s.table[k] in s.refs && s.refs[s.table[k]] > 0)
    && (forall k, k' | k in s.table && k' in s.table && s.table[k] == s.table[k'] :: k == k')
  }

  ghost predicate RefCounts(s: State) {
    forall l | l in s.refs :: s.refs[l] == Count(References(l), s.threads)
  }

  ghost predicate Table(s: State) {
    Entries(s) && RefCounts(s)
  }

  ghost predicate Owners(s: State) {
    && (forall l | l in s.owner ::
          s.owner[l] < |s.threads| && HoldsObject(s.threads[s.owner[l]], l))
    && (forall i, l | 0 <= i < |s.threads| && HoldsObject(s.threads[i], l) :: l in s.owner && s.owner[l] == i)
  }

  ghost predicate SlotsCounted(s: State) {
    0 < s.limit <= s.peak && s.slots == Count(Slots, s.threads) && s.slots <= s.peak
  }

  /** A sleeper is always about to be woken: either a slot is still in use, or
      its last user has yet to broadcast. */
  ghost predicate SleepersSafe(s: State) {
    (exists i | 0 <= i < |s.threads| :: s.threads[i].phase.Asleep?) ==>
      s.slots > 0 || exists i | 0 <= i < |s.threads| :: s.threads[i].phase.Wake?
  }

  ghost predicate SlotsRight(s: State) {
    SlotsCounted(s) && SleepersSafe(s)
  }

  ghost predicate Flights(s: State) {
    forall k :: Count(Crawls(k), s.threads) == if k in s.inflight then 1 else 0
  }

  ghost predicate Inv(s: State) {
    Shapes(s) && Table(s) && Owners(s) && SlotsRight(s) && Flights(s)
  }

  /** A resource key never begins like an archive-root key, so the two locks
      of a plan are different and every plan takes them in the same order. */
  lemma {:induction false} PlanOrder(res: Resource)
    requires res.Valid()
    ensures PlanShape(res.Plan(), res.Key())
  {
    assert res.Key()[3] != '-' == DEB_ROOT[3];
  }

  lemma {:induction false} DistinctRefs(s: State, i: nat, j: nat, k: nat)
    requires Shapes(s) && Table(s)
    requires i < |s.threads| && j < k < |s.threads[i].plan| && j < |s.threads[i].refs|
    ensures s.threads[i].plan[j] != s.threads[i].plan[k]
    ensures k < |s.threads[i].refs| ==> s.threads[i].refs[j] != s.threads[i].refs[k]
    ensures s.threads[i].plan[k] in s.table ==> s.threads[i].refs[j] != s.table[s.threads[i].plan[k]]
  {
    var th := s.threads[i];
    assert th.Shape() && Binds(s.table, th);
  }

  /** An object nobody has counted is referenced by nobody. */
  lemma {:induction false} Unreferenced(s: State, l: LockId)
    requires Table(s) && l !in s.refs
    ensures Count(References(l), s.threads) == 0
  {
    forall i | 0 <= i < |s.threads| ensures !Counts(References(l), s.threads[i]) {
      assert Binds(s.table, s.threads[i]);
    }
    CountNone(References(l), s.threads);
  }

  lemma {:induction false} Referenced(s: State, w: nat, l: LockId)
    requires w < |s.threads| && l in s.threads[w].refs
    ensures Count(References(l), s.threads) > 0
  {
    CountUpdate(References(l), s.threads, w, s.threads[w]);
  }

  lemma {:induction false} LookUpCounts(s: State, t: nat, created: LockId)
    requires Shapes(s) && Table(s) && t < |s.threads| && CanAct(s, s.threads[t], LookUp(created))
    ensures RefCounts(Effect(s, t, s.threads[t], LookUp(created)))
  {
    var th := s.threads[t];
    var s' := Effect(s, t, th, LookUp(created));
    var i := th.phase.at;
    var l := s'.threads[t].refs[i];
    assert Binds(s.table, th);
    forall j | 0 <= j < i ensures th.refs[j] != l {
      DistinctRefs(s, t, j, i);
    }
    if th.plan[i] !in s.table { Unreferenced(s, created); }
    forall x | x in s'.refs ensures s'.refs[x] == Count(References(x), s'.threads) {
      CountEffect(References(x), s, t, LookUp(created));
      assert x in s'.threads[t].refs <==> x == l || x in th.refs;
    }
  }

  lemma {:induction false} LookUpEntries(s: State, t: nat, created: LockId)
    requires Shapes(s) && Table(s) && t < |s.threads| && CanAct(s, s.threads[t], LookUp(created))
    ensures Entries(Effect(s, t, s.threads[t], LookUp(created)))
  {
    var th := s.threads[t];
    var key := th.plan[th.phase.at];
    assert th.Shape() && Binds(s.table, th);
    EntriesMore(s, Effect(s, t, th, LookUp(created)), t, key, if key in s.table then s.table[key] else created);
  }

  /** A thread takes one more reference: to the object of its next key, or to
      one nobody has. */
  lemma {:induction false} EntriesMore(s: State, s': State, t: nat, key: string, l: LockId)
    requires Entries(s) && t < |s.threads| == |s'.threads| && if key in s.table then l == s.table[key] else l !in s.refs
    requires s'.table == s.table[key := l] && l in s'.refs && s'.refs[l] > 0
    requires forall x | x in s.refs && x != l :: x in s'.refs && s'.refs[x] == s.refs[x]
    requires forall i | 0 <= i < |s.threads| && i != t :: s'.threads[i] == s.threads[i]
    requires s'.threads[t].refs == s.threads[t].refs + [l] && s'.threads[t].plan == s.threads[t].plan
    requires |s.threads[t].refs| < |s.threads[t].plan| && s.threads[t].plan[|s.threads[t].refs|] == key
    ensures Entries(s')
  {
    forall w | 0 <= w < |s'.threads| ensures Binds(s'.table, s'.threads[w]) {
      assert Binds(s.table, s.threads[w]);
    }
  }

  lemma {:induction false} DropCounts(s: State, t: nat)
    requires Shapes(s) && Table(s) && t < |s.threads| && CanAct(s, s.threads[t], DropRef)
    ensures RefCounts(Effect(s, t, s.threads[t], DropRef))
  {
    var th := s.threads[t];
    var l := th.refs[th.phase.at];
    assert th.Shape() && Binds(s.table, th);
    Referenced(s, t, l);
    forall x | x in s.refs ensures Count(References(x), Effect(s, t, th, DropRef).threads) == s.refs[x] - if x == l then 1 else 0 {
      DropsOne(s, t, x);
    }
  }

  lemma {:induction false} DropsOne(s: State, t: nat, x: LockId)
    requires Shapes(s) && Table(s) && t < |s.threads| && CanAct(s, s.threads[t], DropRef)
    ensures
      var th := s.threads[t];
      && th.Shape()
      && Count(References(x), Effect(s, t, th, DropRef).threads) ==
         Count(References(x), s.threads) - if x == th.refs[th.phase.at] then 1 else 0
  {
    var th := s.threads[t];
    var i := th.phase.at;
    assert th.Shape();
    forall j | 0 <= j < i ensures th.refs[j] != th.refs[i] {
      DistinctRefs(s, t, j, i);
    }
    assert th.refs == Next(s, th, DropRef).refs + [th.refs[i]];
    CountEffect(References(x), s, t, DropRef);
  }

  lemma {:induction false} DropEntries(s: State, t: nat)
    requires Shapes(s) && Table(s) && t < |s.threads| && CanAct(s, s.threads[t], DropRef)
    requires RefCounts(Effect(s, t, s.threads[t], DropRef))
    ensures Entries(Effect(s, t, s.threads[t], DropRef))
  {
    var th := s.threads[t];
    var s' := Effect(s, t, th, DropRef);
    var l, key := th.refs[th.phase.at], th.plan[th.phase.at];
    assert th.Shape() && Binds(s.table, th);
    assert key in s.table && s.table[key] == l;
    forall w | 0 <= w < |s'.threads| ensures Binds(s'.table, s'.threads[w]) {
      assert Binds(s.table, s.threads[w]);
      if l in s'.threads[w].refs {
        Referenced(s', w, l);
      } else {
        BindsLess(s.table, key, if w == t then th.(refs := th.refs[..th.phase.at]) else s.threads[w]);
      }
    }
  }

  /** A key may leave the table when its object is not referenced. */
  lemma {:induction false} BindsLess(table: map<string, LockId>, key: string, th: Thread)
    requires Binds(table, th) && key in table && table[key] !in th.refs
    ensures Binds(table - {key}, th)
  {
  }

  /** Steps that leave every thread's references alone keep the table right. */
  lemma {:induction false} TableFrame(s: State, s': State)
    requires Table(s)
    requires s'.table == s.table && s'.refs == s.refs && |s'.threads| == |s.threads|
    requires forall i | 0 <= i < |s.threads| :: s'.threads[i].refs == s.threads[i].refs && s'.threads[i].plan == s.threads[i].plan
    ensures Table(s')
  {
    forall i | 0 <= i < |s'.threads| ensures Binds(s'.table, s'.threads[i]) {
      assert Binds(s.table, s.threads[i]);
    }
    forall l | l in s'.refs ensures s'.refs[l] == Count(References(l), s'.threads) {
      CountSame(References(l), s.threads, s'.threads);
    }
  }

  lemma {:induction false} TableAct(s: State, t: nat, action: Action)
    requires Shapes(s) && Table(s) && t < |s.threads| && CanAct(s, s.threads[t], action)
    ensures Table(Effect(s, t, s.threads[t], action))
  {
    match action
    case LookUp(created) => LookUpCounts(s, t, created); LookUpEntries(s, t, created);
    case DropRef => DropCounts(s, t); DropEntries(s, t);
    case _ => ReferencesKept(s, t, action); TableFrame(s, Effect(s, t, s.threads[t], action));
  }

  /** Only looking a lock up and dropping it change references. */
  lemma {:induction false} ReferencesKept(s: State, t: nat, action: Action)
    requires t < |s.threads| && s.threads[t].Shape() && CanAct(s, s.threads[t], action) && !action.LookUp? && !action.DropRef?
    ensures
      var s' := Effect(s, t, s.threads[t], action);
      && s'.table == s.table && s'.refs == s.refs && |s'.threads| == |s.threads|
      && forall i | 0 <= i < |s.threads| :: s'.threads[i].refs == s.threads[i].refs && s'.threads[i].plan == s.threads[i].plan
  {
  }

  lemma {:induction false} TableStep(s: State, step: Step)
    requires Shapes(s) && Table(s) && Enabled(s, step)
    ensures Table(Apply(s, step))
  {
    match step
    case New(kind, res) =>
    case Reload(_) =>
    case Act(t, action) => TableAct(s, t, action);
  }

  lemma {:induction false} NextShape(s: State, th: Thread, action: Action)
    requires th.Shape() && CanAct(s, th, action)
    ensures Next(s, th, action).Shape()
  {
  }

  lemma {:induction false} ShapesAct(s: State, t: nat, action: Action)
    requires Shapes(s) && t < |s.threads| && CanAct(s, s.threads[t], action)
    ensures Shapes(Effect(s, t, s.threads[t], action))
  {
    NextShape(s, s.threads[t], action);
    var s' := Effect(s, t, s.threads[t], action);
    forall i | 0 <= i < |s'.threads| ensures s'.threads[i].Shape() {
      assert s.threads[i].Shape();
    }
  }

  lemma {:induction false} ShapesStep(s: State, step: Step)
    requires Shapes(s) && Enabled(s, step)
    ensures Shapes(Apply(s, step))
  {
    match step
    case New(_, res) => PlanOrder(res);
    case Reload(_) =>
    case Act(t, action) => ShapesAct(s, t, action);
  }

  /** One acting thread is all that a step changes in any count. */
  lemma {:induction false} CountEffect(q: Query, s: State, t: nat, action: Action)
    requires t < |s.threads| && s.threads[t].Shape() && CanAct(s, s.threads[t], action)
    ensures
      Count(q, Effect(s, t, s.threads[t], action).threads) ==
      Count(q, s.threads) - One(q, s.threads[t]) + One(q, Next(s, s.threads[t], action))
  {
    var th' := Next(s, s.threads[t], action);
    CountUpdate(q, s.threads, t, th');
    if action.Broadcast? {
      CountSame(q, s.threads[t := th'], Woken(s.threads[t := th']));
    }
  }

  ghost predicate HoldsObject(th: Thread, l: LockId) {
    exists j :: 0 <= j < th.Held() && j < |th.refs| && th.refs[j] == l
  }

  lemma {:induction false} OwnersFrame(s: State, s': State)
    requires Owners(s) && s'.owner == s.owner && |s'.threads| >= |s.threads|
    requires forall i | 0 <= i < |s.threads| :: forall l :: HoldsObject(s'.threads[i], l) <==> HoldsObject(s.threads[i], l)
    requires forall i | |s.threads| <= i < |s'.threads| :: forall l :: !HoldsObject(s'.threads[i], l)
    ensures Owners(s')
  {
  }

  lemma {:induction false} OwnersGrant(s: State, t: nat)
    requires Owners(s) && t < |s.threads| && s.threads[t].Shape() && CanAct(s, s.threads[t], Grant)
    ensures Owners(Effect(s, t, s.threads[t], Grant))
  {
    var th, th' := s.threads[t], Next(s, s.threads[t], Grant);
    HoldsMore(th, th');
    OwnersMore(s, Effect(s, t, th, Grant), t, th.refs[th.phase.at]);
  }

  /** A thread takes an object that is free. */
  lemma {:induction false} OwnersMore(s: State, s': State, t: nat, l: LockId)
    requires Owners(s) && t < |s.threads| == |s'.threads| && s'.owner == s.owner[l := t] && l !in s.owner
    requires s'.threads == s.threads[t := s'.threads[t]]
    requires forall x :: HoldsObject(s'.threads[t], x) <==> x == l || HoldsObject(s.threads[t], x)
    ensures Owners(s')
  {
    forall x | x in s'.owner ensures s'.owner[x] < |s'.threads| && HoldsObject(s'.threads[s'.owner[x]], x) {
      assert x != l ==> HoldsObject(s.threads[s.owner[x]], x);
    }
    forall i, x | 0 <= i < |s'.threads| && HoldsObject(s'.threads[i], x) ensures x in s'.owner && s'.owner[x] == i {
      assert i != t || x != l ==> HoldsObject(s.threads[i], x);
    }
  }

  /** Taking or giving back the object at the end of what a thread holds. */
  lemma {:induction false} HoldsMore(a: Thread, b: Thread)
    requires a.refs == b.refs && b.Held() == a.Held() + 1 <= |b.refs|
    ensures forall x :: HoldsObject(b, x) <==> x == b.refs[a.Held()] || HoldsObject(a, x)
  {
    forall x ensures HoldsObject(b, x) <==> x == b.refs[a.Held()] || HoldsObject(a, x) {
      if HoldsObject(a, x) {
        var j :| 0 <= j < a.Held() && j < |a.refs| && a.refs[j] == x;
        assert b.refs[j] == x;
      }
    }
  }

  lemma {:induction false} OwnersUnlock(s: State, t: nat)
    requires Owners(s) && t < |s.threads| && s.threads[t].Shape() && CanAct(s, s.threads[t], UnlockMutex)
    requires forall j | 0 <= j < s.threads[t].phase.at :: s.threads[t].refs[j] != s.threads[t].refs[s.threads[t].phase.at]
    ensures Owners(Effect(s, t, s.threads[t], UnlockMutex))
  {
    var th, th' := s.threads[t], Next(s, s.threads[t], UnlockMutex);
    HoldsMore(th', th);
    OwnersLess(s, Effect(s, t, th, UnlockMutex), t, th.refs[th.phase.at]);
  }

  /** A thread gives back one object. */
  lemma {:induction false} OwnersLess(s: State, s': State, t: nat, l: LockId)
    requires Owners(s) && t < |s.threads| == |s'.threads| && s'.owner == s.owner - {l} && HoldsObject(s.threads[t], l)
    requires s'.threads == s.threads[t := s'.threads[t]]
    requires forall x :: HoldsObject(s'.threads[t], x) <==> x != l && HoldsObject(s.threads[t], x)
    ensures Owners(s')
  {
    forall x | x in s'.owner ensures s'.owner[x] < |s'.threads| && HoldsObject(s'.threads[s'.owner[x]], x) {
      assert HoldsObject(s.threads[s.owner[x]], x);
    }
    forall i, x | 0 <= i < |s'.threads| && HoldsObject(s'.threads[i], x) ensures x in s'.owner && s'.owner[x] == i {
      assert HoldsObject(s.threads[i], x) && s.owner[l] == t;
    }
  }

  lemma {:induction false} SameHolds(a: Thread, b: Thread)
    requires a.Held() == b.Held() <= |a.refs| && a.Held() <= |b.refs| && a.refs[..a.Held()] == b.refs[..a.Held()]
    ensures forall l :: HoldsObject(a, l) <==> HoldsObject(b, l)
  {
    forall l ensures HoldsObject(a, l) <==> HoldsObject(b, l) {
      if HoldsObject(a, l) {
        var j :| 0 <= j < a.Held() && j < |a.refs| && a.refs[j] == l;
        assert b.refs[..a.Held()][j] == l;
      }
      if HoldsObject(b, l) {
        var j :| 0 <= j < b.Held() && j < |b.refs| && b.refs[j] == l;
        assert a.refs[..a.Held()][j] == l;
      }
    }
  }

  lemma {:induction false} HeldKept(s: State, th: Thread, action: Action)
    requires th.Shape() && CanAct(s, th, action) && !action.Grant? && !action.UnlockMutex?
    ensures forall l :: HoldsObject(Next(s, th, action), l) <==> HoldsObject(th, l)
  {
    SameHolds(th, Next(s, th, action));
  }

  lemma {:induction false} OwnersKept(s: State, t: nat, action: Action)
    requires Owners(s) && t < |s.threads| && s.threads[t].Shape() && CanAct(s, s.threads[t], action)
    requires !action.Grant? && !action.UnlockMutex?
    ensures Owners(Effect(s, t, s.threads[t], action))
  {
    var s', th := Effect(s, t, s.threads[t], action), s.threads[t];
    HeldKept(s, th, action);
    forall i, l | 0 <= i < |s.threads| ensures HoldsObject(s'.threads[i], l) <==> HoldsObject(s.threads[i], l) {
      var before := s.threads[t := Next(s, th, action)][i];
      assert HoldsObject(before, l) <==> HoldsObject(s.threads[i], l);
      assert s'.threads[i] == before || (before.phase.Asleep? && s'.threads[i] == before.(phase := WantSlot));
    }
    OwnersFrame(s, s');
  }

  lemma {:induction false} OwnersAct(s: State, t: nat, action: Action)
    requires Shapes(s) && Table(s) && Owners(s) && t < |s.threads| && CanAct(s, s.threads[t], action)
    ensures Owners(Effect(s, t, s.threads[t], action))
  {
    match action
    case Grant => OwnersGrant(s, t);
    case UnlockMutex =>
      var th := s.threads[t];
      forall j | 0 <= j < th.phase.at ensures th.refs[j] != th.refs[th.phase.at] {
        DistinctRefs(s, t, j, th.phase.at);
      }
      OwnersUnlock(s, t);
    case _ => OwnersKept(s, t, action);
  }

  lemma {:induction false} OwnersStep(s: State, step: Step)
    requires Shapes(s) && Table(s) && Owners(s) && Enabled(s, step)
    ensures Owners(Apply(s, step))
  {
    match step
    case New(_, _) => OwnersFrame(s, Apply(s, step));
    case Reload(_) => OwnersFrame(s, Apply(s, step));
    case Act(t, action) => OwnersAct(s, t, action);
  }

  lemma {:induction false} SlotsAct(s: State, t: nat, action: Action)
    requires SlotsRight(s) && t < |s.threads| && s.threads[t].Shape() && CanAct(s, s.threads[t], action)
    ensures SlotsRight(Effect(s, t, s.threads[t], action))
  {
    SlotsActCounted(s, t, action);
    SleepersAct(s, t, action);
  }

  lemma {:induction false} SlotsActCounted(s: State, t: nat, action: Action)
    requires SlotsCounted(s) && t < |s.threads| && s.threads[t].Shape() && CanAct(s, s.threads[t], action)
    ensures SlotsCounted(Effect(s, t, s.threads[t], action))
  {
    CountEffect(Slots, s, t, action);
  }

  lemma {:induction false} SleepersAct(s: State, t: nat, action: Action)
    requires SlotsRight(s) && t < |s.threads| && s.threads[t].Shape() && CanAct(s, s.threads[t], action)
    ensures SleepersSafe(Effect(s, t, s.threads[t], action))
  {
    var s' := Effect(s, t, s.threads[t], action);
    if action.Broadcast? {
      assert forall i | 0 <= i < |s'.threads| :: !s'.threads[i].phase.Asleep?;
    } else {
      if action.ReleaseSlot? {
        assert s'.threads[t].phase.Wake?;
      }
      WakeupKept(s, s');
    }
  }

  lemma {:induction false} SlotsStep(s: State, step: Step)
    requires Shapes(s) && SlotsRight(s) && Enabled(s, step)
    ensures SlotsRight(Apply(s, step))
  {
    if step.Act? { assert s.threads[step.t].Shape(); }
    match step
    case New(kind, res) => SlotsNew(s, kind, res);
    case Reload(_) =>
    case Act(t, action) => SlotsAct(s, t, action);
  }

  lemma {:induction false} SlotsNew(s: State, kind: Kind, res: Resource)
    requires Shapes(s) && SlotsRight(s) && Enabled(s, New(kind, res))
    ensures SlotsRight(Apply(s, New(kind, res)))
  {
    CountAppend(Slots, s.threads, Thread(kind, res, res.Key(), res.Plan(), [], if kind.Eviction? then Look(0) else WantSlot));
    WakeupKept(s, Apply(s, New(kind, res)));
  }

  /** No step loses the wakeup of a sleeper: it frees no slot, or somebody is
      about to broadcast. */
  lemma {:induction false} WakeupKept(s: State, s': State)
    requires SleepersSafe(s) && |s.threads| <= |s'.threads|
    requires forall i | 0 <= i < |s.threads| && s.threads[i].phase.Wake? :: s'.threads[i].phase.Wake?
    requires
      || (s'.slots >= s.slots && forall i | 0 <= i < |s'.threads| && s'.threads[i].phase.Asleep? ::
            i < |s.threads| && (s.threads[i].phase.Asleep? || s.slots > 0))
      || (exists i :: 0 <= i < |s'.threads| && s'.threads[i].phase.Wake?)
    ensures SleepersSafe(s')
  {
  }

  lemma {:induction false} FlightsAct(s: State, t: nat, action: Action, k: string)
    requires Flights(s) && t < |s.threads| && s.threads[t].Shape() && CanAct(s, s.threads[t], action)
    ensures
      var s' := Effect(s, t, s.threads[t], action);
      Count(Crawls(k), s'.threads) == if k in s'.inflight then 1 else 0
  {
    CountEffect(Crawls(k), s, t, action);
    CountUpdate(Crawls(k), s.threads, t, s.threads[t]);
  }

  lemma {:induction false} FlightsNew(s: State, kind: Kind, res: Resource, k: string)
    requires Shapes(s) && Flights(s) && Enabled(s, New(kind, res))
    ensures
      var s' := Apply(s, New(kind, res));
      Count(Crawls(k), s'.threads) == if k in s'.inflight then 1 else 0
  {
    CountAppend(Crawls(k), s.threads, Thread(kind, res, res.Key(), res.Plan(), [], if kind.Eviction? then Look(0) else WantSlot));
  }

  lemma {:induction false} FlightsStep(s: State, step: Step)
    requires Shapes(s) && Flights(s) && Enabled(s, step)
    ensures Flights(Apply(s, step))
  {
    if step.Act? { assert s.threads[step.t].Shape(); }
    forall k ensures Count(Crawls(k), Apply(s, step).threads) == if k in Apply(s, step).inflight then 1 else 0 {
      match step
      case New(kind, res) => FlightsNew(s, kind, res, k);
      case Reload(_) =>
      case Act(t, action) => FlightsAct(s, t, action, k);
    }
  }

  lemma {:induction false} InvStep(s: State, step: Step)
    requires Inv(s) && Enabled(s, step)
    ensures Inv(Apply(s, step))
  {
    ShapesStep(s, step);
    TableStep(s, step);
    OwnersStep(s, step);
    SlotsStep(s, step);
    FlightsStep(s, step);
  }

  ghost predicate Runs(s0: State, steps: seq<Step>, s: State)
    decreases |steps|
  {
    if steps == [] then s == s0
    else
      exists mid ::
        Runs(s0, steps[..|steps| - 1], mid) && Shapes(mid) && Enabled(mid, steps[|steps| - 1]) &&
        s == Apply(mid, steps[|steps| - 1])
  }

  lemma {:induction false} LastStep(s: State, steps: seq<Step>, s': State) returns (mid: State)
    requires steps != [] && Runs(s, steps, s')
    ensures Runs(s, steps[..|steps| - 1], mid) && Shapes(mid) && Enabled(mid, steps[|steps| - 1]) && s' == Apply(mid, steps[|steps| - 1])
  {
    mid :| Runs(s, steps[..|steps| - 1], mid) && Shapes(mid) && Enabled(mid, steps[|steps| - 1]) && s' == Apply(mid, steps[|steps| - 1]);
  }

  /** States reached from an idle server whose configured limit is positive,
      as the configuration's validation demands. */
  ghost predicate Reachable(s: State) {
    exists limit, steps :: limit > 0 && Runs(Init(limit), steps, s)
  }

  lemma {:induction false} RunsInv(s0: State, steps: seq<Step>, s: State)
    requires Inv(s0) && Runs(s0, steps, s)
    ensures Inv(s)
    decreases |steps|
  {
    if steps != [] {
      var last := |steps| - 1;
      var mid :| Runs(s0, steps[..last], mid) && Shapes(mid) && Enabled(mid, steps[last]) && s == Apply(mid, steps[last]);
      RunsInv(s0, steps[..last], mid);
      InvStep(mid, steps[last]);
    }
  }

  lemma {:induction false} ReachableInv(s: State)
    requires Reachable(s)
    ensures Inv(s)
  {
    var limit, steps :| limit > 0 && Runs(Init(limit), steps, s);
    RunsInv(Init(limit), steps, s);
  }

  // ---------- What the protocol guarantees ----------

  /** Thread i is inside the section guarded by the j-th key of its plan. */
  predicate Guards(s: State, i: nat, j: nat) {
    i < |s.threads| && j < s.threads[i].Held() && j < |s.threads[i].refs| && j < |s.threads[i].plan|
  }

  /** Deleting table entries never lets two holders of one key in: holders of
      the same key are the same goroutine, using the object in the table. */
  lemma {:induction false} MutualExclusion(s: State, i: nat, j: nat, i': nat, j': nat)
    requires Reachable(s) && Guards(s, i, j) && Guards(s, i', j')
    requires s.threads[i].plan[j] == s.threads[i'].plan[j']
    ensures i == i' && j == j'
  {
    ReachableInv(s);
    SameHolder(s, i, j, i', j');
    if j < j' { DistinctRefs(s, i, j, j'); } else if j' < j { DistinctRefs(s, i, j', j); }
  }

  lemma {:induction false} SameHolder(s: State, i: nat, j: nat, i': nat, j': nat)
    requires Entries(s) && Owners(s) && Guards(s, i, j) && Guards(s, i', j')
    requires s.threads[i].plan[j] == s.threads[i'].plan[j']
    ensures i == i' && s.threads[i].refs[j] == s.threads[i'].refs[j']
  {
    assert Binds(s.table, s.threads[i]) && Binds(s.table, s.threads[i']);
    assert HoldsObject(s.threads[i], s.threads[i].refs[j]);
    assert HoldsObject(s.threads[i'], s.threads[i'].refs[j']);
    assert s.owner[s.threads[i].refs[j]] == i && s.owner[s.threads[i].refs[j]] == i';
  }

  /** Each goroutine works on what some request asked for, under that resource's
      keys. */
  ghost predicate Asked(steps: seq<Step>, s: State) {
    forall i | 0 <= i < |s.threads| ::
      var th := s.threads[i];
      New(th.kind, th.res) in steps && th.res.Valid() && th.key == th.res.Key() && th.plan == th.res.Plan()
  }

  lemma {:induction false} AskedStep(front: seq<Step>, s: State, step: Step)
    requires Asked(front, s) && Shapes(s) && Enabled(s, step)
    ensures Asked(front + [step], Apply(s, step))
  {
    var s' := Apply(s, step);
    forall i | 0 <= i < |s'.threads|
      ensures
        var th := s'.threads[i];
        New(th.kind, th.res) in front + [step] && th.res.Valid() && th.key == th.res.Key() && th.plan == th.res.Plan()
    {
      if i < |s.threads| {
        IdentityKept(s, step, i);
        assert New(s.threads[i].kind, s.threads[i].res) in front;
      }
    }
  }

  /** What a goroutine was made for never changes. */
  lemma {:induction false} IdentityKept(s: State, step: Step, i: nat)
    requires Shapes(s) && Enabled(s, step) && i < |s.threads|
    ensures i < |Apply(s, step).threads|
    ensures SameIdentity(s.threads[i], Apply(s, step).threads[i])
  {
    if step.Act? { ActKeepsIdentity(s, step.t, step.action, i); }
  }

  predicate SameIdentity(a: Thread, b: Thread) {
    a.kind == b.kind && a.res == b.res && a.key == b.key && a.plan == b.plan
  }

  lemma {:induction false} NextKeepsIdentity(s: State, th: Thread, action: Action)
    requires th.Shape() && CanAct(s, th, action)
    ensures SameIdentity(th, Next(s, th, action))
  {
  }

  lemma {:induction false} ActKeepsIdentity(s: State, t: nat, action: Action, i: nat)
    requires Shapes(s) && t < |s.threads| && i < |s.threads| && CanAct(s, s.threads[t], action)
    ensures s.threads[t].Shape() && |Effect(s, t, s.threads[t], action).threads| == |s.threads|
    ensures SameIdentity(s.threads[i], Effect(s, t, s.threads[t], action).threads[i])
  {
    assert s.threads[t].Shape();
    NextKeepsIdentity(s, s.threads[t], action);
    var moved := s.threads[t := Next(s, s.threads[t], action)];
    assert SameIdentity(s.threads[i], moved[i]);
    assert SameIdentity(moved[i], Effect(s, t, s.threads[t], action).threads[i]);
  }

  lemma {:induction false} RunsAsked(s0: State, steps: seq<Step>, s: State)
    requires s0.threads == [] && Runs(s0, steps, s)
    ensures Asked(steps, s)
    decreases |steps|
  {
    if steps != [] {
      var front, step := steps[..|steps| - 1], steps[|steps| - 1];
      var mid := LastStep(s0, steps, s);
      RunsAsked(s0, front, mid);
      AskedStep(front, mid, step);
      assert steps == front + [step];
    }
  }

  /** Suites of one Debian archive: they share its pool. */
  predicate SharePool(a: Resource, b: Resource) {
    a.kind == "deb" && b.kind == "deb" && a.root != a.path && b.root != b.path && a.root == b.root
  }

  /** Crawls and evictions at work, whichever way they were started, never have
      the same resource, nor suites of one archive. */
  lemma {:induction false} WorkApart(s: State, i: nat, j: nat)
    requires Reachable(s) && i < |s.threads| && j < |s.threads| && s.threads[i].phase.Work? && s.threads[j].phase.Work?
    requires
      var a, b := s.threads[i].res, s.threads[j].res;
      SharePool(a, b) || (a.kind == b.kind && a.path == b.path)
    ensures i == j
  {
    ReachableInv(s);
    var limit, steps :| limit > 0 && Runs(Init(limit), steps, s);
    RunsAsked(Init(limit), steps, s);
    WorkHolds(s, steps, i);
    WorkHolds(s, steps, j);
    var x, y := s.threads[i], s.threads[j];
    if SharePool(x.res, y.res) {
      MutualExclusion(s, i, 0, j, 0);
    } else {
      MutualExclusion(s, i, |x.plan| - 1, j, |y.plan| - 1);
    }
  }

  lemma {:induction false} WorkHolds(s: State, steps: seq<Step>, i: nat)
    requires Shapes(s) && Asked(steps, s) && i < |s.threads| && s.threads[i].phase.Work?
    ensures
      var th := s.threads[i];
      && |th.plan| > 0 && th.plan[|th.plan| - 1] == th.res.kind + ":" + th.res.path
      && (th.res.kind == "deb" && th.res.root != th.res.path ==> th.plan[0] == DEB_ROOT + th.res.root)
      && forall j | 0 <= j < |th.plan| :: Guards(s, i, j)
  {
    assert s.threads[i].Shape();
  }

  /** No request is forgotten: a goroutine of its kind has the resource, another
      request's when a crawl of it was in flight. */
  lemma {:induction false} RequestTaken(s0: State, steps: seq<Step>, s: State, k: nat)
    requires Inv(s0) && s0.threads == [] && Runs(s0, steps, s) && k < |steps| && steps[k].New?
    ensures exists i :: Takes(s, i, steps[k].kind, steps[k].res)
    decreases |steps|
  {
    var front, step := steps[..|steps| - 1], steps[|steps| - 1];
    var mid := LastStep(s0, steps, s);
    RunsInv(s0, front, mid);
    if k < |front| {
      RequestTaken(s0, front, mid, k);
      assert front[k] == steps[k];
      var i :| Takes(mid, i, steps[k].kind, steps[k].res);
      IdentityKept(mid, step, i);
      assert Takes(s, i, steps[k].kind, steps[k].res);
    } else {
      RunsAsked(s0, front, mid);
      TakenNow(front, mid, step.kind, step.res);
    }
  }

  /** Goroutine i is of this kind and has this resource. */
  predicate Takes(s: State, i: nat, kind: Kind, res: Resource) {
    i < |s.threads| && s.threads[i].kind == kind && s.threads[i].res.kind == res.kind && s.threads[i].res.path == res.path
  }

  lemma {:induction false} TakenNow(front: seq<Step>, s: State, kind: Kind, res: Resource)
    requires Asked(front, s) && Shapes(s) && Flights(s) && Enabled(s, New(kind, res))
    ensures exists i :: Takes(Apply(s, New(kind, res)), i, kind, res)
  {
    var s' := Apply(s, New(kind, res));
    if kind.Dispatched? && res.Key() in s.inflight {
      var i := InFlightThread(s, res.Key());
      KeyExact(s.threads[i].res, res);
      assert Takes(s', i, kind, res);
    } else {
      assert Takes(s', |s.threads|, kind, res);
    }
  }

  lemma {:induction false} InFlightThread(s: State, key: string) returns (i: nat)
    requires Flights(s) && key in s.inflight
    ensures i < |s.threads| && s.threads[i].kind.Dispatched? && s.threads[i].key == key
  {
    if forall i | 0 <= i < |s.threads| :: !Counts(Crawls(key), s.threads[i]) {
      CountNone(Crawls(key), s.threads);
      assert false;
    }
    i :| 0 <= i < |s.threads| && Counts(Crawls(key), s.threads[i]);
  }

  /** The kind ends at the first colon of the key. */
  lemma {:induction false} KindEnds(res: Resource)
    requires res.Valid()
    ensures res.Key()[|res.kind|] == ':' && forall i | 0 <= i < |res.kind| :: res.Key()[i] != ':'
    ensures res.Key()[..|res.kind|] == res.kind && res.Key()[|res.kind| + 1..] == res.path
  {
    assert forall i | 0 <= i < |res.kind| :: res.kind[i] != ':';
  }

  /** A key tells kind and path. */
  lemma {:induction false} KeyExact(a: Resource, b: Resource)
    requires a.Valid() && b.Valid() && a.Key() == b.Key()
    ensures a.kind == b.kind && a.path == b.path
  {
    KindEnds(a);
    KindEnds(b);
    assert |a.kind| == |b.kind|;
  }

  /** The limit in force: the last one loaded. */
  function LimitAfter(limit: int, steps: seq<Step>): int {
    if steps == [] then limit
    else if steps[|steps| - 1].Reload? then steps[|steps| - 1].newLimit
    else LimitAfter(limit, steps[..|steps| - 1])
  }

  lemma {:induction false} LimitStep(s: State, step: Step)
    requires Shapes(s) && Enabled(s, step)
    ensures Apply(s, step).limit == if step.Reload? then step.newLimit else s.limit
  {
    if step.Act? { assert s.threads[step.t].Shape(); }
  }

  lemma {:induction false} LimitIsLoaded(limit: int, steps: seq<Step>, s: State)
    requires Runs(Init(limit), steps, s)
    ensures s.limit == LimitAfter(limit, steps)
    decreases |steps|
  {
    if steps != [] {
      var mid := LastStep(Init(limit), steps, s);
      LimitIsLoaded(limit, steps[..|steps| - 1], mid);
      LimitStep(mid, steps[|steps| - 1]);
    }
  }

  /** A goroutine that asks for a slot gets one exactly while fewer goroutines
      have one than the limit last loaded; else it goes to sleep. With it, it
      goes on to its locks, or gives it back when its crawl was cancelled. */
  lemma {:induction false} SlotUnderLimit(limit: int, steps: seq<Step>, s: State, t: nat, cancelled: bool)
    requires limit > 0 && Runs(Init(limit), steps, s) && t < |s.threads| && CanAct(s, s.threads[t], TrySlot(cancelled)) && Shapes(s)
    ensures
      var s' := Apply(s, Act(t, TrySlot(cancelled)));
      if Count(Slots, s.threads) >= LimitAfter(limit, steps) then s'.threads[t].phase.Asleep?
      else s'.threads[t].HasSlot() && if cancelled then s'.threads[t].phase.FreeSlot? else s'.threads[t].phase.Look?
  {
    RunsInv(Init(limit), steps, s);
    LimitIsLoaded(limit, steps, s);
    assert s.threads[t].Shape();
  }

  /** Goroutines past their work did it, but for crawls that were cancelled. */
  ghost predicate WorkDone(steps: seq<Step>, s: State) {
    forall i | 0 <= i < |s.threads| && Past(s.threads[i].phase) ::
      Act(i, EndWork) in steps || (s.threads[i].kind.Dispatched? && Act(i, TrySlot(true)) in steps)
  }

  predicate Past(phase: Phase) {
    phase.Unlock? || phase.Drop? || phase.FreeSlot? || phase.Wake? || phase.Clear? || phase.Done?
  }

  lemma {:induction false} WorkDoneStep(front: seq<Step>, s: State, step: Step)
    requires WorkDone(front, s) && Shapes(s) && Enabled(s, step)
    ensures WorkDone(front + [step], Apply(s, step))
  {
    var s' := Apply(s, step);
    forall i | 0 <= i < |s'.threads| && Past(s'.threads[i].phase)
      ensures Act(i, EndWork) in front + [step] || (s'.threads[i].kind.Dispatched? && Act(i, TrySlot(true)) in front + [step])
    {
      if i < |s.threads| {
        IdentityKept(s, step, i);
        if step.Act? { PastOnlyByWork(s, step.t, step.action, i); }
        assert Past(s.threads[i].phase) ==>
          Act(i, EndWork) in front || (s.threads[i].kind.Dispatched? && Act(i, TrySlot(true)) in front);
        assert step in front + [step];
      }
    }
  }

  lemma {:induction false} PastOnlyByWork(s: State, t: nat, action: Action, i: nat)
    requires Shapes(s) && t < |s.threads| && i < |s.threads| && CanAct(s, s.threads[t], action)
    ensures
      s.threads[t].Shape() &&
      var s' := Effect(s, t, s.threads[t], action);
      |s'.threads| == |s.threads| &&
      (Past(s'.threads[i].phase) ==>
         || Past(s.threads[i].phase)
         || (i == t && (action.EndWork? || (action == TrySlot(true) && s.threads[t].kind.Dispatched?))))
  {
    assert s.threads[t].Shape();
    var moved := s.threads[t := Next(s, s.threads[t], action)];
    assert i != t ==> moved[i] == s.threads[i];
  }

  /** Whoever is done has worked, under the locks, unless its crawl was
      cancelled; evictions and crawls a client waits for always have. */
  lemma {:induction false} DoneHasWorked(limit: int, steps: seq<Step>, s: State)
    requires limit > 0 && Runs(Init(limit), steps, s)
    ensures forall i | 0 <= i < |s.threads| && s.threads[i].phase.Done? ::
              Act(i, EndWork) in steps || (s.threads[i].kind.Dispatched? && Act(i, TrySlot(true)) in steps)
    ensures WorkDone(steps, s)
    decreases |steps|
  {
    if steps != [] {
      var front, step := steps[..|steps| - 1], steps[|steps| - 1];
      var mid := LastStep(Init(limit), steps, s);
      DoneHasWorked(limit, front, mid);
      RunsInv(Init(limit), front, mid);
      WorkDoneStep(front, mid, step);
      assert steps == front + [step];
    }
    forall i | 0 <= i < |s.threads| && s.threads[i].phase.Done?
      ensures Act(i, EndWork) in steps || (s.threads[i].kind.Dispatched? && Act(i, TrySlot(true)) in steps)
    {
      assert Past(s.threads[i].phase);
    }
  }

  /** refs counts exactly the goroutines using an object, and a key has a table
      entry exactly while one does, so all of them use the same object. */
  lemma {:induction false} TableExact(s: State, key: string)
    requires Reachable(s)
    ensures forall l | l in s.refs :: s.refs[l] == Count(References(l), s.threads)
    ensures key in s.table <==>
            exists i, j :: 0 <= i < |s.threads| && 0 <= j < |s.threads[i].refs| && j < |s.threads[i].plan| && s.threads[i].plan[j] == key
    ensures forall i, j | 0 <= i < |s.threads| && 0 <= j < |s.threads[i].refs| && j < |s.threads[i].plan| && s.threads[i].plan[j] == key ::
              key in s.table && s.threads[i].refs[j] == s.table[key]
  {
    ReachableInv(s);
    forall i, j | 0 <= i < |s.threads| && 0 <= j < |s.threads[i].refs| && j < |s.threads[i].plan| && s.threads[i].plan[j] == key
      ensures key in s.table && s.threads[i].refs[j] == s.table[key]
    {
      assert Binds(s.table, s.threads[i]);
    }
    if key in s.table {
      var l := s.table[key];
      if forall i | 0 <= i < |s.threads| :: !Counts(References(l), s.threads[i]) {
        CountNone(References(l), s.threads);
        assert false;
      }
      var i :| 0 <= i < |s.threads| && Counts(References(l), s.threads[i]);
      assert Binds(s.table, s.threads[i]);
      var j :| 0 <= j < |s.threads[i].refs| && s.threads[i].refs[j] == l;
      assert s.threads[i].plan[j] == key;
    }
  }

  /** slotsInUse is the number of slot holders, never above the largest limit
      configured so far, and a key is in flight exactly while one dispatched
      crawl of it has not finished. */
  lemma {:induction false} SlotsAndFlights(s: State, key: string)
    requires Reachable(s)
    ensures s.slots == Count(Slots, s.threads) <= s.peak
    ensures key in s.inflight <==> Count(Crawls(key), s.threads) == 1
    ensures key !in s.inflight <==> Count(Crawls(key), s.threads) == 0
    ensures forall i, j | 0 <= i < j < |s.threads| :: !(Counts(Crawls(key), s.threads[i]) && Counts(Crawls(key), s.threads[j]))
  {
    ReachableInv(s);
    forall i, j | 0 <= i < j < |s.threads| && Counts(Crawls(key), s.threads[i]) && Counts(Crawls(key), s.threads[j]) ensures false {
      CountTwo(Crawls(key), s.threads, i, j);
    }
  }

  /** A crawl asleep for a slot will be woken: some goroutine holds a slot,
      which it has yet to give back, or is about to broadcast. */
  lemma {:induction false} NoLostWakeup(s: State, t: nat)
    requires Reachable(s) && t < |s.threads| && s.threads[t].phase.Asleep?
    ensures exists i | 0 <= i < |s.threads| :: Counts(Slots, s.threads[i]) || s.threads[i].phase.Wake?
  {
    ReachableInv(s);
    if s.slots > 0 && forall i | 0 <= i < |s.threads| :: !Counts(Slots, s.threads[i]) {
      CountNone(Slots, s.threads);
      assert false;
    }
  }

  // ---------- No deadlock ----------

  ghost predicate SomeoneMoves(s: State) {
    exists t, action :: 0 <= t < |s.threads| && CanAct(s, s.threads[t], action)
  }

  lemma {:induction false} UnusedId(refs: set<LockId>) returns (l: LockId)
    ensures forall x | x in refs :: x < l
  {
    if refs == {} {
      l := 0;
    } else {
      var x :| x in refs;
      var m := UnusedId(refs - {x});
      l := if m > x then m else x + 1;
      assert forall y | y in refs :: y == x || y in refs - {x};
    }
  }

  lemma {:induction false} FreeToMove(s: State, t: nat)
    requires t < |s.threads| && s.threads[t].Shape()
    requires !s.threads[t].phase.Asleep? && !s.threads[t].phase.Done?
    requires s.threads[t].phase.Queue? ==> s.threads[t].refs[s.threads[t].phase.at] !in s.owner
    ensures SomeoneMoves(s)
  {
    var l := UnusedId(s.refs.Keys);
    var th := s.threads[t];
    assert l !in s.refs;
    var action := match th.phase
      case WantSlot => TrySlot(false)
      case Look(_) => LookUp(l)
      case Queue(_) => Grant
      case Work => EndWork
      case Unlock(_) => UnlockMutex
      case Drop(_) => DropRef
      case FreeSlot => ReleaseSlot
      case Wake => Broadcast
      case _ => ClearInFlight;
    assert CanAct(s, th, action);
  }

  /** Whoever holds a mutex another goroutine queues for under that key. */
  lemma {:induction false} OwnerOf(s: State, t: nat) returns (o: nat, j: nat)
    requires Shapes(s) && Entries(s) && Owners(s) && t < |s.threads| && s.threads[t].phase.Queue?
    requires s.threads[t].Shape() && s.threads[t].refs[s.threads[t].phase.at] in s.owner
    ensures o < |s.threads| && s.threads[o].Shape()
    ensures j < s.threads[o].Held() && j < |s.threads[o].plan| && j < |s.threads[o].refs|
    ensures s.threads[o].plan[j] == s.threads[t].plan[s.threads[t].phase.at]
  {
    var l := s.threads[t].refs[s.threads[t].phase.at];
    o := s.owner[l];
    j :| 0 <= j < s.threads[o].Held() && j < |s.threads[o].refs| && s.threads[o].refs[j] == l;
    assert Binds(s.table, s.threads[o]) && Binds(s.table, s.threads[t]);
  }

  /** A goroutine that queues for its second lock holds a root lock and waits
      for a resource lock, whose holder waits for no lock. */
  lemma {:induction false} SecondLockMoves(s: State, t: nat)
    requires Shapes(s) && Entries(s) && Owners(s) && t < |s.threads| && s.threads[t].Shape() && s.threads[t].phase == Queue(1)
    ensures SomeoneMoves(s)
  {
    if s.threads[t].refs[1] !in s.owner {
      FreeToMove(s, t);
    } else {
      var o, j := OwnerOf(s, t);
      assert s.threads[o].plan[j] == s.threads[t].key && !s.threads[o].phase.Queue?;
      FreeToMove(s, o);
    }
  }

  lemma {:induction false} QueueMoves(s: State, t: nat)
    requires Shapes(s) && Entries(s) && Owners(s) && t < |s.threads| && s.threads[t].phase.Queue?
    ensures SomeoneMoves(s)
  {
    var th := s.threads[t];
    assert th.Shape();
    if th.refs[th.phase.at] !in s.owner {
      FreeToMove(s, t);
    } else {
      var o, j := OwnerOf(s, t);
      if s.threads[o].phase.Queue? {
        SecondLockMoves(s, o);
      } else {
        FreeToMove(s, o);
      }
    }
  }

  lemma {:induction false} UnfinishedMoves(s: State, t: nat)
    requires Inv(s) && t < |s.threads| && !s.threads[t].phase.Done?
    ensures SomeoneMoves(s)
  {
    var th := s.threads[t];
    assert th.Shape();
    if th.phase.Queue? {
      QueueMoves(s, t);
    } else if !th.phase.Asleep? {
      FreeToMove(s, t);
    } else if s.slots > 0 {
      if forall i | 0 <= i < |s.threads| :: !Counts(Slots, s.threads[i]) {
        CountNone(Slots, s.threads);
        assert false;
      }
      var h :| 0 <= h < |s.threads| && Counts(Slots, s.threads[h]);
      assert s.threads[h].Shape();
      if s.threads[h].phase.Queue? { QueueMoves(s, h); } else { FreeToMove(s, h); }
    } else {
      var w :| 0 <= w < |s.threads| && s.threads[w].phase.Wake?;
      assert s.threads[w].Shape();
      FreeToMove(s, w);
    }
  }

  /** While any crawl or eviction is unfinished, some goroutine can step: the
      order slot, archive root lock, resource lock admits no cycle, and no
      wakeup of a sleeping crawl is lost. */
  lemma {:induction false} NoDeadlock(s: State, t: nat)
    requires Reachable(s) && t < |s.threads| && !s.threads[t].phase.Done?
    ensures SomeoneMoves(s)
  {
    ReachableInv(s);
    UnfinishedMoves(s, t);
  }

  // ---------- Every schedule ends ----------

  function Weight(th: Thread): nat {
    match th.phase
    case WantSlot => 20
    case Asleep => 20
    case Look(i) => if i <= 1 then 16 - 2 * i else 0
    case Queue(i) => if i <= 1 then 15 - 2 * i else 0
    case Work => 12
    case Unlock(i) => 9 + 2 * i
    case Drop(i) => 8 + 2 * i
    case FreeSlot => 7
    case Wake => 6
    case Clear => 5
    case Done => 0
  }

  function Burden(n: nat, th: Thread): nat {
    Weight(th) * (n + 1) + if th.phase.WantSlot? then 1 else 0
  }

  /** A bound on how many steps the goroutines at hand can still take. */
  function Load(n: nat, ts: seq<Thread>): nat {
    if ts == [] then 0 else Load(n, ts[..|ts| - 1]) + Burden(n, ts[|ts| - 1])
  }

  lemma {:induction false} LoadUpdate(n: nat, ts: seq<Thread>, t: nat, th: Thread)
    requires t < |ts|
    ensures Load(n, ts[t := th]) == Load(n, ts) - Burden(n, ts[t]) + Burden(n, th)
    decreases |ts|
  {
    var last := |ts| - 1;
    if t == last {
      assert ts[t := th][..last] == ts[..last];
    } else {
      assert ts[t := th][..last] == ts[..last][t := th];
      LoadUpdate(n, ts[..last], t, th);
    }
  }

  lemma {:induction false} LoadWoken(n: nat, ts: seq<Thread>)
    ensures Load(n, Woken(ts)) <= Load(n, ts) + |ts|
    decreases |ts|
  {
    if ts != [] {
      var last := |ts| - 1;
      assert Woken(ts)[..last] == Woken(ts[..last]);
      LoadWoken(n, ts[..last]);
    }
  }

  lemma {:induction false} WeightDrops(s: State, th: Thread, action: Action)
    requires th.Shape() && CanAct(s, th, action)
    ensures Weight(Next(s, th, action)) < Weight(th) || (th.phase.WantSlot? && Next(s, th, action).phase.Asleep?)
    ensures !Next(s, th, action).phase.WantSlot?
  {
  }

  lemma {:induction false} BurdenDrops(n: nat, a: nat, b: nat)
    requires a < b
    ensures a * (n + 1) + n + 1 <= b * (n + 1)
  {
    var m, d := n + 1, b - a;
    assert b * m == a * m + d * m;
    assert d * m == m + (d - 1) * m && (d - 1) * m >= 0;
  }

  lemma {:induction false} LoadDrops(s: State, t: nat, action: Action)
    requires t < |s.threads| && s.threads[t].Shape() && CanAct(s, s.threads[t], action)
    ensures Load(|s.threads|, Effect(s, t, s.threads[t], action).threads) < Load(|s.threads|, s.threads)
  {
    var n, th, th' := |s.threads|, s.threads[t], Next(s, s.threads[t], action);
    WeightDrops(s, th, action);
    if Weight(th') < Weight(th) { BurdenDrops(n, Weight(th'), Weight(th)); }
    LoadUpdate(n, s.threads, t, th');
    if action.Broadcast? { LoadWoken(n, s.threads[t := th']); }
  }

  lemma {:induction false} ActDrops(s: State, step: Step)
    requires Shapes(s) && step.Act? && Enabled(s, step)
    ensures |Apply(s, step).threads| == |s.threads| && Load(|s.threads|, Apply(s, step).threads) < Load(|s.threads|, s.threads)
  {
    assert s.threads[step.t].Shape();
    LoadDrops(s, step.t, step.action);
  }

  lemma {:induction false} StepsBounded(s: State, steps: seq<Step>, s': State)
    requires Runs(s, steps, s') && forall i | 0 <= i < |steps| :: steps[i].Act?
    ensures |s'.threads| == |s.threads|
    ensures |steps| + Load(|s.threads|, s'.threads) <= Load(|s.threads|, s.threads)
    decreases |steps|
  {
    if steps != [] {
      var init, step := steps[..|steps| - 1], steps[|steps| - 1];
      var mid := LastStep(s, steps, s');
      StepsBounded(s, init, mid);
      ActDrops(mid, step);
    }
  }

  /** From a reachable state and without new requests, goroutines take only a
      bounded number of steps however they are scheduled, and a schedule that
      cannot go on has finished every crawl and eviction. */
  lemma {:induction false} EverySchedule(s: State, steps: seq<Step>, s': State)
    requires Reachable(s) && Runs(s, steps, s')
    requires forall i | 0 <= i < |steps| :: steps[i].Act?
    ensures |steps| <= Load(|s.threads|, s.threads)
    ensures !SomeoneMoves(s') ==> forall t | 0 <= t < |s'.threads| :: s'.threads[t].phase.Done?
  {
    ReachableInv(s);
    StepsBounded(s, steps, s');
    RunsInv(s, steps, s');
    if !SomeoneMoves(s') {
      forall t | 0 <= t < |s'.threads| ensures s'.threads[t].phase.Done? {
        if !s'.threads[t].phase.Done? { UnfinishedMoves(s', t); }
      }
    }
  }
}
