/**
 The server's crawl schedule (server/crawl_loop.go) over the state store
 (state/state.go): tiers by the age of the last request, retry gates, the
 inventory shield and eviction, and what they mean over a whole history.

 Times are seconds; the zero time is None. A pass of the schedule is one step.
 */
module CrawlSchedule {

  import opened Wrappers

  type Time = int

  const GENERIC := "generic"
  const INVENTORY_GRACE := 72 * 60 * 60

  datatype Entry = Entry(
    kind: string, path: string, root: string,
    lastRequested: Option<Time>, lastCrawled: Option<Time>, nextCrawl: Option<Time>,
    lastSeen: Option<Time>, lastError: string)

  const NO_ENTRY := Entry("", "", "", None, None, None, None, "")

  type Entries = map<string, Entry>

  datatype Config = Config(crawlInterval: int, retryInterval: int, backoff: seq<int>)

  // ---------- What happens to the store ----------

  /** The request path is the entry's root or below it. */
  predicate Covers(e: Entry, reqPath: string) {
    && e.kind != GENERIC && e.root != ""
    && (reqPath == e.root || e.root == "/" || e.root + "/" <= reqPath)
  }

  datatype Event =
    | Requested(now: Time, kind: string, key: string, path: string, root: string)
    | Touched(now: Time, reqPath: string)
    | SeenInInventory(now: Time, kind: string, key: string, path: string, root: string)
    | Crawled(now: Time, key: string, err: Option<string>)
    | Deleted(now: Time, key: string)
    | Pass(now: Time, evicted: set<string>)

  function EntryOr(entries: Entries, key: string): Entry {
    if key in entries then entries[key] else NO_ENTRY
  }

  function CrawledEntry(c: Config, e: Entry, now: Time, err: Option<string>): Entry {
    if err.Some? then e.(lastCrawled := Some(now), lastError := err.value, nextCrawl := Some(now + c.retryInterval))
    else e.(lastCrawled := Some(now), lastError := "", nextCrawl := Some(now + c.crawlInterval))
  }

  function Apply(c: Config, entries: Entries, ev: Event): Entries {
    match ev
    case Requested(now, kind, key, path, root) =>
      entries[key := EntryOr(entries, key).(kind := kind, path := path, root := root, lastRequested := Some(now))]
    case Touched(now, reqPath) =>
      map k | k in entries :: if Covers(entries[k], reqPath) then entries[k].(lastRequested := Some(now)) else entries[k]
    case SeenInInventory(now, kind, key, path, root) =>
      entries[key := EntryOr(entries, key).(kind := kind, path := path, root := root, lastSeen := Some(now))]
    case Crawled(now, key, err) =>
      if key in entries then entries[key := CrawledEntry(c, entries[key], now, err)] else entries
    case Deleted(_, key) => entries - {key}
    case Pass(_, evicted) => entries - evicted
  }

  class Store {
    var entries: Entries
    var dirty: bool

    constructor ()
      ensures entries == map[] && !dirty
    {
      entries := map[];
      dirty := false;
    }

    method MarkRequested(c: Config, kind: string, key: string, path: string, root: string, now: Time) returns (e: Entry, tracked: bool)
      modifies this
      ensures entries == Apply(c, old(entries), Requested(now, kind, key, path, root)) && dirty
      ensures e == entries[key] && (tracked <==> key in old(entries))
    {
      tracked := key in entries;
      if !tracked {
        entries := entries[key := NO_ENTRY];
      }
      entries := entries[key := entries[key].(kind := kind, path := path, root := root, lastRequested := Some(now))];
      dirty := true;
      return entries[key], tracked;
    }

    method MarkSeenInInventory(c: Config, kind: string, key: string, path: string, root: string, now: Time)
      modifies this
      ensures entries == Apply(c, old(entries), SeenInInventory(now, kind, key, path, root)) && dirty
    {
      if key !in entries {
        entries := entries[key := NO_ENTRY];
      }
      entries := entries[key := entries[key].(kind := kind, path := path, root := root, lastSeen := Some(now))];
      dirty := true;
    }

    /** An outcome for an entry deleted meanwhile is dropped. */
    method MarkCrawled(c: Config, key: string, now: Time, err: Option<string>)
      modifies this
      ensures entries == Apply(c, old(entries), Crawled(now, key, err))
      ensures dirty <==> old(dirty) || key in old(entries)
    {
      if key !in entries {
        return;
      }
      var e := entries[key].(lastCrawled := Some(now));
      if err.Some? {
        e := e.(lastError := err.value, nextCrawl := Some(now + c.retryInterval));
      } else {
        e := e.(lastError := "", nextCrawl := Some(now + c.crawlInterval));
      }
      entries := entries[key := e];
      dirty := true;
    }

    method Delete(c: Config, key: string, now: Time)
      modifies this
      ensures entries == Apply(c, old(entries), Deleted(now, key))
      ensures dirty <==> old(dirty) || key in old(entries)
    {
      if key in entries {
        entries := entries - {key};
        dirty := true;
      }
    }

    /** Refreshes every repository whose root covers the path, and returns
        exactly those. */
    method TouchRepoMembers(c: Config, reqPath: string, now: Time) returns (matched: Entries)
      modifies this
      ensures entries == Apply(c, old(entries), Touched(now, reqPath))
      ensures matched == map k | k in old(entries) && Covers(old(entries)[k], reqPath) :: entries[k]
      ensures dirty <==> old(dirty) || matched != map[]
    {
      matched := map[];
      var pending := entries.Keys;
      ghost var done: set<string> := {};
      while pending != {}
        invariant done + pending == old(entries).Keys && done !! pending
        invariant entries == Halfway(old(entries), reqPath, now, done)
        invariant matched == Matched(old(entries), reqPath, now, done)
        invariant dirty <==> old(dirty) || matched != map[]
        decreases pending
      {
        var key :| key in pending;
        pending := pending - {key};
        HalfwayNext(old(entries), reqPath, now, done, key);
        done := done + {key};
        var e := entries[key];
        if !Covers(e, reqPath) {
          continue;
        }
        e := e.(lastRequested := Some(now));
        entries := entries[key := e];
        matched := matched[key := e];
        assert key in matched;
        dirty := true;
      }
    }
  }

  function Refreshed(e: Entry, reqPath: string, now: Time): Entry {
    if Covers(e, reqPath) then e.(lastRequested := Some(now)) else e
  }

  function Halfway(entries: Entries, reqPath: string, now: Time, done: set<string>): Entries {
    map k | k in entries :: if k in done then Refreshed(entries[k], reqPath, now) else entries[k]
  }

  function Matched(entries: Entries, reqPath: string, now: Time, done: set<string>): Entries {
    map k | k in entries && k in done && Covers(entries[k], reqPath) :: entries[k].(lastRequested := Some(now))
  }

  lemma {:induction false} HalfwayNext(entries: Entries, reqPath: string, now: Time, done: set<string>, key: string)
    requires key in entries && key !in done
    ensures Halfway(entries, reqPath, now, done)[key] == entries[key]
    ensures Halfway(entries, reqPath, now, done + {key}) == Halfway(entries, reqPath, now, done)[key := Refreshed(entries[key], reqPath, now)]
    ensures Matched(entries, reqPath, now, done + {key}) ==
            if Covers(entries[key], reqPath) then Matched(entries, reqPath, now, done)[key := entries[key].(lastRequested := Some(now))]
            else Matched(entries, reqPath, now, done)
  {
  }

  // ---------- Tiers ----------

  /** The sum of the positive steps. */
  function Budget(schedule: seq<int>): int {
    if schedule == [] then 0
    else
      var last := schedule[|schedule| - 1];
      Budget(schedule[..|schedule| - 1]) + if last > 0 then last else 0
  }

  function Schedule(c: Config): seq<int> { [c.crawlInterval] + c.backoff }

  /** The interval for a resource requested this long ago; None when it is
      stale. */
  function Tier(since: int, schedule: seq<int>): Option<int> {
    if schedule == [] then None
    else
      var earlier, last := Tier(since, schedule[..|schedule| - 1]), schedule[|schedule| - 1];
      if earlier.Some? then earlier
      else if last > 0 && since < Budget(schedule) then Some(last)
      else None
  }

  /** Stale means that the whole budget has passed, when there is one; and the
      tier is the first whose cumulative end lies ahead. */
  lemma {:induction false} TierMeans(since: int, schedule: seq<int>)
    ensures Tier(since, schedule).None? <==> (forall i | 0 <= i < |schedule| :: schedule[i] <= 0) || since >= Budget(schedule)
    ensures Budget(schedule) >= 0 && ((forall i | 0 <= i < |schedule| :: schedule[i] <= 0) ==> Budget(schedule) == 0)
    ensures Tier(since, schedule).Some? ==>
              exists i | 0 <= i < |schedule| ::
                schedule[i] == Tier(since, schedule).value && schedule[i] > 0 &&
                since < Budget(schedule[..i + 1]) && Tier(since, schedule[..i]).None?
  {
    if schedule != [] {
      var front := schedule[..|schedule| - 1];
      TierMeans(since, front);
      assert forall i | 0 <= i < |front| :: front[i] == schedule[i];
      if Tier(since, front).Some? {
        var i :| 0 <= i < |front| && front[i] == Tier(since, front).value && front[i] > 0 &&
          since < Budget(front[..i + 1]) && Tier(since, front[..i]).None?;
        assert front[..i + 1] == schedule[..i + 1] && front[..i] == schedule[..i];
        assert schedule[i] > 0;
      } else {
        assert schedule[..|front| + 1] == schedule && schedule[..|front|] == front;
      }
    }
  }

  lemma {:induction false} TierPrefix(since: int, schedule: seq<int>, n: nat)
    requires n <= |schedule| && Tier(since, schedule[..n]).Some?
    ensures Tier(since, schedule) == Tier(since, schedule[..n])
    decreases |schedule|
  {
    if n < |schedule| {
      assert schedule[..|schedule| - 1][..n] == schedule[..n];
      TierPrefix(since, schedule[..|schedule| - 1], n);
    } else {
      assert schedule[..n] == schedule;
    }
  }

  /** refreshTier */
  method RefreshTier(since: int, schedule: seq<int>) returns (interval: int, stale: bool)
    ensures if stale then Tier(since, schedule).None? && interval == 0 else Tier(since, schedule) == Some(interval)
  {
    var cumulative := 0;
    for i := 0 to |schedule|
      invariant cumulative == Budget(schedule[..i]) && Tier(since, schedule[..i]).None?
    {
      assert schedule[..i + 1][..i] == schedule[..i];
      if schedule[i] <= 0 {
        continue;
      }
      cumulative := cumulative + schedule[i];
      if since < cumulative {
        TierPrefix(since, schedule, i + 1);
        return schedule[i], false;
      }
    }
    assert schedule[..|schedule|] == schedule;
    return 0, true;
  }

  // ---------- One pass ----------

  predicate ActiveInInventory(e: Entry, now: Time) {
    e.lastSeen.Some? && now - e.lastSeen.value < INVENTORY_GRACE
  }

  /** nextCrawlAt: None means at once. */
  function NextCrawlAt(e: Entry, interval: int): Option<Time> {
    if e.lastCrawled.None? then None
    else if e.lastError != "" && e.nextCrawl.Some? then e.nextCrawl
    else
      var gate := e.lastCrawled.value + interval;
      if e.nextCrawl.Some? && e.nextCrawl.value > gate then e.nextCrawl else Some(gate)
  }

  datatype Verdict = Leave | Evict | Dispatch

  /** What a pass does with an entry. */
  function Judge(c: Config, e: Entry, now: Time): Verdict {
    if e.lastRequested.None? then Leave
    else
      var tier := Tier(now - e.lastRequested.value, Schedule(c));
      if tier.None? then if ActiveInInventory(e, now) then Leave else Evict
      else if e.kind == GENERIC then Leave
      else
        var next := NextCrawlAt(e, tier.value);
        if next.Some? && now < next.value then Leave else Dispatch
  }

  function Judged(c: Config, entries: Entries, now: Time, v: Verdict): set<string> {
    set k | k in entries && Judge(c, entries[k], now) == v
  }

  /** Some repository other than generic files owns the path. */
  predicate Owned(entries: Entries, path: string) {
    exists k | k in entries :: entries[k].kind != GENERIC && entries[k].root != "" && Below(path, entries[k].root)
  }

  predicate Below(p: string, base: string) {
    p != base && (base == "/" || base + "/" <= p)
  }

  /** evictStale: nothing happens when the resource was requested after the
      snapshot; a generic entry that a repository owns loses only its
      bookkeeping; the whole tree is never removed; and an entry whose files
      cannot be removed stays. */
  method EvictStale(store: Store, key: string, e: Entry, resolves: string -> bool) returns (removal: Removal)
    modifies store
    ensures
      var current := old(store.entries);
      var raced := key in current && current[key].lastRequested.Some? &&
                   (e.lastRequested.None? || current[key].lastRequested.value > e.lastRequested.value);
      var files := e.path != "/" && e.path != "" && !(e.kind == GENERIC && Owned(current, e.path));
      && store.entries == (if raced || removal.Failed? then current else current - {key})
      && (removal.NotTried? <==> raced || !files || !resolves(e.path))
      && (removal.NotTried? || removal.path == e.path)
    ensures store.dirty <==> old(store.dirty) || store.entries != old(store.entries)
  {
    removal := NotTried;
    if key in store.entries && store.entries[key].lastRequested.Some? &&
       (e.lastRequested.None? || store.entries[key].lastRequested.value > e.lastRequested.value)
    {
      return;
    }
    if !(e.kind == GENERIC && Owned(store.entries, e.path)) && e.path != "/" && e.path != "" && resolves(e.path) {
      removal := RemoveAll(e.path);
      if removal.Failed? {
        return;
      }
    }
    if key in store.entries {
      store.entries := store.entries - {key};
      store.dirty := true;
    }
    assert key !in old(store.entries) ==> old(store.entries) - {key} == old(store.entries);
  }

  /** What became of the files; a path that does not resolve is not tried. */
  datatype Removal = NotTried | Removed(path: string) | Failed(path: string)

  method RemoveAll(path: string) returns (removal: Removal)
    ensures !removal.NotTried? && removal.path == path
  {
    var fails: bool := *;
    removal := if fails then Failed(path) else Removed(path);
  }

  /** What goes with evicted entries: a repository's files, as far as its path
      resolves and is not the whole tree, and nothing that is not an evicted
      entry's. */
  ghost predicate RemovesFor(entries: Entries, evicted: set<string>, removed: set<string>, resolves: string -> bool) {
    && (forall k | k in evicted && k in entries && entries[k].kind != "generic" && entries[k].path != "/" && entries[k].path != "" && resolves(entries[k].path) ::
          entries[k].path in removed)
    && (forall p | p in removed :: p != "/" && p != "" && exists k | k in evicted && k in entries :: entries[k].path == p)
  }

  /** crawlDue as one step: what it evicts and dispatches are exactly the
      entries judged so, except evictions whose removal fails, which it reports,
      unless the context ends it early. */
  method CrawlDue(store: Store, c: Config, now: Time, resolves: string -> bool)
    returns (dispatched: set<string>, evicted: set<string>, failed: set<string>, removed: set<string>, complete: bool)
    modifies store
    ensures store.entries == Apply(c, old(store.entries), Pass(now, evicted))
    ensures evicted <= Judged(c, old(store.entries), now, Evict)
    ensures dispatched <= Judged(c, old(store.entries), now, Dispatch)
    ensures complete ==> dispatched == Judged(c, old(store.entries), now, Dispatch)
    ensures evicted !! failed && (complete ==> evicted + failed == Judged(c, old(store.entries), now, Evict))
    ensures RemovesFor(old(store.entries), evicted, removed, resolves)
  {
    dispatched, evicted, failed, removed, complete := {}, {}, {}, {}, false;
    var schedule := Schedule(c);
    var snapshot := store.entries;
    var pending := snapshot.Keys;
    ghost var done: set<string> := {};
    assert snapshot - {} == snapshot;
    while pending != {}
      invariant done + pending == snapshot.Keys && done !! pending
      invariant store.entries == snapshot - evicted && evicted <= done
      invariant RemovesFor(snapshot, evicted, removed, resolves)
      invariant evicted !! failed && evicted + failed == set k | k in done && k in snapshot && Judge(c, snapshot[k], now) == Evict
      invariant dispatched == set k | k in done && k in snapshot && Judge(c, snapshot[k], now) == Dispatch
      decreases pending
    {
      var canceled: bool := *;
      if canceled {
        return;
      }
      var key :| key in pending;
      pending := pending - {key};
      done := done + {key};
      var e := snapshot[key];
      var v := PassOne(c, schedule, e, now);
      if v == Evict {
        var removal := EvictStale(store, key, e, resolves);
        if removal.Failed? {
          failed := failed + {key};
        } else {
          if removal.Removed? { removed := removed + {e.path}; }
          evicted := evicted + {key};
        }
      } else if v == Dispatch {
        dispatched := dispatched + {key};
      }
    }
    complete := true;
  }

  /** The body of crawlDue's loop up to what it does. */
  method PassOne(c: Config, schedule: seq<int>, e: Entry, now: Time) returns (v: Verdict)
    requires schedule == Schedule(c)
    ensures v == Judge(c, e, now)
  {
    if e.lastRequested.None? {
      return Leave;
    }
    var interval, stale := RefreshTier(now - e.lastRequested.value, schedule);
    if stale {
      return if ActiveInInventory(e, now) then Leave else Evict;
    }
    if e.kind == GENERIC {
      return Leave;
    }
    var next := NextCrawlAt(e, interval);
    if next.Some? && now < next.value {
      return Leave;
    }
    return Dispatch;
  }

  // ---------- Whole histories ----------

  type History = seq<Event>

  /** The store after the first n events, starting empty. */
  function EntriesAt(c: Config, h: History, n: nat): Entries
    requires n <= |h|
  {
    if n == 0 then map[] else Apply(c, EntriesAt(c, h, n - 1), h[n - 1])
  }

  /** The clock does not run backwards, and passes evict what they judge. */
  ghost predicate Proper(c: Config, h: History) {
    && c.crawlInterval > 0 && c.retryInterval > 0
    && (forall i, j | 0 <= i < j < |h| :: h[i].now <= h[j].now)
    && (forall i | 0 <= i < |h| && h[i].Pass? :: h[i].evicted <= Judged(c, EntriesAt(c, h, i), h[i].now, Evict))
  }

  /** The event is a request for the key, its own or one for a file below its
      root. */
  predicate IsRequest(before: Entries, ev: Event, key: string) {
    || (ev.Requested? && ev.key == key)
    || (ev.Touched? && key in before && Covers(before[key], ev.reqPath))
  }

  ghost predicate Requests(c: Config, h: History, i: nat, key: string)
    requires i < |h|
  {
    IsRequest(EntriesAt(c, h, i), h[i], key)
  }

  /** The event is the outcome of a crawl of the tracked key. */
  predicate IsCrawl(before: Entries, ev: Event, key: string) {
    ev.Crawled? && ev.key == key && key in before
  }

  ghost predicate CrawlOf(c: Config, h: History, i: nat, key: string)
    requires i < |h|
  {
    IsCrawl(EntriesAt(c, h, i), h[i], key)
  }

  predicate IsSighting(ev: Event, key: string) {
    ev.SeenInInventory? && ev.key == key
  }

  predicate IsDrop(ev: Event, key: string) {
    ev.Deleted? && ev.key == key
  }

  /** What one event does to each field of an entry that is there after it. */
  lemma {:induction false} FieldsAfter(c: Config, before: Entries, ev: Event, key: string)
    requires key in Apply(c, before, ev)
    ensures
      var e, e' := EntryOr(before, key), Apply(c, before, ev)[key];
      && e'.lastRequested == (if IsRequest(before, ev, key) then Some(ev.now) else e.lastRequested)
      && e'.lastSeen == (if IsSighting(ev, key) then Some(ev.now) else e.lastSeen)
      && (if IsCrawl(before, ev, key) then e' == CrawledEntry(c, e, ev.now, ev.err)
          else e'.lastCrawled == e.lastCrawled && e'.nextCrawl == e.nextCrawl && e'.lastError == e.lastError)
  {
  }

  /** The event says what the key stands for. */
  predicate Names(ev: Event, key: string) {
    (ev.Requested? || ev.SeenInInventory?) && ev.key == key
  }

  /** What an entry stands for was said by the latest event that did. */
  lemma {:induction false} IdentityMeans(c: Config, h: History, n: nat, key: string) returns (i: nat)
    requires n <= |h| && key in EntriesAt(c, h, n)
    ensures i < n && Names(h[i], key) && forall j | i < j < n :: !Names(h[j], key)
    ensures var e := EntriesAt(c, h, n)[key]; e.kind == h[i].kind && e.path == h[i].path && e.root == h[i].root
  {
    if Names(h[n - 1], key) {
      i := n - 1;
    } else {
      i := IdentityMeans(c, h, n - 1, key);
    }
  }

  /** Which entries a request for a path refreshes: repositories whose root is the
      path, or a directory above it. */
  lemma {:induction false} CoversExactly(e: Entry, p: string)
    ensures Covers(e, p) <==>
      e.kind != "generic" && e.root != "" && (p == e.root || e.root == "/" || exists rest :: p == e.root + "/" + rest)
  {
    if e.root + "/" <= p { assert p == e.root + "/" + p[|e.root| + 1..]; }
  }

  /** Which paths a repository owns: those below the root of one. */
  lemma {:induction false} OwnedExactly(entries: Entries, p: string)
    ensures Owned(entries, p) <==>
      exists k | k in entries :: entries[k].kind != "generic" && entries[k].root != "" && p != entries[k].root &&
        (entries[k].root == "/" || exists rest :: p == entries[k].root + "/" + rest)
  {
    forall k | k in entries && entries[k].root + "/" <= p ensures exists rest :: p == entries[k].root + "/" + rest {
      assert p == entries[k].root + "/" + p[|entries[k].root| + 1..];
    }
  }

  /** An entry's last request is the latest request of all the n events. */
  lemma {:induction false} LastRequestedMeans(c: Config, h: History, n: nat, key: string) returns (i: nat)
    requires n <= |h| && key in EntriesAt(c, h, n) && EntriesAt(c, h, n)[key].lastRequested.Some?
    ensures i < n && Requests(c, h, i, key) && h[i].now == EntriesAt(c, h, n)[key].lastRequested.value
    ensures forall j | i < j < n :: !Requests(c, h, j, key)
  {
    FieldsAfter(c, EntriesAt(c, h, n - 1), h[n - 1], key);
    if Requests(c, h, n - 1, key) {
      i := n - 1;
    } else {
      i := LastRequestedMeans(c, h, n - 1, key);
    }
  }

  /** An entry's crawl fields come from the latest outcome for it. */
  lemma {:induction false} LastCrawledMeans(c: Config, h: History, n: nat, key: string) returns (i: nat)
    requires n <= |h| && key in EntriesAt(c, h, n) && EntriesAt(c, h, n)[key].lastCrawled.Some?
    ensures i < n && CrawlOf(c, h, i, key) && forall j | i < j < n :: !CrawlOf(c, h, j, key)
    ensures
      var e := EntriesAt(c, h, n)[key];
      && e.lastCrawled == Some(h[i].now)
      && e.lastError == (if h[i].err.Some? then h[i].err.value else "")
      && e.nextCrawl == Some(h[i].now + if h[i].err.Some? then c.retryInterval else c.crawlInterval)
  {
    FieldsAfter(c, EntriesAt(c, h, n - 1), h[n - 1], key);
    if CrawlOf(c, h, n - 1, key) {
      i := n - 1;
    } else {
      i := LastCrawledMeans(c, h, n - 1, key);
    }
  }

  /** A sighting of the key that no deletion of it followed up to n. */
  predicate Sighted(h: History, i: nat, n: nat, key: string)
    requires n <= |h|
  {
    i < n && IsSighting(h[i], key) && forall j | i < j < n :: !IsDrop(h[j], key)
  }

  /** The entry remembers the sighting, or a later event came after the grace. */
  ghost predicate Remembered(c: Config, h: History, i: nat, n: nat, key: string)
    requires i < n <= |h|
  {
    || h[n - 1].now - h[i].now >= INVENTORY_GRACE
    || (key in EntriesAt(c, h, n) && EntriesAt(c, h, n)[key].lastSeen.Some? && EntriesAt(c, h, n)[key].lastSeen.value >= h[i].now)
  }

  /** A sighting is remembered unless a deletion of the key followed, or an
      eviction, which found the entry outside the shield. */
  lemma {:induction false} LastSeenMeans(c: Config, h: History, i: nat, n: nat, key: string)
    requires Proper(c, h) && n <= |h| && Sighted(h, i, n, key)
    ensures Remembered(c, h, i, n, key)
  {
    if i < n - 1 {
      LastSeenMeans(c, h, i, n - 1, key);
      RememberedNext(c, h, i, n, key);
    } else {
      FieldsAfter(c, EntriesAt(c, h, i), h[i], key);
    }
  }

  lemma {:induction false} RememberedNext(c: Config, h: History, i: nat, n: nat, key: string)
    requires Proper(c, h) && i < n - 1 < n <= |h| && Remembered(c, h, i, n - 1, key) && !IsDrop(h[n - 1], key)
    ensures Remembered(c, h, i, n, key)
  {
    var before, ev := EntriesAt(c, h, n - 1), h[n - 1];
    assert h[n - 2].now <= ev.now && h[i].now <= ev.now;
    if h[n - 2].now - h[i].now < INVENTORY_GRACE {
      if ev.Pass? && key in ev.evicted {
        assert key in Judged(c, before, ev.now, Evict);
      } else {
        FieldsAfter(c, before, ev, key);
      }
    }
  }

  /** What the verdict says about the entry. */
  lemma {:induction false} EvictMeans(c: Config, e: Entry, now: Time)
    requires c.crawlInterval > 0 && Judge(c, e, now) == Evict
    ensures e.lastRequested.Some? && now - e.lastRequested.value >= Budget(Schedule(c)) && !ActiveInInventory(e, now)
  {
    TierMeans(now - e.lastRequested.value, Schedule(c));
    assert Schedule(c)[0] > 0;
  }

  lemma {:induction false} RequestsAreOld(c: Config, h: History, n: nat, key: string, now: Time)
    requires n <= |h| && (forall i, j | 0 <= i < j < |h| :: h[i].now <= h[j].now)
    requires key in EntriesAt(c, h, n) && c.crawlInterval > 0 && Judge(c, EntriesAt(c, h, n)[key], now) == Evict
    ensures exists i | 0 <= i < n :: Requests(c, h, i, key)
    ensures forall i | 0 <= i < n && Requests(c, h, i, key) :: now - h[i].now >= Budget(Schedule(c))
  {
    EvictMeans(c, EntriesAt(c, h, n)[key], now);
    var l := LastRequestedMeans(c, h, n, key);
    forall i | 0 <= i < n && Requests(c, h, i, key) ensures now - h[i].now >= Budget(Schedule(c)) {
      assert i <= l;
    }
  }

  lemma {:induction false} SightingIsOld(c: Config, h: History, i: nat, n: nat, key: string, now: Time)
    requires Proper(c, h) && n <= |h| && Sighted(h, i, n, key) && h[n - 1].now <= now
    requires key in EntriesAt(c, h, n) && !ActiveInInventory(EntriesAt(c, h, n)[key], now)
    ensures now - h[i].now >= INVENTORY_GRACE
  {
    LastSeenMeans(c, h, i, n, key);
  }

  /** A pass after n events evicts only a resource that some request
      registered, that no request so far reached within the sum of all tiers,
      and that no mount advertised within the inventory grace, deletions of the
      key aside. */
  lemma {:induction false} EvictedOnlyWhenStale(c: Config, h: History, n: nat, now: Time, key: string)
    requires Proper(c, h) && n <= |h| && (n > 0 ==> h[n - 1].now <= now)
    requires key in Judged(c, EntriesAt(c, h, n), now, Evict)
    ensures exists i | 0 <= i < n :: Requests(c, h, i, key)
    ensures forall i | 0 <= i < n && Requests(c, h, i, key) :: now - h[i].now >= c.crawlInterval + Budget(c.backoff)
    ensures forall i | 0 <= i < n && Sighted(h, i, n, key) :: now - h[i].now >= 72 * 60 * 60
  {
    RequestsAreOld(c, h, n, key, now);
    BudgetIs(c);
    EvictMeans(c, EntriesAt(c, h, n)[key], now);
    forall i | 0 <= i < n && Sighted(h, i, n, key) ensures now - h[i].now >= 72 * 60 * 60 {
      SightingIsOld(c, h, i, n, key, now);
    }
  }

  lemma {:induction false} BudgetOf(first: int, rest: seq<int>)
    ensures Budget([first] + rest) == (if first > 0 then first else 0) + Budget(rest)
    decreases |rest|
  {
    if rest == [] {
      assert [first] + rest == [first] && [first][..0] == [];
    } else {
      assert ([first] + rest)[..|rest|] == [first] + rest[..|rest| - 1];
      BudgetOf(first, rest[..|rest| - 1]);
    }
  }

  /** The crawl interval is the first tier. */
  lemma {:induction false} BudgetIs(c: Config)
    requires c.crawlInterval > 0
    ensures Budget(Schedule(c)) == c.crawlInterval + Budget(c.backoff)
  {
    BudgetOf(c.crawlInterval, c.backoff);
  }

  /** An entry's last sighting is one that no deletion of the key followed. */
  lemma {:induction false} SeenOrigin(c: Config, h: History, n: nat, key: string) returns (i: nat)
    requires n <= |h| && key in EntriesAt(c, h, n) && EntriesAt(c, h, n)[key].lastSeen.Some?
    ensures Sighted(h, i, n, key) && h[i].now == EntriesAt(c, h, n)[key].lastSeen.value
  {
    FieldsAfter(c, EntriesAt(c, h, n - 1), h[n - 1], key);
    if IsSighting(h[n - 1], key) {
      i := n - 1;
    } else {
      i := SeenOrigin(c, h, n - 1, key);
    }
  }

  /** The converse: a resource that was requested once, but not within the sum of
      all tiers, and that no mount advertised within 72 hours, is evicted. */
  lemma {:induction false} StaleIsEvicted(c: Config, h: History, n: nat, now: Time, key: string)
    requires c.crawlInterval > 0 && n <= |h| && key in EntriesAt(c, h, n) && EntriesAt(c, h, n)[key].lastRequested.Some?
    requires forall i | 0 <= i < n && Requests(c, h, i, key) :: now - h[i].now >= c.crawlInterval + Budget(c.backoff)
    requires forall i | 0 <= i < n && Sighted(h, i, n, key) :: now - h[i].now >= 72 * 60 * 60
    ensures key in Judged(c, EntriesAt(c, h, n), now, Evict)
  {
    var l := LastRequestedMeans(c, h, n, key);
    NotAdvertised(c, h, n, now, key);
    MeansEvict(c, EntriesAt(c, h, n)[key], now);
  }

  lemma {:induction false} NotAdvertised(c: Config, h: History, n: nat, now: Time, key: string)
    requires n <= |h| && key in EntriesAt(c, h, n)
    requires forall i | 0 <= i < n && Sighted(h, i, n, key) :: now - h[i].now >= 72 * 60 * 60
    ensures !ActiveInInventory(EntriesAt(c, h, n)[key], now)
  {
    if EntriesAt(c, h, n)[key].lastSeen.Some? { var s := SeenOrigin(c, h, n, key); }
  }

  lemma {:induction false} MeansEvict(c: Config, e: Entry, now: Time)
    requires c.crawlInterval > 0 && e.lastRequested.Some? && now - e.lastRequested.value >= c.crawlInterval + Budget(c.backoff)
    requires !ActiveInInventory(e, now)
    ensures Judge(c, e, now) == Evict
  {
    BudgetIs(c);
    TierMeans(now - e.lastRequested.value, Schedule(c));
  }

  /** The outcome that decides when a resource is due, and whether it is. */
  ghost predicate Due(c: Config, h: History, i: nat, n: nat, now: Time, key: string, tier: int)
    requires i < n <= |h|
  {
    && CrawlOf(c, h, i, key) && (forall j | i < j < n :: !CrawlOf(c, h, j, key))
    && match h[i].err
       case None => now - h[i].now >= tier && now - h[i].now >= c.crawlInterval
       case Some(msg) => now - h[i].now >= c.retryInterval && (msg == "" ==> now - h[i].now >= tier)
  }

  /** A pass dispatches only a resource that a request keeps within the budget
      and that was never crawled since it was registered, failed at least the
      retry interval ago, or was crawled at least the current tier and the
      crawl interval ago. A failure whose message is empty counts as crawled,
      with the retry interval in the crawl interval's place. */
  lemma {:induction false} DispatchedOnlyWhenDue(c: Config, h: History, n: nat, now: Time, key: string)
    requires n <= |h| && key in Judged(c, EntriesAt(c, h, n), now, Dispatch)
    ensures
      var e := EntriesAt(c, h, n)[key];
      && e.kind != "generic" && e.lastRequested.Some?
      && var tier := Tier(now - e.lastRequested.value, [c.crawlInterval] + c.backoff);
      && tier.Some?
      && (e.lastCrawled.Some? ==> exists i | 0 <= i < n :: Due(c, h, i, n, now, key, tier.value))
  {
    var e := EntriesAt(c, h, n)[key];
    if e.lastCrawled.Some? {
      var i := LastCrawledMeans(c, h, n, key);
      assert Due(c, h, i, n, now, key, Tier(now - e.lastRequested.value, Schedule(c)).value);
    }
  }

  /** The converse: a resource that meets these conditions is dispatched. */
  lemma {:induction false} DueIsDispatched(c: Config, h: History, n: nat, now: Time, key: string, i: nat)
    requires i < n <= |h| && key in EntriesAt(c, h, n)
    requires
      var e := EntriesAt(c, h, n)[key];
      && e.kind != "generic" && e.lastRequested.Some?
      && var tier := Tier(now - e.lastRequested.value, [c.crawlInterval] + c.backoff);
      && tier.Some? && Due(c, h, i, n, now, key, tier.value)
    ensures key in Judged(c, EntriesAt(c, h, n), now, Dispatch)
  {
    if EntriesAt(c, h, n)[key].lastCrawled.Some? {
      var l := LastCrawledMeans(c, h, n, key);
      assert l == i;
    }
  }
}
