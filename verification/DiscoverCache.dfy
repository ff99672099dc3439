/**
 The discovery cache (mirror/discover_cache.go): what a crawl of a base URL found
 is replayed while it is fresh, and entries the upstream withdrew are kept until
 their grace period runs out.

 Repositories and loose files go through the same bookkeeping; a file's key is
 its directory and name. Lists are kept unsorted here.
 */
module DiscoverCache {

  import opened Wrappers

  /** Something a crawl found: a repository URL with its type, or a file key. */
  datatype Target = Target(key: string, typ: string)

  datatype Rec = Rec(key: string, typ: string, gone: Option<int>)

  /** One crawl's list of either kind, and the options that decide what becomes
      of entries it did not find. */
  datatype Scan = Scan(found: seq<Target>, clean: bool, now: int, prune: bool, grace: int)

  function KeysOf(found: seq<Target>): set<string> {
    set i | 0 <= i < |found| :: found[i].key
  }

  function RecKeys(recs: seq<Rec>): set<string> {
    set i | 0 <= i < |recs| :: recs[i].key
  }

  /** A record after the scan, if it stays. */
  function Renewed(r: Rec, scan: Scan): Rec {
    if r.key in KeysOf(scan.found) then r.(gone := None)
    else if scan.clean && r.gone.None? then r.(gone := Some(scan.now))
    else r
  }

  predicate Evicts(r: Rec, scan: Scan) {
    && r.key !in KeysOf(scan.found) && scan.clean
    && scan.prune && scan.now - Renewed(r, scan).gone.value >= scan.grace
  }

  function Kept(recs: seq<Rec>, scan: Scan): seq<Rec> {
    if recs == [] then []
    else Kept(recs[..|recs| - 1], scan) + if Evicts(recs[|recs| - 1], scan) then [] else [Renewed(recs[|recs| - 1], scan)]
  }

  function Evicted(recs: seq<Rec>, scan: Scan): seq<Target> {
    if recs == [] then []
    else
      var r := recs[|recs| - 1];
      Evicted(recs[..|recs| - 1], scan) + if Evicts(r, scan) then [Target(r.key, r.typ)] else []
  }

  /** What the scan turned up for the first time. */
  function Fresh(found: seq<Target>, known: set<string>): seq<Rec> {
    if found == [] then []
    else
      var t := found[|found| - 1];
      Fresh(found[..|found| - 1], known) + if t.key in known then [] else [Rec(t.key, t.typ, None)]
  }

  function Next(recs: seq<Rec>, scan: Scan): seq<Rec> {
    var kept := Kept(recs, scan);
    kept + Fresh(scan.found, RecKeys(kept))
  }

  /** The body of update for one kind of entry: the list is compacted in place
      and then appended to. */
  method UpdateList(recs: seq<Rec>, scan: Scan) returns (recs': seq<Rec>, gone: seq<Target>)
    ensures recs' == Next(recs, scan) && gone == Evicted(recs, scan)
  {
    var seen := KeysOf(scan.found);
    recs', gone := [], [];
    for i := 0 to |recs|
      invariant recs' == Kept(recs[..i], scan) && gone == Evicted(recs[..i], scan)
    {
      assert recs[..i + 1][..i] == recs[..i];
      var r := recs[i];
      if r.key in seen {
        recs' := recs' + [r.(gone := None)];
        continue;
      }
      if !scan.clean {
        recs' := recs' + [r];
        continue;
      }
      if r.gone.None? {
        r := r.(gone := Some(scan.now));
      }
      if !scan.prune || scan.now - r.gone.value < scan.grace {
        recs' := recs' + [r];
        continue;
      }
      gone := gone + [Target(r.key, r.typ)];
    }
    assert recs[..|recs|] == recs;
    var known := RecKeys(recs');
    ghost var kept := recs';
    for i := 0 to |scan.found|
      invariant recs' == kept + Fresh(scan.found[..i], known)
    {
      assert scan.found[..i + 1][..i] == scan.found[..i];
      if scan.found[i].key !in known {
        recs' := recs' + [Rec(scan.found[i].key, scan.found[i].typ, None)];
      }
    }
    assert scan.found[..|scan.found|] == scan.found;
  }

  // ---------- One update ----------

  function Count(recs: seq<Rec>, key: string): nat {
    if recs == [] then 0 else Count(recs[..|recs| - 1], key) + if recs[|recs| - 1].key == key then 1 else 0
  }

  function CountTargets(ts: seq<Target>, key: string): nat {
    if ts == [] then 0 else CountTargets(ts[..|ts| - 1], key) + if ts[|ts| - 1].key == key then 1 else 0
  }

  /** Old records split into kept and evicted: however often a key occurs, none
      of its records is lost and none doubled. */
  lemma {:induction false} SplitExactly(recs: seq<Rec>, scan: Scan, key: string)
    ensures Count(recs, key) == Count(Kept(recs, scan), key) + CountTargets(Evicted(recs, scan), key)
  {
    if recs != [] {
      var front, r := recs[..|recs| - 1], recs[|recs| - 1];
      SplitExactly(front, scan, key);
      var kept, ts := Kept(front, scan), Evicted(front, scan);
      assert Count(recs, key) == Count(front, key) + if r.key == key then 1 else 0;
      if Evicts(r, scan) {
        assert Kept(recs, scan) == kept && Evicted(recs, scan) == ts + [Target(r.key, r.typ)];
        CountTargetsLast(ts, Target(r.key, r.typ), key);
      } else {
        assert Evicted(recs, scan) == ts && Kept(recs, scan) == kept + [Renewed(r, scan)];
        CountLast(kept, Renewed(r, scan), key);
      }
    }
  }

  lemma {:induction false} CountLast(recs: seq<Rec>, r: Rec, key: string)
    ensures Count(recs + [r], key) == Count(recs, key) + if r.key == key then 1 else 0
  {
    assert (recs + [r])[..|recs|] == recs;
  }

  lemma {:induction false} CountTargetsLast(ts: seq<Target>, t: Target, key: string)
    ensures CountTargets(ts + [t], key) == CountTargets(ts, key) + if t.key == key then 1 else 0
  {
    assert (ts + [t])[..|ts|] == ts;
  }

  predicate Unique(recs: seq<Rec>) {
    forall i, j | 0 <= i < j < |recs| :: recs[i].key != recs[j].key
  }

  /** discoverRepos lists every directory once. */
  predicate UniqueFound(found: seq<Target>) {
    forall i, j | 0 <= i < j < |found| :: found[i].key != found[j].key
  }

  /** A key is unknown, live, or gone since some time. */
  datatype Status = Unknown | Live | Gone(since: int)

  function StatusOf(r: Rec): Status {
    if r.gone.None? then Live else Gone(r.gone.value)
  }

  function Lookup(recs: seq<Rec>, key: string): Status {
    if recs == [] then Unknown
    else if recs[|recs| - 1].key == key then StatusOf(recs[|recs| - 1])
    else Lookup(recs[..|recs| - 1], key)
  }

  /** What a scan does to a key. */
  function After(s: Status, scan: Scan, key: string): Status {
    if key in KeysOf(scan.found) then Live
    else if s.Unknown? || !scan.clean then s
    else
      var since := if s.Live? then scan.now else s.since;
      if scan.prune && scan.now - since >= scan.grace then Unknown else Gone(since)
  }

  lemma {:induction false} LookupIn(recs: seq<Rec>, key: string)
    ensures Lookup(recs, key).Unknown? <==> key !in RecKeys(recs)
  {
    if recs != [] {
      LookupIn(recs[..|recs| - 1], key);
      LastRec(recs);
    }
  }

  lemma {:induction false} LookupAppend(a: seq<Rec>, b: seq<Rec>, key: string)
    ensures Lookup(a + b, key) == if key in RecKeys(b) then Lookup(b, key) else Lookup(a, key)
  {
    if b == [] {
      assert a + b == a;
    } else {
      var front, last := b[..|b| - 1], b[|b| - 1];
      assert (a + b)[..|a + b| - 1] == a + front;
      LookupAppend(a, front, key);
      LookupIn(front, key);
      LookupIn(b, key);
    }
  }

  lemma {:induction false} LookupKept(recs: seq<Rec>, scan: Scan, key: string)
    requires Unique(recs)
    ensures Lookup(Kept(recs, scan), key) ==
            if Lookup(recs, key).Unknown? then Unknown else After(Lookup(recs, key), scan, key)
  {
    if recs != [] {
      var front, r := recs[..|recs| - 1], recs[|recs| - 1];
      LastRec(recs);
      LookupKept(front, scan, key);
      LookupIn(front, key);
      var more := if Evicts(r, scan) then [] else [Renewed(r, scan)];
      LookupAppend(Kept(front, scan), more, key);
      LookupIn(more, key);
    }
  }

  lemma {:induction false} LookupFresh(found: seq<Target>, known: set<string>, key: string)
    ensures Lookup(Fresh(found, known), key) == if key in KeysOf(found) && key !in known then Live else Unknown
  {
    if found != [] {
      var front, t := found[..|found| - 1], found[|found| - 1];
      LookupFresh(front, known, key);
      LastKey(found);
      var more := if t.key in known then [] else [Rec(t.key, t.typ, None)];
      LookupAppend(Fresh(front, known), more, key);
      LookupIn(more, key);
    }
  }

  /** One update seen from one key. */
  lemma {:induction false} LookupNext(recs: seq<Rec>, scan: Scan, key: string)
    requires Unique(recs)
    ensures Lookup(Next(recs, scan), key) == After(Lookup(recs, key), scan, key)
  {
    var kept := Kept(recs, scan);
    LookupKept(recs, scan, key);
    LookupFresh(scan.found, RecKeys(kept), key);
    LookupAppend(kept, Fresh(scan.found, RecKeys(kept)), key);
    LookupIn(kept, key);
    LookupIn(Fresh(scan.found, RecKeys(kept)), key);
  }

  lemma {:induction false} KeptUnique(recs: seq<Rec>, scan: Scan)
    requires Unique(recs)
    ensures Unique(Kept(recs, scan)) && RecKeys(Kept(recs, scan)) <= RecKeys(recs)
  {
    if recs != [] {
      var front, r := recs[..|recs| - 1], recs[|recs| - 1];
      LastRec(recs);
      KeptUnique(front, scan);
      var more := if Evicts(r, scan) then [] else [Renewed(r, scan)];
      assert RecKeys(more) <= {r.key};
      UniqueAppend(Kept(front, scan), more);
    }
  }

  lemma {:induction false} RecKeysAppend(a: seq<Rec>, b: seq<Rec>)
    ensures RecKeys(a + b) == RecKeys(a) + RecKeys(b)
  {
    forall key ensures key in RecKeys(a + b) <==> key in RecKeys(a) + RecKeys(b) {
      if key in RecKeys(a) {
        var i :| 0 <= i < |a| && a[i].key == key;
        assert (a + b)[i].key == key;
      }
      if key in RecKeys(b) {
        var i :| 0 <= i < |b| && b[i].key == key;
        assert (a + b)[|a| + i].key == key;
      }
    }
  }

  lemma {:induction false} KeysAppend(a: seq<Target>, b: seq<Target>)
    ensures KeysOf(a + b) == KeysOf(a) + KeysOf(b)
  {
    forall key ensures key in KeysOf(a + b) <==> key in KeysOf(a) + KeysOf(b) {
      if key in KeysOf(a) {
        var i :| 0 <= i < |a| && a[i].key == key;
        assert (a + b)[i].key == key;
      }
      if key in KeysOf(b) {
        var i :| 0 <= i < |b| && b[i].key == key;
        assert (a + b)[|a| + i].key == key;
      }
    }
  }

  lemma {:induction false} UniqueAppend(a: seq<Rec>, b: seq<Rec>)
    requires Unique(a) && Unique(b) && RecKeys(a) !! RecKeys(b)
    ensures Unique(a + b) && RecKeys(a + b) == RecKeys(a) + RecKeys(b)
  {
    RecKeysAppend(a, b);
    forall i, j | 0 <= i < |a| && 0 <= j < |b| ensures a[i].key != b[j].key {
      assert a[i].key in RecKeys(a) && b[j].key in RecKeys(b);
    }
  }

  lemma {:induction false} OneRec(r: Rec)
    ensures RecKeys([r]) == {r.key}
  {
    assert [r][0].key in RecKeys([r]);
  }

  lemma {:induction false} OneKey(t: Target)
    ensures KeysOf([t]) == {t.key}
  {
    assert [t][0].key in KeysOf([t]);
  }

  /** Splitting off the last element. */
  lemma {:induction false} LastKey(found: seq<Target>)
    requires found != []
    ensures KeysOf(found) == KeysOf(found[..|found| - 1]) + {found[|found| - 1].key}
    ensures UniqueFound(found) ==> UniqueFound(found[..|found| - 1]) && found[|found| - 1].key !in KeysOf(found[..|found| - 1])
  {
    var last := [found[|found| - 1]];
    assert found == found[..|found| - 1] + last;
    KeysAppend(found[..|found| - 1], last);
    assert KeysOf(last) == {last[0].key};
  }

  lemma {:induction false} LastRec(recs: seq<Rec>)
    requires recs != []
    ensures RecKeys(recs) == RecKeys(recs[..|recs| - 1]) + {recs[|recs| - 1].key}
    ensures Unique(recs) ==> Unique(recs[..|recs| - 1]) && recs[|recs| - 1].key !in RecKeys(recs[..|recs| - 1])
  {
    var last := [recs[|recs| - 1]];
    assert recs == recs[..|recs| - 1] + last;
    RecKeysAppend(recs[..|recs| - 1], last);
    assert RecKeys(last) == {last[0].key};
  }

  lemma {:induction false} FreshUnique(found: seq<Target>, known: set<string>)
    requires UniqueFound(found)
    ensures Unique(Fresh(found, known)) && RecKeys(Fresh(found, known)) == KeysOf(found) - known
  {
    if found != [] {
      var front, t := found[..|found| - 1], found[|found| - 1];
      LastKey(found);
      FreshUnique(front, known);
      var more := if t.key in known then [] else [Rec(t.key, t.typ, None)];
      OneRec(Rec(t.key, t.typ, None));
      UniqueAppend(Fresh(front, known), more);
    }
  }

  lemma {:induction false} NextUnique(recs: seq<Rec>, scan: Scan)
    requires Unique(recs) && UniqueFound(scan.found)
    ensures Unique(Next(recs, scan))
  {
    KeptUnique(recs, scan);
    FreshUnique(scan.found, RecKeys(Kept(recs, scan)));
    UniqueAppend(Kept(recs, scan), Fresh(scan.found, RecKeys(Kept(recs, scan))));
  }

  // ---------- Any sequence of scans ----------

  type History = seq<Scan>

  predicate Proper(history: History) {
    forall i | 0 <= i < |history| :: UniqueFound(history[i].found)
  }

  /** The records after the history, starting with an empty cache. */
  function RecsAfter(history: History): seq<Rec> {
    if history == [] then [] else Next(RecsAfter(history[..|history| - 1]), history[|history| - 1])
  }

  lemma {:induction false} RecsUnique(history: History)
    requires Proper(history)
    ensures Unique(RecsAfter(history))
  {
    if history != [] {
      RecsUnique(history[..|history| - 1]);
      NextUnique(RecsAfter(history[..|history| - 1]), history[|history| - 1]);
    }
  }

  predicate Found(scan: Scan, key: string) {
    key in KeysOf(scan.found)
  }

  /** Some scan found the key, and no later scan was both clean and without it. */
  ghost predicate LiveBy(history: History, key: string) {
    exists l | 0 <= l < |history| :: Found(history[l], key) &&
      forall j | l < j < |history| :: Found(history[j], key) || !history[j].clean
  }

  lemma {:induction false} LiveByNext(front: History, scan: Scan, key: string)
    ensures LiveBy(front + [scan], key) <==> Found(scan, key) || (LiveBy(front, key) && !scan.clean)
  {
    var history := front + [scan];
    assert history[|front|] == scan && forall j | 0 <= j < |front| :: history[j] == front[j];
    if LiveBy(history, key) {
      var l :| 0 <= l < |history| && Found(history[l], key) && forall j | l < j < |history| :: Found(history[j], key) || !history[j].clean;
      assert l < |front| ==> Found(history[|front|], key) || !history[|front|].clean;
      assert l < |front| ==> Found(front[l], key) && forall j | l < j < |front| :: Found(front[j], key) || !front[j].clean;
    }
    if Found(scan, key) {
      assert Found(history[|front|], key);
    } else if LiveBy(front, key) && !scan.clean {
      var l :| 0 <= l < |front| && Found(front[l], key) && forall j | l < j < |front| :: Found(front[j], key) || !front[j].clean;
      assert Found(history[l], key);
    }
  }

  /** What the last scan of a history does to a key. */
  lemma {:induction false} LookupStep(history: History, key: string)
    requires Proper(history) && history != []
    ensures Proper(history[..|history| - 1])
    ensures Lookup(RecsAfter(history), key) == After(Lookup(RecsAfter(history[..|history| - 1]), key), history[|history| - 1], key)
  {
    RecsUnique(history[..|history| - 1]);
    LookupNext(RecsAfter(history[..|history| - 1]), history[|history| - 1], key);
  }

  /** Live keys are exactly those; so after a clean scan they are the ones just
      found, and after an unclean one the earlier ones and those found. */
  lemma {:induction false} LiveMeans(history: History, key: string)
    requires Proper(history)
    ensures Lookup(RecsAfter(history), key).Live? <==> LiveBy(history, key)
  {
    if history != [] {
      var front, scan := history[..|history| - 1], history[|history| - 1];
      LiveMeans(front, key);
      LookupStep(history, key);
      LiveByNext(front, scan, key);
      assert front + [scan] == history;
    }
  }

  /** A key is gone since the first clean scan without it after it was last
      found. */
  lemma {:induction false} GoneMeans(history: History, key: string) returns (l: nat, m: nat)
    requires Proper(history) && Lookup(RecsAfter(history), key).Gone?
    ensures l < m < |history| && Found(history[l], key) && forall j | l < j < |history| :: !Found(history[j], key)
    ensures history[m].clean && history[m].now == Lookup(RecsAfter(history), key).since
    ensures forall j | l < j < m :: !history[j].clean
  {
    var front := history[..|history| - 1];
    LookupStep(history, key);
    if Lookup(RecsAfter(front), key).Gone? {
      l, m := GoneMeans(front, key);
    } else {
      l := LastFound(front, key);
      m := |front|;
    }
    assert forall j | 0 <= j < |front| :: history[j] == front[j];
  }

  lemma {:induction false} LastFound(history: History, key: string) returns (l: nat)
    requires Proper(history) && Lookup(RecsAfter(history), key).Live?
    ensures l < |history| && Found(history[l], key)
    ensures forall j | l < j < |history| :: !Found(history[j], key) && !history[j].clean
  {
    LookupStep(history, key);
    if Found(history[|history| - 1], key) {
      l := |history| - 1;
    } else {
      var front := history[..|history| - 1];
      l := LastFound(front, key);
      assert forall j | 0 <= j < |front| :: history[j] == front[j];
    }
  }

  lemma {:induction false} EvictedIn(recs: seq<Rec>, scan: Scan, key: string)
    requires Unique(recs)
    ensures key in KeysOf(Evicted(recs, scan)) <==>
            !Lookup(recs, key).Unknown? && After(Lookup(recs, key), scan, key).Unknown?
  {
    if recs != [] {
      var front, r := recs[..|recs| - 1], recs[|recs| - 1];
      LastRec(recs);
      EvictedIn(front, scan, key);
      LookupIn(front, key);
      var more := if Evicts(r, scan) then [Target(r.key, r.typ)] else [];
      KeysAppend(Evicted(front, scan), more);
      OneKey(Target(r.key, r.typ));
    }
  }

  /** An eviction happens only in a clean pruning scan without the key, at least
      the grace after the first clean scan without it since it was last found;
      m may be the evicting scan itself. */
  lemma {:induction false} EvictedOnlyAfterGrace(history: History, scan: Scan, key: string) returns (l: nat, m: nat)
    requires Proper(history) && key in KeysOf(Evicted(RecsAfter(history), scan))
    ensures scan.clean && scan.prune && !Found(scan, key)
    ensures l < m <= |history| && Found(history[l], key) && forall j | l < j < |history| :: !Found(history[j], key)
    ensures forall j | l < j < m :: !history[j].clean
    ensures (history + [scan])[m].clean && scan.now - (history + [scan])[m].now >= scan.grace
  {
    var recs := RecsAfter(history);
    RecsUnique(history);
    EvictedIn(recs, scan, key);
    if Lookup(recs, key).Live? {
      l := LastFound(history, key);
      m := |history|;
    } else {
      l, m := GoneMeans(history, key);
      assert (history + [scan])[m] == history[m];
    }
  }

  /** The converse: a clean pruning scan without a key that is gone for the
      grace evicts it. */
  lemma {:induction false} GoneIsEvicted(history: History, scan: Scan, key: string)
    requires Proper(history) && Lookup(RecsAfter(history), key).Gone? && !Found(scan, key)
    ensures key in KeysOf(Evicted(RecsAfter(history), scan)) <==>
            scan.clean && scan.prune && scan.now - Lookup(RecsAfter(history), key).since >= scan.grace
  {
    RecsUnique(history);
    EvictedIn(RecsAfter(history), scan, key);
  }

  // ---------- The cache ----------

  function TrimRight(s: string): (r: string)
    ensures r <= s && (r == "" || r[|r| - 1] != '/') && forall i | |r| <= i < |s| :: s[i] == '/'
  {
    if s != "" && s[|s| - 1] == '/' then TrimRight(s[..|s| - 1]) else s
  }

  /** crawlKey */
  function CrawlKey(base: string): string { TrimRight(base) + "/" }

  /** Slashes at the end make no difference, and nothing else is ignored. */
  lemma {:induction false} CrawlKeyExact(a: string, b: string)
    ensures CrawlKey(a + "/") == CrawlKey(a)
    ensures CrawlKey(a) == CrawlKey(b) <==> TrimRight(a) == TrimRight(b)
  {
    assert (a + "/")[..|a|] == a;
    assert CrawlKey(a)[..|TrimRight(a)|] == TrimRight(a) && CrawlKey(b)[..|TrimRight(b)|] == TrimRight(b);
    if CrawlKey(a) == CrawlKey(b) {
      assert |TrimRight(a)| == |TrimRight(b)|;
    }
  }

  /** A loose file's key. */
  function FileKey(dir: string, name: string): string { dir + "/" + name }

  /** Names hold no slash, so files with one key are one file. */
  lemma {:induction false} FileKeyInjective(d1: string, n1: string, d2: string, n2: string)
    requires '/' !in n1 && '/' !in n2 && FileKey(d1, n1) == FileKey(d2, n2)
    ensures d1 == d2 && n1 == n2
  {
    var k1, k2 := d1 + "/" + n1, d2 + "/" + n2;
    assert forall i | |d1| < i < |k1| :: k1[i] != '/';
    assert forall i | |d2| < i < |k2| :: k2[i] != '/';
    assert k1[|d1|] == '/' && k2[|d2|] == '/';
    assert |d1| == |d2|;
    assert k1[..|d1|] == d1 && k2[..|d2|] == d2 && k1[|d1| + 1..] == n1 && k2[|d2| + 1..] == n2;
  }

  /** One crawled base URL; a zero time is no time. */
  datatype Crawl = Crawl(last: Option<int>, options: string, repos: seq<Rec>, files: seq<Rec>)

  datatype Discovery = Discovery(repos: seq<Target>, files: seq<Target>, failures: nat)

  function LiveTargets(recs: seq<Rec>): seq<Target> {
    if recs == [] then []
    else
      var r := recs[|recs| - 1];
      LiveTargets(recs[..|recs| - 1]) + if r.gone.None? then [Target(r.key, r.typ)] else []
  }

  lemma {:induction false} LiveTargetsAre(recs: seq<Rec>, key: string)
    requires Unique(recs)
    ensures key in KeysOf(LiveTargets(recs)) <==> Lookup(recs, key).Live?
  {
    if recs != [] {
      var front, r := recs[..|recs| - 1], recs[|recs| - 1];
      LastRec(recs);
      LiveTargetsAre(front, key);
      LookupIn(front, key);
      var more := if r.gone.None? then [Target(r.key, r.typ)] else [];
      KeysAppend(LiveTargets(front), more);
      OneKey(Target(r.key, r.typ));
    }
  }

  class Cache {
    var crawls: map<string, Crawl>

    constructor ()
      ensures crawls == map[]
    {
      crawls := map[];
    }

    /** reuse: a crawl that is fresh and ran with these options is replayed as
        its live entries. */
    method Reuse(base: string, options: string, ttl: int, now: int) returns (r: Option<Discovery>)
      ensures r.Some? <==>
                && ttl > 0 && CrawlKey(base) in crawls
                && var rec := crawls[CrawlKey(base)];
                   rec.options == options && rec.last.Some? && rec.last.value <= now < rec.last.value + ttl
      ensures r.Some? ==>
                r.value == Discovery(LiveTargets(crawls[CrawlKey(base)].repos), LiveTargets(crawls[CrawlKey(base)].files), 0)
    {
      if ttl <= 0 || CrawlKey(base) !in crawls {
        return None;
      }
      var rec := crawls[CrawlKey(base)];
      if rec.options != options || rec.last.None? {
        return None;
      }
      var age := now - rec.last.value;
      if age < 0 || age >= ttl {
        return None;
      }
      var repos := Replay(rec.repos);
      var files := Replay(rec.files);
      return Some(Discovery(repos, files, 0));
    }

    static method Replay(recs: seq<Rec>) returns (ts: seq<Target>)
      ensures ts == LiveTargets(recs)
    {
      ts := [];
      for i := 0 to |recs|
        invariant ts == LiveTargets(recs[..i])
      {
        assert recs[..i + 1][..i] == recs[..i];
        if recs[i].gone.None? {
          ts := ts + [Target(recs[i].key, recs[i].typ)];
        }
      }
      assert recs[..|recs|] == recs;
    }

    /** The record a crawl starts from. */
    function Before(base: string): Crawl
      reads this
    {
      if CrawlKey(base) in crawls then crawls[CrawlKey(base)] else Crawl(None, "", [], [])
    }

    /** update: it records the scan, evicts what has been gone for the grace,
        and leaves other crawls alone. */
    method Update(base: string, options: string, found: Discovery, now: int, prune: bool, grace: int) returns (gone: Discovery)
      modifies this
      ensures
        var repos := Scan(found.repos, found.failures == 0, now, prune, grace);
        var files := Scan(found.files, found.failures == 0, now, prune, grace);
        var rec := old(Before(base));
        && crawls == old(crawls)[CrawlKey(base) := Crawl(Some(now), options, Next(rec.repos, repos), Next(rec.files, files))]
        && gone == Discovery(Evicted(rec.repos, repos), Evicted(rec.files, files), 0)
    {
      var key := CrawlKey(base);
      var rec := if key in crawls then crawls[key] else Crawl(None, "", [], []);
      var clean := found.failures == 0;
      var repos, goneRepos := UpdateList(rec.repos, Scan(found.repos, clean, now, prune, grace));
      var files, goneFiles := UpdateList(rec.files, Scan(found.files, clean, now, prune, grace));
      crawls := crawls[key := Crawl(Some(now), options, repos, files)];
      return Discovery(goneRepos, goneFiles, 0);
    }
  }

  /** Replaying after a clean scan gives exactly the keys that scan found. */
  lemma {:induction false} ReplayAfterCleanScan(history: History, scan: Scan)
    requires Proper(history + [scan]) && scan.clean
    ensures KeysOf(LiveTargets(RecsAfter(history + [scan]))) == KeysOf(scan.found)
  {
    assert (history + [scan])[..|history|] == history;
    forall i | 0 <= i < |history| ensures UniqueFound(history[i].found) {
      assert (history + [scan])[i] == history[i];
    }
    RecsUnique(history);
    RecsUnique(history + [scan]);
    forall key ensures key in KeysOf(LiveTargets(RecsAfter(history + [scan]))) <==> key in KeysOf(scan.found) {
      LiveTargetsAre(RecsAfter(history + [scan]), key);
      LookupNext(RecsAfter(history), scan, key);
    }
  }

  /** After an unclean scan nothing is withdrawn. */
  lemma {:induction false} ReplayAfterUncleanScan(history: History, scan: Scan)
    requires Proper(history + [scan]) && !scan.clean
    ensures KeysOf(LiveTargets(RecsAfter(history + [scan]))) == KeysOf(LiveTargets(RecsAfter(history))) + KeysOf(scan.found)
    ensures Evicted(RecsAfter(history), scan) == []
  {
    assert (history + [scan])[..|history|] == history;
    forall i | 0 <= i < |history| ensures UniqueFound(history[i].found) {
      assert (history + [scan])[i] == history[i];
    }
    RecsUnique(history);
    RecsUnique(history + [scan]);
    forall key
      ensures key in KeysOf(LiveTargets(RecsAfter(history + [scan]))) <==>
              key in KeysOf(LiveTargets(RecsAfter(history))) + KeysOf(scan.found)
    {
      LiveTargetsAre(RecsAfter(history), key);
      LiveTargetsAre(RecsAfter(history + [scan]), key);
      LookupNext(RecsAfter(history), scan, key);
    }
    NothingEvicted(RecsAfter(history), scan);
  }

  lemma {:induction false} NothingEvicted(recs: seq<Rec>, scan: Scan)
    requires !scan.clean
    ensures Evicted(recs, scan) == []
  {
    if recs != [] { NothingEvicted(recs[..|recs| - 1], scan); }
  }

  // ---------- Types ----------

  /** The type recorded for a key. */
  function TypeOf(recs: seq<Rec>, key: string): Option<string> {
    if recs == [] then None
    else if recs[|recs| - 1].key == key then Some(recs[|recs| - 1].typ)
    else TypeOf(recs[..|recs| - 1], key)
  }

  /** The type a scan found the key with. */
  function FoundType(found: seq<Target>, key: string): Option<string> {
    if found == [] then None
    else if found[|found| - 1].key == key then Some(found[|found| - 1].typ)
    else FoundType(found[..|found| - 1], key)
  }

  lemma {:induction false} TypeIn(recs: seq<Rec>, key: string)
    ensures TypeOf(recs, key).Some? <==> key in RecKeys(recs)
  {
    if recs != [] {
      TypeIn(recs[..|recs| - 1], key);
      LastRec(recs);
    }
  }

  lemma {:induction false} TypeAppend(a: seq<Rec>, b: seq<Rec>, key: string)
    ensures TypeOf(a + b, key) == if key in RecKeys(b) then TypeOf(b, key) else TypeOf(a, key)
  {
    if b == [] {
      assert a + b == a;
    } else {
      var front := b[..|b| - 1];
      assert (a + b)[..|a + b| - 1] == a + front;
      TypeAppend(a, front, key);
      LastRec(b);
    }
  }

  lemma {:induction false} TypeOfKept(recs: seq<Rec>, scan: Scan, key: string)
    requires Unique(recs)
    ensures key in RecKeys(Kept(recs, scan)) ==> TypeOf(Kept(recs, scan), key) == TypeOf(recs, key)
  {
    if recs != [] {
      var front, r := recs[..|recs| - 1], recs[|recs| - 1];
      LastRec(recs);
      TypeOfKept(front, scan, key);
      KeptUnique(front, scan);
      var more := if Evicts(r, scan) then [] else [Renewed(r, scan)];
      TypeAppend(Kept(front, scan), more, key);
      RecKeysAppend(Kept(front, scan), more);
      if !Evicts(r, scan) { OneRec(Renewed(r, scan)); }
    }
  }

  lemma {:induction false} TypeOfFresh(found: seq<Target>, known: set<string>, key: string)
    requires UniqueFound(found)
    ensures key in RecKeys(Fresh(found, known)) ==> TypeOf(Fresh(found, known), key) == FoundType(found, key)
  {
    if found != [] {
      var front, t := found[..|found| - 1], found[|found| - 1];
      LastKey(found);
      TypeOfFresh(front, known, key);
      FreshUnique(front, known);
      var more := if t.key in known then [] else [Rec(t.key, t.typ, None)];
      TypeAppend(Fresh(front, known), more, key);
      RecKeysAppend(Fresh(front, known), more);
      OneRec(Rec(t.key, t.typ, None));
    }
  }

  /** A key that stays known keeps its type; one that enters has the type it was
      found with. */
  lemma {:induction false} TypeNext(recs: seq<Rec>, scan: Scan, key: string)
    requires Unique(recs) && UniqueFound(scan.found) && !Lookup(Next(recs, scan), key).Unknown?
    ensures TypeOf(Next(recs, scan), key) == if Lookup(recs, key).Unknown? then FoundType(scan.found, key) else TypeOf(recs, key)
  {
    var kept := Kept(recs, scan);
    var fresh' := Fresh(scan.found, RecKeys(kept));
    LookupNext(recs, scan, key);
    LookupIn(Next(recs, scan), key);
    LookupIn(recs, key);
    LookupIn(kept, key);
    LookupKept(recs, scan, key);
    RecKeysAppend(kept, fresh');
    FreshUnique(scan.found, RecKeys(kept));
    TypeAppend(kept, fresh', key);
    TypeOfKept(recs, scan, key);
    TypeOfFresh(scan.found, RecKeys(kept), key);
  }

  /** Over any scans, a key known now has the type it was found with by the scan
      that last made it known. */
  lemma {:induction false} TypeMeans(history: History, key: string) returns (i: nat)
    requires Proper(history) && !Lookup(RecsAfter(history), key).Unknown?
    ensures i < |history| && Found(history[i], key) && TypeOf(RecsAfter(history), key) == FoundType(history[i].found, key)
    ensures Lookup(RecsAfter(history[..i]), key).Unknown?
    ensures forall k | i < k <= |history| :: !Lookup(RecsAfter(history[..k]), key).Unknown?
  {
    var front, scan := history[..|history| - 1], history[|history| - 1];
    LookupStep(history, key);
    RecsUnique(front);
    assert UniqueFound(history[|history| - 1].found);
    TypeNext(RecsAfter(front), scan, key);
    assert history[..|history|] == history;
    if Lookup(RecsAfter(front), key).Unknown? {
      i := |front|;
    } else {
      i := TypeMeans(front, key);
      assert forall k | 0 <= k <= |front| :: history[..k] == front[..k];
      assert history[i] == front[i];
    }
  }

  /** What is replayed: the live keys, each with its type. */
  lemma {:induction false} ReplayedExactly(recs: seq<Rec>, t: Target)
    requires Unique(recs)
    ensures t in LiveTargets(recs) <==> Lookup(recs, t.key).Live? && TypeOf(recs, t.key) == Some(t.typ)
  {
    if recs != [] {
      var front, r := recs[..|recs| - 1], recs[|recs| - 1];
      LastRec(recs);
      ReplayedExactly(front, t);
      LookupIn(front, t.key);
    }
  }

  /** What is evicted: the keys that go, each with its type. */
  lemma {:induction false} EvictedExactly(recs: seq<Rec>, scan: Scan, t: Target)
    requires Unique(recs)
    ensures t in Evicted(recs, scan) <==> t.key in KeysOf(Evicted(recs, scan)) && TypeOf(recs, t.key) == Some(t.typ)
  {
    if recs != [] {
      var front, r := recs[..|recs| - 1], recs[|recs| - 1];
      LastRec(recs);
      EvictedExactly(front, scan, t);
      EvictedIn(front, scan, t.key);
      LookupIn(front, t.key);
      var more := if Evicts(r, scan) then [Target(r.key, r.typ)] else [];
      KeysAppend(Evicted(front, scan), more);
      OneKey(Target(r.key, r.typ));
    }
  }

  /** A known key keeps the type it was first found with. */
  lemma {:induction false} TypeKept(recs: seq<Rec>, scan: Scan, r: Rec)
    requires r in recs && !Evicts(r, scan)
    ensures Renewed(r, scan) in Next(recs, scan) && Renewed(r, scan).typ == r.typ
  {
    KeptHolds(recs, scan, r);
    assert Renewed(r, scan) in Next(recs, scan);
  }

  lemma {:induction false} KeptHolds(recs: seq<Rec>, scan: Scan, r: Rec)
    requires r in recs && !Evicts(r, scan)
    ensures Renewed(r, scan) in Kept(recs, scan)
  {
    var front, last := recs[..|recs| - 1], recs[|recs| - 1];
    assert recs == front + [last];
    if r != last {
      KeptHolds(front, scan, r);
    }
  }
}
