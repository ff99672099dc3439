/**
 A non-dry run of syncDeb (mirror/deb.go) for one suite, without traces and
 by-hash links: staged indexes, one compression variant of each package index,
 the pool files those list, and publication from the pool up to InRelease.

 Parsers, hashing, signature checks, LocalJoin and the component and
 architecture filter are parameters.
 */
module DebSync {

  import opened Wrappers
  import opened Disk
  import opened Fetch
  import opened Transfers
  import opened Staging
  import opened Promotion
  import opened DebRelease
  import Missing
  import Prune

  /** A file that release documents or indexes list. */
  datatype Listed = Listed(path: string, size: int, sums: map<string, string>) {
    function Want(): Expect { SumsExpect(size, sums) }
  }

  datatype World = World(
    keys: Keys,
    prefix: string,
    release: Bytes -> Option<seq<Listed>>,
    index: (string, Bytes) -> Option<seq<Listed>>,
    wanted: string -> bool,
    joinSuite: string -> Option<Path>,
    joinRoot: string -> Option<Path>)

  // ---------- Index jobs ----------

  const DOC_NAMES := ["InRelease", "Release", "Release.gpg"]

  function IndexJob(w: World, f: Listed, dst: Path): Job {
    Job(w.prefix + f.path, dst, Some(f.Want()), true, true)
  }

  predicate Skipped(w: World, f: Listed) {
    f.path in DOC_NAMES || !w.wanted(f.path)
  }

  function IndexJobs(w: World, fs: seq<Listed>): (r: Option<seq<Job>>)
    ensures r.Some? ==> forall i | 0 <= i < |r.value| :: r.value[i].stage
  {
    if fs == [] then Some([])
    else
      var rest, f := IndexJobs(w, fs[..|fs| - 1]), fs[|fs| - 1];
      if rest.None? || Skipped(w, f) then rest
      else if w.joinSuite(f.path).None? then None
      else Some(rest.value + [IndexJob(w, f, w.joinSuite(f.path).value)])
  }

  /** Exactly the files the release lists and the filters let through. */
  lemma {:induction false} IndexJobsCover(w: World, fs: seq<Listed>)
    requires IndexJobs(w, fs).Some?
    ensures forall f | f in fs && !Skipped(w, f) ::
              w.joinSuite(f.path).Some? && IndexJob(w, f, w.joinSuite(f.path).value) in IndexJobs(w, fs).value
    ensures forall j | j in IndexJobs(w, fs).value ::
              exists f | f in fs && !Skipped(w, f) :: w.joinSuite(f.path).Some? && j == IndexJob(w, f, w.joinSuite(f.path).value)
  {
    if fs != [] {
      IndexJobsCover(w, fs[..|fs| - 1]);
      forall f | f in fs[..|fs| - 1] ensures f in fs {
      }
    }
  }

  method CollectIndexes(w: World, fs: seq<Listed>) returns (jobs: Option<seq<Job>>)
    ensures jobs == IndexJobs(w, fs)
  {
    var js: seq<Job> := [];
    for i := 0 to |fs|
      invariant IndexJobs(w, fs[..i]) == Some(js)
    {
      assert fs[..i + 1][..i] == fs[..i];
      if Skipped(w, fs[i]) {
        continue;
      }
      var dst := w.joinSuite(fs[i].path);
      if dst.None? {
        FailsFromPrefix((s: seq<Listed>) => IndexJobs(w, s).None?, fs, i + 1);
        return None;
      }
      js := js + [IndexJob(w, fs[i], dst.value)];
    }
    assert fs[..|fs|] == fs;
    return Some(js);
  }

  // ---------- Compression variants ----------

  const COMPRESSIONS := [".gz", ".xz", ".bz2", ".zst"]

  /** splitCompressExt */
  function SplitExt(p: string, from: nat := 0): (r: (string, string))
    requires from <= |COMPRESSIONS|
    ensures r.0 + r.1 == p && (r.1 == "" || r.1 in COMPRESSIONS)
    decreases |COMPRESSIONS| - from
  {
    if from == |COMPRESSIONS| then (p, "")
    else if EndsWith(p, COMPRESSIONS[from]) then (p[..|p| - |COMPRESSIONS[from]|], COMPRESSIONS[from])
    else SplitExt(p, from + 1)
  }

  /** prefOrder: the smaller, the more preferred. */
  function Pref(ext: string): nat {
    if ext == ".gz" then 0 else if ext == ".xz" then 1 else if ext == ".zst" then 2 else if ext == ".bz2" then 3
    else if ext == "" then 4 else 0
  }

  /** path.Base */
  function BaseName(p: string): string {
    if p == "" then "."
    else if p[|p| - 1] == '/' then (if |p| == 1 then "/" else BaseName(p[..|p| - 1]))
    else LastSegment(p)
  }

  function LastSegment(p: string): string {
    if p == "" || p[|p| - 1] == '/' then "" else LastSegment(p[..|p| - 1]) + [p[|p| - 1]]
  }

  function TrimPrefix(s: string, prefix: string): string {
    if prefix <= s then s[|prefix|..] else s
  }

  function PathOf(w: World, job: Job): string { TrimPrefix(job.req, w.prefix) }

  /** What the choice between variants depends on; only present package and
      source indexes are candidates. */
  datatype Variant = Variant(candidate: bool, base: string, ext: string, rank: nat)

  function VariantOf(w: World, job: Job, state: FileState): Variant {
    var (base, ext) := SplitExt(PathOf(w, job));
    var name := BaseName(base);
    Variant(!state.FileMissing? && (name == "Packages" || name == "Sources"), base, ext, Pref(ext))
  }

  function VariantsOf(w: World, jobs: seq<Job>, states: seq<FileState>): (r: seq<Variant>)
    requires |states| == |jobs|
    ensures |r| == |jobs| && forall i | 0 <= i < |r| :: r[i].rank == Pref(r[i].ext)
  {
    seq(|jobs|, i requires 0 <= i < |jobs| => VariantOf(w, jobs[i], states[i]))
  }

  /** Every index with a candidate has one chosen, the most preferred. */
  predicate MostPreferred(vs: seq<Variant>, chosen: map<string, nat>) {
    && (forall base | base in chosen :: chosen[base] < |vs| && vs[chosen[base]].candidate && vs[chosen[base]].base == base)
    && (forall j | 0 <= j < |vs| && vs[j].candidate :: vs[j].base in chosen && vs[chosen[vs[j].base]].rank <= vs[j].rank)
  }

  /** One more variant considered. */
  lemma {:induction false} PreferNext(vs: seq<Variant>, v: Variant, chosen: map<string, nat>)
    requires MostPreferred(vs, chosen)
    ensures MostPreferred(vs + [v],
                          if v.candidate && (v.base !in chosen || v.rank < vs[chosen[v.base]].rank) then chosen[v.base := |vs|] else chosen)
  {
    var all := vs + [v];
    assert forall i | 0 <= i < |vs| :: all[i] == vs[i];
  }

  /** Where a present index can be read before promotion. */
  function LocalOf(job: Job, state: FileState): Path {
    if state.FileStaged? then Staged(job.dst) else job.dst
  }

  /** variants and variantExt describe the chosen jobs. */
  ghost predicate Describes(vs: seq<Variant>, jobs: seq<Job>, states: seq<FileState>, chosen: map<string, nat>,
                            variants: map<string, Path>, variantExt: map<string, string>)
    requires |states| == |jobs| == |vs|
  {
    && variants.Keys == chosen.Keys == variantExt.Keys
    && forall base | base in chosen ::
      && chosen[base] < |vs|
      && variants[base] == LocalOf(jobs[chosen[base]], states[chosen[base]])
      && variantExt[base] == vs[chosen[base]].ext
  }

  /** Everything the loop maintains over the first n variants. */
  ghost predicate Selecting(vs: seq<Variant>, n: nat, jobs: seq<Job>, states: seq<FileState>, chosen: map<string, nat>,
                            variants: map<string, Path>, variantExt: map<string, string>)
    requires |states| == |jobs| == |vs| && n <= |vs|
  {
    MostPreferred(vs[..n], chosen) && Describes(vs, jobs, states, chosen, variants, variantExt)
  }

  lemma {:induction false} SelectNext(vs: seq<Variant>, i: nat, jobs: seq<Job>, states: seq<FileState>, chosen: map<string, nat>,
                   variants: map<string, Path>, variantExt: map<string, string>)
    requires |states| == |jobs| == |vs| && i < |vs| && Selecting(vs, i, jobs, states, chosen, variants, variantExt)
    requires forall k | 0 <= k < |vs| :: vs[k].rank == Pref(vs[k].ext)
    ensures
      var v := vs[i];
      if v.candidate && (v.base !in variantExt || Pref(v.ext) < Pref(variantExt[v.base])) then
        Selecting(vs, i + 1, jobs, states, chosen[v.base := i], variants[v.base := LocalOf(jobs[i], states[i])], variantExt[v.base := v.ext])
      else Selecting(vs, i + 1, jobs, states, chosen, variants, variantExt)
  {
    var v := vs[i];
    PreferNext(vs[..i], v, chosen);
    assert vs[..i + 1] == vs[..i] + [v];
    assert v.base in chosen ==> vs[..i][chosen[v.base]].rank == Pref(variantExt[v.base]);
    DescribesNext(vs, i, jobs, states, chosen, variants, variantExt);
  }

  lemma {:induction false} DescribesNext(vs: seq<Variant>, i: nat, jobs: seq<Job>, states: seq<FileState>, chosen: map<string, nat>,
                      variants: map<string, Path>, variantExt: map<string, string>)
    requires |states| == |jobs| == |vs| && i < |vs| && Describes(vs, jobs, states, chosen, variants, variantExt)
    ensures Describes(vs, jobs, states, chosen[vs[i].base := i], variants[vs[i].base := LocalOf(jobs[i], states[i])], variantExt[vs[i].base := vs[i].ext])
  {
  }

  /** The loop that picks one local variant of each index; `chosen` says which
      job each variant is. */
  method SelectVariants(w: World, jobs: seq<Job>, states: seq<FileState>)
    returns (variants: map<string, Path>, chosen: map<string, nat>)
    requires |states| == |jobs|
    ensures MostPreferred(VariantsOf(w, jobs, states), chosen)
    ensures variants.Keys == chosen.Keys && forall base | base in chosen :: variants[base] == LocalOf(jobs[chosen[base]], states[chosen[base]])
  {
    variants, chosen := map[], map[];
    var variantExt: map<string, string> := map[];
    var vs := VariantsOf(w, jobs, states);
    for i := 0 to |vs|
      invariant Selecting(vs, i, jobs, states, chosen, variants, variantExt)
    {
      SelectNext(vs, i, jobs, states, chosen, variants, variantExt);
      var v := vs[i];
      if v.candidate && (v.base !in variantExt || Pref(v.ext) < Pref(variantExt[v.base])) {
        variantExt := variantExt[v.base := v.ext];
        variants := variants[v.base := LocalOf(jobs[i], states[i])];
        chosen := chosen[v.base := i];
      }
    }
    assert vs[..|vs|] == vs;
  }

  // ---------- The pool ----------

  /** What the chosen indexes list, from the bytes a promotion would make live. */
  function ListedBy(w: World, files: Files, jobs: seq<Job>, chosen: map<string, nat>, order: seq<string>): Option<seq<Listed>>
    requires forall base | base in order :: base in chosen && chosen[base] < |jobs|
  {
    if order == [] then Some([])
    else
      var rest := ListedBy(w, files, jobs, chosen, order[..|order| - 1]);
      var job := jobs[chosen[order[|order| - 1]]];
      var data := Chosen(files, job.dst);
      var more := if data.Some? then w.index(PathOf(w, job), data.value) else None;
      if rest.None? || more.None? then None else Some(rest.value + more.value)
  }

  /** What the run reads of a chosen index: its own staged copy, or the live file
      when that is unchanged. */
  function LocalData(files: Files, job: Job, state: FileState): Option<Bytes> {
    var name := LocalOf(job, state);
    if name in files then Some(files[name]) else None
  }

  /** What the chosen indexes list as the run reads them. */
  function SeenBy(w: World, files: Files, jobs: seq<Job>, states: seq<FileState>, chosen: map<string, nat>, order: seq<string>): Option<seq<Listed>>
    requires |states| == |jobs| && forall base | base in order :: base in chosen && chosen[base] < |jobs|
  {
    if order == [] then Some([])
    else
      var rest := SeenBy(w, files, jobs, states, chosen, order[..|order| - 1]);
      var i := chosen[order[|order| - 1]];
      var data := LocalData(files, jobs[i], states[i]);
      var more := if data.Some? then w.index(PathOf(w, jobs[i]), data.value) else None;
      if rest.None? || more.None? then None else Some(rest.value + more.value)
  }

  lemma {:induction false} SeenByKept(w: World, a: Files, b: Files, jobs: seq<Job>, states: seq<FileState>, chosen: map<string, nat>, order: seq<string>)
    requires |states| == |jobs| && forall base | base in order :: base in chosen && chosen[base] < |jobs|
    requires forall i | 0 <= i < |jobs| :: Same(a, b, jobs[i].dst) && Same(a, b, Staged(jobs[i].dst))
    ensures SeenBy(w, a, jobs, states, chosen, order) == SeenBy(w, b, jobs, states, chosen, order)
  {
    if order != [] {
      SeenByKept(w, a, b, jobs, states, chosen, order[..|order| - 1]);
    }
  }

  /** Where every staged copy is this run's, what it reads is what a promotion
      publishes. */
  lemma {:induction false} SeenIsListed(w: World, files: Files, jobs: seq<Job>, states: seq<FileState>, chosen: map<string, nat>, order: seq<string>)
    requires |states| == |jobs| && forall base | base in order :: base in chosen && chosen[base] < |jobs|
    requires NoLeftovers(files, jobs, states)
    requires StagedThere(files, jobs, states)
    ensures SeenBy(w, files, jobs, states, chosen, order) == ListedBy(w, files, jobs, chosen, order)
  {
    if order != [] {
      SeenIsListed(w, files, jobs, states, chosen, order[..|order| - 1]);
      WorkNames(jobs[chosen[order[|order| - 1]]].dst);
    }
  }

  /** One entry per path: the first one listed. */
  function PoolOf(listed: seq<Listed>): map<string, Listed> {
    if listed == [] then map[]
    else
      var rest, f := PoolOf(listed[..|listed| - 1]), listed[|listed| - 1];
      if f.path in rest then rest else rest[f.path := f]
  }

  /** The first entry listed for the path is this one. */
  predicate FirstListed(listed: seq<Listed>, p: string, f: Listed) {
    exists i | 0 <= i < |listed| :: listed[i].path == p && f == listed[i] && forall j | 0 <= j < i :: listed[j].path != p
  }

  lemma {:induction false} FirstOfFront(listed: seq<Listed>, p: string, f: Listed)
    requires listed != [] && FirstListed(listed[..|listed| - 1], p, f)
    ensures FirstListed(listed, p, f)
  {
    var front := listed[..|listed| - 1];
    var i :| 0 <= i < |front| && front[i].path == p && f == front[i] && forall j | 0 <= j < i :: front[j].path != p;
    assert listed[i] == front[i];
    forall j | 0 <= j < i ensures listed[j].path != p {
      assert listed[j] == front[j];
    }
  }

  lemma {:induction false} FirstIsLast(listed: seq<Listed>)
    requires listed != [] && forall f | f in listed[..|listed| - 1] :: f.path != listed[|listed| - 1].path
    ensures FirstListed(listed, listed[|listed| - 1].path, listed[|listed| - 1])
  {
    var front := listed[..|listed| - 1];
    forall j | 0 <= j < |front| ensures listed[j].path != listed[|front|].path {
      assert front[j] in front;
    }
    assert listed[|front|].path == listed[|front|].path;
  }

  lemma {:induction false} PoolIsFirstWins(listed: seq<Listed>)
    ensures forall f | f in listed :: f.path in PoolOf(listed)
    ensures forall p | p in PoolOf(listed) :: FirstListed(listed, p, PoolOf(listed)[p])
  {
    if listed != [] {
      var front, last := listed[..|listed| - 1], listed[|listed| - 1];
      PoolIsFirstWins(front);
      forall p | p in PoolOf(front) ensures FirstListed(listed, p, PoolOf(front)[p]) {
        FirstOfFront(listed, p, PoolOf(front)[p]);
      }
      if last.path !in PoolOf(front) { FirstIsLast(listed); }
      assert listed == front + [last];
    }
  }

  lemma {:induction false} PoolAppend(a: seq<Listed>, b: seq<Listed>)
    ensures PoolOf(a + b) == AddAll(PoolOf(a), b)
  {
    if b == [] {
      assert a + b == a;
    } else {
      assert (a + b)[..|a + b| - 1] == a + b[..|b| - 1];
      PoolAppend(a, b[..|b| - 1]);
    }
  }

  function AddAll(pool: map<string, Listed>, fs: seq<Listed>): map<string, Listed> {
    if fs == [] then pool
    else
      var rest, f := AddAll(pool, fs[..|fs| - 1]), fs[|fs| - 1];
      if f.path in rest then rest else rest[f.path := f]
  }

  /** The inner loop over one index's files. */
  method AddFiles(pool: map<string, Listed>, fs: seq<Listed>) returns (pool': map<string, Listed>)
    ensures pool' == AddAll(pool, fs)
  {
    pool' := pool;
    for i := 0 to |fs|
      invariant pool' == AddAll(pool, fs[..i])
    {
      assert fs[..i + 1][..i] == fs[..i];
      if fs[i].path !in pool' {
        pool' := pool'[fs[i].path := fs[i]];
      }
    }
    assert fs[..|fs|] == fs;
  }

  /** Staged copies are this run's. */
  predicate NoLeftovers(files: Files, jobs: seq<Job>, states: seq<FileState>)
    requires |states| == |jobs|
  {
    forall i | 0 <= i < |jobs| :: Staged(jobs[i].dst) in files ==> states[i].FileStaged?
  }

  predicate StagedThere(files: Files, jobs: seq<Job>, states: seq<FileState>)
    requires |states| == |jobs|
  {
    forall i | 0 <= i < |jobs| && states[i].FileStaged? :: Staged(jobs[i].dst) in files
  }

  /** Unless this run staged it, an index has a staged copy exactly when an
      earlier one could not be removed. */
  predicate LeftoversOnly(files: Files, jobs: seq<Job>, states: seq<FileState>, leftovers: set<Path>)
    requires |states| == |jobs|
  {
    forall i | 0 <= i < |jobs| && !states[i].FileStaged? :: Staged(jobs[i].dst) in files <==> jobs[i].dst in leftovers
  }

  /** An earlier staged copy will be published over an unchanged index. */
  predicate Overlaid(jobs: seq<Job>, states: seq<FileState>, leftovers: set<Path>, i: nat)
    requires i < |jobs| == |states|
  {
    states[i].FileUnchanged? && jobs[i].dst in leftovers
  }

  /** Every other served index that a promotion would publish meets what the
      release lists for it. */
  predicate IndexesMeet(hash: Hash, checked: bool, files: Files, jobs: seq<Job>, states: seq<FileState>, leftovers: set<Path>)
    requires |states| == |jobs|
  {
    forall i | 0 <= i < |jobs| && !states[i].FileMissing? && !Overlaid(jobs, states, leftovers, i) && jobs[i].want.Some? ::
      Chosen(files, jobs[i].dst).Some? && Acceptable(hash, jobs[i].want.value, checked, Chosen(files, jobs[i].dst).value)
  }

  lemma {:induction false} SettledIndexes(hash: Hash, checked: bool, a: Files, files: Files, jobs: seq<Job>, states: seq<FileState>, leftovers: set<Path>, keep: set<Path>)
    requires |states| == |jobs| && forall i | 0 <= i < |jobs| :: jobs[i].stage
    requires forall i | 0 <= i < |jobs| :: Settled(hash, checked, files, jobs[i], states[i], leftovers, keep)
    requires forall i | 0 <= i < |jobs| :: LeftAlone(a, files, jobs[i], states[i], jobs[i].dst in leftovers)
    ensures IndexesReady(hash, checked, files, jobs, states, leftovers)
    ensures forall i | 0 <= i < |jobs| && !states[i].FileMissing? :: jobs[i].dst in keep
  {
    forall i | 0 <= i < |jobs| && !states[i].FileStaged? ensures Staged(jobs[i].dst) in files <==> jobs[i].dst in leftovers {
      assert LeftAlone(a, files, jobs[i], states[i], jobs[i].dst in leftovers);
    }
    forall i | 0 <= i < |jobs| && !states[i].FileMissing?
      ensures Chosen(files, jobs[i].dst).Some? && jobs[i].dst in keep
      ensures jobs[i].want.Some? && !Overlaid(jobs, states, leftovers, i) ==>
                Acceptable(hash, jobs[i].want.value, checked, Chosen(files, jobs[i].dst).value)
    {
      assert Settled(hash, checked, files, jobs[i], states[i], leftovers, keep);
    }
    forall i | 0 <= i < |jobs| && states[i].FileStaged? ensures Staged(jobs[i].dst) in files {
      assert Settled(hash, checked, files, jobs[i], states[i], leftovers, keep);
    }
  }

  /** What the batch of indexes leaves. */
  predicate IndexesReady(hash: Hash, checked: bool, files: Files, jobs: seq<Job>, states: seq<FileState>, leftovers: set<Path>)
    requires |states| == |jobs|
  {
    && AllChosen(files, jobs, states) && StagedThere(files, jobs, states) && LeftoversOnly(files, jobs, states, leftovers)
    && IndexesMeet(hash, checked, files, jobs, states, leftovers)
  }

  lemma {:induction false} IndexesReadyKept(hash: Hash, checked: bool, a: Files, b: Files, jobs: seq<Job>, states: seq<FileState>, leftovers: set<Path>)
    requires |states| == |jobs| && IndexesReady(hash, checked, a, jobs, states, leftovers)
    requires forall i | 0 <= i < |jobs| :: Same(a, b, jobs[i].dst) && Same(a, b, Staged(jobs[i].dst))
    ensures IndexesReady(hash, checked, b, jobs, states, leftovers)
  {
    forall i | 0 <= i < |jobs| ensures Chosen(a, jobs[i].dst) == Chosen(b, jobs[i].dst) {
    }
  }

  /** Reads one chosen index. */
  method ReadVariant(tree: Tree, w: World, job: Job, state: FileState, local: Path) returns (r: Option<seq<Listed>>)
    requires tree.Valid() && local == LocalOf(job, state)
    ensures r.Some? ==>
              LocalData(tree.files, job, state).Some? && w.index(PathOf(w, job), LocalData(tree.files, job, state).value) == r
  {
    var data := tree.Read(local);
    return if data.Ok? then w.index(PathOf(w, job), data.value) else None;
  }

  lemma {:induction false} SeenByNext(w: World, files: Files, jobs: seq<Job>, states: seq<FileState>, chosen: map<string, nat>, order: seq<string>, base: string,
                   listed: seq<Listed>, more: seq<Listed>)
    requires |states| == |jobs| && forall b | b in order + [base] :: b in chosen && chosen[b] < |jobs|
    requires SeenBy(w, files, jobs, states, chosen, order) == Some(listed)
    requires var i := chosen[base];
             var data := LocalData(files, jobs[i], states[i]); data.Some? && w.index(PathOf(w, jobs[i]), data.value) == Some(more)
    ensures SeenBy(w, files, jobs, states, chosen, order + [base]) == Some(listed + more)
  {
    assert (order + [base])[..|order|] == order;
  }

  /** Parses the chosen indexes and collects the pool. */
  method ReadPool(tree: Tree, w: World, jobs: seq<Job>, states: seq<FileState>, variants: map<string, Path>, chosen: map<string, nat>)
    returns (pool: Option<map<string, Listed>>, order: seq<string>, listed: seq<Listed>)
    requires tree.Valid() && |states| == |jobs| && forall base | base in chosen :: chosen[base] < |jobs|
    requires variants.Keys == chosen.Keys && forall base | base in chosen :: variants[base] == LocalOf(jobs[chosen[base]], states[chosen[base]])
    ensures pool.Some? ==> pool.value == PoolOf(listed)
    ensures (forall base | base in order :: base in chosen) && (pool.Some? ==> forall base | base in chosen :: base in order)
    ensures pool.Some? ==> SeenBy(w, tree.files, jobs, states, chosen, order) == Some(listed)
  {
    order, listed := [], [];
    var found: map<string, Listed> := map[];
    var pending := variants.Keys;
    while pending != {}
      invariant pending <= chosen.Keys && (forall base | base in order :: base in chosen)
      invariant forall base | base in chosen :: base in order || base in pending
      invariant found == PoolOf(listed)
      invariant SeenBy(w, tree.files, jobs, states, chosen, order) == Some(listed)
      decreases pending
    {
      var base :| base in pending;
      pending := pending - {base};
      var parsed := ReadVariant(tree, w, jobs[chosen[base]], states[chosen[base]], variants[base]);
      if parsed.None? {
        return None, order, listed;
      }
      found := AddFiles(found, parsed.value);
      PoolAppend(listed, parsed.value);
      SeenByNext(w, tree.files, jobs, states, chosen, order, base, listed, parsed.value);
      listed := listed + parsed.value;
      order := order + [base];
    }
    pool := Some(found);
  }

  function PoolJob(f: Listed, path: string, dst: Path): Job {
    Job(path, dst, Some(f.Want()), false, false)
  }

  /** The jobs are those of the pool, one for each path. */
  predicate PoolJobs(w: World, pool: map<string, Listed>, jobs: seq<Job>) {
    && (forall p | p in pool :: w.joinRoot(p).Some? && PoolJob(pool[p], p, w.joinRoot(p).value) in jobs)
    && (forall j | j in jobs :: j.req in pool && w.joinRoot(j.req).Some? && j == PoolJob(pool[j.req], j.req, w.joinRoot(j.req).value))
  }

  method CollectPool(w: World, pool: map<string, Listed>) returns (jobs: Option<seq<Job>>)
    ensures jobs.Some? ==> PoolJobs(w, pool, jobs.value)
    ensures jobs.None? ==> exists p | p in pool :: w.joinRoot(p).None?
  {
    var js: seq<Job> := [];
    var pending := pool.Keys;
    while pending != {}
      invariant pending <= pool.Keys
      invariant forall p | p in pool.Keys - pending :: w.joinRoot(p).Some? && PoolJob(pool[p], p, w.joinRoot(p).value) in js
      invariant forall j | j in js :: j.req in pool && w.joinRoot(j.req).Some? && j == PoolJob(pool[j.req], j.req, w.joinRoot(j.req).value)
      decreases pending
    {
      var p :| p in pending;
      pending := pending - {p};
      var dst := w.joinRoot(p);
      if dst.None? {
        return None;
      }
      js := js + [PoolJob(pool[p], p, dst.value)];
    }
    return Some(js);
  }

  // ---------- Up to publication ----------

  /** Everything a run has decided before it publishes; leftovers are the
      indexes of which an earlier run's staged copy could not be removed. */
  datatype Batch = Batch(
    absent: Absent, authenticated: bool, data: Bytes, files: seq<Listed>,
    jobs: seq<Job>, states: seq<FileState>, leftovers: set<Path>, chosen: map<string, nat>,
    order: seq<string>, listed: seq<Listed>, pool: map<string, Listed>, poolJobs: seq<Job>, poolStates: seq<FileState>)

  /** The decisions follow from one another. */
  ghost predicate Planned(w: World, batch: Batch) {
    && |batch.states| == |batch.jobs| && |batch.poolStates| == |batch.poolJobs|
    && w.release(batch.data) == Some(batch.files)
    && IndexJobs(w, batch.files) == Some(batch.jobs)
    && MostPreferred(VariantsOf(w, batch.jobs, batch.states), batch.chosen)
    && (forall base :: base in batch.order <==> base in batch.chosen)
    && batch.pool == PoolOf(batch.listed) && PoolJobs(w, batch.pool, batch.poolJobs)
  }

  /** All destinations of a run. */
  function Everything(docs: Docs, jobs: seq<Job>, poolJobs: seq<Job>): seq<Job> {
    [PoolJob(Listed("", -1, map[]), "", docs.inRelease), PoolJob(Listed("", -1, map[]), "", docs.release), PoolJob(Listed("", -1, map[]), "", docs.gpg)]
    + jobs + poolJobs
  }

  lemma {:induction false} EverythingApart(docs: Docs, jobs: seq<Job>, poolJobs: seq<Job>)
    requires Distinct(Everything(docs, jobs, poolJobs))
    ensures Distinct(jobs) && Distinct(poolJobs) && docs.Valid()
    ensures forall i, x | 0 <= i < |jobs| && x in DocPaths(docs) :: jobs[i].dst != x
    ensures forall i, x | 0 <= i < |poolJobs| && x in DocPaths(docs) :: poolJobs[i].dst != x
    ensures forall i, j | 0 <= i < |jobs| && 0 <= j < |poolJobs| :: jobs[i].dst != poolJobs[j].dst
  {
    var all := Everything(docs, jobs, poolJobs);
    assert all[0].dst == docs.inRelease && all[1].dst == docs.release && all[2].dst == docs.gpg;
    forall i | 0 <= i < |jobs| ensures all[3 + i] == jobs[i] {
    }
    forall i | 0 <= i < |poolJobs| ensures all[3 + |jobs| + i] == poolJobs[i] {
    }
  }

  function DocPaths(docs: Docs): set<Path> {
    {docs.inRelease} + {docs.release} + {docs.gpg}
  }

  /** Distinct file names. */
  ghost predicate AllDistinct(docs: Docs, batch: Batch) {
    Distinct(Everything(docs, batch.jobs, batch.poolJobs))
  }

  /** A batch of downloads leaves other files' bytes. */
  lemma {:induction false} FootprintsBeside(jobs: seq<Job>, x: Path)
    requires Distinct(jobs) && !IsWork(x) && forall i | 0 <= i < |jobs| :: jobs[i].dst != x
    ensures x !in Footprints(jobs) && Staged(x) !in Footprints(jobs)
  {
    forall i | 0 <= i < |jobs| ensures x !in Footprint(jobs[i]) && Staged(x) !in Footprint(jobs[i]) {
      WorkNamesDiffer(x, jobs[i].dst);
    }
  }

  /** The indexes the release lists, staged. */
  method FetchIndexes(tree: Tree, w: World, data: Bytes, checked: bool)
    returns (ok: bool, fs: seq<Listed>, jobs: seq<Job>, states: seq<FileState>, keep: set<Path>, leftovers: set<Path>)
    requires tree.Valid()
    modifies tree
    ensures tree.Valid() && old(tree.log) <= tree.log && tree.statFaults >= old(tree.statFaults)
    ensures Within(tree.log, |old(tree.log)|, old(tree.files), tree.files, Footprints(jobs))
    ensures |states| == |jobs| && forall i | 0 <= i < |jobs| :: jobs[i].stage
    ensures ok ==> w.release(data) == Some(fs) && IndexJobs(w, fs) == Some(jobs)
    ensures ok && Distinct(jobs) ==>
              && IndexesReady(w.keys.hash, checked, tree.files, jobs, states, leftovers)
              && (forall i | 0 <= i < |jobs| && !states[i].FileMissing? :: jobs[i].dst in keep)
    ensures leftovers <= Dsts(jobs) && (Distinct(jobs) ==> forall p | p in leftovers :: Staged(p) in old(tree.files))
    ensures ok ==> keep <= LiveDsts(jobs, states)
  {
    fs, jobs, states, keep, leftovers := [], [], [], {}, {};
    if w.release(data).None? {
      return false, fs, jobs, states, keep, leftovers;
    }
    fs := w.release(data).value;
    var planned := CollectIndexes(w, fs);
    if planned.None? {
      return false, fs, jobs, states, keep, leftovers;
    }
    jobs := planned.value;
    ghost var a := tree.files;
    var error;
    ok, states, keep, leftovers, error := Many(tree, w.keys.hash, jobs, checked, {}, null);
    if ok { KeepIsLive(jobs, states, keep); }
    if ok && Distinct(jobs) { SettledIndexes(w.keys.hash, checked, a, tree.files, jobs, states, leftovers, keep); }
  }

  /** The chosen variants and the pool they list. */
  method PlanPool(tree: Tree, w: World, jobs: seq<Job>, states: seq<FileState>)
    returns (ok: bool, chosen: map<string, nat>, order: seq<string>, listed: seq<Listed>, pool: map<string, Listed>, poolJobs: seq<Job>)
    requires tree.Valid() && |states| == |jobs|
    ensures MostPreferred(VariantsOf(w, jobs, states), chosen)
    ensures forall base | base in order :: base in chosen
    ensures ok ==> (forall base | base in chosen :: base in order) && pool == PoolOf(listed) && PoolJobs(w, pool, poolJobs)
    ensures ok ==> SeenBy(w, tree.files, jobs, states, chosen, order) == Some(listed)
    ensures forall j | j in poolJobs :: !j.optional && !j.stage
  {
    pool, poolJobs := map[], [];
    var variants;
    variants, chosen := SelectVariants(w, jobs, states);
    var found;
    found, order, listed := ReadPool(tree, w, jobs, states, variants, chosen);
    if found.None? {
      return false, chosen, order, listed, pool, poolJobs;
    }
    pool := found.value;
    var planned := CollectPool(w, pool);
    if planned.None? {
      return false, chosen, order, listed, pool, poolJobs;
    }
    poolJobs := planned.value;
    ok := true;
  }

  /** The pool download leaves the indexes alone. */
  lemma {:induction false} PoolBeside(w: World, docs: Docs, batch: Batch, checked: bool, b: Files, c: Files)
    requires Planned(w, batch) && Distinct(Everything(docs, batch.jobs, batch.poolJobs)) && SameOutside(b, c, Footprints(batch.poolJobs))
    requires IndexesReady(w.keys.hash, checked, b, batch.jobs, batch.states, batch.leftovers)
    ensures IndexesReady(w.keys.hash, checked, c, batch.jobs, batch.states, batch.leftovers)
    ensures SeenBy(w, b, batch.jobs, batch.states, batch.chosen, batch.order) == SeenBy(w, c, batch.jobs, batch.states, batch.chosen, batch.order)
  {
    EverythingApart(docs, batch.jobs, batch.poolJobs);
    forall i | 0 <= i < |batch.jobs| ensures Same(b, c, batch.jobs[i].dst) && Same(b, c, Staged(batch.jobs[i].dst)) {
      FootprintsBeside(batch.poolJobs, batch.jobs[i].dst);
    }
    SeenByKept(w, b, c, batch.jobs, batch.states, batch.chosen, batch.order);
    IndexesReadyKept(w.keys.hash, checked, b, c, batch.jobs, batch.states, batch.leftovers);
  }

  /** All downloads leave the release documents alone. */
  lemma {:induction false} DocsBeside(w: World, docs: Docs, batch: Batch, mode: SignatureMode, a: Files, b: Files)
    requires Distinct(Everything(docs, batch.jobs, batch.poolJobs))
    requires SameOutside(a, b, Footprints(batch.jobs) + Footprints(batch.poolJobs))
    ensures Trusted(w.keys, a, docs, batch.absent, mode, batch.authenticated, batch.data) ==>
              Trusted(w.keys, b, docs, batch.absent, mode, batch.authenticated, batch.data)
  {
    EverythingApart(docs, batch.jobs, batch.poolJobs);
    forall x | x in DocPaths(docs) ensures Chosen(a, x) == Chosen(b, x) {
      FootprintsBeside(batch.jobs, x);
      FootprintsBeside(batch.poolJobs, x);
      assert Same(a, b, x) && Same(a, b, Staged(x));
    }
  }

  ghost function Touched(docs: Docs, batch: Batch): set<Path> {
    docs.Names() + Footprints(batch.jobs) + Footprints(batch.poolJobs)
  }

  /** The pool download and, for an authenticated release, miss.Finish. */
  method FetchPool(tree: Tree, w: World, poolJobs: seq<Job>, checked: bool, authenticated: bool, miss: Missing.Missing?)
    returns (ok: bool, states: seq<FileState>, keep: set<Path>)
    requires tree.Valid() && (miss != null ==> miss.Valid()) && forall j | j in poolJobs :: !j.optional && !j.stage
    modifies tree, if miss == null then {} else {miss}
    ensures tree.Valid() && old(tree.log) <= tree.log && tree.statFaults >= old(tree.statFaults)
    ensures Within(tree.log, |old(tree.log)|, old(tree.files), tree.files, Footprints(poolJobs)) && |states| == |poolJobs|
    ensures ok ==> if authenticated then Resolved(miss) else miss != null ==> miss.Valid()
    ensures ok ==> keep <= LiveDsts(poolJobs, states)
    ensures ok && Distinct(poolJobs) ==>
              Ready(w.keys.hash, checked, tree.files, poolJobs, states, LiveDsts(poolJobs, states), Recorded(miss)) && LiveDsts(poolJobs, states) <= keep
  {
    var leftovers, error;
    ok, states, keep, leftovers, error := Many(tree, w.keys.hash, poolJobs, checked, {}, miss);
    if !ok {
      return;
    }
    KeepIsLive(poolJobs, states, keep);
    if Distinct(poolJobs) {
      ReadyFromMany(w.keys.hash, checked, tree.files, poolJobs, states, leftovers, keep, Recorded(miss));
    }
    if authenticated && miss != null {
      var err := miss.Finish();
      ok := err.None?;
    }
  }

  /** What the indexes and the pool look like when all are fetched: the indexes
      meet the release, and the pool is that of the indexes as the run read
      them. */
  ghost predicate Fetched(w: World, files: Files, batch: Batch, checked: bool, missing: set<string>)
    requires Planned(w, batch)
  {
    && IndexesReady(w.keys.hash, checked, files, batch.jobs, batch.states, batch.leftovers)
    && SeenBy(w, files, batch.jobs, batch.states, batch.chosen, batch.order) == Some(batch.listed)
    && Ready(w.keys.hash, checked, files, batch.poolJobs, batch.poolStates, LiveDsts(batch.poolJobs, batch.poolStates), missing)
  }

  /** The indexes and pool files that were served. */
  function LiveFiles(batch: Batch): set<Path>
    requires |batch.states| == |batch.jobs| && |batch.poolStates| == |batch.poolJobs|
  {
    LiveDsts(batch.jobs, batch.states) + LiveDsts(batch.poolJobs, batch.poolStates)
  }

  /** Everything the release leads to, up to the first promotion. */
  method Gather(tree: Tree, w: World, docs: Docs, absent: Absent, authenticated: bool, data: Bytes, checked: bool, miss: Missing.Missing?)
    returns (ready: bool, batch: Batch, keep: set<Path>)
    requires tree.Valid() && docs.Valid() && (miss != null ==> miss.Valid())
    modifies tree, if miss == null then {} else {miss}
    ensures tree.Valid() && old(tree.log) <= tree.log && tree.statFaults >= old(tree.statFaults)
    ensures Within(tree.log, |old(tree.log)|, old(tree.files), tree.files, Footprints(batch.jobs) + Footprints(batch.poolJobs))
    ensures batch.absent == absent && batch.authenticated == authenticated && batch.data == data
    ensures forall i | 0 <= i < |batch.jobs| :: batch.jobs[i].stage
    ensures ready ==> Planned(w, batch) && keep <= LiveFiles(batch)
    ensures ready ==> if authenticated then Resolved(miss) else miss != null ==> miss.Valid()
    ensures batch.leftovers <= Dsts(batch.jobs)
    ensures ready && AllDistinct(docs, batch) ==>
              && KeepsAll(batch, keep) && (forall p | p in batch.leftovers :: Staged(p) in old(tree.files))
              && Fetched(w, tree.files, batch, checked, Recorded(miss))
  {
    batch, keep, ready := Batch(absent, authenticated, data, [], [], [], {}, map[], [], [], map[], [], []), {}, false;
    ghost var n, b := |tree.log|, tree.files;
    var ok, fs, jobs, states, kept, leftovers := FetchIndexes(tree, w, data, checked);
    batch := batch.(files := fs, jobs := jobs, states := states, leftovers := leftovers);
    ghost var c, m := tree.files, |tree.log|;
    WithinMore(tree.log, n, b, c, Footprints(jobs), Footprints(jobs) + Footprints([]));
    if !ok {
      return;
    }
    var chosen, order, listed, pool, poolJobs;
    ok, chosen, order, listed, pool, poolJobs := PlanPool(tree, w, jobs, states);
    if !ok {
      return;
    }
    var poolStates, more;
    ready, poolStates, more := FetchPool(tree, w, poolJobs, checked, authenticated, miss);
    batch := Batch(absent, authenticated, data, fs, jobs, states, leftovers, chosen, order, listed, pool, poolJobs, poolStates);
    WithinJoin(tree.log, n, m, b, c, tree.files, Footprints(jobs), Footprints(poolJobs));
    keep := kept + more;
    if ready && Distinct(Everything(docs, jobs, poolJobs)) {
      EverythingApart(docs, jobs, poolJobs);
      PoolBeside(w, docs, batch, checked, c, tree.files);
    }
  }

  /** What a tree holds when publication may begin. */
  ghost predicate Prepared(w: World, files: Files, docs: Docs, batch: Batch, mode: SignatureMode, checked: bool, missing: set<string>)
    requires Planned(w, batch)
  {
    && Trusted(w.keys, files, docs, batch.absent, mode, batch.authenticated, batch.data)
    && Fetched(w, files, batch, checked, missing)
  }

  /** syncDeb up to the first promotion; held says that staged release documents
      are waiting. */
  method Prepare(tree: Tree, w: World, docs: Docs, mode: SignatureMode, verify: bool, miss: Missing.Missing?)
    returns (held: bool, ready: bool, batch: Batch, keep: set<Path>, uncleared: set<Path>)
    requires tree.Valid() && docs.Valid() && (miss != null ==> miss.Valid())
    modifies tree, if miss == null then {} else {miss}
    ensures tree.Valid() && old(tree.log) <= tree.log && tree.statFaults >= old(tree.statFaults)
    ensures Within(tree.log, |old(tree.log)|, old(tree.files), tree.files, Touched(docs, batch))
    ensures !held ==> Cleared(tree.files, [docs.inRelease, docs.release, docs.gpg], uncleared)
    ensures forall i | 0 <= i < |batch.jobs| :: batch.jobs[i].stage
    ensures ready ==> held && Planned(w, batch) && keep <= LiveFiles(batch) && (mode.Required? ==> batch.authenticated)
    ensures ready ==> if batch.authenticated then Resolved(miss) else miss != null ==> miss.Valid()
    ensures ready && AllDistinct(docs, batch) ==>
              && KeepsAll(batch, keep) && AllChosen(tree.files, batch.jobs, batch.states)
              && (forall p | p in batch.leftovers :: Staged(p) in old(tree.files))
    ensures ready && AllDistinct(docs, batch) && tree.statFaults == old(tree.statFaults) ==>
              Prepared(w, tree.files, docs, batch, mode, verify || batch.authenticated, Recorded(miss))
  {
    ghost var n, a := |tree.log|, tree.files;
    var ok, absent, authenticated, data, unremoved := StageRelease(tree, w.keys, docs, mode);
    ghost var b, m := tree.files, |tree.log|;
    if !ok {
      batch := Batch(absent, authenticated, data, [], [], [], {}, map[], [], [], map[], [], []);
      WithinMore(tree.log, n, a, b, docs.Names(), Touched(docs, batch));
      return false, false, batch, {}, unremoved;
    }
    held, uncleared := true, {};
    ready, batch, keep := Gather(tree, w, docs, absent, authenticated, data, verify || authenticated, miss);
    WithinJoin(tree.log, n, m, a, b, tree.files, docs.Names(), Footprints(batch.jobs) + Footprints(batch.poolJobs));
    assert Touched(docs, batch) == docs.Names() + (Footprints(batch.jobs) + Footprints(batch.poolJobs));
    if ready && AllDistinct(docs, batch) {
      LeftFromBefore(docs, batch, a, b);
      DocsBeside(w, docs, batch, mode, b, tree.files);
    }
  }

  /** Everything present is in the keep set. */
  predicate KeepsAll(batch: Batch, keep: set<Path>)
    requires |batch.states| == |batch.jobs| && |batch.poolStates| == |batch.poolJobs|
  {
    && (forall i | 0 <= i < |batch.jobs| && !batch.states[i].FileMissing? :: batch.jobs[i].dst in keep)
    && LiveDsts(batch.poolJobs, batch.poolStates) <= keep
  }

  /** Staging the release documents stages no index. */
  lemma {:induction false} LeftFromBefore(docs: Docs, batch: Batch, a: Files, b: Files)
    requires AllDistinct(docs, batch) && SameOutside(a, b, docs.Names()) && batch.leftovers <= Dsts(batch.jobs)
    ensures forall p | p in batch.leftovers && Staged(p) in b :: Staged(p) in a
  {
    EverythingApart(docs, batch.jobs, batch.poolJobs);
    forall p | p in batch.leftovers && Staged(p) in b ensures Staged(p) in a {
      assert docs.inRelease in DocPaths(docs) && docs.release in DocPaths(docs) && docs.gpg in DocPaths(docs);
      var i :| 0 <= i < |batch.jobs| && batch.jobs[i].dst == p;
      WorkNamesDiffer(p, docs.inRelease);
      WorkNamesDiffer(p, docs.release);
      WorkNamesDiffer(p, docs.gpg);
      assert Same(a, b, Staged(p));
    }
  }

  // ---------- Publication ----------

  /** The live file is the one the tree c had ready for dst. */
  ghost predicate FileDone(c: Files, f: Files, dst: Path) {
    Chosen(c, dst) == if dst in f then Some(f[dst]) else None
  }

  /** The release documents in the order they are published. */
  function DocAt(docs: Docs, i: nat): Path {
    if i == 0 then docs.gpg else if i == 1 then docs.release else docs.inRelease
  }

  function AbsentAt(absent: Absent, i: nat): bool {
    if i == 0 then absent.gpg else if i == 1 then absent.release else absent.inRelease
  }

  /** A document's publication is over; removing one the upstream dropped may
      have failed. */
  ghost predicate DocDone(c: Files, f: Files, docs: Docs, absent: Absent, i: nat) {
    var dst := DocAt(docs, i);
    if AbsentAt(absent, i) then Same(c, f, dst) || dst !in f else FileDone(c, f, dst)
  }

  ghost predicate IndexesLive(c: Files, f: Files, batch: Batch)
    requires |batch.states| == |batch.jobs|
  {
    forall i | 0 <= i < |batch.jobs| && !batch.states[i].FileMissing? :: FileDone(c, f, batch.jobs[i].dst)
  }

  ghost predicate PoolSame(c: Files, f: Files, batch: Batch)
    requires |batch.poolStates| == |batch.poolJobs|
  {
    forall p | p in LiveDsts(batch.poolJobs, batch.poolStates) :: Same(c, f, p)
  }

  /** What publication replaces. */
  function Published(docs: Docs, batch: Batch): set<Path> {
    DocPaths(docs) + Dsts(batch.jobs)
  }

  /** Other live files are those of c, unless they were pruned. */
  ghost predicate NothingNew(c: Files, f: Files, docs: Docs, batch: Batch) {
    forall p | !IsWork(p) && p !in Published(docs, batch) && p in f :: p in c && f[p] == c[p]
  }

  lemma {:induction false} NothingNewStep(c: Files, b: Files, d: Files, docs: Docs, batch: Batch)
    requires NothingNew(c, b, docs, batch)
    requires forall p | !IsWork(p) && p !in Published(docs, batch) :: Same(b, d, p) || p !in d
    ensures NothingNew(c, d, docs, batch)
  {
    forall p | !IsWork(p) && p !in Published(docs, batch) && p in d ensures p in c && d[p] == c[p] {
      assert Same(b, d, p);
    }
  }

  /** A tree clients may see once publication has begun from c: the pool is in
      place, nothing but indexes and release documents is new, each index is the
      earlier or the new one, and a release document is new only when all
      indexes and the documents before it are. */
  ghost predicate Ordered(c: Files, f: Files, docs: Docs, batch: Batch)
    requires |batch.states| == |batch.jobs| && |batch.poolStates| == |batch.poolJobs|
  {
    && PoolSame(c, f, batch) && NothingNew(c, f, docs, batch)
    && (forall i | 0 <= i < |batch.jobs| && !batch.states[i].FileMissing? ::
          Same(c, f, batch.jobs[i].dst) || FileDone(c, f, batch.jobs[i].dst))
    && (forall i | 0 <= i < 3 ::
          Same(c, f, DocAt(docs, i)) ||
          (IndexesLive(c, f, batch) && forall j | 0 <= j < i :: DocDone(c, f, docs, batch.absent, j)))
  }

  /** Which documents wait for which: Release.gpg for the indexes, Release for
      Release.gpg too, and InRelease for everything. */
  lemma {:induction false} InReleaseLast(c: Files, f: Files, docs: Docs, batch: Batch)
    requires |batch.states| == |batch.jobs| && |batch.poolStates| == |batch.poolJobs| && Ordered(c, f, docs, batch)
    ensures Same(c, f, docs.gpg) || IndexesLive(c, f, batch)
    ensures
      || Same(c, f, docs.release)
      || (IndexesLive(c, f, batch) &&
          if batch.absent.gpg then Same(c, f, docs.gpg) || docs.gpg !in f else FileDone(c, f, docs.gpg))
    ensures
      || Same(c, f, docs.inRelease)
      || (IndexesLive(c, f, batch) &&
          (if batch.absent.gpg then Same(c, f, docs.gpg) || docs.gpg !in f else FileDone(c, f, docs.gpg)) &&
          if batch.absent.release then Same(c, f, docs.release) || docs.release !in f else FileDone(c, f, docs.release))
  {
    assert DocAt(docs, 0) == docs.gpg && DocAt(docs, 1) == docs.release && DocAt(docs, 2) == docs.inRelease;
    if !Same(c, f, docs.release) {
      assert DocDone(c, f, docs, batch.absent, 0);
    }
    if !Same(c, f, docs.inRelease) {
      assert DocDone(c, f, docs, batch.absent, 0) && DocDone(c, f, docs, batch.absent, 1);
    }
  }

  ghost predicate LogOrdered(log: seq<Files>, n: nat, c: Files, docs: Docs, batch: Batch)
    requires |batch.states| == |batch.jobs| && |batch.poolStates| == |batch.poolJobs|
  {
    forall k | n <= k < |log| :: Ordered(c, log[k], docs, batch)
  }

  /** Publication is over. */
  ghost predicate Final(c: Files, f: Files, docs: Docs, batch: Batch)
    requires |batch.states| == |batch.jobs| && |batch.poolStates| == |batch.poolJobs|
  {
    PoolSame(c, f, batch) && NothingNew(c, f, docs, batch) && IndexesLive(c, f, batch) && forall i | 0 <= i < 3 :: DocDone(c, f, docs, batch.absent, i)
  }

  lemma {:induction false} OrderedJoin(log: seq<Files>, n: nat, m: nat, c: Files, docs: Docs, batch: Batch)
    requires |batch.states| == |batch.jobs| && |batch.poolStates| == |batch.poolJobs| && n <= m <= |log|
    requires LogOrdered(log[..m], n, c, docs, batch) && LogOrdered(log, m, c, docs, batch)
    ensures LogOrdered(log, n, c, docs, batch)
  {
    forall k | n <= k < |log| ensures Ordered(c, log[k], docs, batch) {
      if k < m {
        assert Ordered(c, log[..m][k], docs, batch);
      }
    }
  }

  /** After i documents: those are done, the others as the tree c had them. */
  ghost predicate DocsAt(c: Files, b: Files, docs: Docs, batch: Batch, i: nat)
    requires |batch.states| == |batch.jobs| && |batch.poolStates| == |batch.poolJobs|
  {
    && PoolSame(c, b, batch) && IndexesLive(c, b, batch) && NothingNew(c, b, docs, batch)
    && (forall j | 0 <= j < 3 && j < i :: DocDone(c, b, docs, batch.absent, j))
    && (forall j | i <= j < 3 :: Same(c, b, DocAt(docs, j)) && Chosen(c, DocAt(docs, j)) == Chosen(b, DocAt(docs, j)))
  }

  lemma {:induction false} DocAtValid(docs: Docs)
    requires docs.Valid()
    ensures forall i | 0 <= i < 3 :: DocAt(docs, i) in DocPaths(docs) && !IsWork(DocAt(docs, i))
    ensures forall i, j | 0 <= i < j < 3 :: DocAt(docs, i) != DocAt(docs, j)
  {
  }

  /** Publishing one document touches nothing else. */
  lemma {:induction false} DocStep(b: Files, d: Files, docs: Docs, batch: Batch, i: nat)
    requires |batch.states| == |batch.jobs| && |batch.poolStates| == |batch.poolJobs| && i < 3
    requires Distinct(Everything(docs, batch.jobs, batch.poolJobs))
    requires SameOutside(b, d, {DocAt(docs, i), Staged(DocAt(docs, i))})
    ensures forall j | 0 <= j < 3 && j != i :: Same(b, d, DocAt(docs, j)) && Chosen(b, DocAt(docs, j)) == Chosen(d, DocAt(docs, j))
    ensures forall j | 0 <= j < |batch.jobs| :: Same(b, d, batch.jobs[j].dst)
    ensures forall p | p in LiveDsts(batch.poolJobs, batch.poolStates) :: Same(b, d, p)
  {
    var x := DocAt(docs, i);
    EverythingApart(docs, batch.jobs, batch.poolJobs);
    DocAtValid(docs);
    WorkNames(x);
    forall j | 0 <= j < 3 && j != i ensures Same(b, d, DocAt(docs, j)) && Chosen(b, DocAt(docs, j)) == Chosen(d, DocAt(docs, j)) {
      WorkNamesDiffer(DocAt(docs, j), x);
      assert Same(b, d, Staged(DocAt(docs, j)));
    }
  }

  lemma {:induction false} DocStepOrdered(c: Files, b: Files, d: Files, docs: Docs, batch: Batch, i: nat)
    requires |batch.states| == |batch.jobs| && |batch.poolStates| == |batch.poolJobs| && i < 3
    requires Distinct(Everything(docs, batch.jobs, batch.poolJobs))
    requires DocsAt(c, b, docs, batch, i) && SameOutside(b, d, {DocAt(docs, i), Staged(DocAt(docs, i))})
    ensures Ordered(c, d, docs, batch)
    ensures (if AbsentAt(batch.absent, i) then Same(b, d, DocAt(docs, i)) || DocAt(docs, i) !in d
             else d == Promoted(b, DocAt(docs, i))) ==> DocsAt(c, d, docs, batch, i + 1)
  {
    DocStep(b, d, docs, batch, i);
    WorkNames(DocAt(docs, i));
    NothingNewStep(c, b, d, docs, batch);
    forall j | 0 <= j < |batch.jobs| && !batch.states[j].FileMissing? ensures FileDone(c, d, batch.jobs[j].dst) {
      assert FileDone(c, b, batch.jobs[j].dst);
    }
    forall j | 0 <= j < i ensures DocDone(c, d, docs, batch.absent, j) {
      assert DocDone(c, b, docs, batch.absent, j);
    }
    ChosenIsPromoted(b, DocAt(docs, i));
  }

  /** One release document: promoted, or dropped with the upstream's. */
  method PromoteDoc(tree: Tree, dst: Path, absent: bool) returns (ok: bool, present: bool, failed: bool)
    requires tree.Valid()
    modifies tree
    ensures tree.Valid() && old(tree.log) <= tree.log && tree.statFaults >= old(tree.statFaults)
    ensures forall k | |old(tree.log)| <= k < |tree.log| :: tree.log[k] == tree.files
    ensures SameOutside(old(tree.files), tree.files, {dst, Staged(dst)})
    ensures if absent then ok && (Same(old(tree.files), tree.files, dst) || dst !in tree.files)
            else tree.files == if ok then Promoted(old(tree.files), dst) else old(tree.files)
    ensures ok && !absent && dst in tree.files && tree.statFaults == old(tree.statFaults) ==> present
    ensures absent && !failed ==> dst !in tree.files
    ensures present ==> !absent
  {
    failed := false;
    if absent {
      failed := RemoveStale(tree, dst);
      return true, false, failed;
    }
    ok := PromoteStaged(tree, dst);
    if !ok {
      return false, false, failed;
    }
    var err := tree.Stat(dst);
    present := err.Fine?;
  }

  /** The first n documents that the upstream does not serve are gone, apart from
      those of which the removal failed. */
  ghost predicate Dropped(f: Files, docs: Docs, absent: Absent, n: nat, stuck: set<Path>) {
    forall i | 0 <= i < n && i < 3 && AbsentAt(absent, i) :: DocAt(docs, i) !in f || DocAt(docs, i) in stuck
  }

  /** The release documents, InRelease last. */
  method PromoteDocs(tree: Tree, docs: Docs, batch: Batch, ghost n: nat, ghost c: Files, ghost sound: bool)
    returns (ok: bool, keep: set<Path>, stuck: set<Path>)
    requires tree.Valid() && |batch.states| == |batch.jobs| && |batch.poolStates| == |batch.poolJobs| && n <= |tree.log|
    requires sound ==>
               && Distinct(Everything(docs, batch.jobs, batch.poolJobs))
               && DocsAt(c, tree.files, docs, batch, 0) && LogOrdered(tree.log, n, c, docs, batch)
    modifies tree
    ensures tree.Valid() && old(tree.log) <= tree.log && tree.statFaults >= old(tree.statFaults)
    ensures sound ==> LogOrdered(tree.log, n, c, docs, batch)
    ensures sound && ok ==> Final(c, tree.files, docs, batch) && Dropped(tree.files, docs, batch.absent, 3, stuck)
    ensures keep <= DocPaths(docs)
    ensures sound && ok && tree.statFaults == old(tree.statFaults) ==>
              forall i | 0 <= i < 3 && !AbsentAt(batch.absent, i) && DocAt(docs, i) in tree.files :: DocAt(docs, i) in keep
  {
    keep, stuck := {}, {};
    for i := 0 to 3
      invariant tree.Valid() && old(tree.log) <= tree.log && tree.statFaults >= old(tree.statFaults) && keep <= DocPaths(docs)
      invariant sound ==> DocsAt(c, tree.files, docs, batch, i) && LogOrdered(tree.log, n, c, docs, batch)
      invariant sound ==> Dropped(tree.files, docs, batch.absent, i, stuck)
      invariant sound && tree.statFaults == old(tree.statFaults) ==>
                  forall j | 0 <= j < i && !AbsentAt(batch.absent, j) && DocAt(docs, j) in tree.files :: DocAt(docs, j) in keep
    {
      ghost var b, m := tree.files, |tree.log|;
      var present, failed;
      ok, present, failed := PromoteDoc(tree, DocAt(docs, i), AbsentAt(batch.absent, i));
      if sound {
        DocStep(b, tree.files, docs, batch, i);
        DocStepOrdered(c, b, tree.files, docs, batch, i);
        OrderedJoin(tree.log, n, m, c, docs, batch);
      }
      if !ok {
        return false, keep, stuck;
      }
      if failed {
        stuck := stuck + {DocAt(docs, i)};
      }
      if present {
        keep := keep + {DocAt(docs, i)};
      }
    }
    ok := true;
  }

  lemma {:induction false} PromotionBeside(docs: Docs, batch: Batch)
    requires |batch.states| == |batch.jobs| && |batch.poolStates| == |batch.poolJobs|
    requires Distinct(Everything(docs, batch.jobs, batch.poolJobs))
    ensures forall i | 0 <= i < 3 :: DocAt(docs, i) !in PromoteNames(batch.jobs) && Staged(DocAt(docs, i)) !in PromoteNames(batch.jobs)
    ensures forall p | p in LiveDsts(batch.poolJobs, batch.poolStates) :: p !in PromoteNames(batch.jobs)
  {
    EverythingApart(docs, batch.jobs, batch.poolJobs);
    DocAtValid(docs);
    forall i | 0 <= i < 3 ensures DocAt(docs, i) !in ExtraNames(batch.jobs) && Staged(DocAt(docs, i)) !in ExtraNames(batch.jobs) {
      Besides(DocAt(docs, i), batch.jobs);
    }
    forall p | p in LiveDsts(batch.poolJobs, batch.poolStates) ensures p !in ExtraNames(batch.jobs) {
      Besides(p, batch.jobs);
    }
  }

  lemma {:induction false} PromotedOnly(c: Files, f: Files, docs: Docs, batch: Batch)
    requires SameOutside(c, f, PromoteNames(batch.jobs))
    ensures NothingNew(c, f, docs, batch)
  {
    forall p | !IsWork(p) && p !in Published(docs, batch) ensures Same(c, f, p) {
      forall i | 0 <= i < |batch.jobs| ensures p !in {batch.jobs[i].dst} + {Staged(batch.jobs[i].dst)} {
        WorkNames(batch.jobs[i].dst);
        assert batch.jobs[i].dst in Dsts(batch.jobs);
      }
      assert p !in PromoteNames(batch.jobs);
    }
  }

  /** While indexes are promoted, pool and release documents stay. */
  lemma {:induction false} MovingOrdered(c: Files, f: Files, docs: Docs, batch: Batch)
    requires |batch.states| == |batch.jobs| && |batch.poolStates| == |batch.poolJobs|
    requires Distinct(Everything(docs, batch.jobs, batch.poolJobs))
    requires AllMoving(c, f, batch.jobs, batch.states) && SameOutside(c, f, PromoteNames(batch.jobs))
    ensures Ordered(c, f, docs, batch)
    ensures (forall i | 0 <= i < |batch.jobs| && !batch.states[i].FileMissing? :: InPlace(f, batch.jobs[i].dst)) ==> DocsAt(c, f, docs, batch, 0)
  {
    PromotionBeside(docs, batch);
    PromotedOnly(c, f, docs, batch);
    forall i | 0 <= i < 3 ensures Same(c, f, DocAt(docs, i)) && Chosen(c, DocAt(docs, i)) == Chosen(f, DocAt(docs, i)) {
      assert Same(c, f, Staged(DocAt(docs, i)));
    }
    forall i | 0 <= i < |batch.jobs| && !batch.states[i].FileMissing?
      ensures Same(c, f, batch.jobs[i].dst) || FileDone(c, f, batch.jobs[i].dst)
      ensures InPlace(f, batch.jobs[i].dst) ==> FileDone(c, f, batch.jobs[i].dst)
    {
      assert Moving(c, f, batch.jobs[i].dst);
    }
  }

  lemma {:induction false} PassOrdered(log: seq<Files>, n: nat, c: Files, docs: Docs, batch: Batch)
    requires |batch.states| == |batch.jobs| && |batch.poolStates| == |batch.poolJobs|
    requires Distinct(Everything(docs, batch.jobs, batch.poolJobs))
    requires LogMoving(log, n, c, batch.jobs, batch.states) && KeptSince(log, n, c, PromoteNames(batch.jobs))
    ensures LogOrdered(log, n, c, docs, batch)
  {
    forall k | n <= k < |log| ensures Ordered(c, log[k], docs, batch) {
      assert AllMoving(c, log[k], batch.jobs, batch.states) && SameOutside(c, log[k], PromoteNames(batch.jobs));
      MovingOrdered(c, log[k], docs, batch);
    }
  }

  /** Indexes, then release documents. */
  method Promote(tree: Tree, docs: Docs, batch: Batch, ghost sound: bool) returns (ok: bool, keep: set<Path>, stuck: set<Path>)
    requires tree.Valid() && |batch.states| == |batch.jobs| && |batch.poolStates| == |batch.poolJobs|
    requires sound ==> Distinct(Everything(docs, batch.jobs, batch.poolJobs)) && AllChosen(tree.files, batch.jobs, batch.states)
    modifies tree
    ensures tree.Valid() && old(tree.log) <= tree.log && tree.statFaults >= old(tree.statFaults)
    ensures sound ==> LogOrdered(tree.log, |old(tree.log)|, old(tree.files), docs, batch)
    ensures sound && ok ==> Final(old(tree.files), tree.files, docs, batch) && Dropped(tree.files, docs, batch.absent, 3, stuck)
    ensures keep <= DocPaths(docs)
    ensures sound && ok && tree.statFaults == old(tree.statFaults) ==>
              forall i | 0 <= i < 3 && !AbsentAt(batch.absent, i) && DocAt(docs, i) in tree.files :: DocAt(docs, i) in keep
  {
    ghost var n, c := |tree.log|, tree.files;
    ok, stuck := PromotePass(tree, batch.jobs, batch.states, None, false, n, c);
    if sound {
      EverythingApart(docs, batch.jobs, batch.poolJobs);
      PassOrdered(tree.log, n, c, docs, batch);
      MovingOrdered(c, tree.files, docs, batch);
    }
    if !ok {
      return false, {}, stuck;
    }
    ok, keep, stuck := PromoteDocs(tree, docs, batch, n, c, sound);
  }

  /** A finished publication survives any change elsewhere, and losing a
      document the upstream dropped. */
  lemma {:induction false} FinalKept(c: Files, d: Files, e: Files, docs: Docs, batch: Batch, keep: set<Path>)
    requires |batch.states| == |batch.jobs| && |batch.poolStates| == |batch.poolJobs|
    requires Final(c, d, docs, batch) && KeepsAll(batch, keep)
    requires forall i | 0 <= i < 3 && !AbsentAt(batch.absent, i) && DocAt(docs, i) in d :: DocAt(docs, i) in keep
    requires forall p | p in keep :: Same(d, e, p)
    requires forall i | 0 <= i < 3 :: Same(d, e, DocAt(docs, i)) || DocAt(docs, i) !in e
    requires forall p | !IsWork(p) && p !in Published(docs, batch) :: Same(d, e, p) || p !in e
    ensures Final(c, e, docs, batch) && Ordered(c, e, docs, batch)
  {
    NothingNewStep(c, d, e, docs, batch);
    forall p | p in LiveDsts(batch.poolJobs, batch.poolStates) ensures Same(c, e, p) {
      assert Same(c, d, p) && Same(d, e, p);
    }
    forall i | 0 <= i < |batch.jobs| && !batch.states[i].FileMissing? ensures FileDone(c, e, batch.jobs[i].dst) {
      assert FileDone(c, d, batch.jobs[i].dst) && Same(d, e, batch.jobs[i].dst);
    }
    forall i | 0 <= i < 3 ensures DocDone(c, e, docs, batch.absent, i) {
      assert DocDone(c, d, docs, batch.absent, i);
    }
  }

  /** Pruning after publication. */
  method PruneAfter(tree: Tree, docs: Docs, batch: Batch, dir: Path, keep: set<Path>, dirs: set<Path>, saved: Prune.Saved, now: int, grace: int,
                    ghost c: Files, ghost sound: bool)
    returns (saved': Prune.Saved, report: Option<Prune.Report>)
    requires tree.Valid() && |batch.states| == |batch.jobs| && |batch.poolStates| == |batch.poolJobs|
    requires sound ==>
               && Final(c, tree.files, docs, batch) && KeepsAll(batch, keep)
               && forall i | 0 <= i < 3 && !AbsentAt(batch.absent, i) && DocAt(docs, i) in tree.files :: DocAt(docs, i) in keep
    modifies tree
    ensures tree.Valid() && old(tree.log) <= tree.log && tree.statFaults >= old(tree.statFaults)
    ensures sound ==> LogOrdered(tree.log, |old(tree.log)|, c, docs, batch) && Final(c, tree.files, docs, batch)
    ensures forall p | p in tree.files :: p in old(tree.files)
    ensures Prune.Pruned(report, true, keep, tree.files, dir, saved, saved', now, grace)
  {
    ghost var d, n := tree.files, |tree.log|;
    var pruned, run, complete, _, _ := Prune.PruneTree(tree, dir, dirs, keep, saved, now, grace);
    saved', report := pruned, Some(Prune.Report(run, complete));
    Prune.KeptNotRemoved(run, if grace > 0 then saved else map[], grace);
    if sound {
      FinalKept(c, d, tree.files, docs, batch, keep);
      forall k | n <= k < |tree.log| ensures Ordered(c, tree.log[k], docs, batch) {
        assert Prune.OnlyRemoves(d, tree.log[k], run.removed);
        FinalKept(c, d, tree.log[k], docs, batch, keep);
      }
    }
  }

  /** The cleanup of release documents, which clients do not see. */
  method CleanAfter(tree: Tree, docs: Docs) returns (uncleared: set<Path>)
    requires tree.Valid() && docs.Valid()
    modifies tree`files, tree`log
    ensures tree.Valid() && old(tree.log) <= tree.log
    ensures LiveSame(old(tree.files), tree.files) && LiveSince(tree.log, |old(tree.log)|, old(tree.files))
    ensures Cleared(tree.files, [docs.inRelease, docs.release, docs.gpg], uncleared)
  {
    var names := [docs.inRelease, docs.release, docs.gpg];
    uncleared := Cleanup(tree, names);
    forall p | p in StagedNames(names) ensures IsWork(p) {
      var i :| 0 <= i < |names| && p == Staged(names[i]);
      WorkNames(names[i]);
    }
    WithinWorkIsLive(tree.log, |old(tree.log)|, old(tree.files), tree.files, StagedNames(names));
  }

  lemma {:induction false} OrderedLive(c: Files, d: Files, e: Files, docs: Docs, batch: Batch)
    requires |batch.states| == |batch.jobs| && |batch.poolStates| == |batch.poolJobs|
    requires Distinct(Everything(docs, batch.jobs, batch.poolJobs)) && LiveSame(d, e)
    ensures Ordered(c, d, docs, batch) ==> Ordered(c, e, docs, batch)
    ensures Final(c, d, docs, batch) ==> Final(c, e, docs, batch)
  {
    EverythingApart(docs, batch.jobs, batch.poolJobs);
    DocAtValid(docs);
    if NothingNew(c, d, docs, batch) { NothingNewStep(c, d, e, docs, batch); }
    forall i | 0 <= i < 3 ensures Same(d, e, DocAt(docs, i)) {
    }
    forall i | 0 <= i < 3 ensures DocDone(c, d, docs, batch.absent, i) ==> DocDone(c, e, docs, batch.absent, i) {
      assert Same(d, e, DocAt(docs, i));
    }
    forall i | 0 <= i < |batch.jobs| ensures FileDone(c, d, batch.jobs[i].dst) ==> FileDone(c, e, batch.jobs[i].dst) {
      assert Same(d, e, batch.jobs[i].dst);
    }
    forall p | p in LiveDsts(batch.poolJobs, batch.poolStates) ensures Same(c, d, p) ==> Same(c, e, p) {
      assert Same(d, e, p);
    }
    if IndexesLive(c, d, batch) {
      forall i | 0 <= i < |batch.jobs| && !batch.states[i].FileMissing? ensures FileDone(c, e, batch.jobs[i].dst) {
        assert FileDone(c, d, batch.jobs[i].dst);
      }
    }
    if Ordered(c, d, docs, batch) {
      forall i | 0 <= i < 3
        ensures Same(c, e, DocAt(docs, i)) ||
          (IndexesLive(c, e, batch) && forall j | 0 <= j < i :: DocDone(c, e, docs, batch.absent, j))
      {
        assert Same(d, e, DocAt(docs, i));
        assert Same(c, d, DocAt(docs, i)) ||
          (IndexesLive(c, d, batch) && forall j | 0 <= j < i :: DocDone(c, d, docs, batch.absent, j));
      }
    }
  }

  datatype Options = Options(mode: SignatureMode, verify: bool, prune: bool, grace: int)

  /** What the run pruned, if it was to; it keeps the release documents and what
      was served. */
  ghost predicate Tidied(docs: Docs, batch: Batch, report: Option<Prune.Report>, opts: Options, files: Files, dir: Path,
                         saved: Prune.Saved, saved': Prune.Saved, now: int)
  {
    && |batch.states| == |batch.jobs| && |batch.poolStates| == |batch.poolJobs|
    && Prune.Pruned(report, opts.prune, LiveFiles(batch) + DocPaths(docs), files, dir, saved, saved', now, opts.grace)
  }

  lemma {:induction false} TidiedStays(docs: Docs, batch: Batch, report: Option<Prune.Report>, opts: Options, a: Files, b: Files, dir: Path,
                                       saved: Prune.Saved, saved': Prune.Saved, now: int)
    requires LiveSame(a, b)
    ensures Tidied(docs, batch, report, opts, a, dir, saved, saved', now) ==> Tidied(docs, batch, report, opts, b, dir, saved, saved', now)
  {
    if Tidied(docs, batch, report, opts, a, dir, saved, saved', now) {
      Prune.PrunedStays(report, opts.prune, LiveFiles(batch) + DocPaths(docs), a, b, dir, saved, saved', now, opts.grace);
    }
  }

  method PromoteAndPrune(tree: Tree, docs: Docs, batch: Batch, dir: Path, opts: Options, keep: set<Path>,
                         dirs: set<Path>, saved: Prune.Saved, now: int, ghost sound: bool)
    returns (ok: bool, saved': Prune.Saved, stuck: set<Path>, report: Option<Prune.Report>, ghost faultless: bool)
    requires tree.Valid() && |batch.states| == |batch.jobs| && |batch.poolStates| == |batch.poolJobs|
    requires sound ==>
               && Distinct(Everything(docs, batch.jobs, batch.poolJobs))
               && AllChosen(tree.files, batch.jobs, batch.states) && KeepsAll(batch, keep)
    requires keep <= LiveFiles(batch)
    modifies tree
    ensures tree.Valid() && old(tree.log) <= tree.log && tree.statFaults >= old(tree.statFaults)
    ensures tree.statFaults == old(tree.statFaults) ==> faultless
    ensures ok ==> Tidied(docs, batch, report, opts, tree.files, dir, saved, saved', now)
    ensures sound && faultless ==>
              && LogOrdered(tree.log, |old(tree.log)|, old(tree.files), docs, batch)
              && (ok ==> Final(old(tree.files), tree.files, docs, batch) && Dropped(tree.files, docs, batch.absent, 3, stuck))
  {
    ghost var n, c := |tree.log|, tree.files;
    saved', report := saved, None;
    var more;
    ok, more, stuck := Promote(tree, docs, batch, sound);
    faultless := tree.statFaults == old(tree.statFaults);
    if ok && opts.prune {
      ghost var m := |tree.log|;
      saved', report := PruneAfter(tree, docs, batch, dir, keep + more, dirs, saved, now, opts.grace, c, sound && faultless);
      if sound && faultless { OrderedJoin(tree.log, n, m, c, docs, batch); }
    }
  }

  /** Everything from the first promotion on, with the deferred cleanup. */
  method Publish(tree: Tree, docs: Docs, batch: Batch, dir: Path, opts: Options, keep: set<Path>,
                 dirs: set<Path>, saved: Prune.Saved, now: int, ghost sound: bool)
    returns (ok: bool, saved': Prune.Saved, stuck: set<Path>, report: Option<Prune.Report>, uncleared: set<Path>, ghost faultless: bool)
    requires tree.Valid() && docs.Valid() && |batch.states| == |batch.jobs| && |batch.poolStates| == |batch.poolJobs|
    requires sound ==>
               && Distinct(Everything(docs, batch.jobs, batch.poolJobs))
               && AllChosen(tree.files, batch.jobs, batch.states) && KeepsAll(batch, keep)
    requires keep <= LiveFiles(batch)
    modifies tree
    ensures tree.Valid() && old(tree.log) <= tree.log && tree.statFaults >= old(tree.statFaults)
    ensures Cleared(tree.files, [docs.inRelease, docs.release, docs.gpg], uncleared)
    ensures tree.statFaults == old(tree.statFaults) ==> faultless
    ensures ok ==> Tidied(docs, batch, report, opts, tree.files, dir, saved, saved', now)
    ensures sound && faultless ==>
              && LogOrdered(tree.log, |old(tree.log)|, old(tree.files), docs, batch)
              && (ok ==> Final(old(tree.files), tree.files, docs, batch) && Dropped(tree.files, docs, batch.absent, 3, stuck))
  {
    ghost var n, c := |tree.log|, tree.files;
    ok, saved', stuck, report, faultless := PromoteAndPrune(tree, docs, batch, dir, opts, keep, dirs, saved, now, sound);
    ghost var d, m, before := tree.files, |tree.log|, tree.log;
    uncleared := CleanAfter(tree, docs);
    TidiedStays(docs, batch, report, opts, d, tree.files, dir, saved, saved', now);
    if sound && faultless {
      assert tree.log[..m] == before;
      DocAtValid(docs);
      CleanOrdered(tree.log, n, m, c, d, tree.files, docs, batch, ok);
    }
  }

  lemma {:induction false} CleanOrdered(log: seq<Files>, n: nat, m: nat, c: Files, d: Files, e: Files, docs: Docs, batch: Batch, ok: bool)
    requires |batch.states| == |batch.jobs| && |batch.poolStates| == |batch.poolJobs| && 0 < m && n <= m <= |log|
    requires Distinct(Everything(docs, batch.jobs, batch.poolJobs))
    requires LogOrdered(log[..m], n, c, docs, batch) && log[m - 1] == d && (m == n ==> c == d)
    requires LiveSince(log, m, d) && LiveSame(d, e) && (ok ==> Final(c, d, docs, batch))
    ensures LogOrdered(log, n, c, docs, batch) && (ok ==> Final(c, e, docs, batch))
  {
    if m > n {
      assert Ordered(c, log[..m][m - 1], docs, batch);
    }
    OrderedLive(c, d, e, docs, batch);
    forall k | m <= k < |log| ensures Ordered(c, log[k], docs, batch) {
      assert LiveSame(d, log[k]);
      OrderedLive(c, d, log[k], docs, batch);
    }
    OrderedJoin(log, n, m, c, docs, batch);
  }

  // ---------- The run ----------

  ghost predicate LiveExcept(a: Files, b: Files, except: set<Path>) {
    forall p | !IsWork(p) && p !in except :: Same(a, b, p)
  }

  ghost predicate OnlyPool(log: seq<Files>, n: nat, a: Files, batch: Batch) {
    forall k | n <= k < |log| :: LiveExcept(a, log[k], Dsts(batch.poolJobs))
  }

  /** Before publication clients see nothing but pool files arrive. */
  lemma {:induction false} TouchesOnlyPool(log: seq<Files>, n: nat, a: Files, files: Files, docs: Docs, batch: Batch)
    requires Within(log, n, a, files, Touched(docs, batch)) && forall i | 0 <= i < |batch.jobs| :: batch.jobs[i].stage
    ensures LiveExcept(a, files, Dsts(batch.poolJobs)) && OnlyPool(log, n, a, batch)
  {
    forall p | p in Touched(docs, batch) ensures IsWork(p) || p in Dsts(batch.poolJobs) {
      TouchedIsWork(docs, batch, p);
    }
    forall k | n <= k < |log| ensures LiveExcept(a, log[k], Dsts(batch.poolJobs)) {
      assert SameOutside(a, log[k], Touched(docs, batch));
    }
  }

  lemma {:induction false} TouchedIsWork(docs: Docs, batch: Batch, p: Path)
    requires p in Touched(docs, batch) && forall i | 0 <= i < |batch.jobs| :: batch.jobs[i].stage
    ensures IsWork(p) || p in Dsts(batch.poolJobs)
  {
    if p in Footprints(batch.jobs) {
      StagedFootprints(batch.jobs);
    } else if p in Footprints(batch.poolJobs) {
      var i :| 0 <= i < |batch.poolJobs| && p in Footprint(batch.poolJobs[i]);
      WorkNames(batch.poolJobs[i].dst);
    } else {
      WorkNames(docs.inRelease);
      WorkNames(docs.release);
      WorkNames(docs.gpg);
    }
  }

  /** The part of a run before publication. */
  method Begin(tree: Tree, w: World, docs: Docs, opts: Options, miss: Missing.Missing?)
    returns (ready: bool, batch: Batch, keep: set<Path>, uncleared: set<Path>)
    requires tree.Valid() && docs.Valid() && (miss != null ==> miss.Valid())
    modifies tree, if miss == null then {} else {miss}
    ensures tree.Valid() && old(tree.log) <= tree.log && tree.statFaults >= old(tree.statFaults)
    ensures OnlyPool(tree.log, |old(tree.log)|, old(tree.files), batch)
    ensures !ready ==> Cleared(tree.files, [docs.inRelease, docs.release, docs.gpg], uncleared)
    ensures ready ==> Planned(w, batch) && keep <= LiveFiles(batch) && (opts.mode.Required? ==> batch.authenticated)
    ensures ready ==> if batch.authenticated then Resolved(miss) else miss != null ==> miss.Valid()
    ensures ready && AllDistinct(docs, batch) ==>
              && KeepsAll(batch, keep) && AllChosen(tree.files, batch.jobs, batch.states)
              && (forall p | p in batch.leftovers :: Staged(p) in old(tree.files))
    ensures ready && AllDistinct(docs, batch) && tree.statFaults == old(tree.statFaults) ==>
              Prepared(w, tree.files, docs, batch, opts.mode, opts.verify || batch.authenticated, Recorded(miss))
  {
    var held;
    held, ready, batch, keep, uncleared := Prepare(tree, w, docs, opts.mode, opts.verify, miss);
    TouchesOnlyPool(tree.log, |old(tree.log)|, old(tree.files), tree.files, docs, batch);
    if !ready && held {
      ghost var b, m := tree.files, |tree.log|;
      uncleared := CleanAfter(tree, docs);
      forall k | m <= k < |tree.log| ensures LiveExcept(old(tree.files), tree.log[k], Dsts(batch.poolJobs)) {
        assert LiveSame(b, tree.log[k]);
      }
    }
  }

  /** An entry's file is live and has the size listed and, where digests are
      checked, the strongest digest listed, or it is recorded missing. */
  predicate Served(w: World, f: Files, x: Listed, checked: bool, missing: set<string>) {
    || x.path in missing
    || (w.joinRoot(x.path).Some? && w.joinRoot(x.path).value in f &&
        MeetsSums(w.keys.hash, x.size, x.sums, checked, f[w.joinRoot(x.path).value]))
  }

  /** What Ordered means for the pool: of every path that a chosen index lists, the
      first entry is served; with its digest, checked or not, if this run
      downloaded it. */
  lemma {:induction false} PoolServed(w: World, c: Files, f: Files, docs: Docs, batch: Batch, checked: bool, missing: set<string>)
    requires Planned(w, batch) && Fetched(w, c, batch, checked, missing) && Ordered(c, f, docs, batch)
    ensures forall x | x in batch.listed :: x.path in batch.pool && FirstListed(batch.listed, x.path, batch.pool[x.path])
    ensures forall x | x in batch.listed :: Served(w, f, batch.pool[x.path], checked, missing)
    ensures Distinct(batch.poolJobs) ==>
              forall x | x in batch.listed && w.joinRoot(x.path).Some? && w.joinRoot(x.path).value in FetchedDsts(batch.poolJobs, batch.poolStates) ::
                Served(w, f, batch.pool[x.path], true, {})
  {
    PoolIsFirstWins(batch.listed);
    ReadyKept(w.keys.hash, checked, c, f, batch.poolJobs, batch.poolStates, LiveDsts(batch.poolJobs, batch.poolStates), missing);
    PoolPaths(batch.listed);
    forall x | x in batch.listed
      ensures x.path in batch.pool && Served(w, f, batch.pool[x.path], checked, missing)
      ensures Distinct(batch.poolJobs) && w.joinRoot(x.path).Some? && w.joinRoot(x.path).value in FetchedDsts(batch.poolJobs, batch.poolStates) ==>
                Served(w, f, batch.pool[x.path], true, {})
    {
      var i :| 0 <= i < |batch.poolJobs| && batch.poolJobs[i] == PoolJob(batch.pool[x.path], x.path, w.joinRoot(x.path).value);
      PoolEntry(w, f, batch, checked, missing, x.path, i);
    }
  }

  lemma {:induction false} PoolPaths(listed: seq<Listed>)
    ensures forall p | p in PoolOf(listed) :: PoolOf(listed)[p].path == p
  {
    if listed != [] { PoolPaths(listed[..|listed| - 1]); }
  }

  lemma {:induction false} PoolEntry(w: World, f: Files, batch: Batch, checked: bool, missing: set<string>, p: string, i: nat)
    requires |batch.poolStates| == |batch.poolJobs|
    requires Ready(w.keys.hash, checked, f, batch.poolJobs, batch.poolStates, LiveDsts(batch.poolJobs, batch.poolStates), missing)
    requires p in batch.pool && batch.pool[p].path == p && i < |batch.poolJobs| && w.joinRoot(p).Some?
    requires batch.poolJobs[i] == PoolJob(batch.pool[p], p, w.joinRoot(p).value)
    ensures Served(w, f, batch.pool[p], checked, missing)
    ensures Distinct(batch.poolJobs) && w.joinRoot(p).value in FetchedDsts(batch.poolJobs, batch.poolStates) ==> Served(w, f, batch.pool[p], true, {})
  {
    var x, dst := batch.pool[p], w.joinRoot(p).value;
    if !batch.poolStates[i].FileMissing? {
      SumsMean(w.keys.hash, x.size, x.sums, checked || batch.poolStates[i].FileFetched?, f[dst]);
    }
    if Distinct(batch.poolJobs) && dst in FetchedDsts(batch.poolJobs, batch.poolStates) {
      var k :| 0 <= k < |batch.poolJobs| && batch.poolStates[k].FileFetched? && batch.poolJobs[k].dst == dst;
      assert k == i;
    }
  }

  // ---------- Which indexes are read ----------

  /** The path of a package or source index below the suite, in one of its
      compressions: a directory, the name and the ending. */
  predicate IndexPath(d: string, name: string, ending: string) {
    && (d == "" || d[|d| - 1] == '/') && (name == "Packages" || name == "Sources")
    && (ending == "" || ending == ".gz" || ending == ".xz" || ending == ".bz2" || ending == ".zst")
  }

  /** The first ending is preferred, or the same. */
  predicate Preferred(a: string, b: string) {
    || a == ".gz"
    || (a == ".xz" && b != ".gz")
    || (a == ".zst" && b != ".gz" && b != ".xz")
    || (a == ".bz2" && (b == ".bz2" || b == ""))
    || (a == "" && b == "")
  }

  lemma {:induction false} LastSegmentIs(d: string, name: string)
    requires (d == "" || d[|d| - 1] == '/') && forall i | 0 <= i < |name| :: name[i] != '/'
    ensures LastSegment(d + name) == name
    decreases |name|
  {
    if name == "" {
      assert d + name == d;
    } else {
      assert (d + name)[..|d + name| - 1] == d + name[..|name| - 1];
      LastSegmentIs(d, name[..|name| - 1]);
    }
  }

  lemma {:induction false} SplitIs(base: string, ending: string)
    requires base != "" && base[|base| - 1] == 's'
    requires ending == "" || ending == ".gz" || ending == ".xz" || ending == ".bz2" || ending == ".zst"
    ensures SplitExt(base + ending) == (base, ending)
  {
    var p := base + ending;
    assert p[..|base|] == base && p[|base|..] == ending && p[|p| - 1] == if ending == "" then 's' else ending[|ending| - 1];
    assert EndsWith(p, ".gz") <==> ending == ".gz" by { assert ".gz"[2] == 'z' && ".gz"[1] == 'g'; }
    assert EndsWith(p, ".xz") <==> ending == ".xz" by { assert ".xz"[2] == 'z' && ".xz"[1] == 'x'; }
    assert EndsWith(p, ".bz2") <==> ending == ".bz2" by { assert ".bz2"[3] == '2'; }
    assert EndsWith(p, ".zst") <==> ending == ".zst" by { assert ".zst"[3] == 't'; }
    assert SplitExt(p) == SplitExt(p, 0);
    assert SplitExt(p, 2) == if ending == ".bz2" || ending == ".zst" then (base, ending) else (p, "");
  }

  /** Such a path is a variant of that index. */
  lemma {:induction false} IsVariant(w: World, job: Job, state: FileState, d: string, name: string, ending: string)
    requires IndexPath(d, name, ending) && job.req == w.prefix + (d + name + ending)
    ensures VariantOf(w, job, state) == Variant(!state.FileMissing?, d + name, ending, Pref(ending))
  {
    assert PathOf(w, job) == d + name + ending by { assert job.req[|w.prefix|..] == d + name + ending; }
    IndexBase(d, name);
    SplitIs(d + name, ending);
  }

  lemma {:induction false} IndexBase(d: string, name: string)
    requires (d == "" || d[|d| - 1] == '/') && (name == "Packages" || name == "Sources")
    ensures d + name != "" && (d + name)[|d + name| - 1] == 's' && BaseName(d + name) == name
  {
    assert name[|name| - 1] == 's' && forall i | 0 <= i < |name| :: name[i] != '/';
    LastSegmentIs(d, name);
  }

  lemma {:induction false} EndingOf(p: string)
    ensures var (base, ending) := SplitExt(p);
            p == base + ending && (ending == "" || ending == ".gz" || ending == ".xz" || ending == ".bz2" || ending == ".zst")
  {
  }

  lemma {:induction false} PreferredByRank(a: string, b: string)
    requires a == "" || a == ".gz" || a == ".xz" || a == ".bz2" || a == ".zst"
    requires b == "" || b == ".gz" || b == ".xz" || b == ".bz2" || b == ".zst"
    ensures Pref(a) <= Pref(b) <==> Preferred(a, b)
  {
  }

  /** What a run takes a chosen index to list: it reads its own staged copy, or the
      live file where that is unchanged. */
  function ReadAs(w: World, c: Files, batch: Batch, k: nat, path: string): Option<seq<Listed>>
    requires k < |batch.jobs| == |batch.states|
  {
    var local := if batch.states[k].FileStaged? then Staged(batch.jobs[k].dst) else batch.jobs[k].dst;
    if local in c then w.index(path, c[local]) else None
  }

  /** What the run read of the index at this path, in the k-th job, is all in the
      pool. */
  ghost predicate ReadWhole(w: World, c: Files, batch: Batch, k: nat, path: string) {
    && k < |batch.jobs| == |batch.states| && batch.jobs[k].req == w.prefix + path && !batch.states[k].FileMissing?
    && ReadAs(w, c, batch, k, path).Some? && forall y | y in ReadAs(w, c, batch, k, path).value :: y in batch.listed
  }

  lemma {:induction false} SeenHas(w: World, c: Files, jobs: seq<Job>, states: seq<FileState>, chosen: map<string, nat>, order: seq<string>, listed: seq<Listed>, base: string)
    requires |states| == |jobs| && (forall b | b in order :: b in chosen && chosen[b] < |jobs|) && base in order
    requires SeenBy(w, c, jobs, states, chosen, order) == Some(listed)
    ensures
      var i := chosen[base];
      var data := LocalData(c, jobs[i], states[i]);
      data.Some? && w.index(PathOf(w, jobs[i]), data.value).Some? &&
      forall y | y in w.index(PathOf(w, jobs[i]), data.value).value :: y in listed
  {
    var front, last := order[..|order| - 1], order[|order| - 1];
    if base != last {
      SeenHas(w, c, jobs, states, chosen, front, SeenBy(w, c, jobs, states, chosen, front).value, base);
    }
  }

  lemma {:induction false} SeenOnly(w: World, c: Files, jobs: seq<Job>, states: seq<FileState>, chosen: map<string, nat>, order: seq<string>, listed: seq<Listed>, y: Listed)
    returns (base: string)
    requires |states| == |jobs| && forall b | b in order :: b in chosen && chosen[b] < |jobs|
    requires SeenBy(w, c, jobs, states, chosen, order) == Some(listed) && y in listed
    ensures base in order
    ensures
      var i := chosen[base];
      var data := LocalData(c, jobs[i], states[i]);
      data.Some? && w.index(PathOf(w, jobs[i]), data.value).Some? && y in w.index(PathOf(w, jobs[i]), data.value).value
  {
    var front, last := order[..|order| - 1], order[|order| - 1];
    var rest := SeenBy(w, c, jobs, states, chosen, front).value;
    if y in rest {
      base := SeenOnly(w, c, jobs, states, chosen, front, rest, y);
    } else {
      base := last;
    }
  }

  /** The path of an index job below the suite. */
  lemma {:induction false} PathBelow(w: World, batch: Batch, k: nat)
    requires Planned(w, batch) && k < |batch.jobs|
    ensures batch.jobs[k].req == w.prefix + PathOf(w, batch.jobs[k])
  {
    IndexJobsCover(w, batch.files);
    assert batch.jobs[k] in batch.jobs;
  }

  /** Of every package or source index that is served in some compression, one
      variant is read, none that is served is preferred to it, and all that it
      lists goes into the pool. */
  lemma {:induction false} IndexesAreRead(w: World, c: Files, batch: Batch, i: nat, d: string, name: string, ending: string) returns (k: nat, e: string)
    requires Planned(w, batch) && SeenBy(w, c, batch.jobs, batch.states, batch.chosen, batch.order) == Some(batch.listed)
    requires IndexPath(d, name, ending) && i < |batch.jobs| && batch.jobs[i].req == w.prefix + (d + name + ending) && !batch.states[i].FileMissing?
    ensures IndexPath(d, name, e) && Preferred(e, ending) && ReadWhole(w, c, batch, k, d + name + e)
    ensures d + name in batch.chosen && k == batch.chosen[d + name]
  {
    var vs := VariantsOf(w, batch.jobs, batch.states);
    IsVariant(w, batch.jobs[i], batch.states[i], d, name, ending);
    assert vs[i].candidate && vs[i].base == d + name;
    k := batch.chosen[d + name];
    e := vs[k].ext;
    EndingOf(PathOf(w, batch.jobs[k]));
    PathBelow(w, batch, k);
    PreferredByRank(e, ending);
    SeenHas(w, c, batch.jobs, batch.states, batch.chosen, batch.order, batch.listed, d + name);
  }

  lemma {:induction false} LastSegmentEnds(p: string)
    ensures |LastSegment(p)| <= |p| && p[|p| - |LastSegment(p)|..] == LastSegment(p)
    ensures |LastSegment(p)| < |p| ==> p[|p| - |LastSegment(p)| - 1] == '/'
    decreases |p|
  {
    if p != "" && p[|p| - 1] != '/' { LastSegmentEnds(p[..|p| - 1]); }
  }

  predicate Slashes(t: string) {
    forall i | 0 <= i < |t| :: t[i] == '/'
  }

  lemma {:induction false} BaseNameEnds(p: string) returns (d: string, t: string)
    requires BaseName(p) == "Packages" || BaseName(p) == "Sources"
    ensures p == d + BaseName(p) + t && (d == "" || d[|d| - 1] == '/') && Slashes(t)
    decreases |p|
  {
    if p[|p| - 1] == '/' {
      assert |p| > 1 by { assert |"Packages"| == 8 && |"Sources"| == 7; }
      var t': string;
      d, t' := BaseNameEnds(p[..|p| - 1]);
      t := t' + "/";
    } else {
      LastSegmentEnds(p);
      d, t := p[..|p| - |LastSegment(p)|], "";
    }
  }

  /** Nothing else is read: whatever the pool has comes from a served package or
      source index; path.Base ignores slashes before the ending. */
  lemma {:induction false} OnlyIndexesAreRead(w: World, c: Files, batch: Batch, y: Listed) returns (k: nat, d: string, name: string, t: string, e: string)
    requires Planned(w, batch) && SeenBy(w, c, batch.jobs, batch.states, batch.chosen, batch.order) == Some(batch.listed)
    requires y in batch.listed
    ensures IndexPath(d, name, e) && Slashes(t) && ReadWhole(w, c, batch, k, d + name + t + e)
    ensures y in ReadAs(w, c, batch, k, d + name + t + e).value
  {
    var base := SeenOnly(w, c, batch.jobs, batch.states, batch.chosen, batch.order, batch.listed, y);
    SeenHas(w, c, batch.jobs, batch.states, batch.chosen, batch.order, batch.listed, base);
    k := batch.chosen[base];
    var v := VariantsOf(w, batch.jobs, batch.states)[k];
    assert v.candidate && v.base == base;
    e, name := v.ext, BaseName(base);
    EndingOf(PathOf(w, batch.jobs[k]));
    PathBelow(w, batch, k);
    d, t := BaseNameEnds(base);
    assert d + name + t + e == PathOf(w, batch.jobs[k]);
  }

  /** One of the release documents is new. */
  ghost predicate DocumentNew(c: Files, f: Files, docs: Docs) {
    exists i | 0 <= i < 3 :: !Same(c, f, DocAt(docs, i))
  }

  /** The live index has the size and, where that is checked, the digest that the
      release lists. */
  predicate IndexMeets(w: World, f: Files, x: Listed, checked: bool) {
    && w.joinSuite(x.path).Some? && w.joinSuite(x.path).value in f
    && MeetsSums(w.keys.hash, x.size, x.sums, checked, f[w.joinSuite(x.path).value])
  }

  /** An entry of the release whose index the run wants; release documents list
      themselves. */
  predicate Wanted(w: World, batch: Batch, x: Listed) {
    x in batch.files && x.path != "InRelease" && x.path != "Release" && x.path != "Release.gpg" && w.wanted(x.path)
  }

  /** The i-th index job is for this entry. */
  predicate ListedAs(w: World, batch: Batch, i: nat, x: Listed)
    requires i < |batch.jobs|
  {
    && Wanted(w, batch, x) && w.joinSuite(x.path).Some?
    && batch.jobs[i].dst == w.joinSuite(x.path).value && batch.jobs[i].req == w.prefix + x.path
  }

  lemma {:induction false} ListedJob(w: World, batch: Batch, i: nat, x: Listed)
    requires Planned(w, batch) && Distinct(batch.jobs) && i < |batch.jobs| && ListedAs(w, batch, i, x)
    ensures batch.jobs[i].want == Some(SumsExpect(x.size, x.sums))
  {
    IndexJobsCover(w, batch.files);
    var k :| 0 <= k < |batch.jobs| && batch.jobs[k] == IndexJob(w, x, w.joinSuite(x.path).value);
    assert k == i;
  }

  /** Every wanted entry has its job. */
  lemma {:induction false} WantedHasJob(w: World, batch: Batch, x: Listed)
    requires Planned(w, batch) && Wanted(w, batch, x)
    ensures exists i | 0 <= i < |batch.jobs| :: ListedAs(w, batch, i, x) && batch.jobs[i].optional && batch.jobs[i].stage
  {
    IndexJobsCover(w, batch.files);
    var i :| 0 <= i < |batch.jobs| && batch.jobs[i] == IndexJob(w, x, w.joinSuite(x.path).value);
    assert ListedAs(w, batch, i, x);
  }

  /** And nothing else has one. */
  lemma {:induction false} JobsAreWanted(w: World, batch: Batch, i: nat) returns (x: Listed)
    requires Planned(w, batch) && i < |batch.jobs|
    ensures ListedAs(w, batch, i, x)
  {
    IndexJobsCover(w, batch.files);
    assert batch.jobs[i] in batch.jobs;
    x :| x in batch.files && !Skipped(w, x) && w.joinSuite(x.path).Some? && batch.jobs[i] == IndexJob(w, x, w.joinSuite(x.path).value);
  }

  /** The earlier staged copy that is published for an entry meets it too. */
  predicate CopyMeets(w: World, c: Files, batch: Batch, i: nat, x: Listed, checked: bool)
    requires i < |batch.jobs|
  {
    var copy := Staged(batch.jobs[i].dst);
    copy in c && MeetsSums(w.keys.hash, x.size, x.sums, checked, c[copy])
  }

  /** Once a document is new, every index that the release lists and the upstream
      served meets what the release says, exactly when that is so for the earlier
      staged copies that were published over unchanged indexes. */
  lemma {:induction false} IndexesMeetExactly(w: World, c: Files, f: Files, docs: Docs, batch: Batch, checked: bool, missing: set<string>)
    requires Planned(w, batch) && Fetched(w, c, batch, checked, missing) && AllDistinct(docs, batch)
    requires (Ordered(c, f, docs, batch) && DocumentNew(c, f, docs)) || Final(c, f, docs, batch)
    ensures
      (forall i, x | 0 <= i < |batch.jobs| && !batch.states[i].FileMissing? && ListedAs(w, batch, i, x) :: IndexMeets(w, f, x, checked))
      <==>
      (forall i, x | 0 <= i < |batch.jobs| && Overlaid(batch.jobs, batch.states, batch.leftovers, i) && ListedAs(w, batch, i, x) ::
         CopyMeets(w, c, batch, i, x, checked))
  {
    EverythingApart(docs, batch.jobs, batch.poolJobs);
    assert IndexesLive(c, f, batch);
    forall i, x | 0 <= i < |batch.jobs| && !batch.states[i].FileMissing? && ListedAs(w, batch, i, x)
      ensures IndexMeets(w, f, x, checked) <==>
                (Overlaid(batch.jobs, batch.states, batch.leftovers, i) ==> CopyMeets(w, c, batch, i, x, checked))
    {
      assert FileDone(c, f, batch.jobs[i].dst) && Chosen(c, batch.jobs[i].dst).Some?;
      ListedJob(w, batch, i, x);
      SumsMean(w.keys.hash, x.size, x.sums, checked, f[batch.jobs[i].dst]);
    }
  }

  /** What the indexes list as published, where no earlier staged copy was in the
      way: the files the run collected. */
  lemma {:induction false} PublishedIsSeen(w: World, c: Files, batch: Batch, checked: bool, missing: set<string>)
    requires Planned(w, batch) && Fetched(w, c, batch, checked, missing) && batch.leftovers == {}
    ensures ListedBy(w, c, batch.jobs, batch.chosen, batch.order) == Some(batch.listed)
  {
    SeenIsListed(w, c, batch.jobs, batch.states, batch.chosen, batch.order);
  }

  /** The entry a path is held to: of entries the run saw, the first one listed for
      the path counts. */
  function Judged(batch: Batch, x: Listed): Listed {
    if x in batch.listed && x.path in batch.pool then batch.pool[x.path] else x
  }

  /** Otherwise every tree clients see serves what the published indexes list
      exactly when it serves the entries the run did not see. */
  lemma {:induction false} ServedExactly(w: World, c: Files, f: Files, docs: Docs, batch: Batch, checked: bool, missing: set<string>, live: seq<Listed>)
    requires Planned(w, batch) && Fetched(w, c, batch, checked, missing) && Ordered(c, f, docs, batch)
    requires ListedBy(w, c, batch.jobs, batch.chosen, batch.order) == Some(live)
    ensures
      (forall x | x in live :: Served(w, f, Judged(batch, x), checked, missing))
      <==> (forall x | x in live && x !in batch.listed :: Served(w, f, x, checked, missing))
  {
    PoolIsFirstWins(batch.listed);
    PoolServed(w, c, f, docs, batch, checked, missing);
  }

  /** One entry the run did not see is enough, if its file was not there when
      publication began. */
  lemma {:induction false} UnseenEntryBreaks(w: World, c: Files, f: Files, docs: Docs, batch: Batch, checked: bool, missing: set<string>, x: Listed)
    requires |batch.states| == |batch.jobs| && |batch.poolStates| == |batch.poolJobs| && Ordered(c, f, docs, batch)
    requires x.path !in missing && w.joinRoot(x.path).Some?
    requires var p := w.joinRoot(x.path).value; !IsWork(p) && p !in Published(docs, batch) && p !in c
    ensures !Served(w, f, x, checked, missing)
  {
  }

  /** That happens when an index is unchanged and an earlier staged copy of it is
      still there: the run reads the live index and publishes the other one. */
  lemma {:induction false} LeftoverIsPublished(w: World, c: Files, batch: Batch, base: string)
    requires |batch.states| == |batch.jobs| && base in batch.chosen && batch.chosen[base] < |batch.jobs|
    requires batch.states[batch.chosen[base]].FileUnchanged?
    requires var dst := batch.jobs[batch.chosen[base]].dst; dst in c && Staged(dst) in c
    ensures
      var job := batch.jobs[batch.chosen[base]];
      && SeenBy(w, c, batch.jobs, batch.states, batch.chosen, [base]) == w.index(PathOf(w, job), c[job.dst])
      && ListedBy(w, c, batch.jobs, batch.chosen, [base]) == w.index(PathOf(w, job), c[Staged(job.dst)])
  {
    var none: seq<Listed> := [];
    assert [base][..0] == [];
    assert SeenBy(w, c, batch.jobs, batch.states, batch.chosen, []) == Some(none);
    assert ListedBy(w, c, batch.jobs, batch.chosen, []) == Some(none);
    forall more: seq<Listed> ensures none + more == more {
    }
  }

  /** Before publication, after a failed one, or done; complete says that no
      missing file is inside its retry budget. */
  datatype Outcome = Stopped | Broken | Synced(complete: bool)

  /** Publication, and the report of what is missing. */
  method Deliver(tree: Tree, docs: Docs, batch: Batch, dir: Path, opts: Options, keep: set<Path>, miss: Missing.Missing?,
                 dirs: set<Path>, saved: Prune.Saved, now: int, ghost sound: bool)
    returns (outcome: Outcome, saved': Prune.Saved, stuck: set<Path>, report: Option<Prune.Report>, uncleared: set<Path>, ghost faultless: bool)
    requires tree.Valid() && docs.Valid() && |batch.states| == |batch.jobs| && |batch.poolStates| == |batch.poolJobs|
    requires sound ==>
               && Distinct(Everything(docs, batch.jobs, batch.poolJobs))
               && AllChosen(tree.files, batch.jobs, batch.states) && KeepsAll(batch, keep)
    requires keep <= LiveFiles(batch)
    requires if batch.authenticated then Resolved(miss) else miss != null ==> miss.Valid()
    modifies tree, if miss == null then {} else {miss}
    ensures tree.Valid() && old(tree.log) <= tree.log && tree.statFaults >= old(tree.statFaults) && !outcome.Stopped?
    ensures Cleared(tree.files, [docs.inRelease, docs.release, docs.gpg], uncleared)
    ensures Recorded(miss) == old(Recorded(miss)) && (batch.authenticated ==> Resolved(miss))
    ensures outcome.Synced? ==> (outcome.complete <==> Resolved(miss)) && Tidied(docs, batch, report, opts, tree.files, dir, saved, saved', now)
    ensures tree.statFaults == old(tree.statFaults) ==> faultless
    ensures sound && faultless ==>
              && LogOrdered(tree.log, |old(tree.log)|, old(tree.files), docs, batch)
              && (outcome.Synced? ==> Final(old(tree.files), tree.files, docs, batch) && Dropped(tree.files, docs, batch.absent, 3, stuck))
  {
    var ok;
    ok, saved', stuck, report, uncleared, faultless := Publish(tree, docs, batch, dir, opts, keep, dirs, saved, now, sound);
    outcome := Broken;
    if ok {
      var complete := FinishLate(batch.authenticated, miss);
      outcome := Synced(complete);
    }
  }

  /** syncDeb. Before publication nothing clients see changes but pool files.
      From then on, in every tree they can see, the pool stays, an index is the
      earlier or the new one, and a release document is new only when all
      indexes and the documents published before it are, InRelease last. The
      pool has all files that the chosen, most preferred index variants list as
      the run read them, except the ones recorded missing; they are read as they
      are published, and meet what the release lists, unless an earlier staged
      index could not be removed. `verified` is the tree publication began with,
      `stuck` are the dropped documents it could not remove. */
  method Sync(tree: Tree, w: World, docs: Docs, dir: Path, opts: Options, miss: Missing.Missing?,
              dirs: set<Path>, saved: Prune.Saved, now: int)
    returns (outcome: Outcome, batch: Batch, saved': Prune.Saved, stuck: set<Path>, report: Option<Prune.Report>,
             uncleared: set<Path>, ghost verified: Files, ghost begun: nat)
    requires tree.Valid() && docs.Valid() && (miss != null ==> miss.Valid())
    modifies tree, if miss == null then {} else {miss}
    ensures tree.Valid() && old(tree.log) <= tree.log && |old(tree.log)| <= begun <= |tree.log|
    ensures OnlyPool(tree.log[..begun], |old(tree.log)|, old(tree.files), batch)
    ensures Cleared(tree.files, [docs.inRelease, docs.release, docs.gpg], uncleared)
    ensures outcome.Stopped? ==> begun == |tree.log|
    ensures !outcome.Stopped? ==> Planned(w, batch) && (opts.mode.Required? ==> batch.authenticated)
    ensures !outcome.Stopped? && batch.authenticated ==> Resolved(miss)
    ensures outcome.Synced? ==> (outcome.complete <==> Resolved(miss))
    ensures outcome.Synced? ==> Tidied(docs, batch, report, opts, tree.files, dir, saved, saved', now)
    ensures !outcome.Stopped? && AllDistinct(docs, batch) ==> forall p | p in batch.leftovers :: Staged(p) in old(tree.files)
    ensures !outcome.Stopped? && AllDistinct(docs, batch) && tree.statFaults == old(tree.statFaults) ==>
              Prepared(w, verified, docs, batch, opts.mode, opts.verify || batch.authenticated, Recorded(miss))
    ensures !outcome.Stopped? && AllDistinct(docs, batch) && tree.statFaults == old(tree.statFaults) ==>
              && LogOrdered(tree.log, begun, verified, docs, batch)
              && (outcome.Synced? ==> Final(verified, tree.files, docs, batch) && Dropped(tree.files, docs, batch.absent, 3, stuck))
  {
    saved', stuck, report := saved, {}, None;
    var ready, keep;
    ghost var faultless;
    ready, batch, keep, uncleared := Begin(tree, w, docs, opts, miss);
    verified, begun := tree.files, |tree.log|;
    assert tree.log[..begun] == tree.log;
    outcome := Stopped;
    if ready {
      outcome, saved', stuck, report, uncleared, faultless := Deliver(tree, docs, batch, dir, opts, keep, miss, dirs, saved, now, AllDistinct(docs, batch));
    }
  }

  /** An unauthenticated run reports missing files only after publication. */
  method FinishLate(authenticated: bool, miss: Missing.Missing?) returns (complete: bool)
    requires if authenticated then Resolved(miss) else miss != null ==> miss.Valid()
    modifies if miss == null then {} else {miss}
    ensures complete <==> Resolved(miss)
    ensures miss != null ==> miss.seen == old(miss.seen)
  {
    complete := true;
    if !authenticated && miss != null {
      var err := miss.Finish();
      complete := err.None?;
    }
  }
}
