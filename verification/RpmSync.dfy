/**
 A whole non-dry run of syncRPM (mirror/rpm.go) without traces: staging and
 checking the root, downloading what it lists, publishing and pruning.

 Parsers, hashing, the signature check and LocalJoin are parameters.
 */
module RpmSync {

  import opened Wrappers
  import opened Disk
  import opened Fetch
  import opened Transfers
  import opened Staging
  import opened RpmPublish
  import Missing
  import Prune

  /** One file an index lists. */
  datatype Entry = Entry(kind: string, href: string, size: int, algo: string, digest: string)

  datatype World = World(
    hash: Hash,
    verify: Verify,
    repomd: Bytes -> Option<seq<Entry>>,
    primary: Bytes -> Option<seq<Entry>>,
    deltas: Bytes -> Option<seq<Entry>>,
    join: string -> Option<Path>)

  function WantOf(e: Entry): Expect {
    MakeExpect(e.size, e.algo, e.digest)
  }

  function JobOf(e: Entry, dst: Path): Job {
    Job(e.href, dst, Some(WantOf(e)), false, false)
  }

  /** The downloads for a list of entries; None when a location escapes the
      destination. */
  function JobsOf(w: World, es: seq<Entry>): Option<seq<Job>> {
    if es == [] then Some([])
    else
      var rest, e := JobsOf(w, es[..|es| - 1]), es[|es| - 1];
      if rest.None? || e.href == "" then rest
      else if w.join(e.href).None? then None
      else Some(rest.value + [JobOf(e, w.join(e.href).value)])
  }

  predicate IsDelta(e: Entry) {
    e.href != "" && (e.kind == "prestodelta" || e.kind == "deltainfo")
  }

  /** The last primary index listed. */
  function PrimaryOf(es: seq<Entry>): (r: Option<Entry>)
    ensures r.Some? ==> r.value in es && r.value.href != "" && r.value.kind == "primary"
    ensures r.None? ==> forall e | e in es && e.href != "" :: e.kind != "primary"
  {
    if es == [] then None
    else if es[|es| - 1].href != "" && es[|es| - 1].kind == "primary" then Some(es[|es| - 1])
    else PrimaryOf(es[..|es| - 1])
  }

  function DeltasOf(es: seq<Entry>): (r: seq<Entry>)
    ensures forall e :: e in r <==> e in es && IsDelta(e)
  {
    if es == [] then []
    else DeltasOf(es[..|es| - 1]) + if IsDelta(es[|es| - 1]) then [es[|es| - 1]] else []
  }

  /** What one index file lists. */
  function Index(w: World, files: Files, parse: Bytes -> Option<seq<Entry>>, e: Entry): Option<seq<Entry>> {
    var dst := w.join(e.href);
    if dst.Some? && dst.value in files then parse(files[dst.value]) else None
  }

  /** The packages of the primary index followed by those of the deltas. */
  function Listed(w: World, files: Files, primary: Entry, deltas: seq<Entry>): Option<seq<Entry>> {
    if deltas == [] then Index(w, files, w.primary, primary)
    else
      var rest := Listed(w, files, primary, deltas[..|deltas| - 1]);
      var more := Index(w, files, w.deltas, deltas[|deltas| - 1]);
      if rest.None? || more.None? then None else Some(rest.value + more.value)
  }

  /** An index as the run reads it: its staged copy in the tree `stale`, or else
      the live file. */
  function SeenIndex(w: World, stale: Files, files: Files, parse: Bytes -> Option<seq<Entry>>, e: Entry): Option<seq<Entry>> {
    var dst := w.join(e.href);
    if dst.None? then None
    else if Staged(dst.value) in stale then parse(stale[Staged(dst.value)])
    else Index(w, files, parse, e)
  }

  /** What the run takes the indexes to list. */
  function Seen(w: World, stale: Files, files: Files, primary: Entry, deltas: seq<Entry>): Option<seq<Entry>> {
    if deltas == [] then SeenIndex(w, stale, files, w.primary, primary)
    else
      var rest := Seen(w, stale, files, primary, deltas[..|deltas| - 1]);
      var more := SeenIndex(w, stale, files, w.deltas, deltas[|deltas| - 1]);
      if rest.None? || more.None? then None else Some(rest.value + more.value)
  }

  /** No staged copy of an index was lying about. */
  predicate NoStaged(w: World, files: Files, md: seq<Entry>) {
    forall e | e in md && e.href != "" && w.join(e.href).Some? :: Staged(w.join(e.href).value) !in files
  }

  /** Without stale copies it is what the live indexes list. */
  lemma {:induction false} SeenIsListed(w: World, stale: Files, files: Files, md: seq<Entry>, primary: Entry, deltas: seq<Entry>)
    requires NoStaged(w, stale, md) && forall e | e == primary || e in deltas :: e in md && e.href != ""
    ensures Seen(w, stale, files, primary, deltas) == Listed(w, files, primary, deltas)
  {
    if deltas != [] {
      assert deltas[|deltas| - 1] in deltas;
      SeenIsListed(w, stale, files, md, primary, deltas[..|deltas| - 1]);
    }
  }

  lemma {:induction false} SeenKept(w: World, stale: Files, stale': Files, a: Files, b: Files, primary: Entry, deltas: seq<Entry>)
    requires forall e | e == primary || e in deltas :: w.join(e.href).Some? ==>
               Same(a, b, w.join(e.href).value) && Same(stale, stale', Staged(w.join(e.href).value))
    ensures Seen(w, stale, a, primary, deltas) == Seen(w, stale', b, primary, deltas)
  {
    if deltas != [] {
      assert deltas[|deltas| - 1] in deltas;
      SeenKept(w, stale, stale', a, b, primary, deltas[..|deltas| - 1]);
    }
  }

  // ---------- What a complete repository is ----------

  /** The entry's file is live, has the size listed and, where digests are
      checked, the digest listed. */
  predicate Present(w: World, files: Files, e: Entry, checked: bool) {
    && w.join(e.href).Some?
    && w.join(e.href).value in files
    && MeetsEntry(w.hash, e.size, e.algo, e.digest, checked, files[w.join(e.href).value])
  }

  predicate AllPresent(w: World, files: Files, es: seq<Entry>, checked: bool, missing: set<string>) {
    forall e | e in es && e.href != "" :: Present(w, files, e, checked) || e.href in missing
  }

  /** repomd.xml is live, every metadata file it lists is live, and so is every
      package and delta those list, except the ones recorded missing. */
  predicate Complete(w: World, files: Files, repomd: Path, checked: bool, missing: set<string>) {
    && repomd in files
    && var md := w.repomd(files[repomd]);
    && md.Some?
    && AllPresent(w, files, md.value, checked, {})
    && PrimaryOf(md.value).Some?
    && var packages := Listed(w, files, PrimaryOf(md.value).value, DeltasOf(md.value));
    && packages.Some?
    && AllPresent(w, files, packages.value, checked, missing)
  }

  /** Entries downloaded by this run have their digests in any case. */
  predicate FetchedMeet(w: World, files: Files, es: seq<Entry>, fetched: set<Path>) {
    forall e | e in es && e.href != "" && w.join(e.href).Some? && w.join(e.href).value in fetched :: Present(w, files, e, true)
  }

  /** The paths completeness rests on. */
  predicate Covered(w: World, es: seq<Entry>, kept: set<Path>, missing: set<string>) {
    forall e | e in es && e.href != "" :: (w.join(e.href).Some? && w.join(e.href).value in kept) || e.href in missing
  }

  /** What a run that began with the tree `before` brings together: repomd.xml,
      the metadata it lists and everything the indexes list as the run read
      them; kept are the paths that have to stay, fetched those this run downloaded. */
  predicate Assembled(w: World, before: Files, files: Files, repomd: Path, md: seq<Entry>, listed: seq<Entry>,
                      kept: set<Path>, fetched: set<Path>, checked: bool, missing: set<string>) {
    && repomd in kept && repomd in files && w.repomd(files[repomd]) == Some(md) && PrimaryOf(md).Some?
    && Seen(w, before, files, PrimaryOf(md).value, DeltasOf(md)) == Some(listed)
    && AllPresent(w, files, md, checked, {}) && Covered(w, md, kept, {})
    && AllPresent(w, files, listed, checked, missing) && Covered(w, listed, kept, missing)
    && fetched <= kept && FetchedMeet(w, files, md, fetched) && FetchedMeet(w, files, listed, fetched)
  }

  /** It survives any change elsewhere; without stale copies the repository is
      complete. */
  lemma {:induction false} AssembledKept(w: World, before: Files, a: Files, b: Files, repomd: Path, md: seq<Entry>, listed: seq<Entry>,
                      kept: set<Path>, fetched: set<Path>, checked: bool, missing: set<string>)
    requires Assembled(w, before, a, repomd, md, listed, kept, fetched, checked, missing)
    requires forall p | p in kept :: Same(a, b, p)
    ensures Assembled(w, before, b, repomd, md, listed, kept, fetched, checked, missing)
    ensures NoStaged(w, before, md) ==> Complete(w, b, repomd, checked, missing)
  {
    var primary := PrimaryOf(md).value;
    assert Same(a, b, repomd);
    forall e | e == primary || e in DeltasOf(md)
      ensures w.join(e.href).Some? && Same(a, b, w.join(e.href).value)
    {
      assert e in md && e.href != "";
    }
    SeenKept(w, before, before, a, b, primary, DeltasOf(md));
    if NoStaged(w, before, md) { SeenIsListed(w, before, b, md, primary, DeltasOf(md)); }
  }

  // ---------- What that means ----------

  /** The last entry of a kind "primary". */
  predicate LastPrimary(md: seq<Entry>, i: int) {
    && 0 <= i < |md| && md[i].href != "" && md[i].kind == "primary"
    && forall j | i < j < |md| :: md[j].href == "" || md[j].kind != "primary"
  }

  lemma {:induction false} PrimaryIsLast(md: seq<Entry>, i: int)
    requires LastPrimary(md, i)
    ensures PrimaryOf(md) == Some(md[i])
  {
    if i < |md| - 1 { PrimaryIsLast(md[..|md| - 1], i); }
  }

  predicate DeltaIndex(e: Entry) {
    e.href != "" && (e.kind == "prestodelta" || e.kind == "deltainfo")
  }

  /** Everything that is read is listed. */
  lemma {:induction false} SeenHas(w: World, stale: Files, files: Files, primary: Entry, deltas: seq<Entry>, listed: seq<Entry>)
    requires Seen(w, stale, files, primary, deltas) == Some(listed)
    ensures SeenIndex(w, stale, files, w.primary, primary).Some?
    ensures forall x | x in SeenIndex(w, stale, files, w.primary, primary).value :: x in listed
    ensures forall e | e in deltas :: SeenIndex(w, stale, files, w.deltas, e).Some?
    ensures forall e, x | e in deltas && x in SeenIndex(w, stale, files, w.deltas, e).value :: x in listed
  {
    if deltas != [] {
      SeenHas(w, stale, files, primary, deltas[..|deltas| - 1], Seen(w, stale, files, primary, deltas[..|deltas| - 1]).value);
    }
  }

  /** An index could be read, and what it lists is there or recorded missing. */
  predicate IndexServed(w: World, files: Files, index: Option<seq<Entry>>, checked: bool, missing: set<string>) {
    index.Some? && forall x | x in index.value && x.href != "" :: Present(w, files, x, checked) || x.href in missing
  }

  /** What the run read: the last primary index and all delta indexes, and all
      that they list is there. */
  lemma {:induction false} AssembledMeans(w: World, before: Files, files: Files, repomd: Path, md: seq<Entry>, listed: seq<Entry>,
                       kept: set<Path>, fetched: set<Path>, checked: bool, missing: set<string>)
    requires Assembled(w, before, files, repomd, md, listed, kept, fetched, checked, missing)
    ensures forall e | e in md && e.href != "" :: Present(w, files, e, checked)
    ensures forall i | LastPrimary(md, i) :: IndexServed(w, files, SeenIndex(w, before, files, w.primary, md[i]), checked, missing)
    ensures forall e | e in md && DeltaIndex(e) :: IndexServed(w, files, SeenIndex(w, before, files, w.deltas, e), checked, missing)
  {
    SeenHas(w, before, files, PrimaryOf(md).value, DeltasOf(md), listed);
    forall i | LastPrimary(md, i) ensures PrimaryOf(md) == Some(md[i]) {
      PrimaryIsLast(md, i);
    }
    assert forall e | e in md && DeltaIndex(e) :: e in DeltasOf(md);
  }

  /** What a complete repository is, in its own terms: repomd.xml, every file it
      lists, and everything that the last primary index and all delta indexes
      list, live and as listed, or recorded missing. */
  lemma {:induction false} CompleteMeans(w: World, files: Files, repomd: Path, checked: bool, missing: set<string>)
    requires Complete(w, files, repomd, checked, missing)
    ensures repomd in files && w.repomd(files[repomd]).Some?
    ensures
      var md := w.repomd(files[repomd]).value;
      && (forall e | e in md && e.href != "" :: Present(w, files, e, checked))
      && (exists i :: LastPrimary(md, i))
      && (forall i | LastPrimary(md, i) :: IndexServed(w, files, w.primary(files[w.join(md[i].href).value]), checked, missing))
      && (forall e | e in md && DeltaIndex(e) :: IndexServed(w, files, w.deltas(files[w.join(e.href).value]), checked, missing))
  {
    var md := w.repomd(files[repomd]).value;
    var primary, deltas := PrimaryOf(md).value, DeltasOf(md);
    var listed := Listed(w, files, primary, deltas).value;
    assert NoStaged(w, map[], md);
    SeenIsListed(w, map[], files, md, primary, deltas);
    SeenHas(w, map[], files, primary, deltas, listed);
    HasLastPrimary(md);
    forall i | LastPrimary(md, i) ensures PrimaryOf(md) == Some(md[i]) {
      PrimaryIsLast(md, i);
    }
    assert forall e | e in md && DeltaIndex(e) :: e in deltas;
  }

  lemma {:induction false} HasLastPrimary(md: seq<Entry>)
    requires PrimaryOf(md).Some?
    ensures exists i :: LastPrimary(md, i)
  {
    var front, last := md[..|md| - 1], md[|md| - 1];
    if last.href != "" && last.kind == "primary" {
      assert LastPrimary(md, |md| - 1);
    } else {
      HasLastPrimary(front);
      var i :| LastPrimary(front, i);
      assert LastPrimary(md, i);
    }
  }

  // ---------- From entries to jobs ----------

  method CollectJobs(w: World, es: seq<Entry>) returns (jobs: Option<seq<Job>>)
    ensures jobs == JobsOf(w, es)
  {
    var js: seq<Job> := [];
    for i := 0 to |es|
      invariant JobsOf(w, es[..i]) == Some(js)
    {
      assert es[..i + 1][..i] == es[..i];
      if es[i].href == "" {
        continue;
      }
      var dst := w.join(es[i].href);
      if dst.None? {
        FailsFromPrefix((s: seq<Entry>) => JobsOf(w, s).None?, es, i + 1);
        return None;
      }
      js := js + [JobOf(es[i], dst.value)];
    }
    assert es[..|es|] == es;
    return Some(js);
  }

  lemma {:induction false} PlanNext(w: World, md: seq<Entry>, i: nat)
    requires i < |md|
    ensures
      var before, data := JobsOf(w, md[..i]), md[i];
      JobsOf(w, md[..i + 1]) ==
        if before.None? || data.href == "" then before
        else if w.join(data.href).None? then None
        else Some(before.value + [JobOf(data, w.join(data.href).value)])
    ensures PrimaryOf(md[..i + 1]) == if md[i].href != "" && md[i].kind == "primary" then Some(md[i]) else PrimaryOf(md[..i])
    ensures DeltasOf(md[..i + 1]) == DeltasOf(md[..i]) + if IsDelta(md[i]) then [md[i]] else []
  {
    assert md[..i + 1][..i] == md[..i];
  }

  /** The loop over repomd's data elements. */
  method PlanMetadata(w: World, md: seq<Entry>) returns (jobs: Option<seq<Job>>, primary: Option<Entry>, deltas: seq<Entry>)
    ensures jobs == JobsOf(w, md)
    ensures jobs.Some? ==> primary == PrimaryOf(md) && deltas == DeltasOf(md)
  {
    var js: seq<Job> := [];
    primary, deltas := None, [];
    for i := 0 to |md|
      invariant JobsOf(w, md[..i]) == Some(js)
      invariant primary == PrimaryOf(md[..i]) && deltas == DeltasOf(md[..i])
    {
      PlanNext(w, md, i);
      var data := md[i];
      if data.href == "" {
        continue;
      }
      var dst := w.join(data.href);
      if dst.None? {
        FailsFromPrefix((s: seq<Entry>) => JobsOf(w, s).None?, md, i + 1);
        return None, primary, deltas;
      }
      if data.kind == "primary" {
        primary := Some(data);
      } else if data.kind == "prestodelta" || data.kind == "deltainfo" {
        deltas := deltas + [data];
      }
      js := js + [JobOf(data, dst.value)];
    }
    assert md[..|md|] == md;
    jobs := Some(js);
  }

  /** Every entry with a location has its job, and jobs are mandatory and not
      staged. */
  lemma {:induction false} JobsCover(w: World, es: seq<Entry>)
    requires JobsOf(w, es).Some?
    ensures forall e | e in es && e.href != "" ::
              w.join(e.href).Some? && JobOf(e, w.join(e.href).value) in JobsOf(w, es).value
    ensures forall j | j in JobsOf(w, es).value :: !j.optional && !j.stage && j.want.Some?
  {
    if es != [] {
      JobsCover(w, es[..|es| - 1]);
    }
  }

  // ---------- Jobs that are done ----------

  lemma {:induction false} ReadyCovers(w: World, es: seq<Entry>, checked: bool, files: Files, jobs: seq<Job>, states: seq<FileState>, kept: set<Path>, missing: set<string>)
    requires JobsOf(w, es) == Some(jobs) && Ready(w.hash, checked, files, jobs, states, kept, missing)
    ensures AllPresent(w, files, es, checked, missing) && Covered(w, es, kept, missing)
    ensures Distinct(jobs) ==> FetchedMeet(w, files, es, FetchedDsts(jobs, states))
  {
    JobsCover(w, es);
    forall e | e in es && e.href != ""
      ensures w.join(e.href).Some?
      ensures Present(w, files, e, checked) || e.href in missing
      ensures w.join(e.href).value in kept || e.href in missing
      ensures Distinct(jobs) && w.join(e.href).value in FetchedDsts(jobs, states) ==> Present(w, files, e, true)
    {
      var i :| 0 <= i < |jobs| && jobs[i] == JobOf(e, w.join(e.href).value);
      ReadyEntry(w, checked, files, jobs, states, kept, missing, e, i);
    }
  }

  lemma {:induction false} ReadyEntry(w: World, checked: bool, files: Files, jobs: seq<Job>, states: seq<FileState>, kept: set<Path>, missing: set<string>, e: Entry, i: nat)
    requires Ready(w.hash, checked, files, jobs, states, kept, missing) && i < |jobs|
    requires w.join(e.href).Some? && jobs[i] == JobOf(e, w.join(e.href).value)
    ensures (Present(w, files, e, checked) && w.join(e.href).value in kept) || e.href in missing
    ensures Distinct(jobs) && w.join(e.href).value in FetchedDsts(jobs, states) ==> Present(w, files, e, true)
  {
    if !states[i].FileMissing? { JobMeets(w, files, e, checked || states[i].FileFetched?); }
    if Distinct(jobs) && w.join(e.href).value in FetchedDsts(jobs, states) {
      var k :| 0 <= k < |jobs| && states[k].FileFetched? && jobs[k].dst == w.join(e.href).value;
      assert k == i;
    }
  }

  /** What a job is held to is what its entry says. */
  lemma {:induction false} JobMeets(w: World, files: Files, e: Entry, checked: bool)
    requires w.join(e.href).Some? && w.join(e.href).value in files
    requires Acceptable(w.hash, JobOf(e, w.join(e.href).value).want.value, checked, files[w.join(e.href).value])
    ensures Present(w, files, e, checked) && (checked ==> Present(w, files, e, false))
  {
    ExpectMeans(w.hash, e.size, e.algo, e.digest, checked, files[w.join(e.href).value]);
  }

  /** Downloads for other entries leave that as it is. */
  lemma {:induction false} FetchedApart(w: World, files: Files, es: seq<Entry>, jobs: seq<Job>, fetched: set<Path>, more: set<Path>, others: seq<Job>)
    requires JobsOf(w, es) == Some(jobs) && FetchedMeet(w, files, es, fetched) && more <= Dsts(others)
    requires forall i, j | 0 <= i < |jobs| && 0 <= j < |others| :: jobs[i].dst != others[j].dst
    ensures FetchedMeet(w, files, es, fetched + more)
  {
    JobsCover(w, es);
    forall e | e in es && e.href != "" && w.join(e.href).Some? && w.join(e.href).value in fetched + more
      ensures w.join(e.href).value in fetched
    {
      var job := JobOf(e, w.join(e.href).value);
      var i :| 0 <= i < |jobs| && jobs[i] == job;
    }
  }

  // ---------- The root ----------

  function RootWork(root: Root): set<Path> {
    StageNames(root.repomd) + StageNames(root.sig) + StageNames(root.key)
  }

  /** One generation of repomd.xml and its signature material. */
  method StageGeneration(tree: Tree, w: World, root: Root, again: bool, ghost n: nat, ghost a: Files)
    returns (ok: bool, sigMissing: bool, keyMissing: bool)
    requires tree.Valid() && root.Valid() && n <= |tree.log| && Within(tree.log, n, a, tree.files, RootWork(root))
    modifies tree
    ensures tree.Valid() && old(tree.log) <= tree.log && tree.statFaults >= old(tree.statFaults)
    ensures Within(tree.log, n, a, tree.files, RootWork(root))
    ensures ok ==> Chosen(tree.files, root.repomd).Some?
  {
    var r, _ := StageOne(tree, w.hash, root.repomd, None, again, n, a, RootWork(root));
    if r.Err? {
      return false, false, false;
    }
    ghost var error;
    ok, sigMissing, error := StageOptional(tree, w.hash, root.sig, again, n, a, RootWork(root), root.repomd);
    if !ok {
      return false, false, false;
    }
    ok, keyMissing, error := StageOptional(tree, w.hash, root.key, again, n, a, RootWork(root), root.repomd);
  }

  /** The same files with other flags. */
  function Flagged(root: Root, sigMissing: bool, keyMissing: bool): (r: Root)
    requires root.Valid()
    ensures r.Valid() && r.Paths() == root.Paths() && r.Touched() == root.Touched() && RootWork(r) == RootWork(root)
  {
    root.(sigMissing := sigMissing, keyMissing := keyMissing)
  }

  datatype Attempt = Unusable | Refetch | Usable(root: Root, authenticated: bool)

  ghost predicate GoodRoot(w: World, files: Files, root: Root, mode: SignatureMode, r: Root, authenticated: bool, faultless: bool)
    requires root.Valid()
  {
    && r == Flagged(root, r.sigMissing, r.keyMissing)
    && Chosen(files, r.repomd).Some?
    && (mode.Required? ==> authenticated) && (mode.Off? ==> !authenticated) && (!mode.Off? && !r.sigMissing ==> authenticated)
    && (authenticated ==> !r.sigMissing && (faultless ==> Accepted(w.verify, files, r.repomd, r.sig)))
  }

  /** One pass of stageRPMRoot's loop. */
  method TryRoot(tree: Tree, w: World, root: Root, mode: SignatureMode, again: bool, ghost n: nat, ghost a: Files)
    returns (r: Attempt)
    requires tree.Valid() && root.Valid() && n <= |tree.log| && Within(tree.log, n, a, tree.files, RootWork(root))
    modifies tree
    ensures tree.Valid() && old(tree.log) <= tree.log && tree.statFaults >= old(tree.statFaults)
    ensures Within(tree.log, n, a, tree.files, RootWork(root))
    ensures r.Usable? ==> GoodRoot(w, tree.files, root, mode, r.root, r.authenticated, tree.statFaults == old(tree.statFaults))
  {
    var ok, sigMissing, keyMissing := StageGeneration(tree, w, root, again, n, a);
    if !ok {
      return Unusable;
    }
    var staged := Flagged(root, sigMissing, keyMissing);
    if mode.Off? {
      return Usable(staged, false);
    }
    if sigMissing {
      return if mode.Required? then Unusable else Usable(staged, false);
    }
    var good := VerifyPair(tree, w.verify, root.repomd, root.sig);
    return if good then Usable(staged, true) else Refetch;
  }

  /** stageRPMRoot: the required mode always ends authenticated, and an
      authenticated root is a pair the verifier took. A failed check refetches
      the complete set once: a root that could be used is given up only after
      two refused generations. */
  method StageRoot(tree: Tree, w: World, root: Root, mode: SignatureMode) returns (r: Option<Root>, authenticated: bool, stuck: set<Path>, refused: nat, unusable: bool)
    requires tree.Valid() && root.Valid()
    modifies tree
    ensures tree.Valid() && old(tree.log) <= tree.log && tree.statFaults >= old(tree.statFaults)
    ensures Within(tree.log, |old(tree.log)|, old(tree.files), tree.files, RootWork(root))
    ensures r.Some? ==> GoodRoot(w, tree.files, root, mode, r.value, authenticated, tree.statFaults == old(tree.statFaults))
    ensures r.None? ==> Cleared(tree.files, [root.repomd, root.sig, root.key], stuck) && (unusable || refused == 2)
  {
    ghost var n, a := |tree.log|, tree.files;
    stuck, refused, unusable := root.Paths(), 0, false;
    for attempt := 0 to 2
      invariant tree.Valid() && old(tree.log) <= tree.log && tree.statFaults >= old(tree.statFaults)
      invariant Within(tree.log, n, a, tree.files, RootWork(root)) && stuck == root.Paths() && refused == attempt
    {
      var one := TryRoot(tree, w, root, mode, attempt > 0, n, a);
      if one.Usable? {
        return Some(one.root), one.authenticated, stuck, refused, unusable;
      }
      if one.Refetch? { refused := refused + 1; }
      if one.Unusable? || attempt > 0 {
        stuck := CleanupRoot(tree, root, n, a);
        return None, false, stuck, refused, one.Unusable?;
      }
    }
    return None, false, stuck, refused, unusable;
  }

  method CleanupRoot(tree: Tree, root: Root, ghost n: nat, ghost a: Files) returns (stuck: set<Path>)
    requires tree.Valid() && n <= |tree.log| && Within(tree.log, n, a, tree.files, RootWork(root))
    modifies tree`files, tree`log
    ensures tree.Valid() && old(tree.log) <= tree.log
    ensures Within(tree.log, n, a, tree.files, RootWork(root))
    ensures Cleared(tree.files, [root.repomd, root.sig, root.key], stuck)
  {
    ghost var b, m := tree.files, |tree.log|;
    stuck := Cleanup(tree, [root.repomd, root.sig, root.key]);
    WithinJoin(tree.log, n, m, a, b, tree.files, RootWork(root), StagedNames([root.repomd, root.sig, root.key]));
    assert RootWork(root) + StagedNames([root.repomd, root.sig, root.key]) == RootWork(root);
  }

  // ---------- Metadata and packages ----------

  /** Metadata files go straight into place. */
  method FetchMetadata(tree: Tree, w: World, root: Root, checked: bool)
    returns (ok: bool, md: seq<Entry>, jobs: seq<Job>, states: seq<FileState>, keep: set<Path>)
    requires tree.Valid()
    modifies tree
    ensures tree.Valid() && old(tree.log) <= tree.log && tree.statFaults >= old(tree.statFaults)
    ensures Within(tree.log, |old(tree.log)|, old(tree.files), tree.files, Footprints(jobs))
    ensures ok ==> JobsOf(w, md) == Some(jobs) && |states| == |jobs| && keep <= LiveDsts(jobs, states)
    ensures ok && tree.statFaults == old(tree.statFaults) ==>
              Chosen(old(tree.files), root.repomd).Some? && w.repomd(Chosen(old(tree.files), root.repomd).value) == Some(md)
    ensures ok && Distinct(jobs) ==>
              Ready(w.hash, checked, tree.files, jobs, states, LiveDsts(jobs, states), {}) && LiveDsts(jobs, states) <= keep
    ensures ok ==> PrimaryOf(md).Some?
    ensures forall j | j in jobs :: !j.stage
  {
    md, jobs, states, keep := [], [], [], {};
    var data := ReadChosen(tree, root.repomd);
    if data.None? || w.repomd(data.value).None? {
      return false, md, jobs, states, keep;
    }
    md := w.repomd(data.value).value;
    var planned, primary, _ := PlanMetadata(w, md);
    if planned.None? {
      return false, md, jobs, states, keep;
    }
    jobs := planned.value;
    JobsCover(w, md);
    var leftovers, error;
    ok, states, keep, leftovers, error := Many(tree, w.hash, jobs, checked, {}, null);
    if ok { KeepIsLive(jobs, states, keep); }
    if ok && Distinct(jobs) {
      ReadyFromMany(w.hash, checked, tree.files, jobs, states, leftovers, keep, {});
    }
    ok := ok && primary.Some?;
  }

  method ReadIndex(tree: Tree, w: World, parse: Bytes -> Option<seq<Entry>>, e: Entry) returns (r: Option<seq<Entry>>)
    requires tree.Valid()
    modifies tree`statFaults
    ensures tree.statFaults >= old(tree.statFaults)
    ensures r.Some? && tree.statFaults == old(tree.statFaults) ==> r == SeenIndex(w, tree.files, tree.files, parse, e)
  {
    var dst := w.join(e.href);
    if dst.None? {
      return None;
    }
    var data := ReadChosen(tree, dst.value);
    return if data.Some? then parse(data.value) else None;
  }

  /** Reads the primary index and the delta indexes, each from its staged copy
      where an earlier run left one. */
  method ReadListed(tree: Tree, w: World, md: seq<Entry>) returns (listed: Option<seq<Entry>>)
    requires tree.Valid() && PrimaryOf(md).Some?
    modifies tree`statFaults
    ensures tree.statFaults >= old(tree.statFaults)
    ensures listed.Some? && tree.statFaults == old(tree.statFaults) ==>
              listed == Seen(w, tree.files, tree.files, PrimaryOf(md).value, DeltasOf(md))
  {
    var primary, deltas := PrimaryOf(md).value, DeltasOf(md);
    listed := ReadIndex(tree, w, w.primary, primary);
    if listed.None? {
      return None;
    }
    for i := 0 to |deltas|
      invariant tree.statFaults >= old(tree.statFaults) && listed.Some?
      invariant tree.statFaults == old(tree.statFaults) ==> listed == Seen(w, tree.files, tree.files, primary, deltas[..i])
    {
      var more := ReadIndex(tree, w, w.deltas, deltas[i]);
      if more.None? {
        return None;
      }
      assert deltas[..i + 1][..i] == deltas[..i];
      listed := Some(listed.value + more.value);
    }
    assert deltas[..|deltas|] == deltas;
  }

  method FetchPackages(tree: Tree, w: World, md: seq<Entry>, checked: bool, miss: Missing.Missing?)
    returns (ok: bool, listed: seq<Entry>, jobs: seq<Job>, states: seq<FileState>, keep: set<Path>)
    requires tree.Valid() && PrimaryOf(md).Some? && (miss != null ==> miss.Valid())
    modifies tree, if miss == null then {} else {miss}
    ensures tree.Valid() && old(tree.log) <= tree.log && tree.statFaults >= old(tree.statFaults)
    ensures miss != null ==> miss.Valid()
    ensures Within(tree.log, |old(tree.log)|, old(tree.files), tree.files, Footprints(jobs))
    ensures ok ==> JobsOf(w, listed) == Some(jobs) && |states| == |jobs| && keep <= LiveDsts(jobs, states)
    ensures ok && tree.statFaults == old(tree.statFaults) ==>
              Seen(w, old(tree.files), old(tree.files), PrimaryOf(md).value, DeltasOf(md)) == Some(listed)
    ensures ok && Distinct(jobs) ==>
              Ready(w.hash, checked, tree.files, jobs, states, LiveDsts(jobs, states), Recorded(miss)) && LiveDsts(jobs, states) <= keep
    ensures forall j | j in jobs :: !j.stage
  {
    listed, jobs, states, keep := [], [], [], {};
    var found := ReadListed(tree, w, md);
    if found.None? {
      return false, listed, jobs, states, keep;
    }
    listed := found.value;
    var planned := CollectJobs(w, listed);
    if planned.None? {
      return false, listed, jobs, states, keep;
    }
    jobs := planned.value;
    JobsCover(w, listed);
    var leftovers, error;
    ok, states, keep, leftovers, error := Many(tree, w.hash, jobs, checked, {}, miss);
    if ok { KeepIsLive(jobs, states, keep); }
    if ok && Distinct(jobs) {
      ReadyFromMany(w.hash, checked, tree.files, jobs, states, leftovers, keep, Recorded(miss));
    }
  }

  // ---------- The whole run ----------

  datatype Batch = Batch(md: seq<Entry>, metaJobs: seq<Job>, metaStates: seq<FileState>,
                         listed: seq<Entry>, jobs: seq<Job>, states: seq<FileState>) {
    predicate Sized() {
      |metaStates| == |metaJobs| && |states| == |jobs|
    }

    /** The paths that make up the repository after this run. */
    function Kept(repomd: Path): set<Path>
      requires Sized()
    {
      {repomd} + LiveDsts(metaJobs, metaStates) + LiveDsts(jobs, states)
    }

    /** What this run downloaded. */
    function Fetched(): set<Path>
      requires Sized()
    {
      FetchedDsts(metaJobs, metaStates) + FetchedDsts(jobs, states)
    }
  }

  /** All destinations are different, and none is a root file. */
  ghost predicate AllSeparated(root: Root, batch: Batch) {
    Separated(root, batch.metaJobs + batch.jobs)
  }

  predicate Unstaged(batch: Batch) {
    (forall j | j in batch.metaJobs :: !j.stage) && (forall j | j in batch.jobs :: !j.stage)
  }

  /** The jobs are those of the entries. */
  predicate Planned(w: World, batch: Batch) {
    batch.Sized() && JobsOf(w, batch.md) == Some(batch.metaJobs) && JobsOf(w, batch.listed) == Some(batch.jobs)
  }

  /** A path none of the jobs writes. */
  lemma {:induction false} NotWritten(jobs: seq<Job>, p: Path)
    requires Distinct(jobs) && !IsWork(p) && forall i | 0 <= i < |jobs| :: jobs[i].dst != p && !jobs[i].stage
    ensures p !in Footprints(jobs) && Staged(p) !in Footprints(jobs)
  {
    forall i | 0 <= i < |jobs| ensures p !in Footprint(jobs[i]) && Staged(p) !in Footprint(jobs[i]) {
      WorkNamesDiffer(p, jobs[i].dst);
    }
  }

  lemma {:induction false} Halves(root: Root, batch: Batch)
    requires AllSeparated(root, batch)
    ensures Separated(root, batch.metaJobs) && Separated(root, batch.jobs)
    ensures forall i, j | 0 <= i < |batch.metaJobs| && 0 <= j < |batch.jobs| :: batch.metaJobs[i].dst != batch.jobs[j].dst
  {
    var all := batch.metaJobs + batch.jobs;
    forall i | 0 <= i < |batch.metaJobs| ensures all[i] == batch.metaJobs[i] {
    }
    forall j | 0 <= j < |batch.jobs| ensures all[|batch.metaJobs| + j] == batch.jobs[j] {
    }
  }

  /** What the run read of the indexes, in terms of the tree it began with. */
  lemma {:induction false} SeenFromStart(w: World, root: Root, batch: Batch, a0: Files, a: Files, b: Files, d: Files)
    requires root.Valid() && batch.Sized() && AllSeparated(root, batch) && PrimaryOf(batch.md).Some?
    requires JobsOf(w, batch.md) == Some(batch.metaJobs)
    requires SameOutside(a0, a, RootWork(root)) && SameOutside(a, b, Footprints(batch.metaJobs))
    requires forall p | p in Dsts(batch.metaJobs) :: Same(b, d, p)
    ensures Seen(w, b, b, PrimaryOf(batch.md).value, DeltasOf(batch.md)) == Seen(w, a0, d, PrimaryOf(batch.md).value, DeltasOf(batch.md))
  {
    JobsCover(w, batch.md);
    Halves(root, batch);
    forall e | e == PrimaryOf(batch.md).value || e in DeltasOf(batch.md)
      ensures w.join(e.href).Some? && Same(b, d, w.join(e.href).value) && Same(b, a0, Staged(w.join(e.href).value))
    {
      var dst := w.join(e.href).value;
      var i :| 0 <= i < |batch.metaJobs| && batch.metaJobs[i] == JobOf(e, dst);
      assert dst in Dsts(batch.metaJobs);
      StagedNotRoot(root, dst);
      StagedNotWritten(batch.metaJobs, dst);
      assert Same(a0, a, Staged(dst)) && Same(a, b, Staged(dst));
    }
    SeenKept(w, b, a0, b, d, PrimaryOf(batch.md).value, DeltasOf(batch.md));
  }

  lemma {:induction false} StagedNotRoot(root: Root, p: Path)
    requires root.Valid() && !IsWork(p) && p !in root.Paths()
    ensures Staged(p) !in RootWork(root)
  {
    WorkNamesDiffer(p, root.repomd);
    WorkNamesDiffer(p, root.sig);
    WorkNamesDiffer(p, root.key);
  }

  lemma {:induction false} RepomdKeptReady(root: Root, batch: Batch, a: Files, b: Files, c: Files)
    requires root.Valid() && AllSeparated(root, batch) && Unstaged(batch)
    requires SameOutside(a, b, Footprints(batch.metaJobs)) && SameOutside(b, c, Footprints(batch.jobs))
    ensures Chosen(a, root.repomd) == Chosen(c, root.repomd)
  {
    Halves(root, batch);
    NotWritten(batch.metaJobs, root.repomd);
    NotWritten(batch.jobs, root.repomd);
    assert Same(a, b, root.repomd) && Same(b, c, root.repomd);
    assert Same(a, b, Staged(root.repomd)) && Same(b, c, Staged(root.repomd));
  }

  /** Neither the package downloads nor promoting repomd.xml changes what was
      fetched before. */
  lemma {:induction false} PromotionKeeps(root: Root, batch: Batch, b: Files, c: Files)
    requires root.Valid() && batch.Sized() && AllSeparated(root, batch) && SameOutside(b, c, Footprints(batch.jobs))
    requires forall j | j in batch.jobs :: !j.stage
    ensures forall p | p in Dsts(batch.metaJobs) :: Same(b, Promoted(c, root.repomd), p)
    ensures forall p | p in Dsts(batch.jobs) :: Same(c, Promoted(c, root.repomd), p)
  {
    Halves(root, batch);
    forall p | p in Dsts(batch.metaJobs) ensures Same(b, Promoted(c, root.repomd), p) {
      NotWritten(batch.jobs, p);
      assert Same(b, c, p);
    }
  }

  /** Metadata and packages together, before the root is promoted: promoting
      repomd.xml would bring together what the run read. */
  lemma {:induction false} Assemble(w: World, root: Root, batch: Batch, a0: Files, a: Files, b: Files, c: Files, checked: bool, missing: set<string>)
    requires root.Valid() && batch.Sized() && AllSeparated(root, batch)
    requires SameOutside(a0, a, RootWork(root))
    requires JobsOf(w, batch.md) == Some(batch.metaJobs) && JobsOf(w, batch.listed) == Some(batch.jobs)
    requires Chosen(a, root.repomd).Some? && w.repomd(Chosen(a, root.repomd).value) == Some(batch.md) && PrimaryOf(batch.md).Some?
    requires SameOutside(a, b, Footprints(batch.metaJobs)) && SameOutside(b, c, Footprints(batch.jobs))
    requires Ready(w.hash, checked, b, batch.metaJobs, batch.metaStates, LiveDsts(batch.metaJobs, batch.metaStates), {})
    requires Seen(w, b, b, PrimaryOf(batch.md).value, DeltasOf(batch.md)) == Some(batch.listed)
    requires Ready(w.hash, checked, c, batch.jobs, batch.states, LiveDsts(batch.jobs, batch.states), missing)
    ensures Assembled(w, a0, Promoted(c, root.repomd), root.repomd, batch.md, batch.listed, batch.Kept(root.repomd), batch.Fetched(), checked, missing)
  {
    var d, kept := Promoted(c, root.repomd), batch.Kept(root.repomd);
    var live := LiveDsts(batch.metaJobs, batch.metaStates);
    Halves(root, batch);
    JobsCover(w, batch.md);
    JobsCover(w, batch.listed);
    RepomdKeptReady(root, batch, a, b, c);
    ChosenIsPromoted(c, root.repomd);
    PromotionKeeps(root, batch, b, c);
    ReadyKept(w.hash, checked, b, d, batch.metaJobs, batch.metaStates, live, {});
    ReadyCovers(w, batch.md, checked, d, batch.metaJobs, batch.metaStates, live, {});
    SeenFromStart(w, root, batch, a0, a, b, d);
    ReadyKept(w.hash, checked, c, d, batch.jobs, batch.states, LiveDsts(batch.jobs, batch.states), missing);
    ReadyCovers(w, batch.listed, checked, d, batch.jobs, batch.states, LiveDsts(batch.jobs, batch.states), missing);
    var first, second := FetchedDsts(batch.metaJobs, batch.metaStates), FetchedDsts(batch.jobs, batch.states);
    FetchedApart(w, d, batch.md, batch.metaJobs, first, second, batch.jobs);
    FetchedApart(w, d, batch.listed, batch.jobs, second, first, batch.metaJobs);
    assert second + first == first + second;
  }

  /** The work a run does before it touches the live root. */
  ghost function Before(root: Root, batch: Batch): set<Path> {
    RootWork(root) + Footprints(batch.metaJobs) + Footprints(batch.jobs)
  }

  ghost predicate SameRoot(a: Files, b: Files, root: Root) {
    Same(a, b, root.repomd) && Same(a, b, root.sig) && Same(a, b, root.key)
  }

  lemma {:induction false} RootOutside(root: Root, batch: Batch)
    requires root.Valid() && AllSeparated(root, batch) && Unstaged(batch)
    ensures root.Paths() !! Before(root, batch)
  {
    Halves(root, batch);
    WorkNames(root.repomd);
    WorkNames(root.sig);
    WorkNames(root.key);
    forall p | p in root.Paths() ensures p !in Footprints(batch.metaJobs) && p !in Footprints(batch.jobs) && p !in RootWork(root) {
      NotWritten(batch.metaJobs, p);
      NotWritten(batch.jobs, p);
    }
  }

  /** The live root files stay out of that work. */
  lemma {:induction false} RootUntouched(root: Root, batch: Batch, log: seq<Files>, n: nat, a: Files, files: Files)
    requires root.Valid() && AllSeparated(root, batch) && Within(log, n, a, files, Before(root, batch)) && Unstaged(batch)
    ensures RootSame(log, n, a, root) && SameRoot(a, files, root)
  {
    var changed := Before(root, batch);
    RootOutside(root, batch);
    forall k | n <= k < |log| ensures SameRoot(a, log[k], root) {
    }
  }

  /** What a run can be told to do. */
  datatype Options = Options(mode: SignatureMode, verify: bool, prune: bool, grace: int)

  /** Ready to publish: promoting the root brings together what the run read and,
      for an authenticated root, leaves a pair the verifier took. */
  ghost predicate Prepared(w: World, before: Files, files: Files, root: Root, batch: Batch, authenticated: bool, checked: bool, missing: set<string>) {
    && batch.Sized()
    && Assembled(w, before, Promoted(files, root.repomd), root.repomd, batch.md, batch.listed, batch.Kept(root.repomd), batch.Fetched(), checked, missing)
    && (authenticated ==> !root.sigMissing && Accepted(w.verify, files, root.repomd, root.sig))
  }

  /** Unstaged jobs write no staged name. */
  lemma {:induction false} StagedNotWritten(jobs: seq<Job>, p: Path)
    requires Distinct(jobs) && forall i | 0 <= i < |jobs| :: !jobs[i].stage
    ensures Staged(p) !in Footprints(jobs)
  {
    forall i | 0 <= i < |jobs| ensures Staged(p) !in Footprint(jobs[i]) {
      assert Staged(p)[|Staged(p)| - 1] == 'd' && Partial(jobs[i].dst)[|Partial(jobs[i].dst)| - 1] == 'l';
      WorkNames(p);
    }
  }

  /** Staging did not disturb what the verifier took. */
  lemma {:induction false} AcceptedKept(verify: Verify, a: Files, c: Files, root: Root, batch: Batch)
    requires root.Valid() && AllSeparated(root, batch) && Unstaged(batch)
    requires SameOutside(a, c, Footprints(batch.metaJobs) + Footprints(batch.jobs))
    requires Accepted(verify, a, root.repomd, root.sig)
    ensures Accepted(verify, c, root.repomd, root.sig)
  {
    Halves(root, batch);
    forall x | x in root.Paths() ensures Same(a, c, x) && Same(a, c, Staged(x)) {
      NotWritten(batch.metaJobs, x);
      NotWritten(batch.jobs, x);
    }
  }

  /** What the downloads establish from one tree to the next. */
  ghost predicate Gathered(w: World, root: Root, batch: Batch, a: Files, b: Files, c: Files, checked: bool, missing: set<string>) {
    && batch.Sized()
    && JobsOf(w, batch.md) == Some(batch.metaJobs) && JobsOf(w, batch.listed) == Some(batch.jobs)
    && SameOutside(a, b, Footprints(batch.metaJobs)) && SameOutside(b, c, Footprints(batch.jobs))
    && Chosen(a, root.repomd).Some? && w.repomd(Chosen(a, root.repomd).value) == Some(batch.md) && PrimaryOf(batch.md).Some?
    && Ready(w.hash, checked, b, batch.metaJobs, batch.metaStates, LiveDsts(batch.metaJobs, batch.metaStates), {})
    && Seen(w, b, b, PrimaryOf(batch.md).value, DeltasOf(batch.md)) == Some(batch.listed)
    && Ready(w.hash, checked, c, batch.jobs, batch.states, LiveDsts(batch.jobs, batch.states), missing)
  }

  /** The trees of the preparation put together. */
  lemma {:induction false} PreparedFrom(w: World, root: Root, batch: Batch, a0: Files, a: Files, b: Files, c: Files, authenticated: bool, checked: bool, missing: set<string>)
    requires root.Valid() && AllSeparated(root, batch) && SameOutside(a0, a, RootWork(root))
    requires Gathered(w, root, batch, a, b, c, checked, missing)
    requires authenticated ==> !root.sigMissing && Accepted(w.verify, a, root.repomd, root.sig)
    ensures Prepared(w, a0, c, root, batch, authenticated, checked, missing)
  {
    JobsCover(w, batch.md);
    JobsCover(w, batch.listed);
    Assemble(w, root, batch, a0, a, b, c, checked, missing);
    if authenticated {
      SameOutsideTrans(a, b, c, Footprints(batch.metaJobs), Footprints(batch.jobs));
      AcceptedKept(w.verify, a, c, root, batch);
    }
  }

  /** Downloads everything the staged root leads to, up to miss.Finish. */
  method Gather(tree: Tree, w: World, root: Root, checked: bool, miss: Missing.Missing?)
    returns (ready: bool, batch: Batch, keep: set<Path>, ghost b: Files)
    requires tree.Valid() && root.Valid() && (miss != null ==> miss.Valid())
    modifies tree, if miss == null then {} else {miss}
    ensures tree.Valid() && old(tree.log) <= tree.log && tree.statFaults >= old(tree.statFaults)
    ensures ready ==> Resolved(miss) && Planned(w, batch) && keep <= batch.Kept(root.repomd)
    ensures Unstaged(batch)
    ensures Within(tree.log, |old(tree.log)|, old(tree.files), tree.files, Footprints(batch.metaJobs) + Footprints(batch.jobs))
    ensures ready && AllSeparated(root, batch) && tree.statFaults == old(tree.statFaults) ==>
              Gathered(w, root, batch, old(tree.files), b, tree.files, checked, Recorded(miss)) &&
              batch.Kept(root.repomd) - {root.repomd} <= keep
  {
    batch, keep := Batch([], [], [], [], [], []), {};
    ghost var n, a := |tree.log|, tree.files;
    var ok, md, metaJobs, metaStates, metaKeep := FetchMetadata(tree, w, root, checked);
    batch := batch.(md := md, metaJobs := metaJobs, metaStates := metaStates);
    b := tree.files;
    ghost var m := |tree.log|;
    if !ok {
      WithinMore(tree.log, n, a, b, Footprints(metaJobs), Footprints(metaJobs) + Footprints([]));
      return false, batch, keep, b;
    }
    var listed, jobs, states, more;
    ok, listed, jobs, states, more := FetchPackages(tree, w, md, checked, miss);
    batch := batch.(listed := listed, jobs := jobs, states := states);
    keep := metaKeep + more;
    WithinJoin(tree.log, n, m, a, b, tree.files, Footprints(metaJobs), Footprints(jobs));
    if !ok {
      return false, batch, keep, b;
    }
    ready := true;
    if miss != null {
      var err := miss.Finish();
      ready := err.None?;
    }
    if AllSeparated(root, batch) {
      Halves(root, batch);
    }
  }

  /** syncRPM up to miss.Finish; held says that a staged root is waiting. */
  method Prepare(tree: Tree, w: World, template: Root, opts: Options, miss: Missing.Missing?)
    returns (held: bool, ready: bool, root: Root, authenticated: bool, batch: Batch, keep: set<Path>, stuck: set<Path>)
    requires tree.Valid() && template.Valid() && (miss != null ==> miss.Valid())
    modifies tree, if miss == null then {} else {miss}
    ensures tree.Valid() && old(tree.log) <= tree.log && tree.statFaults >= old(tree.statFaults)
    ensures ready ==> held && Resolved(miss) && Planned(w, batch) && keep <= batch.Kept(root.repomd) && (opts.mode.Required? || (!opts.mode.Off? && !root.sigMissing) ==> authenticated)
    ensures root == Flagged(template, root.sigMissing, root.keyMissing)
    ensures !held ==> Cleared(tree.files, [root.repomd, root.sig, root.key], stuck)
    ensures Unstaged(batch)
    ensures Within(tree.log, |old(tree.log)|, old(tree.files), tree.files, Before(template, batch))
    ensures ready && AllSeparated(root, batch) && tree.statFaults == old(tree.statFaults) ==>
              Prepared(w, old(tree.files), tree.files, root, batch, authenticated, opts.verify || authenticated, Recorded(miss)) &&
              batch.Kept(root.repomd) - {root.repomd} <= keep
  {
    ghost var n, a0 := |tree.log|, tree.files;
    var staged, auth, unremoved, _, _ := StageRoot(tree, w, template, opts.mode);
    batch := Batch([], [], [], [], [], []);
    if staged.None? {
      WithinMore(tree.log, n, a0, tree.files, RootWork(template), Before(template, batch));
      return false, false, template, false, batch, {}, unremoved;
    }
    held, root, authenticated, stuck := true, staged.value, auth, {};
    ghost var a, m := tree.files, |tree.log|;
    ghost var b;
    ready, batch, keep, b := Gather(tree, w, root, opts.verify || authenticated, miss);
    JoinWork(tree.log, n, m, a0, a, tree.files, template, batch);
    PreparedIf(w, root, batch, a0, a, b, tree.files, authenticated, opts.verify || authenticated, Recorded(miss));
  }

  lemma {:induction false} JoinWork(log: seq<Files>, n: nat, m: nat, a: Files, b: Files, c: Files, root: Root, batch: Batch)
    requires n <= m <= |log| && Within(log[..m], n, a, b, RootWork(root))
    requires Within(log, m, b, c, Footprints(batch.metaJobs) + Footprints(batch.jobs))
    ensures Within(log, n, a, c, Before(root, batch)) && SameOutside(a, b, RootWork(root))
  {
    WithinJoin(log, n, m, a, b, c, RootWork(root), Footprints(batch.metaJobs) + Footprints(batch.jobs));
    assert Before(root, batch) == RootWork(root) + (Footprints(batch.metaJobs) + Footprints(batch.jobs));
  }

  lemma {:induction false} PreparedIf(w: World, root: Root, batch: Batch, a0: Files, a: Files, b: Files, c: Files, authenticated: bool, checked: bool, missing: set<string>)
    requires root.Valid() && SameOutside(a0, a, RootWork(root))
    ensures
      && AllSeparated(root, batch)
      && Gathered(w, root, batch, a, b, c, checked, missing)
      && (authenticated ==> !root.sigMissing && Accepted(w.verify, a, root.repomd, root.sig))
      ==> Prepared(w, a0, c, root, batch, authenticated, checked, missing)
  {
    if && AllSeparated(root, batch)
       && Gathered(w, root, batch, a, b, c, checked, missing)
       && (authenticated ==> !root.sigMissing && Accepted(w.verify, a, root.repomd, root.sig))
    {
      PreparedFrom(w, root, batch, a0, a, b, c, authenticated, checked, missing);
    }
  }

  // ---------- Publication and pruning ----------

  /** The live pair is one the verifier took. */
  predicate AcceptedLive(verify: Verify, files: Files, root: Root) {
    root.repomd in files && root.sig in files && verify(files[root.repomd], files[root.sig])
  }

  lemma {:induction false} KeptIsLive(root: Root, batch: Batch)
    requires root.Valid() && batch.Sized() && AllSeparated(root, batch)
    ensures forall p | p in batch.Kept(root.repomd) :: !IsWork(p) && (p in root.Paths() ==> p == root.repomd)
    ensures forall p | p in batch.Kept(root.repomd) :: p !in MissingDsts(batch.jobs, batch.states)
  {
    Halves(root, batch);
  }

  /** Publication keeps what was prepared. */
  lemma {:induction false} PublishedIsAssembled(w: World, before: Files, root: Root, batch: Batch, c: Files, d: Files, authenticated: bool, checked: bool, missing: set<string>)
    requires root.Valid() && AllSeparated(root, batch) && Prepared(w, before, c, root, batch, authenticated, checked, missing)
    requires PublishedAll(c, d, root)
    requires forall p | !IsWork(p) && p !in root.Paths() ::
               if authenticated && p in MissingDsts(batch.jobs, batch.states) then p !in d else Same(c, d, p)
    ensures Assembled(w, before, d, root.repomd, batch.md, batch.listed, batch.Kept(root.repomd), batch.Fetched(), checked, missing)
    ensures authenticated ==> AcceptedLive(w.verify, d, root)
  {
    KeptIsLive(root, batch);
    WorkNames(root.repomd);
    var kept := batch.Kept(root.repomd);
    forall p | p in kept ensures Same(Promoted(c, root.repomd), d, p) {
      assert p != root.repomd ==> Same(c, d, p);
    }
    AssembledKept(w, before, Promoted(c, root.repomd), d, root.repomd, batch.md, batch.listed, kept, batch.Fetched(), checked, missing);
    ChosenIsPromoted(c, root.repomd);
    ChosenIsPromoted(c, root.sig);
  }

  lemma {:induction false} LiveSameComplete(w: World, before: Files, root: Root, batch: Batch, d: Files, e: Files, checked: bool, missing: set<string>)
    requires root.Valid() && batch.Sized() && AllSeparated(root, batch)
    requires Assembled(w, before, d, root.repomd, batch.md, batch.listed, batch.Kept(root.repomd), batch.Fetched(), checked, missing)
    requires LiveSame(d, e)
    ensures Assembled(w, before, e, root.repomd, batch.md, batch.listed, batch.Kept(root.repomd), batch.Fetched(), checked, missing)
    ensures NoStaged(w, before, batch.md) ==> Complete(w, e, root.repomd, checked, missing)
  {
    KeptIsLive(root, batch);
    AssembledKept(w, before, d, e, root.repomd, batch.md, batch.listed, batch.Kept(root.repomd), batch.Fetched(), checked, missing);
  }

  /** At every moment the old repomd.xml is live or, if the run was fair, the
      repository is complete. */
  ghost predicate OldOrComplete(w: World, log: seq<Files>, n: nat, a: Files, repomd: Path, checked: bool, missing: set<string>, fair: bool) {
    forall k | n <= k < |log| :: Same(a, log[k], repomd) || (fair ==> Complete(w, log[k], repomd, checked, missing))
  }

  function Destinations(root: Root, batch: Batch): set<Path> {
    root.Paths() + Dsts(batch.metaJobs) + Dsts(batch.jobs)
  }

  /** Live files the run does not write are as they were, or pruned. */
  ghost predicate ElsewhereSame(a: Files, b: Files, root: Root, batch: Batch, pruned: bool) {
    forall p | !IsWork(p) && p !in Destinations(root, batch) :: Same(a, b, p) || (pruned && p !in b)
  }

  lemma {:induction false} WorkElsewhere(a: Files, b: Files, root: Root, batch: Batch)
    requires SameOutside(a, b, Before(root, batch))
    ensures ElsewhereSame(a, b, root, batch, false)
  {
    forall p | !IsWork(p) && p !in Destinations(root, batch) ensures Same(a, b, p) {
      WorkNames(root.repomd);
      WorkNames(root.sig);
      WorkNames(root.key);
      FootprintsAreWork(batch.metaJobs, p);
      FootprintsAreWork(batch.jobs, p);
    }
  }

  lemma {:induction false} FootprintsAreWork(jobs: seq<Job>, p: Path)
    requires !IsWork(p) && p !in Dsts(jobs)
    ensures p !in Footprints(jobs)
  {
    forall i | 0 <= i < |jobs| ensures p !in Footprint(jobs[i]) {
      WorkNames(jobs[i].dst);
    }
  }

  /** No package that was not served is live. */
  ghost predicate AllWithdrawn(files: Files, batch: Batch) {
    forall i | 0 <= i < |batch.jobs| && i < |batch.states| && batch.states[i].FileMissing? :: batch.jobs[i].dst !in files
  }

  lemma {:induction false} WithdrawnAll(root: Root, batch: Batch, files: Files)
    requires batch.Sized() && AllSeparated(root, batch)
    requires forall p | !IsWork(p) && p !in root.Paths() && p in MissingDsts(batch.jobs, batch.states) :: p !in files
    ensures AllWithdrawn(files, batch)
  {
    Halves(root, batch);
    forall i | 0 <= i < |batch.jobs| && batch.states[i].FileMissing? ensures batch.jobs[i].dst !in files {
      assert batch.jobs[i].dst in MissingDsts(batch.jobs, batch.states);
    }
  }

  /** What a run that succeeds has taken away: packages of an authenticated
      repository that were not served, and what its prune found stale. */
  ghost predicate TidyEnd(root: Root, batch: Batch, authenticated: bool, report: Option<Prune.Report>, opts: Options, files: Files, dir: Path,
                          saved: Prune.Saved, saved': Prune.Saved, now: int)
  {
    && (AllSeparated(root, batch) && authenticated ==> AllWithdrawn(files, batch))
    && batch.Sized()
    && Prune.Pruned(report, opts.prune, batch.Kept(root.repomd) + root.Paths(), files, dir, saved, saved', now, opts.grace)
  }

  lemma {:induction false} TidyStays(root: Root, batch: Batch, authenticated: bool, report: Option<Prune.Report>, opts: Options, a: Files, b: Files, dir: Path,
                                     saved: Prune.Saved, saved': Prune.Saved, now: int)
    requires LiveSame(a, b)
    ensures TidyEnd(root, batch, authenticated, report, opts, a, dir, saved, saved', now) ==>
              TidyEnd(root, batch, authenticated, report, opts, b, dir, saved, saved', now)
  {
    if TidyEnd(root, batch, authenticated, report, opts, a, dir, saved, saved', now) {
      Prune.PrunedStays(report, opts.prune, batch.Kept(root.repomd) + root.Paths(), a, b, dir, saved, saved', now, opts.grace);
      if AllSeparated(root, batch) && authenticated {
        Halves(root, batch);
        forall i | 0 <= i < |batch.jobs| && batch.states[i].FileMissing? ensures batch.jobs[i].dst !in b {
          assert Same(a, b, batch.jobs[i].dst);
        }
      }
    }
  }

  /** Publication, as the rest of the run sees it. */
  method PublishBatch(tree: Tree, w: World, root: Root, batch: Batch, authenticated: bool,
                      ghost sound: bool, ghost checked: bool, ghost missing: set<string>, ghost before: Files)
    returns (published: bool, undone: bool, keep: set<Path>)
    requires tree.Valid() && root.Valid() && batch.Sized()
    requires sound ==> AllSeparated(root, batch) && Prepared(w, before, tree.files, root, batch, authenticated, checked, missing)
    modifies tree
    ensures tree.Valid() && old(tree.log) <= tree.log && tree.statFaults >= old(tree.statFaults)
    ensures AllSeparated(root, batch) && !published ==>
              && (undone ==> LiveSame(old(tree.files), tree.files))
              && RepomdSame(tree.log, |old(tree.log)|, old(tree.files), root)
    ensures published ==> root.repomd in keep
    ensures keep <= root.Paths()
    ensures AllSeparated(root, batch) && published ==> ElsewhereSame(old(tree.files), tree.files, root, batch, false)
    ensures AllSeparated(root, batch) && published && authenticated ==> AllWithdrawn(tree.files, batch)
    ensures sound && published ==>
              && OldOrComplete(w, tree.log, |old(tree.log)|, old(tree.files), root.repomd, checked, missing, NoStaged(w, before, batch.md))
              && Assembled(w, before, tree.files, root.repomd, batch.md, batch.listed, batch.Kept(root.repomd), batch.Fetched(), checked, missing)
              && (authenticated ==> AcceptedLive(w.verify, tree.files, root))
              && (authenticated && tree.statFaults == old(tree.statFaults) ==> root.sig in keep)
  {
    ghost var n, c := |tree.log|, tree.files;
    published, undone, keep := Publication(tree, root, batch.jobs, batch.states, authenticated);
    if AllSeparated(root, batch) {
      Halves(root, batch);
      if published && authenticated { WithdrawnAll(root, batch, tree.files); }
      if sound && published {
        PublishedIsAssembled(w, before, root, batch, c, tree.files, authenticated, checked, missing);
        forall k | n <= k < |tree.log| && LiveSame(tree.log[k], tree.files)
          ensures NoStaged(w, before, batch.md) ==> Complete(w, tree.log[k], root.repomd, checked, missing)
        {
          LiveSameComplete(w, before, root, batch, tree.files, tree.log[k], checked, missing);
        }
      }
    }
  }

  /** Pruning leaves the repository complete. */
  method PruneAfter(tree: Tree, w: World, root: Root, batch: Batch, dir: Path, opts: Options, authenticated: bool, keep: set<Path>,
                    dirs: set<Path>, saved: Prune.Saved, now: int, ghost sound: bool, ghost checked: bool, ghost missing: set<string>, ghost before: Files)
    returns (saved': Prune.Saved, report: Option<Prune.Report>)
    requires tree.Valid() && batch.Sized()
    requires sound ==> batch.Kept(root.repomd) <= keep &&
                       Assembled(w, before, tree.files, root.repomd, batch.md, batch.listed, batch.Kept(root.repomd), batch.Fetched(), checked, missing)
    modifies tree
    ensures tree.Valid() && old(tree.log) <= tree.log && tree.statFaults >= old(tree.statFaults)
    ensures sound && NoStaged(w, before, batch.md) ==>
              forall k | |old(tree.log)| <= k < |tree.log| :: Complete(w, tree.log[k], root.repomd, checked, missing)
    ensures ElsewhereSame(old(tree.files), tree.files, root, batch, opts.prune)
    ensures forall p | p in tree.files :: p in old(tree.files)
    ensures Prune.Pruned(report, opts.prune, keep, tree.files, dir, saved, saved', now, opts.grace)
    ensures sound ==> Assembled(w, before, tree.files, root.repomd, batch.md, batch.listed, batch.Kept(root.repomd), batch.Fetched(), checked, missing)
    ensures root.repomd in keep && root.sig in keep && AcceptedLive(w.verify, old(tree.files), root) ==>
              AcceptedLive(w.verify, tree.files, root)
  {
    saved', report := saved, None;
    if !opts.prune {
      return;
    }
    ghost var d, n := tree.files, |tree.log|;
    var pruned, run, complete, _, _ := Prune.PruneTree(tree, dir, dirs, keep, saved, now, opts.grace);
    saved', report := pruned, Some(Prune.Report(run, complete));
    Prune.KeptNotRemoved(run, if opts.grace > 0 then saved else map[], opts.grace);
    if sound {
      AssembledKept(w, before, d, tree.files, root.repomd, batch.md, batch.listed, batch.Kept(root.repomd), batch.Fetched(), checked, missing);
      forall k | n <= k < |tree.log| ensures NoStaged(w, before, batch.md) ==> Complete(w, tree.log[k], root.repomd, checked, missing) {
        assert Prune.OnlyRemoves(d, tree.log[k], run.removed);
        AssembledKept(w, before, d, tree.log[k], root.repomd, batch.md, batch.listed, batch.Kept(root.repomd), batch.Fetched(), checked, missing);
      }
    }
  }

  // ---------- The run ----------

  /** Stopped before publication; failed to publish, undoing it or not; done. */
  datatype Outcome = Stopped | RolledBack(undone: bool) | Synced

  /** Everything after the preparation. */
  method Finish(tree: Tree, w: World, root: Root, batch: Batch, dir: Path, opts: Options, authenticated: bool, keep: set<Path>,
                dirs: set<Path>, saved: Prune.Saved, now: int, ghost sound: bool, ghost checked: bool, ghost missing: set<string>, ghost before: Files)
    returns (outcome: Outcome, saved': Prune.Saved, report: Option<Prune.Report>)
    requires tree.Valid() && root.Valid() && batch.Sized()
    requires sound ==>
               && AllSeparated(root, batch) && Prepared(w, before, tree.files, root, batch, authenticated, checked, missing)
               && batch.Kept(root.repomd) - {root.repomd} <= keep
    requires keep <= batch.Kept(root.repomd)
    modifies tree
    ensures tree.Valid() && old(tree.log) <= tree.log && tree.statFaults >= old(tree.statFaults)
    ensures !outcome.Stopped?
    ensures AllSeparated(root, batch) && outcome.RolledBack? ==>
              && (outcome.undone ==> LiveSame(old(tree.files), tree.files))
              && RepomdSame(tree.log, |old(tree.log)|, old(tree.files), root)
    ensures AllSeparated(root, batch) && outcome.Synced? ==> ElsewhereSame(old(tree.files), tree.files, root, batch, opts.prune)
    ensures outcome.Synced? ==> TidyEnd(root, batch, authenticated, report, opts, tree.files, dir, saved, saved', now)
    ensures sound && outcome.Synced? ==>
              && OldOrComplete(w, tree.log, |old(tree.log)|, old(tree.files), root.repomd, checked, missing, NoStaged(w, before, batch.md))
              && Assembled(w, before, tree.files, root.repomd, batch.md, batch.listed, batch.Kept(root.repomd), batch.Fetched(), checked, missing)
              && (authenticated && tree.statFaults == old(tree.statFaults) ==> AcceptedLive(w.verify, tree.files, root))
  {
    saved', report := saved, None;
    ghost var n, c := |tree.log|, tree.files;
    var published, undone, more := PublishBatch(tree, w, root, batch, authenticated, sound, checked, missing, before);
    if !published {
      return RolledBack(undone), saved', report;
    }
    ghost var m, d := |tree.log|, tree.files;
    saved', report := PruneAfter(tree, w, root, batch, dir, opts, authenticated, keep + more, dirs, saved, now, sound, checked, missing, before);
    outcome := Synced;
  }

  /** The deferred cleanup, which clients do not see. */
  method CleanAfter(tree: Tree, root: Root) returns (stuck: set<Path>)
    requires tree.Valid() && root.Valid()
    modifies tree`files, tree`log
    ensures tree.Valid() && old(tree.log) <= tree.log
    ensures LiveSame(old(tree.files), tree.files) && LiveSince(tree.log, |old(tree.log)|, old(tree.files))
    ensures Cleared(tree.files, [root.repomd, root.sig, root.key], stuck)
  {
    stuck := CleanupRoot(tree, root, |tree.log|, tree.files);
  }

  ghost predicate RepomdSame(log: seq<Files>, n: nat, a: Files, root: Root) {
    forall k | n <= k < |log| :: Same(a, log[k], root.repomd)
  }

  ghost predicate RootSame(log: seq<Files>, n: nat, a: Files, root: Root) {
    forall k | n <= k < |log| :: SameRoot(a, log[k], root)
  }

  /** Two stretches of a log, the first ending in the tree c. */
  lemma {:induction false} ChainRepomd(root: Root, log: seq<Files>, n: nat, m: nat, a: Files, c: Files)
    requires n <= m <= |log| && RepomdSame(log[..m], n, a, root) && Same(a, c, root.repomd) && RepomdSame(log, m, c, root)
    ensures RepomdSame(log, n, a, root)
  {
    forall k | n <= k < |log| ensures Same(a, log[k], root.repomd) {
      if k < m {
        assert Same(a, log[..m][k], root.repomd);
      }
    }
  }

  lemma {:induction false} ChainComplete(w: World, root: Root, log: seq<Files>, n: nat, m: nat, a: Files, c: Files, checked: bool, missing: set<string>, fair: bool)
    requires n <= m <= |log| && RepomdSame(log[..m], n, a, root) && Same(a, c, root.repomd)
    requires OldOrComplete(w, log, m, c, root.repomd, checked, missing, fair)
    ensures OldOrComplete(w, log, n, a, root.repomd, checked, missing, fair)
  {
    forall k | n <= k < |log| ensures Same(a, log[k], root.repomd) || (fair ==> Complete(w, log[k], root.repomd, checked, missing)) {
      if k < m {
        assert Same(a, log[..m][k], root.repomd);
      }
    }
  }

  lemma {:induction false} LiveToRoot(root: Root, log: seq<Files>, n: nat, a: Files)
    requires root.Valid() && LiveSince(log, n, a)
    ensures RootSame(log, n, a, root) && RepomdSame(log, n, a, root)
  {
    forall k | n <= k < |log| ensures SameRoot(a, log[k], root) {
      assert LiveSame(a, log[k]);
    }
  }

  lemma {:induction false} LiveToComplete(w: World, before: Files, root: Root, batch: Batch, log: seq<Files>, n: nat, d: Files, checked: bool, missing: set<string>)
    requires root.Valid() && batch.Sized() && AllSeparated(root, batch) && LiveSince(log, n, d)
    requires Assembled(w, before, d, root.repomd, batch.md, batch.listed, batch.Kept(root.repomd), batch.Fetched(), checked, missing)
    ensures NoStaged(w, before, batch.md) ==> forall k | n <= k < |log| :: Complete(w, log[k], root.repomd, checked, missing)
  {
    forall k | n <= k < |log| ensures NoStaged(w, before, batch.md) ==> Complete(w, log[k], root.repomd, checked, missing) {
      assert LiveSame(d, log[k]);
      LiveSameComplete(w, before, root, batch, d, log[k], checked, missing);
    }
  }

  /** Finish and the deferred cleanup. */
  method FinishAndClean(tree: Tree, w: World, root: Root, batch: Batch, dir: Path, opts: Options, authenticated: bool, keep: set<Path>,
                        dirs: set<Path>, saved: Prune.Saved, now: int, ghost sound: bool, ghost checked: bool, ghost missing: set<string>, ghost before: Files)
    returns (outcome: Outcome, saved': Prune.Saved, report: Option<Prune.Report>, stuck: set<Path>)
    requires tree.Valid() && root.Valid() && batch.Sized()
    requires sound ==>
               && AllSeparated(root, batch) && Prepared(w, before, tree.files, root, batch, authenticated, checked, missing)
               && batch.Kept(root.repomd) - {root.repomd} <= keep
    requires keep <= batch.Kept(root.repomd)
    modifies tree
    ensures tree.Valid() && old(tree.log) <= tree.log && tree.statFaults >= old(tree.statFaults)
    ensures !outcome.Stopped? && Cleared(tree.files, [root.repomd, root.sig, root.key], stuck)
    ensures AllSeparated(root, batch) && outcome.RolledBack? ==>
              && (outcome.undone ==> LiveSame(old(tree.files), tree.files))
              && RepomdSame(tree.log, |old(tree.log)|, old(tree.files), root)
    ensures AllSeparated(root, batch) && outcome.Synced? ==> ElsewhereSame(old(tree.files), tree.files, root, batch, opts.prune)
    ensures outcome.Synced? ==> TidyEnd(root, batch, authenticated, report, opts, tree.files, dir, saved, saved', now)
    ensures sound && outcome.Synced? ==>
              && OldOrComplete(w, tree.log, |old(tree.log)|, old(tree.files), root.repomd, checked, missing, NoStaged(w, before, batch.md))
              && Assembled(w, before, tree.files, root.repomd, batch.md, batch.listed, batch.Kept(root.repomd), batch.Fetched(), checked, missing)
              && (authenticated && tree.statFaults == old(tree.statFaults) ==> AcceptedLive(w.verify, tree.files, root))
  {
    ghost var n, c := |tree.log|, tree.files;
    outcome, saved', report := Finish(tree, w, root, batch, dir, opts, authenticated, keep, dirs, saved, now, sound, checked, missing, before);
    ghost var d, m := tree.files, |tree.log|;
    stuck := CleanAfter(tree, root);
    LiveToRoot(root, tree.log, m, d);
    TidyStays(root, batch, authenticated, report, opts, d, tree.files, dir, saved, saved', now);
    if AllSeparated(root, batch) && outcome.RolledBack? {
      ChainRepomd(root, tree.log, n, m, c, d);
    }
    if sound && outcome.Synced? {
      LiveSameComplete(w, before, root, batch, d, tree.files, checked, missing);
      LiveToComplete(w, before, root, batch, tree.log, m, d, checked, missing);
    }
  }

  /** FinishAndClean as the last part of a run that began with the tree a. */
  method Deliver(tree: Tree, w: World, root: Root, batch: Batch, dir: Path, opts: Options, authenticated: bool, keep: set<Path>,
                 dirs: set<Path>, saved: Prune.Saved, now: int, ghost sound: bool, ghost checked: bool, ghost missing: set<string>, ghost before: Files,
                 ghost n: nat, ghost a: Files)
    returns (outcome: Outcome, saved': Prune.Saved, report: Option<Prune.Report>, stuck: set<Path>)
    requires tree.Valid() && root.Valid() && batch.Sized() && n <= |tree.log|
    requires sound ==>
               && AllSeparated(root, batch) && Prepared(w, before, tree.files, root, batch, authenticated, checked, missing)
               && batch.Kept(root.repomd) - {root.repomd} <= keep
    requires keep <= batch.Kept(root.repomd)
    requires AllSeparated(root, batch) ==> RootSame(tree.log, n, a, root) && SameRoot(a, tree.files, root)
    requires ElsewhereSame(a, tree.files, root, batch, false)
    modifies tree
    ensures tree.Valid() && old(tree.log) <= tree.log && tree.statFaults >= old(tree.statFaults)
    ensures !outcome.Stopped? && Cleared(tree.files, [root.repomd, root.sig, root.key], stuck)
    ensures AllSeparated(root, batch) && outcome.Synced? ==> ElsewhereSame(a, tree.files, root, batch, opts.prune)
    ensures outcome.Synced? ==> TidyEnd(root, batch, authenticated, report, opts, tree.files, dir, saved, saved', now)
    ensures AllSeparated(root, batch) && outcome.RolledBack? ==>
              && RepomdSame(tree.log, n, a, root)
              && (outcome.undone ==> SameRoot(a, tree.files, root))
    ensures sound && outcome.Synced? ==>
              && OldOrComplete(w, tree.log, n, a, root.repomd, checked, missing, NoStaged(w, before, batch.md))
              && Assembled(w, before, tree.files, root.repomd, batch.md, batch.listed, batch.Kept(root.repomd), batch.Fetched(), checked, missing)
              && (authenticated && tree.statFaults == old(tree.statFaults) ==> AcceptedLive(w.verify, tree.files, root))
  {
    ghost var m, c := |tree.log|, tree.files;
    ghost var apart := AllSeparated(root, batch);
    outcome, saved', report, stuck := FinishAndClean(tree, w, root, batch, dir, opts, authenticated, keep, dirs, saved, now, sound, checked, missing, before);
    if apart {
      if outcome.RolledBack? {
        ChainRepomd(root, tree.log, n, m, a, c);
      } else if sound {
        ChainComplete(w, root, tree.log, n, m, a, c, checked, missing, NoStaged(w, before, batch.md));
      }
    }
  }

  /** The end of a run that stopped early. */
  method StopRun(tree: Tree, root: Root, held: bool, cleaned: set<Path>, ghost n: nat, ghost a: Files, ghost apart: bool) returns (stuck: set<Path>)
    requires !held ==> Cleared(tree.files, [root.repomd, root.sig, root.key], cleaned)
    requires tree.Valid() && root.Valid() && n <= |tree.log|
    requires apart ==> RootSame(tree.log, n, a, root) && SameRoot(a, tree.files, root)
    modifies tree
    ensures tree.Valid() && old(tree.log) <= tree.log
    ensures apart ==> RootSame(tree.log, n, a, root)
    ensures Cleared(tree.files, [root.repomd, root.sig, root.key], stuck)
  {
    stuck := cleaned;
    if held {
      ghost var m, c := |tree.log|, tree.files;
      stuck := CleanAfter(tree, root);
      LiveToRoot(root, tree.log, m, c);
    }
  }

  /** Prepare as the first part of a run: sound says that publishing what it
      prepared will bring together what it read. */
  method Begin(tree: Tree, w: World, dir: Path, opts: Options, miss: Missing.Missing?)
    returns (held: bool, ready: bool, root: Root, authenticated: bool, batch: Batch, keep: set<Path>, stuck: set<Path>, ghost sound: bool)
    requires tree.Valid() && (miss != null ==> miss.Valid())
    modifies tree, if miss == null then {} else {miss}
    ensures tree.Valid() && old(tree.log) <= tree.log && tree.statFaults >= old(tree.statFaults)
    ensures ready ==> held && Resolved(miss) && Planned(w, batch) && keep <= batch.Kept(root.repomd) && (opts.mode.Required? || (!opts.mode.Off? && !root.sigMissing) ==> authenticated)
    ensures root == RootIn(dir, root.sigMissing, root.keyMissing) && root.Valid()
    ensures !held ==> Cleared(tree.files, [root.repomd, root.sig, root.key], stuck)
    ensures AllSeparated(root, batch) ==>
              RootSame(tree.log, |old(tree.log)|, old(tree.files), root) && SameRoot(old(tree.files), tree.files, root)
    ensures ElsewhereSame(old(tree.files), tree.files, root, batch, false)
    ensures sound <==> ready && AllSeparated(root, batch) && tree.statFaults == old(tree.statFaults)
    ensures sound ==>
              && Prepared(w, old(tree.files), tree.files, root, batch, authenticated, opts.verify || authenticated, Recorded(miss))
              && batch.Kept(root.repomd) - {root.repomd} <= keep
  {
    held, ready, root, authenticated, batch, keep, stuck := Prepare(tree, w, RootIn(dir, false, false), opts, miss);
    sound := ready && AllSeparated(root, batch) && tree.statFaults == old(tree.statFaults);
    WorkElsewhere(old(tree.files), tree.files, root, batch);
    if AllSeparated(root, batch) {
      RootUntouched(root, batch, tree.log, |old(tree.log)|, old(tree.files), tree.files);
    }
  }

  /** syncRPM. With separate destinations: a run that stops before publication
      never touches the live root files; one that fails in publication never
      touches repomd.xml and, if the undo operations work, leaves the root files
      as they were; and a run that succeeds brings together everything listed by
      the indexes as it read them. Without staged copies of indexes in the tree
      it began with, those are the live ones: then repomd.xml stays the old one
      until the repository the new one describes is complete, and complete it
      stays through pruning. */
  method Sync(tree: Tree, w: World, dir: Path, opts: Options, miss: Missing.Missing?,
              dirs: set<Path>, saved: Prune.Saved, now: int)
    returns (outcome: Outcome, root: Root, authenticated: bool, batch: Batch, saved': Prune.Saved, report: Option<Prune.Report>, stuck: set<Path>)
    requires tree.Valid() && (miss != null ==> miss.Valid())
    modifies tree, if miss == null then {} else {miss}
    ensures tree.Valid() && old(tree.log) <= tree.log
    ensures Cleared(tree.files, [root.repomd, root.sig, root.key], stuck)
    ensures root == RootIn(dir, root.sigMissing, root.keyMissing)
    ensures AllSeparated(root, batch) && outcome.Stopped? ==> RootSame(tree.log, |old(tree.log)|, old(tree.files), root)
    ensures AllSeparated(root, batch) && outcome.RolledBack? ==>
              && RepomdSame(tree.log, |old(tree.log)|, old(tree.files), root)
              && (outcome.undone ==> SameRoot(old(tree.files), tree.files, root))
    ensures outcome.Synced? ==> Resolved(miss) && Planned(w, batch) && (opts.mode.Required? || (!opts.mode.Off? && !root.sigMissing) ==> authenticated)
    ensures outcome.Synced? && AllSeparated(root, batch) ==> ElsewhereSame(old(tree.files), tree.files, root, batch, opts.prune)
    ensures outcome.Synced? ==> TidyEnd(root, batch, authenticated, report, opts, tree.files, dir, saved, saved', now)
    ensures outcome.Synced? && AllSeparated(root, batch) && tree.statFaults == old(tree.statFaults) ==>
              && Assembled(w, old(tree.files), tree.files, root.repomd, batch.md, batch.listed, batch.Kept(root.repomd), batch.Fetched(), opts.verify || authenticated, Recorded(miss))
              && (authenticated ==> AcceptedLive(w.verify, tree.files, root))
              && OldOrComplete(w, tree.log, |old(tree.log)|, old(tree.files), root.repomd, opts.verify || authenticated, Recorded(miss),
                               NoStaged(w, old(tree.files), batch.md))
  {
    ghost var n, a := |tree.log|, tree.files;
    var held, ready, keep;
    ghost var sound;
    held, ready, root, authenticated, batch, keep, stuck, sound := Begin(tree, w, dir, opts, miss);
    if !ready {
      stuck := StopRun(tree, root, held, stuck, n, a, AllSeparated(root, batch));
      return Stopped, root, authenticated, batch, saved, None, stuck;
    }
    outcome, saved', report, stuck := Deliver(tree, w, root, batch, dir, opts, authenticated, keep, dirs, saved, now,
                               sound, opts.verify || authenticated, Recorded(miss), a, n, a);
  }

  // ---------- Stale staged indexes ----------

  /** The tree a run begins with has no staged copy of anything a repository may
      list; what a caller can check. */
  ghost predicate Tidy(w: World, before: Files) {
    forall href | w.join(href).Some? :: Staged(w.join(href).value) !in before
  }

  /** A directory without staged names is tidy, as every location resolves to
      something below it. */
  lemma {:induction false} TidyDirectory(w: World, dir: Path, before: Files)
    requires forall href | w.join(href).Some? :: dir + "/" <= w.join(href).value
    requires forall p | p in before && dir + "/" <= p :: !EndsWith(p, STAGED_SUFFIX)
    ensures Tidy(w, before)
  {
    forall href | w.join(href).Some? ensures Staged(w.join(href).value) !in before {
      var dst := w.join(href).value;
      WorkNames(dst);
      assert Staged(dst)[..|dst|] == dst && dir + "/" <= Staged(dst);
      assert Staged(dst)[|dst|..] == STAGED_SUFFIX;
    }
  }

  /** A tidy tree makes every finished run complete, whatever it lists. */
  lemma {:induction false} TidyIsComplete(w: World, before: Files, f: Files, repomd: Path, batch: Batch, checked: bool, missing: set<string>)
    requires Tidy(w, before) && batch.Sized()
    requires Assembled(w, before, f, repomd, batch.md, batch.listed, batch.Kept(repomd), batch.Fetched(), checked, missing)
    ensures Complete(w, f, repomd, checked, missing)
  {
    AssembledKept(w, before, f, f, repomd, batch.md, batch.listed, batch.Kept(repomd), batch.Fetched(), checked, missing);
  }

  /** An entry of a live index that the run did not see is there all the same: at
      a destination of the run by chance, or elsewhere since before. */
  predicate ThereAnyway(w: World, before: Files, f: Files, root: Root, batch: Batch, e: Entry, checked: bool) {
    if w.join(e.href).Some? && !IsWork(w.join(e.href).value) && w.join(e.href).value !in Destinations(root, batch)
    then Present(w, before, e, checked)
    else Present(w, f, e, checked)
  }

  /** A finished run that did not prune leaves a complete repository exactly when
      the live indexes can be read and each entry they have that the run did not
      see, because it read stale copies, was there before, or is recorded
      missing. */
  lemma {:induction false} CompleteExactly(w: World, before: Files, f: Files, root: Root, batch: Batch, checked: bool, missing: set<string>)
    requires batch.Sized() && ElsewhereSame(before, f, root, batch, false)
    requires Assembled(w, before, f, root.repomd, batch.md, batch.listed, batch.Kept(root.repomd), batch.Fetched(), checked, missing)
    ensures
      var live := Listed(w, f, PrimaryOf(batch.md).value, DeltasOf(batch.md));
      Complete(w, f, root.repomd, checked, missing) <==>
      live.Some? && forall e | e in live.value && e.href != "" && e !in batch.listed ::
        ThereAnyway(w, before, f, root, batch, e, checked) || e.href in missing
  {
    var live := Listed(w, f, PrimaryOf(batch.md).value, DeltasOf(batch.md));
    if live.Some? {
      forall e | e in live.value && e.href != "" && e !in batch.listed
        ensures ThereAnyway(w, before, f, root, batch, e, checked) == Present(w, f, e, checked)
      {
        if w.join(e.href).Some? && !IsWork(w.join(e.href).value) && w.join(e.href).value !in Destinations(root, batch) {
          assert Same(before, f, w.join(e.href).value);
        }
      }
    }
  }

  /** With or without pruning: one entry that the run did not see, and of which
      neither the tree before nor a download has the file, is enough. */
  lemma {:induction false} UnseenEntryBreaks(w: World, before: Files, f: Files, root: Root, batch: Batch, checked: bool, missing: set<string>, pruned: bool, e: Entry)
    requires batch.Sized() && ElsewhereSame(before, f, root, batch, pruned)
    requires Assembled(w, before, f, root.repomd, batch.md, batch.listed, batch.Kept(root.repomd), batch.Fetched(), checked, missing)
    requires var live := Listed(w, f, PrimaryOf(batch.md).value, DeltasOf(batch.md)); live.Some? && e in live.value
    requires e.href != "" && e.href !in missing && w.join(e.href).Some?
    requires var p := w.join(e.href).value; !IsWork(p) && p !in Destinations(root, batch) && p !in before
    ensures !Complete(w, f, root.repomd, checked, missing)
  {
    var p := w.join(e.href).value;
    assert p !in f;
    assert !Present(w, f, e, checked);
  }

  /** One primary index "p" whose bytes name the only package. */
  function OnePackage(): World {
    World((algo, data) => "", (data, sig) => true,
          data => Some([Entry("primary", "p", 0, "", "")]),
          data => Some([Entry("package", data, 0, "", "")]),
          data => Some([]),
          href => Some(href))
  }

  /** A live index and a staged copy of it, and nothing else. */
  function StaleTree(): (r: Files)
    ensures "p" in r && r["p"] == "new" && Staged("p") in r && r[Staged("p")] == "old"
    ensures forall x | x in r :: |x| == 1 || |x| == 8
  {
    assert |Staged("p")| == 8 && |"p"| == 1;
    map["p" := "new", Staged("p") := "old"]
  }

  lemma {:induction false} OnePackageSeen(f: Files)
    requires "p" in f && f["p"] == "new"
    ensures
      var w, md := OnePackage(), [Entry("primary", "p", 0, "", "")];
      && PrimaryOf(md) == Some(md[0]) && DeltasOf(md) == []
      && Seen(w, StaleTree(), f, md[0], []) == Some([Entry("package", "old", 0, "", "")])
      && Listed(w, f, md[0], []) == Some([Entry("package", "new", 0, "", "")])
  {
    var md := [Entry("primary", "p", 0, "", "")];
    assert md[..0] == [];
  }

  lemma {:induction false} JobDst(w: World, es: seq<Entry>, e: Entry)
    requires es == [e] && e.href != "" && w.join(e.href).Some?
    ensures JobsOf(w, es) == Some([JobOf(e, w.join(e.href).value)])
  {
    var none: seq<Job> := [];
    assert es[..|es| - 1] == [] && JobsOf(w, []) == Some(none);
    assert none + [JobOf(e, w.join(e.href).value)] == [JobOf(e, w.join(e.href).value)];
  }

  lemma {:induction false} NewIsNoDestination(dir: Path, batch: Batch)
    requires batch.metaJobs == [JobOf(Entry("primary", "p", 0, "", ""), "p")]
    requires batch.jobs == [JobOf(Entry("package", "old", 0, "", ""), "old")]
    ensures "new" !in Destinations(RootIn(dir, false, false), batch) && !IsWork("new")
  {
    assert "new" !in Dsts(batch.metaJobs) by { assert batch.metaJobs[0].dst == "p" && |"new"| == 3 && |"p"| == 1; }
    assert "new" !in Dsts(batch.jobs) by { assert batch.jobs[0].dst == "old" && "old"[0] == 'o' && "new"[0] == 'n'; }
    assert !IsWork("new") by { assert |"new"| == 3; }
    RootIsLong(dir, "new");
  }

  lemma {:induction false} RootIsLong(dir: Path, name: Path)
    requires |name| <= 8
    ensures name !in RootIn(dir, false, false).Paths()
  {
  }

  lemma {:induction false} OnePackagePlanned(dir: Path, batch: Batch)
    requires Planned(OnePackage(), batch) && batch.md == [Entry("primary", "p", 0, "", "")]
    requires batch.listed == [Entry("package", "old", 0, "", "")]
    ensures "new" !in Destinations(RootIn(dir, false, false), batch) && !IsWork("new")
  {
    JobDst(OnePackage(), batch.md, batch.md[0]);
    JobDst(OnePackage(), batch.listed, batch.listed[0]);
    NewIsNoDestination(dir, batch);
  }

  /** A run of that world which began with that tree, and finished with the tree
      f and the index in place. */
  ghost predicate FinishedOverStale(dir: Path, f: Files, batch: Batch, pruned: bool) {
    var root := RootIn(dir, false, false);
    && Planned(OnePackage(), batch) && ElsewhereSame(StaleTree(), f, root, batch, pruned)
    && Assembled(OnePackage(), StaleTree(), f, root.repomd, batch.md, batch.listed, batch.Kept(root.repomd), batch.Fetched(), true, {})
    && Same(StaleTree(), f, "p")
  }

  /** A run that takes the index as unchanged and downloads "old". */
  function StaleBatch(): Batch {
    var primary, package := Entry("primary", "p", 0, "", ""), Entry("package", "old", 0, "", "");
    Batch([primary], [JobOf(primary, "p")], [FileUnchanged], [package], [JobOf(package, "old")], [FileFetched])
  }

  lemma {:induction false} StalePlanned()
    ensures Planned(OnePackage(), StaleBatch())
    ensures "p" in LiveDsts(StaleBatch().metaJobs, StaleBatch().metaStates)
    ensures "old" in LiveDsts(StaleBatch().jobs, StaleBatch().states) && "old" in Dsts(StaleBatch().jobs)
    ensures forall repomd :: StaleBatch().Fetched() <= StaleBatch().Kept(repomd)
  {
    var batch := StaleBatch();
    JobDst(OnePackage(), batch.md, batch.md[0]);
    JobDst(OnePackage(), batch.listed, batch.listed[0]);
    assert batch.metaJobs[0].dst == "p" && batch.jobs[0].dst == "old";
  }

  lemma {:induction false} OnePresent(f: Files, e: Entry, kept: set<Path>)
    requires e.size == 0 && e.algo == "" && e.href in f && e.href in kept
    ensures AllPresent(OnePackage(), f, [e], true, {}) && Covered(OnePackage(), [e], kept, {})
  {
    assert Present(OnePackage(), f, e, true);
  }

  lemma {:induction false} StaleAssembled(f: Files, repomd: Path, kept: set<Path>, fetched: set<Path>, md: seq<Entry>, listed: seq<Entry>)
    requires md == [Entry("primary", "p", 0, "", "")] && listed == [Entry("package", "old", 0, "", "")]
    requires "p" in f && f["p"] == "new" && "old" in f && repomd in f && "p" in kept && "old" in kept && repomd in kept && fetched <= kept
    ensures Assembled(OnePackage(), StaleTree(), f, repomd, md, listed, kept, fetched, true, {})
  {
    OnePackageSeen(f);
    OnePresent(f, md[0], kept);
    OnePresent(f, listed[0], kept);
  }

  lemma {:induction false} StaleElsewhere(f: Files, root: Root, batch: Batch)
    requires "old" in Dsts(batch.jobs) && f == StaleTree()["old" := "x"][root.repomd := "r"]
    ensures ElsewhereSame(StaleTree(), f, root, batch, false)
  {
    forall x | !IsWork(x) && x !in Destinations(root, batch) ensures Same(StaleTree(), f, x) {
      assert x != "old" && x != root.repomd;
    }
  }

  /** There is such a run, in any directory. */
  lemma {:induction false} StaleRunExists(dir: Path) returns (f: Files, batch: Batch)
    ensures FinishedOverStale(dir, f, batch, false)
  {
    var root := RootIn(dir, false, false);
    f := StaleTree()["old" := "x"][root.repomd := "r"];
    batch := StaleBatch();
    assert "p" in f && f["p"] == "new" && "old" in f by {
      RootIsLong(dir, "p");
      assert |"p"| == 1 && |"old"| == 3;
    }
    StalePlanned();
    StaleElsewhere(f, root, batch);
    StaleAssembled(f, root.repomd, batch.Kept(root.repomd), batch.Fetched(), batch.md, batch.listed);
  }

  lemma {:induction false} StaleListed(dir: Path, f: Files, batch: Batch, pruned: bool)
    requires FinishedOverStale(dir, f, batch, pruned)
    ensures batch.md == [Entry("primary", "p", 0, "", "")] && batch.listed == [Entry("package", "old", 0, "", "")]
    ensures PrimaryOf(batch.md) == Some(batch.md[0]) && DeltasOf(batch.md) == []
    ensures Listed(OnePackage(), f, batch.md[0], []) == Some([Entry("package", "new", 0, "", "")])
  {
    OnePackageSeen(f);
  }

  /** The case that fails: whatever the upstream does, that run is content with
      the package of the stale copy, and has published a repository whose own
      index names one that is not there. */
  lemma {:induction false} StaleIndexBreaks(dir: Path, f: Files, batch: Batch, pruned: bool)
    ensures FinishedOverStale(dir, f, batch, pruned) ==>
              && batch.listed == [Entry("package", "old", 0, "", "")]
              && !Complete(OnePackage(), f, RootIn(dir, false, false).repomd, true, {})
  {
    if FinishedOverStale(dir, f, batch, pruned) {
      StaleListed(dir, f, batch, pruned);
      OnePackagePlanned(dir, batch);
      assert "new" !in StaleTree() by { assert |"new"| == 3; }
      UnseenEntryBreaks(OnePackage(), StaleTree(), f, RootIn(dir, false, false), batch, true, {}, pruned, Entry("package", "new", 0, "", ""));
    }
  }
}
