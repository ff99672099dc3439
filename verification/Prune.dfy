/**
 PruneTree (fetch/fetch.go): stale files wait out a grace period recorded
 across runs, then one sweep removes the directories left empty.

 The prune state file is the map it decodes to, keyed by path.
 */
module Prune {

  import opened Wrappers
  import opened Disk
  import opened Fetch
  import opened Transfers

  const BOOKKEEPING := [".repo-sync-prune.json", ".repo-sync-missing.json", ".repo-sync-state.json", ".repo-sync.lock"]

  /** The path's base name is one of the mirror's own files. */
  predicate IsBookkeeping(p: Path) {
    exists i | 0 <= i < |BOOKKEEPING| :: EndsWith(p, "/" + BOOKKEEPING[i])
  }

  /** By name: the prune grace, the missing files, the discovery cache, and the
      lock that guards a destination while a run works on it. */
  lemma {:induction false} BookkeepingExactly(p: Path)
    ensures IsBookkeeping(p) <==>
            || EndsWith(p, "/.repo-sync-prune.json") || EndsWith(p, "/.repo-sync-missing.json")
            || EndsWith(p, "/.repo-sync-state.json") || EndsWith(p, "/.repo-sync.lock")
  {
    assert "/" + BOOKKEEPING[0] == "/.repo-sync-prune.json" && "/" + BOOKKEEPING[1] == "/.repo-sync-missing.json";
    assert "/" + BOOKKEEPING[2] == "/.repo-sync-state.json" && "/" + BOOKKEEPING[3] == "/.repo-sync.lock";
  }

  type Saved = map<Path, int>

  datatype Verdict = Skip | Keep | Wait(since: int) | Delete

  /** What the walk decides about one file. */
  function Judge(p: Path, keep: set<Path>, saved: Saved, now: int, grace: int): Verdict {
    if IsBookkeeping(p) then Skip
    else if p in keep then Keep
    else if grace > 0 && !IsWork(p) then
      if p !in saved then Wait(now)
      else if now - saved[p] < grace then Wait(saved[p])
      else Delete
    else Delete
  }

  predicate Under(p: Path, dir: Path) {
    dir + "/" <= p
  }

  /** One non-dry run over a tree: the files its walk reached, the keep set, and
      which files it removed or failed to remove. */
  datatype Run = Run(now: int, walked: set<Path>, keep: set<Path>, removed: set<Path>, failed: set<Path>)

  /** The bookkeeping after the walk, before entries of vanished files go. */
  function Updated(run: Run, saved: Saved, grace: int): Saved {
    map p | p in saved.Keys + run.walked && Remains(run, saved, grace, p) :: if p in saved then saved[p] else run.now
  }

  predicate Remains(run: Run, saved: Saved, grace: int, p: Path) {
    if p in run.walked then
      match Judge(p, run.keep, saved, run.now, grace)
      case Skip => p in saved
      case Keep => false
      case Wait(_) => true
      case Delete => p in saved && p !in run.removed
    else p in saved
  }

  /** The files a run judged to go are the ones it removed or failed to. */
  ghost predicate Judged(run: Run, saved: Saved, grace: int) {
    && run.removed !! run.failed
    && (forall p :: p in run.removed + run.failed <==>
          p in run.walked && Judge(p, run.keep, saved, run.now, grace).Delete?)
  }

  /** A run removed exactly the files it judged to go, except the failures, and
      left the bookkeeping described; saved' is what it wrote back. */
  ghost predicate Outcome(run: Run, saved: Saved, saved': Saved, files': Files, grace: int) {
    && Judged(run, saved, grace)
    && (forall p | p in saved' :: p in Updated(run, saved, grace) && saved'[p] == Updated(run, saved, grace)[p])
    && (forall p | p in Updated(run, saved, grace) && p in files' :: p in saved')
  }

  datatype Fate = Left | Removed | Stuck

  /** What the walk does with one file and its entry. */
  method PruneOne(tree: Tree, p: Path, keep: set<Path>, saved: Saved, now: int, grace: int) returns (saved': Saved, fate: Fate)
    requires tree.Valid()
    modifies tree
    ensures tree.Valid() && old(tree.log) <= tree.log
    ensures tree.statFaults == old(tree.statFaults)
    ensures forall k | |old(tree.log)| <= k < |tree.log| :: tree.log[k] == tree.files
    ensures tree.files == if fate.Removed? then old(tree.files) - {p} else old(tree.files)
    ensures Judge(p, keep, saved, now, grace).Delete? <==> !fate.Left?
    ensures
      match Judge(p, keep, saved, now, grace)
      case Skip => saved' == saved
      case Keep => saved' == saved - {p}
      case Wait(since) => saved' == saved[p := since]
      case Delete => saved' == if fate.Removed? then saved - {p} else saved
  {
    if IsBookkeeping(p) {
      return saved, Left;
    }
    if p in keep {
      return saved - {p}, Left;
    }
    if grace > 0 && !IsWork(p) {
      if p !in saved {
        return saved[p := now], Left;
      }
      if now - saved[p] < grace {
        assert saved[p := saved[p]] == saved;
        return saved, Left;
      }
    }
    var err := tree.Remove(p);
    if !err.Fine? {
      return saved, Stuck;
    }
    return saved - {p}, Removed;
  }

  /** Where the walk stands after the files in run.walked. */
  ghost predicate Walking(run: Run, saved: Saved, saved': Saved, grace: int, a: Files, files: Files) {
    Judged(run, saved, grace) && saved' == Updated(run, saved, grace) && files == a - run.removed
  }

  method WalkOne(tree: Tree, p: Path, run: Run, ghost saved: Saved, current: Saved, grace: int, ghost n: nat, ghost a: Files)
    returns (saved': Saved, run': Run)
    requires tree.Valid() && p !in run.walked && n <= |tree.log|
    requires Walking(run, saved, current, grace, a, tree.files) && LogOnlyRemoves(tree.log, n, a, run.removed)
    modifies tree
    ensures tree.Valid() && old(tree.log) <= tree.log && tree.statFaults == old(tree.statFaults)
    ensures run'.now == run.now && run'.keep == run.keep && run'.walked == run.walked + {p}
    ensures Walking(run', saved, saved', grace, a, tree.files) && LogOnlyRemoves(tree.log, n, a, run'.removed)
  {
    ghost var b, m := tree.files, |tree.log|;
    UpdatedAt(run, saved, grace, p);
    var fate;
    saved', fate := PruneOne(tree, p, run.keep, current, run.now, grace);
    run' := Walked(run, p, fate);
    JudgedStep(run, saved, grace, p, fate);
    LogStep(tree.log, n, m, a, b, tree.files, run.removed, run'.removed);
    UpdatedStep(run, run', saved, grace, p);
  }

  /** The walk over the files; it may stop early. */
  method PruneFiles(tree: Tree, root: Path, keep: set<Path>, saved: Saved, now: int, grace: int)
    returns (saved': Saved, run: Run, complete: bool)
    requires tree.Valid()
    modifies tree
    ensures tree.Valid() && old(tree.log) <= tree.log && tree.statFaults == old(tree.statFaults)
    ensures run.now == now && run.keep == keep
    ensures run.walked <= FilesUnder(old(tree.files), root)
    ensures complete ==> run.walked == FilesUnder(old(tree.files), root)
    ensures Walking(run, saved, saved', grace, old(tree.files), tree.files)
    ensures LogOnlyRemoves(tree.log, |old(tree.log)|, old(tree.files), run.removed)
  {
    var pending := FilesUnder(tree.files, root);
    ghost var all := pending;
    saved' := saved;
    run := Run(now, {}, keep, {}, {});
    while pending != {}
      invariant tree.Valid() && old(tree.log) <= tree.log && tree.statFaults == old(tree.statFaults)
      invariant run.now == now && run.keep == keep
      invariant run.walked + pending == all && run.walked !! pending
      invariant Walking(run, saved, saved', grace, old(tree.files), tree.files)
      invariant LogOnlyRemoves(tree.log, |old(tree.log)|, old(tree.files), run.removed)
      decreases pending
    {
      var walkFails: bool := *;
      if walkFails { break; }
      var p :| p in pending;
      pending := pending - {p};
      saved', run := WalkOne(tree, p, run, saved, saved', grace, |old(tree.log)|, old(tree.files));
    }
    complete := pending == {};
  }

  function Walked(run: Run, p: Path, fate: Fate): Run {
    run.(walked := run.walked + {p},
         removed := if fate.Removed? then run.removed + {p} else run.removed,
         failed := if fate.Stuck? then run.failed + {p} else run.failed)
  }

  lemma {:induction false} JudgedStep(run: Run, saved: Saved, grace: int, p: Path, fate: Fate)
    requires Judged(run, saved, grace) && p !in run.walked
    requires !fate.Left? <==> Judge(p, run.keep, saved, run.now, grace).Delete?
    ensures Judged(Walked(run, p, fate), saved, grace)
  {
    assert p !in run.removed + run.failed;
  }

  lemma {:induction false} LogStep(log: seq<Files>, n: nat, m: nat, a: Files, b: Files, c: Files, removed: set<Path>, removed': set<Path>)
    requires n <= m <= |log| && LogOnlyRemoves(log[..m], n, a, removed) && b == a - removed
    requires removed <= removed' && c == a - removed'
    requires forall k | m <= k < |log| :: log[k] == c
    ensures LogOnlyRemoves(log, n, a, removed')
  {
    forall k | n <= k < |log| ensures OnlyRemoves(a, log[k], removed') {
      if k < m {
        assert OnlyRemoves(a, log[..m][k], removed);
      }
    }
  }

  ghost predicate LogOnlyRemoves(log: seq<Files>, n: nat, a: Files, removed: set<Path>) {
    forall k | n <= k < |log| :: OnlyRemoves(a, log[k], removed)
  }

  /** The second tree lacks at most the removed paths. */
  ghost predicate OnlyRemoves(a: Files, b: Files, removed: set<Path>) {
    forall p :: Same(a, b, p) || (p in removed && p !in b)
  }

  function FilesUnder(files: Files, root: Path): set<Path> {
    set p | p in files && Under(p, root)
  }

  /** A file the walk has not reached keeps its saved entry. */
  lemma {:induction false} UpdatedAt(run: Run, saved: Saved, grace: int, p: Path)
    requires p !in run.walked
    ensures p in saved ==> p in Updated(run, saved, grace) && Updated(run, saved, grace)[p] == saved[p]
    ensures p !in saved ==> p !in Updated(run, saved, grace)
    ensures Judge(p, run.keep, Updated(run, saved, grace), run.now, grace) == Judge(p, run.keep, saved, run.now, grace)
  {
  }

  /** Walking one more file changes only its own entry. */
  lemma {:induction false} UpdatedStep(before: Run, after: Run, saved: Saved, grace: int, p: Path)
    requires p !in before.walked && after.walked == before.walked + {p}
    requires after.now == before.now && after.keep == before.keep
    requires p !in before.removed && before.removed <= after.removed <= before.removed + {p}
    ensures Updated(after, saved, grace) ==
            if !Remains(after, saved, grace, p) then Updated(before, saved, grace) - {p}
            else Updated(before, saved, grace)[p := if p in saved then saved[p] else after.now]
  {
    UpdatedAt(before, saved, grace, p);
    forall q | q != p ensures Remains(after, saved, grace, q) == Remains(before, saved, grace, q) {
    }
  }

  /** Entries whose file a stat does not find are dropped. */
  method DropVanished(tree: Tree, saved: Saved) returns (saved': Saved)
    requires tree.Valid()
    modifies tree`statFaults
    ensures tree.statFaults >= old(tree.statFaults)
    ensures forall p | p in saved' :: p in saved && saved'[p] == saved[p]
    ensures forall p | p in saved && p in tree.files :: p in saved'
  {
    saved' := saved;
    var pending := saved.Keys;
    while pending != {}
      invariant tree.statFaults >= old(tree.statFaults)
      invariant forall p | p in saved' :: p in saved && saved'[p] == saved[p]
      invariant forall p | p in saved && p in tree.files :: p in saved'
      decreases pending
    {
      var p :| p in pending;
      pending := pending - {p};
      var err := tree.Stat(p);
      if err.NotExist? {
        saved' := saved' - {p};
      }
    }
  }

  /** A run removes nothing it was told to keep. */
  lemma {:induction false} KeptNotRemoved(run: Run, saved: Saved, grace: int)
    requires Judged(run, saved, grace)
    ensures run.keep !! run.removed
  {
    forall p | p in run.removed ensures p !in run.keep {
      assert p in run.removed + run.failed;
    }
  }

  // ---------- Runs over time ----------

  ghost predicate History(runs: seq<Run>, saves: seq<Saved>, trees: seq<Files>, grace: int) {
    && grace > 0
    && |saves| == |runs| + 1 && |trees| == |runs|
    && saves[0] == map[]
    && (forall i | 0 <= i < |runs| :: Outcome(runs[i], saves[i], saves[i + 1], trees[i], grace))
  }

  /** The run found the file unreferenced. */
  predicate FoundStale(run: Run, p: Path) {
    p in run.walked && p !in run.keep && !IsBookkeeping(p)
  }

  /** The run found the file and it belonged to the repository. */
  predicate FoundKept(run: Run, p: Path) {
    p in run.walked && p in run.keep
  }

  /** An entry saved after n runs dates from a run that found the file stale,
      with no run since then that kept it. */
  lemma {:induction false} EntryOrigin(runs: seq<Run>, saves: seq<Saved>, trees: seq<Files>, grace: int, n: nat, p: Path) returns (i: nat)
    requires History(runs, saves, trees, grace) && n <= |runs| && p in saves[n] && !IsBookkeeping(p)
    ensures i < n && runs[i].now == saves[n][p] && FoundStale(runs[i], p)
    ensures forall j | i <= j < n :: !FoundKept(runs[j], p)
  {
    var last := n - 1;
    assert Outcome(runs[last], saves[last], saves[n], trees[last], grace);
    assert Remains(runs[last], saves[last], grace, p);
    if p in saves[last] {
      i := EntryOrigin(runs, saves, trees, grace, last, p);
    } else {
      i := last;
    }
  }

  /** Over any sequence of runs with one grace period, whatever happens to the
      tree in between, a file that is not internal work is removed only at
      least the grace after a run that found it stale, with no run from then
      on that kept it; and kept and bookkeeping files are never removed. */
  lemma {:induction false} RemovedOnlyAfterGrace(runs: seq<Run>, saves: seq<Saved>, trees: seq<Files>, grace: int, n: nat, p: Path)
    requires History(runs, saves, trees, grace) && n < |runs| && p in runs[n].removed
    ensures p !in runs[n].keep && !IsBookkeeping(p)
    ensures !IsWork(p) ==>
              exists i | 0 <= i < n ::
                FoundStale(runs[i], p) && runs[n].now - runs[i].now >= grace &&
                forall j | i <= j <= n :: !FoundKept(runs[j], p)
  {
    assert Outcome(runs[n], saves[n], saves[n + 1], trees[n], grace);
    assert p in runs[n].removed + runs[n].failed;
    if !IsWork(p) {
      var i := EntryOrigin(runs, saves, trees, grace, n, p);
    }
  }

  /** No run removes the mirror's own files, wherever they lie: not the lock it
      holds, nor the records of earlier runs. */
  lemma {:induction false} OwnFilesStay(run: Run, saved: Saved, grace: int, dir: Path)
    requires Judged(run, saved, grace)
    ensures dir + "/.repo-sync.lock" !in run.removed && dir + "/.repo-sync-prune.json" !in run.removed
    ensures dir + "/.repo-sync-missing.json" !in run.removed && dir + "/.repo-sync-state.json" !in run.removed
  {
    forall name | name in {"/.repo-sync.lock", "/.repo-sync-prune.json", "/.repo-sync-missing.json", "/.repo-sync-state.json"}
      ensures dir + name !in run.removed
    {
      BookkeepingExactly(dir + name);
      assert (dir + name)[|dir|..] == name;
      assert dir + name !in run.removed + run.failed;
    }
  }

  /** The converse: a file two runs at least the grace apart find stale, which
      is still there after every run in between and which none of them kept, is
      removed by the later run unless the removal fails. */
  lemma {:induction false} StaleIsRemoved(runs: seq<Run>, saves: seq<Saved>, trees: seq<Files>, grace: int, i: nat, n: nat, p: Path)
    requires History(runs, saves, trees, grace) && i < n < |runs|
    requires FoundStale(runs[i], p) && FoundStale(runs[n], p) && !IsWork(p)
    requires forall j | i <= j < n :: p in trees[j] && !FoundKept(runs[j], p)
    requires runs[n].now - runs[i].now >= grace
    requires forall j, k | 0 <= j <= k <= n :: runs[j].now <= runs[k].now
    ensures p in runs[n].removed || p in runs[n].failed || exists j | i <= j < n :: p in runs[j].removed
  {
    if forall j | i <= j < n :: p !in runs[j].removed {
      EntryPersists(runs, saves, trees, grace, i, n, p);
      assert Outcome(runs[n], saves[n], saves[n + 1], trees[n], grace);
      assert p in runs[n].removed + runs[n].failed;
    }
  }

  lemma {:induction false} EntryPersists(runs: seq<Run>, saves: seq<Saved>, trees: seq<Files>, grace: int, i: nat, n: nat, p: Path)
    requires History(runs, saves, trees, grace) && i < n <= |runs|
    requires FoundStale(runs[i], p) && !IsWork(p)
    requires forall j | i <= j < n :: p in trees[j] && !FoundKept(runs[j], p) && p !in runs[j].removed
    requires forall j, k | 0 <= j <= k < n :: runs[j].now <= runs[k].now
    ensures p in saves[n] && saves[n][p] <= runs[i].now
  {
    var last := n - 1;
    assert Outcome(runs[last], saves[last], saves[n], trees[last], grace);
    if i < last {
      EntryPersists(runs, saves, trees, grace, i, last, p);
    } else if p in saves[i] {
      var o := EntryOrigin(runs, saves, trees, grace, i, p);
    }
    assert p in Updated(runs[last], saves[last], grace);
  }

  // ---------- Directories left empty ----------

  /** strings.Count of the separator. */
  function Depth(p: Path): nat {
    if p == "" then 0 else Depth(p[..|p| - 1]) + if p[|p| - 1] == '/' then 1 else 0
  }

  lemma {:induction false} DepthUnder(p: Path, dir: Path)
    requires Under(p, dir)
    ensures Depth(p) > Depth(dir)
    decreases |p|
  {
    if |p| == |dir| + 1 {
      assert p[..|p| - 1] == dir && p[|p| - 1] == (dir + "/")[|dir|];
    } else {
      assert Under(p[..|p| - 1], dir);
      DepthUnder(p[..|p| - 1], dir);
    }
  }

  predicate DeepestFirst(dirs: seq<Path>) {
    forall i, j | 0 <= i < j < |dirs| :: Depth(dirs[i]) >= Depth(dirs[j])
  }

  function Elements(dirs: seq<Path>): set<Path> {
    set d | d in dirs
  }

  function Insert(dirs: seq<Path>, dir: Path): seq<Path> {
    if dirs == [] || Depth(dirs[0]) < Depth(dir) then [dir] + dirs
    else [dirs[0]] + Insert(dirs[1..], dir)
  }

  lemma {:induction false} AtFront(dir: Path, dirs: seq<Path>)
    requires DeepestFirst(dirs) && forall d | d in Elements(dirs) :: Depth(dir) >= Depth(d)
    ensures DeepestFirst([dir] + dirs)
  {
    forall i | 0 <= i < |dirs| ensures Depth(dir) >= Depth(dirs[i]) {
      assert dirs[i] in Elements(dirs);
    }
  }

  lemma {:induction false} InsertElements(dirs: seq<Path>, dir: Path)
    ensures Elements(Insert(dirs, dir)) == Elements(dirs) + {dir}
  {
    if dirs == [] || Depth(dirs[0]) < Depth(dir) {
      assert Elements([dir] + dirs) == Elements(dirs) + {dir};
    } else {
      InsertElements(dirs[1..], dir);
      assert dirs == [dirs[0]] + dirs[1..];
      assert Elements(dirs) == {dirs[0]} + Elements(dirs[1..]);
      assert Elements([dirs[0]] + Insert(dirs[1..], dir)) == {dirs[0]} + Elements(Insert(dirs[1..], dir));
    }
  }

  lemma {:induction false} InsertKeepsOrder(dirs: seq<Path>, dir: Path)
    requires DeepestFirst(dirs)
    ensures DeepestFirst(Insert(dirs, dir))
  {
    if dirs != [] {
      forall d | d in Elements(dirs) ensures Depth(dirs[0]) >= Depth(d) {
        var k :| 0 <= k < |dirs| && dirs[k] == d;
      }
      if Depth(dirs[0]) < Depth(dir) {
        AtFront(dir, dirs);
      } else {
        InsertKeepsOrder(dirs[1..], dir);
        InsertElements(dirs[1..], dir);
        assert Elements(dirs[1..]) <= Elements(dirs);
        AtFront(dirs[0], Insert(dirs[1..], dir));
      }
    }
  }

  /** sort.Slice on the separator count. */
  method SortDeepestFirst(dirs: set<Path>) returns (sorted: seq<Path>)
    ensures DeepestFirst(sorted) && Elements(sorted) == dirs
  {
    sorted := [];
    var pending := dirs;
    while pending != {}
      invariant DeepestFirst(sorted) && Elements(sorted) + pending == dirs
      decreases pending
    {
      var d :| d in pending;
      pending := pending - {d};
      InsertKeepsOrder(sorted, d);
      InsertElements(sorted, d);
      sorted := Insert(sorted, d);
    }
  }

  predicate HasFile(files: Files, dir: Path) {
    exists f | f in files :: Under(f, dir)
  }

  /** The sweep: removing a directory works only when it is empty, and may fail
      even then. No directory with a file beneath it goes; and when nothing
      fails, one pass in non-increasing separator count leaves exactly those. */
  method SweepDirs(files: Files, dirs: set<Path>) returns (left: set<Path>, clean: bool)
    ensures left <= dirs && forall d | d in dirs && HasFile(files, d) :: d in left
    ensures clean ==> left == set d | d in dirs && HasFile(files, d)
  {
    var order := SortDeepestFirst(dirs);
    left, clean := dirs, true;
    for i := 0 to |order|
      invariant left <= dirs
      invariant forall d | d in dirs && HasFile(files, d) :: d in left
      invariant clean ==> forall k | 0 <= k < i :: order[k] in left <==> HasFile(files, order[k])
      invariant forall k | i <= k < |order| :: order[k] in dirs && (order[k] in left || exists j | 0 <= j < i :: order[j] == order[k])
    {
      var dir := order[i];
      if clean { DeeperDirsDone(files, order, i, left); }
      var empty := !HasFile(files, dir) && forall d | d in left :: !Under(d, dir);
      var fails: bool := *;
      if empty && fails {
        clean := false;
      } else if empty {
        left := left - {dir};
      }
    }
  }

  /** When the sweep reaches a directory, whatever is left beneath it has a
      file beneath it in turn. */
  lemma {:induction false} DeeperDirsDone(files: Files, order: seq<Path>, i: nat, left: set<Path>)
    requires DeepestFirst(order) && i < |order| && left <= Elements(order)
    requires forall k | 0 <= k < i :: order[k] in left <==> HasFile(files, order[k])
    ensures forall d | d in left && Under(d, order[i]) :: HasFile(files, order[i])
  {
    forall d | d in left && Under(d, order[i]) ensures HasFile(files, order[i]) {
      DepthUnder(d, order[i]);
      assert d in Elements(order);
      var k :| 0 <= k < |order| && order[k] == d;
      assert k < i;
      var f :| f in files && Under(f, d);
    }
  }

  // ---------- The whole prune ----------

  /** Live files left below root are kept, the mirror's own, stuck, or wait out
      the grace that the record says. */
  predicate Swept(run: Run, files: Files, root: Path, saved: Saved, grace: int) {
    forall p | p in files && Under(p, root) && !IsWork(p) ::
      || p in run.keep || IsBookkeeping(p) || p in run.failed
      || (grace > 0 && p in saved && run.now - saved[p] < grace)
  }

  /** Of work files nothing waits. */
  predicate WorkSwept(run: Run, files: Files, root: Path) {
    forall p | p in files && Under(p, root) && IsWork(p) :: p in run.keep || IsBookkeeping(p) || p in run.failed
  }

  /** A walk that reached everything. */
  lemma {:induction false} WalkSweeps(run: Run, a: Files, files: Files, root: Path, saved: Saved, saved': Saved, grace: int)
    requires run.walked == FilesUnder(a, root) && files == a - run.removed
    requires Judged(run, saved, grace) && (grace > 0 ==> Outcome(run, saved, saved', files, grace))
    ensures Swept(run, files, root, saved', grace) && WorkSwept(run, files, root)
  {
    forall p | p in files && Under(p, root)
      ensures
        || p in run.keep || IsBookkeeping(p) || p in run.failed
        || (!IsWork(p) && grace > 0 && p in saved' && run.now - saved'[p] < grace)
    {
      assert p in run.walked && p !in run.removed;
      if Judge(p, run.keep, saved, run.now, grace).Delete? {
        assert p in run.removed + run.failed;
      } else if Judge(p, run.keep, saved, run.now, grace).Wait? {
        assert Remains(run, saved, grace, p) && p in Updated(run, saved, grace);
      }
    }
  }

  lemma {:induction false} SweptStays(run: Run, a: Files, b: Files, root: Path, saved: Saved, grace: int)
    requires Swept(run, a, root, saved, grace) && forall p | p in b && !IsWork(p) :: p in a
    ensures Swept(run, b, root, saved, grace)
  {
  }

  /** A prune, and whether its walk reached everything. */
  datatype Report = Report(run: Run, complete: bool)

  /** How a synchronization pruned below dir, if it was to: it removed only what
      was judged to go, kept at most the allowed files on purpose, and left no
      stale file behind when its walk reached everything. */
  ghost predicate Pruned(report: Option<Report>, wanted: bool, allowed: set<Path>, files: Files, dir: Path,
                         saved: Saved, saved': Saved, now: int, grace: int) {
    && (report.Some? <==> wanted) && (!wanted ==> saved' == saved)
    && (wanted ==>
          var run := report.value.run;
          && run.now == now && run.keep <= allowed && Judged(run, if grace > 0 then saved else map[], grace)
          && (report.value.complete ==> Swept(run, files, dir, saved', grace)))
  }

  lemma {:induction false} PrunedStays(report: Option<Report>, wanted: bool, allowed: set<Path>, a: Files, b: Files, dir: Path,
                                       saved: Saved, saved': Saved, now: int, grace: int)
    requires Pruned(report, wanted, allowed, a, dir, saved, saved', now, grace) && LiveSame(a, b)
    ensures Pruned(report, wanted, allowed, b, dir, saved, saved', now, grace)
  {
    if wanted && report.value.complete { SweptStays(report.value.run, a, b, dir, saved', grace); }
  }

  /** A non-dry PruneTree over the files and directories below root. */
  method PruneTree(tree: Tree, root: Path, dirs: set<Path>, keep: set<Path>, saved: Saved, now: int, grace: int)
    returns (saved': Saved, run: Run, complete: bool, left: set<Path>, swept: bool)
    requires tree.Valid()
    modifies tree
    ensures tree.Valid() && old(tree.log) <= tree.log && tree.statFaults >= old(tree.statFaults)
    ensures run.now == now && run.keep == keep && run.walked <= FilesUnder(old(tree.files), root)
    ensures complete ==> run.walked == FilesUnder(old(tree.files), root)
    ensures tree.files == old(tree.files) - run.removed
    ensures LogOnlyRemoves(tree.log, |old(tree.log)|, old(tree.files), run.removed)
    ensures Judged(run, if grace > 0 then saved else map[], grace)
    ensures if grace > 0 then Outcome(run, saved, saved', tree.files, grace) else saved' == saved
    ensures complete ==> Swept(run, tree.files, root, saved', grace) && WorkSwept(run, tree.files, root)
    ensures left <= dirs && (complete ==> forall d | d in dirs && HasFile(tree.files, d) :: d in left)
    ensures complete && swept ==> left == set d | d in dirs && HasFile(tree.files, d)
  {
    var loaded := if grace > 0 then saved else map[];
    saved', run, complete := PruneFiles(tree, root, keep, loaded, now, grace);
    saved' := if grace > 0 then saved' else saved;
    if grace > 0 {
      saved' := DropVanished(tree, saved');
    }
    if complete { WalkSweeps(run, old(tree.files), tree.files, root, loaded, saved', grace); }
    var seen: set<Path> := dirs;
    if !complete {
      seen := *;
      seen := seen * dirs;
    }
    left, swept := SweepDirs(tree.files, seen);
    left := left + (dirs - seen);
  }
}
