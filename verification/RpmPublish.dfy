/**
 Publication of an RPM repository's root (mirror/rpm.go): stale packages are
 hidden, the signature material and then repomd.xml are promoted, and a failure
 anywhere puts everything back.

 Clients see the live paths: everything except the mirror's own work names.
 */
module RpmPublish {

  import opened Wrappers
  import opened Disk
  import opened Fetch
  import opened Transfers

  datatype Root = Root(repomd: Path, sig: Path, key: Path, sigMissing: bool, keyMissing: bool) {
    predicate Valid() {
      && !IsWork(repomd) && !IsWork(sig) && !IsWork(key)
      && repomd != sig && repomd != key && sig != key
      && !EndsWith(repomd, ".withdrawn") && !EndsWith(sig, ".withdrawn") && !EndsWith(key, ".withdrawn")
    }

    function Paths(): set<Path> { {repomd, sig, key} }

    /** The root files with the work names publication uses beside them. */
    function Touched(): set<Path> {
      {repomd, sig, key, Staged(repomd), Staged(sig), Staged(key), Rollback(repomd), Rollback(sig), Rollback(key)}
    }
  }

  /** The root of the repository in a directory. */
  function RootIn(dir: Path, sigMissing: bool, keyMissing: bool): (r: Root)
    ensures r.Valid()
  {
    var r := Root(dir + "/repodata/repomd.xml", dir + "/repodata/repomd.xml.asc", dir + "/repodata/repomd.xml.key",
                  sigMissing, keyMissing);
    assert r.repomd[|r.repomd| - 1] == 'l' && r.repomd[|r.repomd| - 2] == 'm';
    assert r.sig[|r.sig| - 1] == 'c' && r.key[|r.key| - 1] == 'y';
    r
  }

  function Rollback(p: Path): Path { p + ".rollback" + STAGED_SUFFIX }

  function Backup(p: Path): Path { p + ".withdrawn" + STAGED_SUFFIX }

  lemma {:induction false} OwnNames(p: Path)
    ensures IsWork(Rollback(p)) && IsWork(Backup(p)) && IsWork(Staged(p))
  {
  }

  lemma {:induction false} BackupsDiffer(p: Path, q: Path)
    requires p != q
    ensures Backup(p) != Backup(q)
  {
    assert Backup(p)[..|p|] == p && Backup(q)[..|q|] == q;
    assert |Backup(p)| == |p| + 17 && |Backup(q)| == |q| + 17;
  }

  // ---------- Snapshot and rollback of the root files ----------

  datatype Snapshot = Snapshot(path: Path, data: Option<Bytes>)

  ghost predicate Holds(files: Files, snap: Snapshot) {
    if snap.data.Some? then snap.path in files && files[snap.path] == snap.data.value else snap.path !in files
  }

  ghost predicate Separate(snaps: seq<Snapshot>) {
    && (forall i | 0 <= i < |snaps| :: !IsWork(snaps[i].path))
    && (forall i, j | 0 <= i < j < |snaps| :: snaps[i].path != snaps[j].path)
  }

  method SnapshotRoot(tree: Tree, paths: seq<Path>) returns (r: Option<seq<Snapshot>>)
    requires tree.Valid()
    modifies tree`statFaults
    ensures r.Some? ==> |r.value| == |paths|
    ensures r.Some? ==> forall i | 0 <= i < |paths| :: r.value[i].path == paths[i] && Holds(tree.files, r.value[i])
    ensures tree.statFaults >= old(tree.statFaults)
  {
    var snaps: seq<Snapshot> := [];
    for i := 0 to |paths|
      invariant |snaps| == i
      invariant forall k | 0 <= k < i :: snaps[k].path == paths[k] && Holds(tree.files, snaps[k])
      invariant tree.statFaults >= old(tree.statFaults)
    {
      var err := tree.Stat(paths[i]);
      if err.NotExist? {
        snaps := snaps + [Snapshot(paths[i], None)];
        continue;
      }
      if !err.Fine? {
        return None;
      }
      var data := tree.Read(paths[i]);
      if data.Err? {
        return None;
      }
      snaps := snaps + [Snapshot(paths[i], Some(data.value))];
    }
    return Some(snaps);
  }

  /** Every live path is as in a or as its snapshot says. */
  ghost predicate Restoring(a: Files, files: Files, snaps: seq<Snapshot>) {
    forall p | !IsWork(p) ::
      Same(a, files, p) || exists i | 0 <= i < |snaps| :: snaps[i].path == p && Holds(files, snaps[i])
  }

  method RestoreOne(tree: Tree, snap: Snapshot) returns (ok: bool)
    requires tree.Valid() && !IsWork(snap.path)
    modifies tree
    ensures tree.Valid() && old(tree.log) <= tree.log
    ensures forall k | |old(tree.log)| <= k < |tree.log| ::
              forall p | !IsWork(p) :: Same(old(tree.files), tree.log[k], p) || (p == snap.path && Holds(tree.log[k], snap))
    ensures KeptSince(tree.log, |old(tree.log)|, old(tree.files), {snap.path, Rollback(snap.path)})
    ensures SameOutside(old(tree.files), tree.files, {snap.path, Rollback(snap.path)})
    ensures ok ==> Holds(tree.files, snap)
    ensures forall p | !IsWork(p) && p != snap.path :: Same(old(tree.files), tree.files, p)
    ensures Same(old(tree.files), tree.files, snap.path) || Holds(tree.files, snap)
    ensures tree.statFaults >= old(tree.statFaults)
  {
    OwnNames(snap.path);
    if snap.data.None? {
      var err := tree.Remove(snap.path);
      return !err.Fault?;
    }
    var err, _ := tree.Write(Rollback(snap.path), false, snap.data.value);
    if !err.Fine? {
      return false;
    }
    assert snap.data.value[..|snap.data.value|] == snap.data.value;
    err := tree.Rename(Rollback(snap.path), snap.path);
    if !err.Fine? {
      var _ := tree.Remove(Rollback(snap.path));
      return false;
    }
    return true;
  }

  ghost function RollbackPaths(snaps: seq<Snapshot>): set<Path> {
    (set i | 0 <= i < |snaps| :: snaps[i].path) + (set i | 0 <= i < |snaps| :: Rollback(snaps[i].path))
  }

  /** restoreRPMRoot: with no error, every root file is as it was snapshotted;
      until then each is as found or already restored. */
  method RestoreRoot(tree: Tree, snaps: seq<Snapshot>) returns (ok: bool)
    requires tree.Valid() && Separate(snaps)
    modifies tree
    ensures tree.Valid() && old(tree.log) <= tree.log
    ensures forall k | |old(tree.log)| <= k < |tree.log| :: Restoring(old(tree.files), tree.log[k], snaps)
    ensures Restoring(old(tree.files), tree.files, snaps)
    ensures KeptSince(tree.log, |old(tree.log)|, old(tree.files), RollbackPaths(snaps))
    ensures SameOutside(old(tree.files), tree.files, RollbackPaths(snaps))
    ensures ok ==> forall i | 0 <= i < |snaps| :: Holds(tree.files, snaps[i])
    ensures tree.statFaults >= old(tree.statFaults)
  {
    ok := true;
    for i := 0 to |snaps|
      invariant tree.Valid() && old(tree.log) <= tree.log
      invariant forall k | |old(tree.log)| <= k < |tree.log| :: Restoring(old(tree.files), tree.log[k], snaps)
      invariant Restoring(old(tree.files), tree.files, snaps)
      invariant KeptSince(tree.log, |old(tree.log)|, old(tree.files), RollbackPaths(snaps))
      invariant SameOutside(old(tree.files), tree.files, RollbackPaths(snaps))
      invariant ok ==> forall j | 0 <= j < i :: Holds(tree.files, snaps[j])
      invariant tree.statFaults >= old(tree.statFaults)
    {
      ghost var b, m := tree.files, |tree.log|;
      var one := RestoreOne(tree, snaps[i]);
      ghost var mine := {snaps[i].path, Rollback(snaps[i].path)};
      assert RollbackPaths(snaps) + mine == RollbackPaths(snaps);
      KeptJoin(tree.log, |old(tree.log)|, m, old(tree.files), b, RollbackPaths(snaps), mine);
      SameOutsideTrans(old(tree.files), b, tree.files, RollbackPaths(snaps), mine);
      ok := ok && one;
      forall f: Files | forall p | !IsWork(p) :: Same(b, f, p) || (p == snaps[i].path && Holds(f, snaps[i]))
        ensures Restoring(old(tree.files), f, snaps)
      {
        RestoringStep(old(tree.files), b, f, snaps, i);
      }
    }
  }

  lemma {:induction false} RestoringStep(a: Files, b: Files, c: Files, snaps: seq<Snapshot>, i: nat)
    requires i < |snaps| && Restoring(a, b, snaps)
    requires forall p | !IsWork(p) :: Same(b, c, p) || (p == snaps[i].path && Holds(c, snaps[i]))
    ensures Restoring(a, c, snaps)
  {
    forall p | !IsWork(p)
      ensures Same(a, c, p) || exists j | 0 <= j < |snaps| :: snaps[j].path == p && Holds(c, snaps[j])
    {
      if Same(b, c, p) && !Same(a, b, p) {
        var j :| 0 <= j < |snaps| && snaps[j].path == p && Holds(b, snaps[j]);
        assert Holds(c, snaps[j]);
      }
    }
  }

  // ---------- Promotion of the root files ----------

  /** What publishing makes of one optional root file. */
  ghost predicate Published(a: Files, b: Files, dst: Path, missing: bool) {
    if missing then dst !in b else Same(Promoted(a, dst), b, dst)
  }

  /** One optional file: removed when upstream has none, else promoted. */
  method PublishExtra(tree: Tree, dst: Path, missing: bool) returns (ok: bool, present: bool)
    requires tree.Valid() && !IsWork(dst)
    modifies tree
    ensures tree.Valid() && old(tree.log) <= tree.log
    ensures KeptSince(tree.log, |old(tree.log)|, old(tree.files), {dst, Staged(dst)})
    ensures SameOutside(old(tree.files), tree.files, {dst, Staged(dst)})
    ensures ok ==> Published(old(tree.files), tree.files, dst, missing)
    ensures ok && !missing && dst in tree.files && tree.statFaults == old(tree.statFaults) ==> present
    ensures present ==> dst in tree.files
    ensures tree.statFaults >= old(tree.statFaults)
  {
    if missing {
      var err := tree.Remove(dst);
      return !err.Fault?, false;
    }
    ok := PromoteStaged(tree, dst);
    if !ok {
      return false, false;
    }
    var err := tree.Stat(dst);
    return true, err.Fine?;
  }

  /** Key and signature, in this order. */
  method PublishExtras(tree: Tree, root: Root) returns (ok: bool, keep: set<Path>)
    requires tree.Valid() && root.Valid()
    modifies tree
    ensures tree.Valid() && old(tree.log) <= tree.log && tree.statFaults >= old(tree.statFaults)
    ensures KeptSince(tree.log, |old(tree.log)|, old(tree.files), Extras(root))
    ensures SameOutside(old(tree.files), tree.files, Extras(root))
    ensures ok ==>
              && Published(old(tree.files), tree.files, root.key, root.keyMissing)
              && Published(old(tree.files), tree.files, root.sig, root.sigMissing)
    ensures ok && !root.sigMissing && root.sig in tree.files && tree.statFaults == old(tree.statFaults) ==> root.sig in keep
    ensures keep <= root.Paths()
  {
    ghost var n, a := |tree.log|, tree.files;
    keep := {};
    WorkNamesDiffer(root.key, root.sig);
    var present;
    ok, present := PublishExtra(tree, root.key, root.keyMissing);
    if !ok { return; }
    if present { keep := keep + {root.key}; }
    ghost var b, m := tree.files, |tree.log|;
    ok, present := PublishExtra(tree, root.sig, root.sigMissing);
    KeptJoin(tree.log, n, m, a, b, {root.key, Staged(root.key)}, {root.sig, Staged(root.sig)});
    SameOutsideTrans(a, b, tree.files, {root.key, Staged(root.key)}, {root.sig, Staged(root.sig)});
    assert {root.key, Staged(root.key)} + {root.sig, Staged(root.sig)} == Extras(root);
    if present { keep := keep + {root.sig}; }
  }

  ghost function Extras(root: Root): set<Path> {
    {root.key, Staged(root.key), root.sig, Staged(root.sig)}
  }

  lemma {:induction false} ExtrasApart(root: Root)
    requires root.Valid()
    ensures root.repomd !in Extras(root) && Staged(root.repomd) !in Extras(root)
    ensures root.key != Staged(root.repomd) && root.sig != Staged(root.repomd)
    ensures Extras(root) + {root.repomd, Staged(root.repomd)} <= root.Touched()
  {
    WorkNamesDiffer(root.key, root.repomd);
    WorkNamesDiffer(root.sig, root.repomd);
    OwnNames(root.repomd);
  }

  /** The forward half of publishRPMRoot: repomd.xml changes last, and only
      when nothing can fail any more. */
  method PublishForward(tree: Tree, root: Root) returns (ok: bool, keep: set<Path>)
    requires tree.Valid() && root.Valid()
    modifies tree
    ensures tree.Valid() && old(tree.log) <= tree.log && tree.statFaults >= old(tree.statFaults)
    ensures KeptSince(tree.log, |old(tree.log)|, old(tree.files), root.Touched())
    ensures SameOutside(old(tree.files), tree.files, root.Touched())
    ensures forall k | |old(tree.log)| <= k < |tree.log| ::
              Same(old(tree.files), tree.log[k], root.repomd) || (ok && tree.log[k] == tree.files)
    ensures !ok ==> Same(old(tree.files), tree.files, root.repomd)
    ensures ok ==> PublishedAll(old(tree.files), tree.files, root) && root.repomd in keep
    ensures ok && !root.sigMissing && root.sig in tree.files && tree.statFaults == old(tree.statFaults) ==> root.sig in keep
    ensures keep <= root.Paths()
  {
    ghost var n, a := |tree.log|, tree.files;
    ExtrasApart(root);
    ok, keep := PublishExtras(tree, root);
    if !ok { return; }
    ghost var b, m := tree.files, |tree.log|;
    assert forall k | n <= k < m :: SameOutside(a, tree.log[k], Extras(root));
    ok := PromoteStaged(tree, root.repomd);
    keep := keep + {root.repomd};
    ghost var c, last := tree.files, {root.repomd, Staged(root.repomd)};
    assert KeptSince(tree.log, m, b, last);
    KeptJoin(tree.log, n, m, a, b, Extras(root), last);
    SameOutsideTrans(a, b, c, Extras(root), last);
    assert Same(Promoted(a, root.repomd), Promoted(b, root.repomd), root.repomd);
  }

  /** Publication of all three root files. */
  ghost predicate PublishedAll(a: Files, b: Files, root: Root) {
    && Published(a, b, root.key, root.keyMissing)
    && Published(a, b, root.sig, root.sigMissing)
    && Published(a, b, root.repomd, false)
  }

  /** publishRPMRoot: an error whose rollback works leaves the live tree as it
      was, with repomd.xml untouched at every moment. */
  method PublishRoot(tree: Tree, root: Root) returns (ok: bool, undone: bool, keep: set<Path>)
    requires tree.Valid() && root.Valid()
    modifies tree
    ensures tree.Valid() && old(tree.log) <= tree.log
    ensures KeptSince(tree.log, |old(tree.log)|, old(tree.files), root.Touched())
    ensures SameOutside(old(tree.files), tree.files, root.Touched())
    ensures forall k | |old(tree.log)| <= k < |tree.log| ::
              Same(old(tree.files), tree.log[k], root.repomd) || (ok && tree.log[k] == tree.files)
    ensures !ok ==> Same(old(tree.files), tree.files, root.repomd)
    ensures !ok && undone ==> LiveSame(old(tree.files), tree.files)
    ensures ok ==> PublishedAll(old(tree.files), tree.files, root) && root.repomd in keep
    ensures ok && !root.sigMissing && root.sig in tree.files && tree.statFaults == old(tree.statFaults) ==> root.sig in keep
    ensures keep <= root.Paths()
    ensures tree.statFaults >= old(tree.statFaults)
  {
    var snaps := SnapshotRoot(tree, [root.key, root.sig, root.repomd]);
    if snaps.None? {
      return false, true, {};
    }
    ghost var a := tree.files;
    undone := true;
    ok, keep := PublishForward(tree, root);
    if !ok {
      ghost var b, m := tree.files, |tree.log|;
      undone := RestoreRoot(tree, snaps.value);
      assert RollbackPaths(snaps.value) <= root.Touched();
      KeptJoin(tree.log, |old(tree.log)|, m, a, b, root.Touched(), RollbackPaths(snaps.value));
      SameOutsideTrans(a, b, tree.files, root.Touched(), RollbackPaths(snaps.value));
      assert root.Touched() + RollbackPaths(snaps.value) == root.Touched();
      RolledBack(a, b, tree.files, root, snaps.value);
      forall k | m <= k < |tree.log| ensures Same(a, tree.log[k], root.repomd) {
        RolledBack(a, b, tree.log[k], root, snaps.value);
      }
    }
  }

  lemma {:induction false} RolledBack(a: Files, b: Files, c: Files, root: Root, snaps: seq<Snapshot>)
    requires root.Valid() && |snaps| == 3
    requires snaps[0].path == root.key && snaps[1].path == root.sig && snaps[2].path == root.repomd
    requires forall i | 0 <= i < 3 :: Holds(a, snaps[i])
    requires SameOutside(a, b, root.Touched()) && Same(a, b, root.repomd) && Restoring(b, c, snaps)
    ensures Same(a, c, root.repomd)
    ensures (forall i | 0 <= i < 3 :: Holds(c, snaps[i])) ==> LiveSame(a, c)
  {
    if forall i | 0 <= i < 3 :: Holds(c, snaps[i]) {
      forall p | !IsWork(p) ensures Same(a, c, p) {
        if p == root.key { assert Holds(a, snaps[0]) && Holds(c, snaps[0]); }
        if p == root.sig { assert Holds(a, snaps[1]) && Holds(c, snaps[1]); }
        OwnNames(root.key);
        OwnNames(root.sig);
        OwnNames(root.repomd);
        assert p !in root.Paths() ==> Same(a, b, p) && Same(b, c, p);
      }
    }
  }

  // ---------- Withdrawn packages ----------

  /** The given paths are hidden under their backup names; every other live
      path is as in a. */
  ghost predicate Hidden(a: Files, files: Files, paths: set<Path>) {
    && (forall p | p in paths ::
          !IsWork(p) && p in a && p !in files && Backup(p) in files && files[Backup(p)] == a[p])
    && (forall p | !IsWork(p) && p !in paths :: Same(a, files, p))
  }

  /** The destinations of the jobs recorded missing. */
  ghost function MissingDsts(jobs: seq<Job>, states: seq<FileState>): set<Path> {
    set i | 0 <= i < |jobs| && i < |states| && states[i].FileMissing? :: jobs[i].dst
  }

  /** A live path is as in a, or it is one of the given ones and absent. */
  ghost predicate HidesOnly(a: Files, files: Files, paths: set<Path>) {
    forall p | !IsWork(p) :: Same(a, files, p) || (p in paths && p !in files)
  }

  ghost predicate OnlyHides(log: seq<Files>, n: nat, a: Files, paths: set<Path>) {
    forall k | n <= k < |log| :: HidesOnly(a, log[k], paths)
  }

  lemma {:induction false} HideOne(a: Files, b: Files, c: Files, paths: set<Path>, p: Path)
    requires Hidden(a, b, paths) && !IsWork(p) && p in b
    requires SameOutside(b, c, {p, Backup(p)}) && p !in c && Backup(p) in c && c[Backup(p)] == b[p]
    ensures Hidden(a, c, paths + {p})
  {
    OwnNames(p);
    assert Same(a, b, p);
    forall q | q in paths ensures Same(b, c, Backup(q)) && Same(b, c, q) {
      BackupsDiffer(q, p);
      OwnNames(q);
    }
    forall q | !IsWork(q) && q !in paths + {p} ensures Same(a, c, q) {
      assert Same(a, b, q) && Same(b, c, q);
    }
  }

  lemma {:induction false} UnhideOne(a: Files, b: Files, paths: set<Path>, p: Path)
    requires Hidden(a, b, paths) && p in paths
    ensures Hidden(a, PutBackIn(b, p), paths - {p})
  {
    OwnNames(p);
    var c := PutBackIn(b, p);
    forall q | q in paths - {p} ensures Same(b, c, Backup(q)) && Same(b, c, q) {
      BackupsDiffer(q, p);
      OwnNames(q);
    }
    forall q | !IsWork(q) && q !in paths - {p} ensures Same(a, c, q) {
      assert q != p ==> Same(a, b, q);
    }
  }

  /** Removing the backup name of a path that is not hidden changes nothing. */
  lemma {:induction false} FreshBackup(a: Files, b: Files, paths: set<Path>, p: Path)
    requires Hidden(a, b, paths) && p !in paths
    ensures Hidden(a, b - {Backup(p)}, paths)
  {
    OwnNames(p);
    var c := b - {Backup(p)};
    forall q | q in paths ensures Same(b, c, Backup(q)) && Same(b, c, q) {
      BackupsDiffer(q, p);
      OwnNames(q);
    }
    forall q | !IsWork(q) && q !in paths ensures Same(a, c, q) {
      assert Same(a, b, q);
    }
  }

  ghost function WithBackups(paths: set<Path>): set<Path> {
    paths + set p | p in paths :: Backup(p)
  }

  function PathSet(ws: seq<Path>): set<Path> {
    set p | p in ws
  }

  predicate NoRepeats(ws: seq<Path>) {
    forall i, j | 0 <= i < j < |ws| :: ws[i] != ws[j]
  }

  /** What withdrawing a live package does to the tree: an earlier file of the
      backup name is removed, then the package takes that name. */
  function Withdrawn(files: Files, p: Path): Files
    requires p in files
  {
    (files - {Backup(p)})[Backup(p) := files[p]] - {p}
  }

  /** What putting it back does. */
  function PutBackIn(files: Files, p: Path): Files
    requires Backup(p) in files
  {
    files[p := files[Backup(p)]] - {Backup(p)}
  }

  /** Why destinations have to be separate from the mirror's work names: hiding
      a package and putting it back restores the tree but for the file, if any,
      that had the backup name; so all of some live files survive exactly when
      the backup name is none of them. */
  lemma {:induction false} UndoKeepsAllBut(files: Files, p: Path, live: set<Path>)
    requires p in files && live <= files.Keys
    ensures Backup(p) in Withdrawn(files, p)
    ensures PutBackIn(Withdrawn(files, p), p) == files - {Backup(p)}
    ensures (forall q | q in live :: Same(files, PutBackIn(Withdrawn(files, p), p), q)) <==> Backup(p) !in live
  {
    assert PutBackIn(Withdrawn(files, p), p) == files - {Backup(p)};
  }

  /** The repository that defeats it lists a package beside `p` under the backup
      name of `p`: its destinations are not separated, and when `p` is
      withdrawn and put back the other package is lost. */
  lemma {:induction false} BackupNameIsLost(root: Root, p: Job, q: Job, files: Files)
    requires q.dst == Backup(p.dst) && p.dst in files && q.dst in files
    ensures !Separated(root, [p, q])
    ensures Backup(p.dst) in Withdrawn(files, p.dst)
    ensures q.dst !in PutBackIn(Withdrawn(files, p.dst), p.dst)
  {
    OwnNames(p.dst);
    assert [p, q][1].dst == Backup(p.dst);
    UndoKeepsAllBut(files, p.dst, {q.dst});
  }

  /** Hides one live package, or fails with nothing more hidden. */
  method WithdrawOne(tree: Tree, dst: Path, ghost good: bool, ghost a: Files, ghost paths: set<Path>, ghost dsts: set<Path>)
    returns (ok: bool)
    requires tree.Valid() && dst in tree.files
    requires good ==> !IsWork(dst) && Hidden(a, tree.files, paths) && paths <= dsts && dst in dsts
    modifies tree`files, tree`log
    ensures tree.Valid() && old(tree.log) <= tree.log
    ensures good ==>
              && Hidden(a, tree.files, if ok then paths + {dst} else paths)
              && OnlyHides(tree.log, |old(tree.log)|, a, dsts)
              && (forall p | !IsWork(p) && (p !in old(tree.files) || (ok && p == dst)) :: p !in tree.files)
    ensures SameOutside(old(tree.files), tree.files, {dst, Backup(dst)})
    ensures ok ==> tree.files == Withdrawn(old(tree.files), dst)
  {
    ghost var b := tree.files;
    OwnNames(dst);
    if good { FreshBackup(a, b, paths, dst); }
    var err := tree.Remove(Backup(dst));
    if err.NotExist? { assert tree.files == b - {Backup(dst)}; }
    if err.Fault? {
      return false;
    }
    err := tree.Rename(dst, Backup(dst));
    if err.Fine? && good {
      HideOne(a, b, tree.files, paths, dst);
    }
    return err.Fine?;
  }

  /** How far withdrawMissingPackages has come. */
  ghost predicate Withdrawing(log: seq<Files>, n: nat, a: Files, files: Files, ws: seq<Path>, dsts: set<Path>) {
    && Hidden(a, files, PathSet(ws)) && PathSet(ws) <= dsts && NoRepeats(ws)
    && OnlyHides(log, n, a, dsts)
  }

  /** The next missing package: nothing to hide, hidden, or an error. */
  method WithdrawNext(tree: Tree, dst: Path, ghost good: bool, ghost n: nat, ghost a: Files, ghost dsts: set<Path>, ws: seq<Path>)
    returns (ok: bool, ws': seq<Path>)
    requires tree.Valid() && n <= |tree.log| && dst in dsts
    requires good ==> !IsWork(dst) && Withdrawing(tree.log, n, a, tree.files, ws, dsts)
    requires SameOutside(a, tree.files, WithBackups(dsts))
    modifies tree
    ensures tree.Valid() && old(tree.log) <= tree.log && tree.statFaults >= old(tree.statFaults)
    ensures good ==>
              && Withdrawing(tree.log, n, a, tree.files, ws', dsts)
              && (forall p | !IsWork(p) && (p !in old(tree.files) || (ok && p == dst)) :: p !in tree.files)
    ensures SameOutside(a, tree.files, WithBackups(dsts))
  {
    var err := tree.Stat(dst);
    if !err.Fine? {
      return err.NotExist?, ws;
    }
    ghost var b := tree.files;
    ok := WithdrawOne(tree, dst, good, a, PathSet(ws), dsts);
    SameOutsideTrans(a, b, tree.files, WithBackups(dsts), {dst, Backup(dst)});
    assert WithBackups(dsts) + {dst, Backup(dst)} == WithBackups(dsts);
    ws' := if ok then ws + [dst] else ws;
    assert PathSet(ws + [dst]) == PathSet(ws) + {dst};
  }

  /** withdrawMissingPackages: every live copy of a missing package is hidden,
      or the error leaves hidden exactly the ones reported. `good` says that
      the jobs' destinations are distinct. */
  method Withdraw(tree: Tree, jobs: seq<Job>, states: seq<FileState>, ghost good: bool) returns (ok: bool, ws: seq<Path>)
    requires tree.Valid() && |states| == |jobs| && (good ==> Distinct(jobs))
    modifies tree
    ensures tree.Valid() && old(tree.log) <= tree.log && tree.statFaults >= old(tree.statFaults)
    ensures good ==>
              && Withdrawing(tree.log, |old(tree.log)|, old(tree.files), tree.files, ws, MissingDsts(jobs, states))
              && (ok ==> forall p | p in MissingDsts(jobs, states) :: p !in tree.files)
    ensures SameOutside(old(tree.files), tree.files, WithBackups(MissingDsts(jobs, states)))
  {
    ws := [];
    ghost var n, a, dsts := |tree.log|, tree.files, MissingDsts(jobs, states);
    for i := 0 to |states|
      invariant tree.Valid() && old(tree.log) <= tree.log && tree.statFaults >= old(tree.statFaults)
      invariant good ==> Withdrawing(tree.log, n, a, tree.files, ws, dsts)
      invariant SameOutside(a, tree.files, WithBackups(dsts))
      invariant good ==> forall j | 0 <= j < i && states[j].FileMissing? :: jobs[j].dst !in tree.files
    {
      if !states[i].FileMissing? {
        continue;
      }
      assert jobs[i].dst in dsts;
      ok, ws := WithdrawNext(tree, jobs[i].dst, good, n, a, dsts, ws);
      if !ok {
        return false, ws;
      }
    }
    ok := true;
  }

  /** One rename back; a backup that is gone is no error. */
  method PutBackOne(tree: Tree, p: Path) returns (err: Errno)
    requires tree.Valid()
    modifies tree`files, tree`log
    ensures tree.Valid() && tree.log == old(tree.log) + [tree.files]
    ensures if err.Fine? then Backup(p) in old(tree.files) && tree.files == PutBackIn(old(tree.files), p) else tree.files == old(tree.files)
    ensures err.NotExist? ==> Backup(p) !in tree.files
  {
    err := tree.Rename(Backup(p), p);
  }

  /** finishWithdrawnPackages after a failed publication: with no error the
      live tree is again as in a. */
  method PutBack(tree: Tree, ws: seq<Path>, ghost good: bool, ghost a: Files) returns (ok: bool)
    requires tree.Valid() && (good ==> Hidden(a, tree.files, PathSet(ws)) && NoRepeats(ws))
    modifies tree`files, tree`log
    ensures tree.Valid() && old(tree.log) <= tree.log
    ensures good ==>
              && (ok ==> LiveSame(a, tree.files))
              && OnlyHides(tree.log, |old(tree.log)|, a, PathSet(ws))
              && HidesOnly(a, tree.files, PathSet(ws))
  {
    ok := true;
    ghost var n, paths := |tree.log|, PathSet(ws);
    for i := 0 to |ws|
      invariant tree.Valid() && old(tree.log) <= tree.log && paths <= PathSet(ws)
      invariant good ==> Hidden(a, tree.files, paths) && OnlyHides(tree.log, n, a, PathSet(ws))
      invariant good ==> PathSet(ws[i..]) <= paths && (ok ==> paths <= PathSet(ws[i..]))
    {
      ghost var b := tree.files;
      if good { UnhideOne(a, b, paths, ws[i]); }
      OwnNames(ws[i]);
      var err := PutBackOne(tree, ws[i]);
      if err.Fault? {
        ok := false;
      }
      if err.Fine? {
        paths := paths - {ws[i]};
      }
      assert PathSet(ws[i..]) == {ws[i]} + PathSet(ws[i + 1..]);
    }
  }

  /** finishWithdrawnPackages after publication: only backup names go, and all of
      them unless a removal fails. */
  method DropBackups(tree: Tree, ws: seq<Path>) returns (ok: bool)
    requires tree.Valid()
    modifies tree`files, tree`log
    ensures tree.Valid() && old(tree.log) <= tree.log
    ensures forall k | |old(tree.log)| <= k < |tree.log| :: LiveSame(old(tree.files), tree.log[k])
    ensures LiveSame(old(tree.files), tree.files)
    ensures ok ==> forall i | 0 <= i < |ws| :: Backup(ws[i]) !in tree.files
  {
    ok := true;
    for i := 0 to |ws|
      invariant tree.Valid() && old(tree.log) <= tree.log
      invariant forall k | |old(tree.log)| <= k < |tree.log| :: LiveSame(old(tree.files), tree.log[k])
      invariant LiveSame(old(tree.files), tree.files)
      invariant ok ==> forall k | 0 <= k < i :: Backup(ws[k]) !in tree.files
    {
      OwnNames(ws[i]);
      var err := tree.Remove(Backup(ws[i]));
      if err.Fault? {
        ok := false;
      }
    }
  }

  // ---------- The whole transaction ----------

  lemma {:induction false} BackupsApart(root: Root, p: Path)
    requires root.Valid() && p !in root.Paths() && !IsWork(p)
    ensures p !in root.Touched() && Backup(p) !in root.Touched()
  {
    BackupApart(root.key, p);
    BackupApart(root.sig, p);
    BackupApart(root.repomd, p);
  }

  lemma {:induction false} StagedDiffer(x: Path, y: Path)
    requires x != y
    ensures Staged(x) != Staged(y)
  {
    assert Staged(x)[..|x|] == x && Staged(y)[..|y|] == y;
    assert |Staged(x)| == |x| + 7 && |Staged(y)| == |y| + 7;
  }

  lemma {:induction false} BackupApart(x: Path, p: Path)
    requires !IsWork(x) && !EndsWith(x, ".withdrawn") && p != x && !IsWork(p)
    ensures {p, Backup(p)} !! {x, Staged(x), Rollback(x)}
  {
    OwnNames(x);
    OwnNames(p);
    assert EndsWith(p + ".withdrawn", ".withdrawn");
    StagedDiffer(p + ".withdrawn", x);
    assert Backup(p)[|Backup(p)| - 8] == 'n' && Rollback(x)[|Rollback(x)| - 8] == 'k';
  }

  /** The tree c with the hidden paths of a put back. */
  ghost function Unhidden(a: Files, c: Files, paths: set<Path>): Files
    requires forall p | p in paths :: p in a
  {
    c + map p | p in paths :: a[p]
  }

  ghost predicate Apart(root: Root, paths: set<Path>) {
    forall p | p in paths :: p !in root.Touched() && Backup(p) !in root.Touched()
  }

  /** What publishing the root does to a tree with hidden packages. */
  lemma {:induction false} HiddenThroughPublish(a: Files, b: Files, c: Files, paths: set<Path>, root: Root)
    requires root.Valid() && Hidden(a, b, paths) && SameOutside(b, c, root.Touched()) && Apart(root, paths)
    ensures Hidden(Unhidden(a, c, paths), c, paths)
    ensures Same(a, b, root.repomd)
    ensures Same(b, c, root.repomd) ==> Same(a, Unhidden(a, c, paths), root.repomd)
    ensures LiveSame(b, c) ==> LiveSame(a, Unhidden(a, c, paths))
  {
    assert root.repomd !in paths;
    forall p | p in paths ensures Same(b, c, p) && Same(b, c, Backup(p)) {
    }
  }

  /** Forward publication and, when it fails, the way back from hidden
      packages. */
  method PublishHidden(tree: Tree, root: Root, ws: seq<Path>, ghost good: bool, ghost a: Files)
    returns (published: bool, undone: bool, keep: set<Path>)
    requires tree.Valid() && root.Valid()
    requires good ==> Hidden(a, tree.files, PathSet(ws)) && NoRepeats(ws) && Apart(root, PathSet(ws))
    modifies tree
    ensures tree.Valid() && old(tree.log) <= tree.log && tree.statFaults >= old(tree.statFaults)
    ensures good && !published ==> (undone ==> LiveSame(a, tree.files)) && Same(a, tree.files, root.repomd)
    ensures good ==> forall k | |old(tree.log)| <= k < |tree.log| ::
              Same(a, tree.log[k], root.repomd) || (published && tree.log[k] == tree.files)
    ensures published && !root.sigMissing && root.sig in tree.files && tree.statFaults == old(tree.statFaults) ==> root.sig in keep
    ensures keep <= root.Paths()
    ensures published ==>
              && PublishedAll(old(tree.files), tree.files, root) && root.repomd in keep
              && SameOutside(old(tree.files), tree.files, root.Touched())
  {
    ghost var b := tree.files;
    published, undone, keep := PublishRoot(tree, root);
    ghost var c, m := tree.files, |tree.log|;
    if good { HiddenThroughPublish(a, b, c, PathSet(ws), root); }
    if !published {
      ghost var a' := if good then Unhidden(a, c, PathSet(ws)) else a;
      var back := PutBack(tree, ws, good, a');
      undone := undone && back;
      assert good ==> root.repomd !in PathSet(ws);
      forall k | good && m <= k < |tree.log| ensures Same(a, tree.log[k], root.repomd) {
        assert HidesOnly(a', tree.log[k], PathSet(ws));
      }
    }
  }

  ghost predicate Separated(root: Root, jobs: seq<Job>) {
    Distinct(jobs) && forall i | 0 <= i < |jobs| :: jobs[i].dst !in root.Paths()
  }

  /** Withdrawal, which only an authenticated repository does, with the way
      back when it fails half way. */
  method WithdrawOrUndo(tree: Tree, jobs: seq<Job>, states: seq<FileState>, authenticated: bool, ghost good: bool)
    returns (ok: bool, undone: bool, ws: seq<Path>)
    requires tree.Valid() && |states| == |jobs| && (good ==> Distinct(jobs))
    modifies tree
    ensures tree.Valid() && old(tree.log) <= tree.log && tree.statFaults >= old(tree.statFaults)
    ensures good ==> OnlyHides(tree.log, |old(tree.log)|, old(tree.files), MissingDsts(jobs, states))
    ensures good && !ok ==> (undone ==> LiveSame(old(tree.files), tree.files)) && HidesOnly(old(tree.files), tree.files, MissingDsts(jobs, states))
    ensures good && ok ==>
              && Hidden(old(tree.files), tree.files, PathSet(ws)) && PathSet(ws) <= MissingDsts(jobs, states) && NoRepeats(ws)
              && (authenticated ==> forall p | p in MissingDsts(jobs, states) :: p !in tree.files)
    ensures ok ==> SameOutside(old(tree.files), tree.files, WithBackups(MissingDsts(jobs, states)))
    ensures !authenticated ==> ok && ws == [] && tree.files == old(tree.files)
  {
    undone, ws := true, [];
    if !authenticated {
      return true, true, ws;
    }
    ghost var dsts := MissingDsts(jobs, states);
    ok, ws := Withdraw(tree, jobs, states, good);
    if !ok {
      ghost var m := |tree.log|;
      undone := PutBack(tree, ws, good, old(tree.files));
    }
  }

  /** The packages a publication may hide are clear of the root's files. */
  lemma {:induction false} MissingApart(root: Root, jobs: seq<Job>, states: seq<FileState>)
    requires root.Valid() && |states| == |jobs| && Separated(root, jobs)
    ensures Apart(root, MissingDsts(jobs, states)) && root.repomd !in MissingDsts(jobs, states)
    ensures forall x | x in root.Paths() :: x in root.Touched() && Staged(x) in root.Touched()
  {
    forall p | p in MissingDsts(jobs, states) ensures p !in root.Touched() && Backup(p) !in root.Touched() {
      BackupsApart(root, p);
    }
  }

  lemma {:induction false} RepomdKept(log: seq<Files>, n: nat, a: Files, paths: set<Path>, repomd: Path)
    requires OnlyHides(log, n, a, paths) && repomd !in paths && !IsWork(repomd)
    ensures forall k | n <= k < |log| :: Same(a, log[k], repomd)
  {
    forall k | n <= k < |log| ensures Same(a, log[k], repomd) {
      assert HidesOnly(a, log[k], paths);
    }
  }

  /** The steps of syncRPM from withdrawal to the end of publication, for jobs
      with distinct destinations that are no root files. An error whose undo
      operations work leaves every live path with its earlier bytes or absence;
      and repomd.xml changes only when the live tree is final. */
  method Publication(tree: Tree, root: Root, jobs: seq<Job>, states: seq<FileState>, authenticated: bool)
    returns (published: bool, undone: bool, keep: set<Path>)
    requires tree.Valid() && root.Valid() && |states| == |jobs|
    modifies tree
    ensures tree.Valid() && old(tree.log) <= tree.log && tree.statFaults >= old(tree.statFaults)
    ensures Separated(root, jobs) && !published ==>
              (undone ==> LiveSame(old(tree.files), tree.files)) && Same(old(tree.files), tree.files, root.repomd)
    ensures Separated(root, jobs) ==> forall k | |old(tree.log)| <= k < |tree.log| ::
              Same(old(tree.files), tree.log[k], root.repomd) || (published && LiveSame(tree.log[k], tree.files))
    ensures published && !root.sigMissing && root.sig in tree.files && tree.statFaults == old(tree.statFaults) ==> root.sig in keep
    ensures keep <= root.Paths()
    ensures published ==> root.repomd in keep
    ensures Separated(root, jobs) && published ==> PublishedAll(old(tree.files), tree.files, root)
    ensures Separated(root, jobs) && published ==> forall p | !IsWork(p) && p !in root.Paths() ::
              if authenticated && p in MissingDsts(jobs, states) then p !in tree.files
              else Same(old(tree.files), tree.files, p)
  {
    ghost var a, n, dsts := tree.files, |tree.log|, MissingDsts(jobs, states);
    ghost var good := Separated(root, jobs);
    var ws;
    published, undone, ws := WithdrawOrUndo(tree, jobs, states, authenticated, good);
    if good {
      MissingApart(root, jobs, states);
      RepomdKept(tree.log, n, a, dsts, root.repomd);
    }
    if !published {
      return false, undone, {};
    }
    ghost var b := tree.files;
    published, undone, keep := PublishHidden(tree, root, ws, good, a);
    if published {
      ghost var c := tree.files;
      var _ := DropBackups(tree, ws);
      if good {
        PublishedLive(a, b, c, tree.files, root, PathSet(ws));
        PackagesLive(a, b, c, tree.files, root, PathSet(ws), dsts);
      }
    }
  }

  lemma {:induction false} PackagesLive(a: Files, b: Files, c: Files, d: Files, root: Root, hidden: set<Path>, dsts: set<Path>)
    requires root.Valid() && Hidden(a, b, hidden) && hidden <= dsts
    requires SameOutside(b, c, root.Touched()) && LiveSame(c, d)
    ensures forall p | !IsWork(p) && p !in root.Paths() :: if p in dsts && p !in b then p !in d else p in hidden || Same(a, d, p)
  {
    forall p | !IsWork(p) && p !in root.Paths()
      ensures if p in dsts && p !in b then p !in d else p in hidden || Same(a, d, p)
    {
      BackupsApart(root, p);
      assert Same(b, c, p) && Same(c, d, p);
    }
  }

  /** Neither hiding packages nor dropping their backups concerns the root. */
  lemma {:induction false} PublishedLive(a: Files, b: Files, c: Files, d: Files, root: Root, paths: set<Path>)
    requires root.Valid() && Hidden(a, b, paths) && Apart(root, paths) && LiveSame(c, d)
    requires forall p | p in root.Paths() :: Same(a, b, Staged(p))
    ensures PublishedAll(b, c, root) ==> PublishedAll(a, d, root)
  {
    forall p | p in root.Paths() ensures Same(a, b, p) && Same(c, d, p) && Same(Promoted(a, p), Promoted(b, p), p) {
    }
  }
}
