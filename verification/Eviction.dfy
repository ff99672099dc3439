/**
 Eviction of what the discovery cache gives up (evictDiscovered in
 mirror/discover_cache.go): the local directories of withdrawn repositories and
 withdrawn loose files.

 How URLs map to local names is a parameter, as is filepath.Clean. Names in the
 tree are clean.
 */
module Eviction {

  import opened Wrappers
  import opened Disk
  import Discover
  import DiscoverCache

  datatype Options = Options(
    destination: Path,
    repoDest: string -> Option<Path>,
    join: (Path, string) -> Option<Path>,
    clean: Path -> Path)

  /** What update returned. */
  datatype Gone = Gone(repos: seq<string>, files: seq<Discover.Loose>)

  /** p is the directory or something beneath it. */
  predicate Covers(dir: Path, p: Path) {
    p == dir || (|dir| < |p| && p[..|dir|] == dir && p[|dir|] == '/')
  }

  predicate HasPrefix(s: string, prefix: string) {
    |prefix| <= |s| && s[..|prefix|] == prefix
  }

  /** underDestination */
  predicate UnderDestination(o: Options, dir: Path) {
    o.clean(dir) != o.clean(o.destination) && HasPrefix(o.clean(dir), o.clean(o.destination) + "/")
  }

  /** The directory removed for a withdrawn repository. */
  predicate Evicts(o: Options, url: string, dir: Path) {
    o.repoDest(url).Some? && UnderDestination(o, o.repoDest(url).value) && dir == o.clean(o.repoDest(url).value)
  }

  function FileName(o: Options, file: Discover.Loose): Option<Path> {
    var dir := o.repoDest(file.dirURL);
    if dir.None? then None else o.join(dir.value, file.name)
  }

  predicate GoesWithRepo(o: Options, gone: Gone, p: Path) {
    exists i | 0 <= i < |gone.repos| ::
      o.repoDest(gone.repos[i]).Some? && UnderDestination(o, o.repoDest(gone.repos[i]).value) &&
      Covers(o.clean(o.repoDest(gone.repos[i]).value), p)
  }

  predicate GoesAsFile(o: Options, gone: Gone, p: Path) {
    exists i | 0 <= i < |gone.files| :: FileName(o, gone.files[i]) == Some(p)
  }

  /** The eviction is out to remove this file. */
  predicate Goes(o: Options, gone: Gone, p: Path) {
    GoesWithRepo(o, gone, p) || GoesAsFile(o, gone, p)
  }

  /** b is a without some of these files. */
  ghost predicate Removed(a: Files, b: Files, doomed: iset<Path>) {
    forall p :: Same(a, b, p) || (p in doomed && p !in b)
  }

  ghost predicate RemovedSince(log: seq<Files>, n: nat, a: Files, doomed: iset<Path>) {
    forall k | n <= k < |log| :: Removed(a, log[k], doomed)
  }

  ghost function Doomed(o: Options, gone: Gone): iset<Path> {
    iset p | Goes(o, gone, p)
  }

  /** One more stretch of the log, which removes no more than these. */
  lemma {:induction false} RemovedJoin(log: seq<Files>, n: nat, m: nat, a: Files, b: Files, some: iset<Path>, all: iset<Path>)
    requires n <= m <= |log| && some <= all
    requires RemovedSince(log[..m], n, a, all) && Removed(a, b, all) && RemovedSince(log, m, b, some)
    ensures RemovedSince(log, n, a, all)
  {
    forall k | n <= k < |log| ensures Removed(a, log[k], all) {
      if k < m {
        assert log[..m][k] == log[k];
      } else {
        RemovedTrans(a, b, log[k], some, all);
      }
    }
  }

  lemma {:induction false} RemovedTrans(a: Files, b: Files, c: Files, some: iset<Path>, all: iset<Path>)
    requires Removed(a, b, all) && Removed(b, c, some) && some <= all
    ensures Removed(a, c, all)
  {
    forall p ensures Same(a, c, p) || (p in all && p !in c) {
      assert Same(a, b, p) || (p in all && p !in b);
      assert Same(b, c, p) || (p in some && p !in c);
    }
  }

  /** os.RemoveAll: on an error some of the files may be left. */
  method RemoveAll(tree: Tree, dir: Path) returns (ok: bool)
    requires tree.Valid()
    modifies tree
    ensures tree.Valid() && old(tree.log) <= tree.log
    ensures RemovedSince(tree.log, |old(tree.log)|, old(tree.files), iset p | Covers(dir, p))
    ensures Removed(old(tree.files), tree.files, iset p | Covers(dir, p))
    ensures ok ==> forall p | Covers(dir, p) :: p !in tree.files
  {
    ok := true;
    var names := set p | p in tree.files && Covers(dir, p);
    ghost var n, a, doomed := |tree.log|, tree.files, iset p | Covers(dir, p);
    while names != {}
      invariant tree.Valid() && old(tree.log) <= tree.log
      invariant RemovedSince(tree.log, n, a, doomed) && Removed(a, tree.files, doomed)
      invariant forall p | p in names :: Covers(dir, p)
      invariant ok ==> forall p | p in tree.files && Covers(dir, p) :: p in names
      decreases names
    {
      var p :| p in names;
      names := names - {p};
      ghost var b, m := tree.files, |tree.log|;
      var err := tree.Remove(p);
      ok := ok && !err.Fault?;
      RemovedTrans(a, b, tree.files, doomed, doomed);
      RemovedJoin(tree.log, n, m, a, b, doomed, doomed);
    }
  }

  /** The loop's progress: the first i repositories and j files are dealt with. */
  ghost predicate Progress(o: Options, gone: Gone, i: nat, j: nat, files: Files, ok: bool)
    requires i <= |gone.repos| && j <= |gone.files|
  {
    ok ==>
      && (forall k, dir, p | 0 <= k < i && Evicts(o, gone.repos[k], dir) && Covers(dir, p) :: p !in files)
      && (forall k | 0 <= k < j && FileName(o, gone.files[k]).Some? :: FileName(o, gone.files[k]).value !in files)
  }

  method EvictRepos(tree: Tree, o: Options, gone: Gone) returns (ok: bool)
    requires tree.Valid()
    modifies tree
    ensures tree.Valid() && old(tree.log) <= tree.log
    ensures RemovedSince(tree.log, |old(tree.log)|, old(tree.files), Doomed(o, gone))
    ensures Removed(old(tree.files), tree.files, Doomed(o, gone))
    ensures Progress(o, gone, |gone.repos|, 0, tree.files, ok)
  {
    ok := true;
    ghost var n, a := |tree.log|, tree.files;
    for i := 0 to |gone.repos|
      invariant tree.Valid() && old(tree.log) <= tree.log
      invariant RemovedSince(tree.log, n, a, Doomed(o, gone)) && Removed(a, tree.files, Doomed(o, gone))
      invariant Progress(o, gone, i, 0, tree.files, ok)
    {
      var dir := o.repoDest(gone.repos[i]);
      if dir.None? || !UnderDestination(o, dir.value) {
        continue;
      }
      ghost var b, m, done := tree.files, |tree.log|, ok;
      ghost var covered := iset p | Covers(o.clean(dir.value), p);
      var removed := RemoveAll(tree, o.clean(dir.value));
      ok := ok && removed;
      assert covered <= Doomed(o, gone);
      RemovedTrans(a, b, tree.files, covered, Doomed(o, gone));
      RemovedJoin(tree.log, n, m, a, b, covered, Doomed(o, gone));
    }
  }

  /** evictDiscovered: at every moment the tree is the earlier one without some
      of the files to go, and without a failure all of them are gone. */
  method EvictDiscovered(tree: Tree, o: Options, gone: Gone) returns (ok: bool)
    requires tree.Valid()
    modifies tree
    ensures tree.Valid() && old(tree.log) <= tree.log
    ensures RemovedSince(tree.log, |old(tree.log)|, old(tree.files), Doomed(o, gone))
    ensures Removed(old(tree.files), tree.files, Doomed(o, gone))
    ensures ok ==> forall p | Goes(o, gone, p) :: p !in tree.files
  {
    ghost var n, a := |tree.log|, tree.files;
    ok := EvictRepos(tree, o, gone);
    for j := 0 to |gone.files|
      invariant tree.Valid() && old(tree.log) <= tree.log
      invariant RemovedSince(tree.log, n, a, Doomed(o, gone)) && Removed(a, tree.files, Doomed(o, gone))
      invariant Progress(o, gone, |gone.repos|, j, tree.files, ok)
    {
      var name := FileName(o, gone.files[j]);
      if name.None? {
        continue;
      }
      ghost var b, m, done, one := tree.files, |tree.log|, ok, iset{name.value};
      var err := tree.Remove(name.value);
      ok := ok && !err.Fault?;
      assert GoesAsFile(o, gone, name.value);
      assert one <= Doomed(o, gone);
      RemovedTrans(a, b, tree.files, one, Doomed(o, gone));
      RemovedJoin(tree.log, n, m, a, b, one, Doomed(o, gone));
    }
    if ok { AllGone(o, gone, tree.files); }
  }

  lemma {:induction false} AllGone(o: Options, gone: Gone, files: Files)
    requires Progress(o, gone, |gone.repos|, |gone.files|, files, true)
    ensures forall p | Goes(o, gone, p) :: p !in files
  {
    forall p | Goes(o, gone, p) ensures p !in files {
      if GoesWithRepo(o, gone, p) {
        var i :| 0 <= i < |gone.repos| && o.repoDest(gone.repos[i]).Some? &&
          UnderDestination(o, o.repoDest(gone.repos[i]).value) && Covers(o.clean(o.repoDest(gone.repos[i]).value), p);
        assert Evicts(o, gone.repos[i], o.clean(o.repoDest(gone.repos[i]).value));
      }
    }
  }

  // ---------- What stays ----------

  /** A repository's removal stays strictly below the destination. */
  lemma {:induction false} BelowDestination(o: Options, gone: Gone, p: Path)
    requires GoesWithRepo(o, gone, p)
    ensures p != o.clean(o.destination) && Covers(o.clean(o.destination), p)
  {
    var i :| 0 <= i < |gone.repos| && o.repoDest(gone.repos[i]).Some? &&
      UnderDestination(o, o.repoDest(gone.repos[i]).value) && Covers(o.clean(o.repoDest(gone.repos[i]).value), p);
    var root, dir := o.clean(o.destination), o.clean(o.repoDest(gone.repos[i]).value);
    assert dir[..|root|] == (root + "/")[..|root|] == root && dir[|root|] == (root + "/")[|root|] == '/';
    assert p[..|root|] == dir[..|root|] && p[|root|] == dir[|root|];
  }

  /** Two directories with a common file are nested. */
  lemma {:induction false} Nested(d: Path, e: Path, p: Path)
    requires Covers(d, p) && Covers(e, p)
    ensures Covers(d, e) || Covers(e, d)
  {
    if |d| <= |e| {
      assert e[..|d|] == p[..|d|] == d;
      assert |d| < |e| ==> e[|d|] == p[|d|];
      assert |d| == |e| ==> d == e;
    } else {
      assert d[..|e|] == p[..|e|] == e;
      assert d[|e|] == p[|e|];
    }
  }

  /** No evicted directory contains this one or lies inside it, and no evicted
      file lies inside it. */
  ghost predicate ClearOf(o: Options, gone: Gone, dir: Path) {
    && (forall i, e | 0 <= i < |gone.repos| && Evicts(o, gone.repos[i], e) :: !Covers(e, dir) && !Covers(dir, e))
    && (forall i | 0 <= i < |gone.files| && FileName(o, gone.files[i]).Some? :: !Covers(dir, FileName(o, gone.files[i]).value))
  }

  /** A directory, such as that of a repository still published, is safe from
      an eviction exactly when it is clear of it. */
  lemma {:induction false} SafeExactlyWhenClear(o: Options, gone: Gone, dir: Path)
    ensures (forall p | Covers(dir, p) :: !Goes(o, gone, p)) <==> ClearOf(o, gone, dir)
  {
    if forall p | Covers(dir, p) :: !Goes(o, gone, p) {
      forall i, e | 0 <= i < |gone.repos| && Evicts(o, gone.repos[i], e) ensures !Covers(e, dir) && !Covers(dir, e) {
        assert Covers(e, dir) ==> GoesWithRepo(o, gone, dir);
        assert GoesWithRepo(o, gone, e);
        assert !Goes(o, gone, dir);
      }
      forall i | 0 <= i < |gone.files| && FileName(o, gone.files[i]).Some?
        ensures !Covers(dir, FileName(o, gone.files[i]).value)
      {
        assert GoesAsFile(o, gone, FileName(o, gone.files[i]).value);
      }
    }
    if ClearOf(o, gone, dir) {
      forall p | Covers(dir, p) ensures !Goes(o, gone, p) {
        if GoesWithRepo(o, gone, p) {
          var i :| 0 <= i < |gone.repos| && o.repoDest(gone.repos[i]).Some? &&
            UnderDestination(o, o.repoDest(gone.repos[i]).value) && Covers(o.clean(o.repoDest(gone.repos[i]).value), p);
          assert Evicts(o, gone.repos[i], o.clean(o.repoDest(gone.repos[i]).value));
          Nested(dir, o.clean(o.repoDest(gone.repos[i]).value), p);
        }
      }
    }
  }

  /** A scan that finds one repository in place of another. */
  lemma {:induction false} ReplacedIsEvicted(x: string, y: string)
    requires x != y
    ensures
      var first := DiscoverCache.Scan([DiscoverCache.Target(x, "rpm")], true, 0, true, 0);
      var second := DiscoverCache.Scan([DiscoverCache.Target(y, "rpm")], true, 1, true, 0);
      && x in DiscoverCache.KeysOf(DiscoverCache.Evicted(DiscoverCache.RecsAfter([first]), second))
      && DiscoverCache.LiveBy([first, second], y)
  {
    var first := DiscoverCache.Scan([DiscoverCache.Target(x, "rpm")], true, 0, true, 0);
    var second := DiscoverCache.Scan([DiscoverCache.Target(y, "rpm")], true, 1, true, 0);
    DiscoverCache.OneKey(first.found[0]);
    DiscoverCache.OneKey(second.found[0]);
    assert [first][..0] == [];
    DiscoverCache.RecsUnique([first]);
    DiscoverCache.LookupNext([], first, x);
    DiscoverCache.EvictedIn(DiscoverCache.RecsAfter([first]), second, x);
    assert DiscoverCache.Found([first, second][1], y);
  }

  /** The case that is not clear: an upstream moves a repository one directory
      down. The scan that finds it there evicts the one above, and with it all
      files of the one just found. */
  lemma {:induction false} MovedDownIsEvicted(o: Options, p: Path)
    requires o.clean("/m") == "/m" == o.destination && o.clean("/m/a") == "/m/a"
    requires o.repoDest("http://h/a") == Some("/m/a") && o.repoDest("http://h/a/b") == Some("/m/a/b")
    requires Covers("/m/a/b", p)
    ensures
      var first := DiscoverCache.Scan([DiscoverCache.Target("http://h/a", "rpm")], true, 0, true, 0);
      var second := DiscoverCache.Scan([DiscoverCache.Target("http://h/a/b", "rpm")], true, 1, true, 0);
      && "http://h/a" in DiscoverCache.KeysOf(DiscoverCache.Evicted(DiscoverCache.RecsAfter([first]), second))
      && DiscoverCache.LiveBy([first, second], "http://h/a/b")
    ensures Goes(o, Gone(["http://h/a"], []), p)
  {
    assert "http://h/a" != "http://h/a/b" by { assert |"http://h/a"| != |"http://h/a/b"|; }
    ReplacedIsEvicted("http://h/a", "http://h/a/b");
    MovedDownGoes(o, p);
  }

  lemma {:induction false} MovedDownGoes(o: Options, p: Path)
    requires o.clean("/m") == "/m" == o.destination && o.clean("/m/a") == "/m/a"
    requires o.repoDest("http://h/a") == Some("/m/a") && Covers("/m/a/b", p)
    ensures Goes(o, Gone(["http://h/a"], []), p)
  {
    var gone := Gone(["http://h/a"], []);
    assert "/m/a"[..3] == "/m" + "/" && |"/m/a"| != |"/m"|;
    assert UnderDestination(o, "/m/a");
    assert p[..4] == "/m/a/b"[..4] == "/m/a" && p[4] == '/';
    assert o.repoDest(gone.repos[0]) == Some("/m/a");
    assert GoesWithRepo(o, gone, p);
  }
}
