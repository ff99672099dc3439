/**
 The part of the operating system the mirror relies on: regular files named by
 path, atomic rename, and operations that may fail.

 A method's contract allows every outcome the call can have, so what is proved
 about its callers holds for all of them. `log` remembers every content the
 tree has had, which is what a client reading the live tree can observe.
 */
module Disk {

  import opened Wrappers

  type Path = string
  type Bytes = string
  type Files = map<Path, Bytes>

  datatype Errno = Fine | NotExist | Fault

  /** p is absent from both trees or has the same bytes in both. */
  ghost predicate Same(a: Files, b: Files, p: Path) {
    (p in a <==> p in b) && (p in a ==> a[p] == b[p])
  }

  ghost predicate SameOutside(a: Files, b: Files, changed: set<Path>) {
    forall p | p !in changed :: Same(a, b, p)
  }

  /** From the n-th content of the log on, nothing outside changed differs
      from a. */
  ghost predicate KeptSince(log: seq<Files>, n: nat, a: Files, changed: set<Path>) {
    forall k | n <= k < |log| :: SameOutside(a, log[k], changed)
  }

  lemma {:induction false} SameOutsideTrans(a: Files, b: Files, c: Files, first: set<Path>, second: set<Path>)
    requires SameOutside(a, b, first) && SameOutside(b, c, second)
    ensures SameOutside(a, c, first + second)
  {
    forall p | p !in first + second ensures Same(a, c, p) {
      assert Same(a, b, p) && Same(b, c, p);
    }
  }

  /** Two stretches of one log, the second starting from the tree b. */
  lemma {:induction false} KeptJoin(log: seq<Files>, n: nat, m: nat, a: Files, b: Files, first: set<Path>, second: set<Path>)
    requires n <= m <= |log|
    requires KeptSince(log[..m], n, a, first) && SameOutside(a, b, first) && KeptSince(log, m, b, second)
    ensures KeptSince(log, n, a, first + second)
  {
    forall k | n <= k < |log| ensures SameOutside(a, log[k], first + second) {
      if k < m {
        assert SameOutside(a, log[..m][k], first);
      } else {
        SameOutsideTrans(a, b, log[k], first, second);
      }
    }
  }

  class Tree {
    var files: Files
    ghost var log: seq<Files>
    ghost var statFaults: nat

    ghost predicate Valid()
      reads this
    {
      |log| > 0 && log[|log| - 1] == files
    }

    constructor (files: Files)
      ensures Valid() && this.files == files && log == [files] && statFaults == 0
    {
      this.files := files;
      log := [files];
      statFaults := 0;
    }

    method Stat(p: Path) returns (err: Errno)
      requires Valid()
      modifies `statFaults
      ensures err.Fine? ==> p in files
      ensures err.NotExist? ==> p !in files
      ensures statFaults == old(statFaults) + if err.Fault? then 1 else 0
    {
      var fails: bool := *;
      err := if fails then Fault else if p in files then Fine else NotExist;
      if fails { statFaults := statFaults + 1; }
    }

    method Read(p: Path) returns (r: Result<Bytes, Errno>)
      requires Valid()
      ensures r.Ok? ==> p in files && r.value == files[p]
      ensures r.Err? ==> !r.error.Fine?
    {
      var fails: bool := *;
      r := if fails then Err(Fault) else if p in files then Ok(files[p]) else Err(NotExist);
    }

    method Remove(p: Path) returns (err: Errno)
      requires Valid()
      modifies `files, `log
      ensures Valid() && log == old(log) + [files]
      ensures err.Fine? ==> p in old(files) && files == old(files) - {p}
      ensures !err.Fine? ==> files == old(files)
      ensures err.NotExist? ==> p !in files
    {
      var fails: bool := *;
      err := if fails then Fault else if p in files then Fine else NotExist;
      if err.Fine? { files := files - {p}; }
      log := log + [files];
    }

    method Rename(src: Path, dst: Path) returns (err: Errno)
      requires Valid() && src != dst
      modifies `files, `log
      ensures Valid() && log == old(log) + [files]
      ensures err.Fine? ==> src in old(files) && files == old(files)[dst := old(files)[src]] - {src}
      ensures !err.Fine? ==> files == old(files)
      ensures err.NotExist? ==> src !in files
    {
      var fails: bool := *;
      err := if fails then Fault else if src in files then Fine else NotExist;
      if err.Fine? { files := files[dst := files[src]] - {src}; }
      log := log + [files];
    }

    /** Creates or truncates p, or continues it, and writes what it can. */
    method Write(p: Path, append: bool, data: Bytes) returns (err: Errno, written: nat)
      requires Valid()
      modifies `files, `log
      ensures Valid() && log == old(log) + [files]
      ensures written <= |data|
      ensures
        var before := if append && p in old(files) then old(files)[p] else [];
        files == old(files)[p := before + data[..written]] || (written == 0 && files == old(files) && !err.Fine?)
      ensures err.Fine? ==> written == |data|
      ensures !err.NotExist?
    {
      var opens: bool, fails: bool := *, *;
      written := 0;
      err := if opens && !fails then Fine else Fault;
      if opens {
        written := *;
        if err.Fine? || written > |data| { written := |data|; }
        files := files[p := (if append && p in files then files[p] else []) + data[..written]];
      }
      log := log + [files];
    }

    /** Directories are not part of the tree; creating one can fail. */
    method MkdirAll(p: Path) returns (err: Errno)
      requires Valid()
    {
      var fails: bool := *;
      err := if fails then Fault else Fine;
    }
  }
}
