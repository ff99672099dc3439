/**
 Files the metadata lists but the upstream does not serve (fetch/missing.go):
 the per-run tracker, its records on disk, and what the records mean over a
 whole history of runs.
 */
module Missing {

  import opened Wrappers

  datatype Mode = Fail | Retry | Ignore

  datatype Record = Record(runs: int, known: bool)

  /** The state file; one that does not exist has no records. */
  type Records = map<string, Record>

  /** A record after one more run missed its path. */
  function Bump(records: Records, path: string, retries: int): Record {
    var rec := if path in records then records[path] else Record(0, false);
    Record(rec.runs + 1, rec.known || rec.runs + 1 >= retries)
  }

  /** What a completed run that missed these paths leaves on disk. */
  function Saved(records: Records, seen: set<string>, retries: int): Records {
    map path | path in seen :: Bump(records, path, retries)
  }

  /** The missed paths still inside their retry budget. */
  function Unresolved(records: Records, seen: set<string>, mode: Mode, retries: int): set<string> {
    set path | path in seen && mode != Ignore && !Bump(records, path, retries).known
  }

  /** One more missed path is unresolved unless its record says otherwise. */
  lemma {:induction false} OneMore(records: Records, seen: set<string>, mode: Mode, retries: int, path: string)
    requires path !in seen
    ensures Unresolved(records, seen + {path}, mode, retries) ==
            Unresolved(records, seen, mode, retries) +
            if mode == Ignore || Bump(records, path, retries).known then {} else {path}
    ensures path !in Unresolved(records, seen, mode, retries)
  {
  }

  ghost predicate Counts(missed: set<string>, unresolved: nat, first: string) {
    && unresolved == |missed|
    && (first != "" ==> first in missed)
    && (first == "" ==> missed <= {""})
  }

  lemma {:induction false} CountsOneMore(missed: set<string>, unresolved: nat, first: string, path: string)
    requires Counts(missed, unresolved, first) && path !in missed
    ensures Counts(missed + {path}, unresolved + 1, if first == "" then path else first)
  {
    assert |missed + {path}| == |missed| + 1;
  }

  ghost predicate Bumped(loaded: Records, retries: int, seen: set<string>, records: Records) {
    && records.Keys == loaded.Keys + seen
    && (forall p | p in records :: records[p] == if p in seen then Bump(loaded, p, retries) else loaded[p])
  }

  lemma {:induction false} BumpedOneMore(loaded: Records, retries: int, seen: set<string>, records: Records, path: string)
    requires Bumped(loaded, retries, seen, records) && path !in seen
    ensures Bump(records, path, retries) == Bump(loaded, path, retries)
    ensures Bumped(loaded, retries, seen + {path}, records[path := Bump(loaded, path, retries)])
  {
    assert path in records <==> path in loaded;
  }

  /** What the tracker's fields mean after these paths were missed, from the
      records it loaded. */
  ghost predicate Tracks(loaded: Records, mode: Mode, retries: int, seen: set<string>,
                         records: Records, unresolved: nat, first: string) {
    && Bumped(loaded, retries, seen, records)
    && Counts(Unresolved(loaded, seen, mode, retries), unresolved, first)
  }

  lemma {:induction false} TracksOneMore(loaded: Records, mode: Mode, retries: int, seen: set<string>,
                      records: Records, unresolved: nat, first: string, path: string)
    requires Tracks(loaded, mode, retries, seen, records, unresolved, first) && path !in seen
    ensures Bump(records, path, retries) == Bump(loaded, path, retries)
    ensures
      var rec := Bump(loaded, path, retries);
      if mode == Ignore || rec.known then
        Tracks(loaded, mode, retries, seen + {path}, records[path := rec], unresolved, first)
      else
        Tracks(loaded, mode, retries, seen + {path}, records[path := rec], unresolved + 1, if first == "" then path else first)
  {
    BumpedOneMore(loaded, retries, seen, records, path);
    OneMore(loaded, seen, mode, retries, path);
    var missed := Unresolved(loaded, seen, mode, retries);
    if mode == Ignore || Bump(loaded, path, retries).known {
      assert Unresolved(loaded, seen + {path}, mode, retries) == missed;
    } else {
      CountsOneMore(missed, unresolved, first, path);
    }
  }

  class Missing {
    const mode: Mode
    const retries: int
    const dryRun: bool
    ghost const loaded: Records
    var disk: Records
    var records: Records
    var seen: set<string>
    var unresolved: nat
    var first: string

    ghost predicate Valid()
      reads this
    {
      && Tracks(loaded, mode, retries, seen, records, unresolved, first)
      && disk == loaded
    }

    /** NewMissing, for the modes that track anything. */
    constructor (disk: Records, mode: Mode, retries: int, dryRun: bool)
      requires mode != Fail
      ensures Valid() && loaded == disk && seen == {}
      ensures this.mode == mode && this.retries == retries && this.dryRun == dryRun
    {
      this.mode := mode;
      this.retries := retries;
      this.dryRun := dryRun;
      this.loaded := disk;
      this.disk := disk;
      this.records := disk;
      this.seen := {};
      this.unresolved := 0;
      this.first := "";
      new;
      assert Unresolved(loaded, seen, mode, retries) == {};
    }

    /** Counts a path once per run however often it is reported; the
        synchronization may always continue without it. */
    method Tolerate(path: string) returns (ok: bool)
      requires Valid()
      modifies `records, `seen, `unresolved, `first
      ensures Valid() && ok
      ensures seen == old(seen) + {path}
    {
      if path in seen {
        assert seen == seen + {path};
        return true;
      }
      TracksOneMore(loaded, mode, retries, seen, records, unresolved, first, path);
      seen := seen + {path};
      var rec := if path in records then records[path] else Record(0, false);
      rec := rec.(runs := rec.runs + 1);
      if rec.runs >= retries {
        rec := rec.(known := true);
      }
      records := records[path := rec];
      if mode == Ignore || rec.known {
        return true;
      }
      unresolved := unresolved + 1;
      if first == "" {
        first := path;
      }
      return true;
    }

    /** Persists the run and fails it while some missed path is inside its
        budget; the error counts those paths and names one of them. */
    method Finish() returns (err: Option<(nat, string)>)
      requires Valid()
      modifies `disk
      ensures disk == if dryRun then loaded else Saved(loaded, seen, retries)
      ensures err.None? <==> Unresolved(loaded, seen, mode, retries) == {}
      ensures err.Some? ==> err.value.0 == |Unresolved(loaded, seen, mode, retries)|
      ensures err.Some? ==> err.value.1 in Unresolved(loaded, seen, mode, retries)
    {
      Save();
      if unresolved == 0 {
        return None;
      }
      assert Unresolved(loaded, seen, mode, retries) != {};
      return Some((unresolved, first));
    }

    method Save()
      requires Valid()
      modifies `disk
      ensures disk == if dryRun then loaded else Saved(loaded, seen, retries)
    {
      if dryRun {
        return;
      }
      disk := map path | path in seen :: records[path];
    }
  }

  function Paths(reports: seq<string>): set<string> {
    set p | p in reports
  }

  lemma {:induction false} PathsStep(reports: seq<string>, i: nat)
    requires i < |reports|
    ensures Paths(reports[..i + 1]) == Paths(reports[..i]) + {reports[i]}
  {
    assert reports[..i + 1] == reports[..i] + [reports[i]];
  }

  /** One whole run: every report, duplicates included, then Finish. */
  method CompletedRun(disk: Records, mode: Mode, retries: int, dryRun: bool, reports: seq<string>)
    returns (disk': Records, failed: bool)
    requires mode != Fail
    ensures disk' == if dryRun then disk else Saved(disk, Paths(reports), retries)
    ensures failed <==> Unresolved(disk, Paths(reports), mode, retries) != {}
  {
    var m := new Missing(disk, mode, retries, dryRun);
    for i := 0 to |reports|
      invariant m.Valid() && fresh(m) && m.seen == Paths(reports[..i])
      invariant m.loaded == disk && m.mode == mode && m.retries == retries && m.dryRun == dryRun
    {
      PathsStep(reports, i);
      var _ := m.Tolerate(reports[i]);
    }
    assert reports[..|reports|] == reports;
    var err := m.Finish();
    return m.disk, err.Some?;
  }

  // ---------- Histories of runs ----------

  /** The paths each completed non-dry run missed, oldest first. */
  type History = seq<set<string>>

  /** The disk after the history, starting without a state file. */
  ghost function DiskAfter(history: History, retries: int): Records {
    if history == [] then map[]
    else Saved(DiskAfter(history[..|history| - 1], retries), history[|history| - 1], retries)
  }

  /** How many of the latest runs, without a gap, missed the path. */
  function Streak(history: History, path: string): nat {
    if history == [] || path !in history[|history| - 1] then 0
    else Streak(history[..|history| - 1], path) + 1
  }

  /** A path's record counts exactly its unbroken trailing streak: there is one
      just for the paths the latest run missed, and it is known exactly when
      the streak has used up the budget. */
  lemma {:induction false} RecordsCountStreaks(history: History, retries: int, path: string)
    ensures path in DiskAfter(history, retries) <==> Streak(history, path) > 0
    ensures path in DiskAfter(history, retries) ==>
              DiskAfter(history, retries)[path] == Record(Streak(history, path), Streak(history, path) >= retries)
  {
    if history != [] {
      RecordsCountStreaks(history[..|history| - 1], retries, path);
    }
  }

  /** Finish in the retry mode fails exactly when a path this run missed has a
      streak, this run included, shorter than the budget. */
  lemma {:induction false} FinishFailsOnShortStreaks(history: History, retries: int, seen: set<string>)
    ensures Unresolved(DiskAfter(history, retries), seen, Retry, retries) ==
            set path | path in seen && Streak(history + [seen], path) < retries
  {
    assert (history + [seen])[..|history|] == history;
    forall path | path in seen
      ensures Bump(DiskAfter(history, retries), path, retries).known <==> Streak(history + [seen], path) >= retries
    {
      RecordsCountStreaks(history, retries, path);
    }
  }

  /** One run that was served the path starts its budget over, whatever came
      before: the next miss is unresolved again. */
  lemma {:induction false} BudgetRestarts(history: History, retries: int, path: string, served: set<string>, missed: set<string>)
    requires retries > 1 && path !in served && path in missed
    ensures path in Unresolved(DiskAfter(history + [served], retries), missed, Retry, retries)
  {
    assert (history + [served])[..|history|] == history;
    RecordsCountStreaks(history + [served], retries, path);
  }
}
