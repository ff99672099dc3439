/**
 The release documents of an apt suite (stageDebRelease in mirror/deb.go): they
 are staged, and checked before anything they list is trusted. A failed check
 refetches once, InRelease alone and Release together with its signature.
 */
module DebRelease {

  import opened Wrappers
  import opened Disk
  import opened Fetch
  import opened Transfers
  import opened Staging

  /** `clearsign` gives the text of an inline-signed document it accepts. */
  datatype Keys = Keys(hash: Hash, verify: Verify, clearsign: Bytes -> Option<Bytes>)

  datatype Docs = Docs(inRelease: Path, release: Path, gpg: Path) {
    predicate Valid() {
      && inRelease != release && inRelease != gpg && release != gpg
      && !IsWork(inRelease) && !IsWork(release) && !IsWork(gpg)
    }

    function Names(): set<Path> {
      StageNames(inRelease) + StageNames(release) + StageNames(gpg)
    }
  }

  /** Which documents the upstream does not serve. */
  datatype Absent = Absent(inRelease: bool, release: bool, gpg: bool)

  /** One document; it is taken to be absent only when the upstream says that there
      is none or forbids it. */
  method StageDoc(tree: Tree, keys: Keys, docs: Docs, dst: Path, again: bool, ghost n: nat, ghost a: Files)
    returns (ok: bool, missing: bool, ghost error: Option<FetchError>)
    requires tree.Valid() && n <= |tree.log| && Within(tree.log, n, a, tree.files, docs.Names()) && StageNames(dst) <= docs.Names()
    modifies tree
    ensures tree.Valid() && old(tree.log) <= tree.log && tree.statFaults >= old(tree.statFaults)
    ensures Within(tree.log, n, a, tree.files, docs.Names())
    ensures SameOutside(old(tree.files), tree.files, StageNames(dst))
    ensures ok && !missing ==> Chosen(tree.files, dst).Some?
    ensures ok <==> error.None? || missing
    ensures missing <==> error == Some(NotFound) || error == Some(Forbidden)
  {
    var r, _ := StageOne(tree, keys.hash, dst, None, again, n, a, docs.Names());
    error := if r.Err? then Some(r.error) else None;
    missing := r.Err? && (r.error == NotFound || r.error == Forbidden);
    ok := r.Ok? || missing;
  }

  /** The loop over InRelease: what is still served afterwards is accepted, and
      nothing readable is given up without a refetch. */
  method CheckInline(tree: Tree, keys: Keys, docs: Docs, ghost n: nat, ghost a: Files)
    returns (ok: bool, missing: bool, text: Bytes, refetched: bool, unreadable: bool)
    requires tree.Valid() && docs.Valid() && n <= |tree.log| && Within(tree.log, n, a, tree.files, docs.Names())
    modifies tree
    ensures tree.Valid() && old(tree.log) <= tree.log && tree.statFaults >= old(tree.statFaults)
    ensures Within(tree.log, n, a, tree.files, docs.Names())
    ensures SameOutside(old(tree.files), tree.files, StageNames(docs.inRelease))
    ensures ok && !missing && tree.statFaults == old(tree.statFaults) ==> Inline(keys, tree.files, docs, text)
    ensures !ok ==> refetched || unreadable
  {
    ghost var error;
    missing, text, refetched, unreadable := false, [], false, false;
    for attempt := 0 to 2
      invariant tree.Valid() && old(tree.log) <= tree.log && tree.statFaults >= old(tree.statFaults) && !missing
      invariant Within(tree.log, n, a, tree.files, docs.Names())
      invariant SameOutside(old(tree.files), tree.files, StageNames(docs.inRelease))
      invariant refetched <==> attempt > 0
    {
      var data := ReadChosen(tree, docs.inRelease);
      if data.None? {
        return false, missing, text, refetched, true;
      }
      var plain, fails: bool := keys.clearsign(data.value), *;
      if plain.Some? && !fails {
        return true, missing, plain.value, refetched, unreadable;
      }
      if attempt == 1 {
        return false, missing, text, refetched, unreadable;
      }
      refetched := true;
      ghost var b := tree.files;
      ok, missing, error := StageDoc(tree, keys, docs, docs.inRelease, true, n, a);
      SameOutsideTrans(old(tree.files), b, tree.files, StageNames(docs.inRelease), StageNames(docs.inRelease));
      assert StageNames(docs.inRelease) + StageNames(docs.inRelease) == StageNames(docs.inRelease);
      if !ok || missing {
        return;
      }
    }
    return false, missing, text, refetched, unreadable;
  }

  /** The inline-signed document is accepted and has this text. */
  predicate Inline(keys: Keys, files: Files, docs: Docs, text: Bytes) {
    Chosen(files, docs.inRelease).Some? && keys.clearsign(Chosen(files, docs.inRelease).value) == Some(text)
  }

  /** The loop over Release and Release.gpg; they are not given up without a
      refetch of both. */
  method CheckDetached(tree: Tree, keys: Keys, docs: Docs, ghost n: nat, ghost a: Files)
    returns (ok: bool, missing: bool, refetched: bool)
    requires tree.Valid() && docs.Valid() && n <= |tree.log| && Within(tree.log, n, a, tree.files, docs.Names())
    modifies tree
    ensures tree.Valid() && old(tree.log) <= tree.log && tree.statFaults >= old(tree.statFaults)
    ensures Within(tree.log, n, a, tree.files, docs.Names())
    ensures SameOutside(old(tree.files), tree.files, StageNames(docs.release) + StageNames(docs.gpg))
    ensures ok && !missing && tree.statFaults == old(tree.statFaults) ==> Accepted(keys.verify, tree.files, docs.release, docs.gpg)
    ensures !ok ==> refetched
  {
    ghost var changed := StageNames(docs.release) + StageNames(docs.gpg);
    missing, refetched := false, false;
    ghost var error;
    for attempt := 0 to 2
      invariant tree.Valid() && old(tree.log) <= tree.log && tree.statFaults >= old(tree.statFaults) && !missing
      invariant Within(tree.log, n, a, tree.files, docs.Names())
      invariant SameOutside(old(tree.files), tree.files, changed) && (refetched <==> attempt > 0)
    {
      ok := VerifyPair(tree, keys.verify, docs.release, docs.gpg);
      if ok {
        return;
      }
      if attempt == 1 {
        return false, missing, refetched;
      }
      refetched := true;
      var releaseMissing;
      ghost var b := tree.files;
      ok, releaseMissing, error := StageDoc(tree, keys, docs, docs.release, true, n, a);
      SameOutsideTrans(old(tree.files), b, tree.files, changed, StageNames(docs.release));
      assert changed + StageNames(docs.release) == changed;
      if !ok {
        return false, missing, refetched;
      }
      b := tree.files;
      ok, missing, error := StageDoc(tree, keys, docs, docs.gpg, true, n, a);
      SameOutsideTrans(old(tree.files), b, tree.files, changed, StageNames(docs.gpg));
      assert changed + StageNames(docs.gpg) == changed;
      if !ok || releaseMissing {
        return false, missing, refetched;
      }
      if missing {
        return;
      }
    }
    return false, missing, refetched;
  }

  /** What the rest of a run may rely on: every signature that is served was
      accepted, and the checksums come from the strongest document. */
  predicate Trusted(keys: Keys, files: Files, docs: Docs, absent: Absent, mode: SignatureMode, authenticated: bool, data: Bytes) {
    && (authenticated && !absent.inRelease ==> Inline(keys, files, docs, data))
    && (authenticated && absent.inRelease ==> !absent.gpg && Chosen(files, docs.release) == Some(data))
    && (!authenticated ==> Chosen(files, if absent.inRelease then docs.release else docs.inRelease) == Some(data))
    && (!mode.Off? && !absent.inRelease ==> Inline(keys, files, docs, data))
    && (!mode.Off? && !absent.gpg ==> Accepted(keys.verify, files, docs.release, docs.gpg))
    && (authenticated <==> !mode.Off? && !(absent.inRelease && absent.gpg))
  }

  /** The three downloads. */
  method StageDocs(tree: Tree, keys: Keys, docs: Docs, ghost n: nat, ghost a: Files) returns (ok: bool, absent: Absent)
    requires tree.Valid() && docs.Valid() && n <= |tree.log| && Within(tree.log, n, a, tree.files, docs.Names())
    modifies tree
    ensures tree.Valid() && old(tree.log) <= tree.log && tree.statFaults >= old(tree.statFaults)
    ensures Within(tree.log, n, a, tree.files, docs.Names())
  {
    absent := Absent(false, false, false);
    var missing;
    ghost var error;
    ok, missing, error := StageDoc(tree, keys, docs, docs.inRelease, false, n, a);
    if !ok {
      return;
    }
    absent := absent.(inRelease := missing);
    ok, missing, error := StageDoc(tree, keys, docs, docs.release, false, n, a);
    if !ok {
      return;
    }
    absent := absent.(release := missing);
    ok, missing, error := StageDoc(tree, keys, docs, docs.gpg, false, n, a);
    absent := absent.(gpg := missing);
  }

  /** Both signature checks; text is InRelease's once it is accepted. */
  method CheckDocs(tree: Tree, keys: Keys, docs: Docs, absent: Absent, ghost n: nat, ghost a: Files)
    returns (ok: bool, absent': Absent, text: Bytes)
    requires tree.Valid() && docs.Valid() && n <= |tree.log| && Within(tree.log, n, a, tree.files, docs.Names())
    modifies tree
    ensures tree.Valid() && old(tree.log) <= tree.log && tree.statFaults >= old(tree.statFaults)
    ensures Within(tree.log, n, a, tree.files, docs.Names())
    ensures ok && tree.statFaults == old(tree.statFaults) ==>
              && (!absent'.inRelease ==> Inline(keys, tree.files, docs, text))
              && (!absent'.gpg ==> Accepted(keys.verify, tree.files, docs.release, docs.gpg))
    ensures ok && !absent'.gpg ==> !absent'.release
  {
    absent', text, ok := absent, [], true;
    if !absent.inRelease {
      var missing, again, unreadable;
      ok, missing, text, again, unreadable := CheckInline(tree, keys, docs, n, a);
      if !ok {
        return;
      }
      absent' := absent'.(inRelease := missing);
    }
    if !absent.gpg {
      if absent.release {
        return false, absent', text;
      }
      ghost var b := tree.files;
      var missing, again;
      ok, missing, again := CheckDetached(tree, keys, docs, n, a);
      absent' := absent'.(gpg := missing);
      InlineKept(keys, b, tree.files, docs, text);
    }
  }

  lemma {:induction false} InlineKept(keys: Keys, a: Files, b: Files, docs: Docs, text: Bytes)
    requires docs.Valid() && SameOutside(a, b, StageNames(docs.release) + StageNames(docs.gpg))
    ensures Inline(keys, a, docs, text) ==> Inline(keys, b, docs, text)
  {
    WorkNamesDiffer(docs.inRelease, docs.release);
    WorkNamesDiffer(docs.inRelease, docs.gpg);
    assert Same(a, b, docs.inRelease) && Same(a, b, Staged(docs.inRelease));
  }

  /** stageDebRelease up to its result; the required mode always authenticates. */
  method SelectRelease(tree: Tree, keys: Keys, docs: Docs, mode: SignatureMode, ghost n: nat, ghost a: Files)
    returns (ok: bool, absent: Absent, authenticated: bool, data: Bytes)
    requires tree.Valid() && docs.Valid() && n <= |tree.log| && Within(tree.log, n, a, tree.files, docs.Names())
    modifies tree
    ensures tree.Valid() && old(tree.log) <= tree.log && tree.statFaults >= old(tree.statFaults)
    ensures Within(tree.log, n, a, tree.files, docs.Names())
    ensures ok ==> !(absent.inRelease && absent.release) && (mode.Required? ==> authenticated) && (mode.Off? ==> !authenticated)
    ensures ok && tree.statFaults == old(tree.statFaults) ==> Trusted(keys, tree.files, docs, absent, mode, authenticated, data)
  {
    authenticated, data := false, [];
    ok, absent := StageDocs(tree, keys, docs, n, a);
    if !ok {
      return;
    }
    if !mode.Off? {
      ok, absent, data := CheckDocs(tree, keys, docs, absent, n, a);
      if !ok {
        return;
      }
      if !absent.inRelease {
        return true, absent, true, data;
      }
      if absent.release || (absent.gpg && mode.Required?) {
        return false, absent, authenticated, data;
      }
      authenticated := !absent.gpg;
    }
    if absent.inRelease && absent.release {
      return false, absent, authenticated, data;
    }
    var read := ReadChosen(tree, if absent.inRelease then docs.release else docs.inRelease);
    if read.None? {
      return false, absent, authenticated, data;
    }
    return true, absent, authenticated, read.value;
  }

  /** stageDebRelease: it touches nothing clients see, and cleans up when it
      fails. */
  method StageRelease(tree: Tree, keys: Keys, docs: Docs, mode: SignatureMode)
    returns (ok: bool, absent: Absent, authenticated: bool, data: Bytes, stuck: set<Path>)
    requires tree.Valid() && docs.Valid()
    modifies tree
    ensures tree.Valid() && old(tree.log) <= tree.log && tree.statFaults >= old(tree.statFaults)
    ensures Within(tree.log, |old(tree.log)|, old(tree.files), tree.files, docs.Names())
    ensures !ok ==> Cleared(tree.files, [docs.inRelease, docs.release, docs.gpg], stuck)
    ensures ok ==> !(absent.inRelease && absent.release) && (mode.Required? ==> authenticated) && (mode.Off? ==> !authenticated)
    ensures ok && tree.statFaults == old(tree.statFaults) ==> Trusted(keys, tree.files, docs, absent, mode, authenticated, data)
  {
    ghost var n, a := |tree.log|, tree.files;
    stuck := {};
    ok, absent, authenticated, data := SelectRelease(tree, keys, docs, mode, n, a);
    if !ok {
      ghost var b, m := tree.files, |tree.log|;
      ghost var staged := StagedNames([docs.inRelease, docs.release, docs.gpg]);
      stuck := Cleanup(tree, [docs.inRelease, docs.release, docs.gpg]);
      WithinJoin(tree.log, n, m, a, b, tree.files, docs.Names(), staged);
      assert docs.Names() + staged == docs.Names();
    }
  }
}
