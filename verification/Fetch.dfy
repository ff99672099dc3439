/**
 One download (fetch/fetch.go): partial file, resume, verification, then the
 final or the staged name.

 Hashing is a parameter; the upstream answers anything.
 */
module Fetch {

  import opened Wrappers
  import opened Disk

  const STAGED_SUFFIX := ".staged"
  const PARTIAL_SUFFIX := ".partial"

  /** Checksum algorithms from most to least preferred. */
  const HASH_ORDER := ["sha512", "sha384", "sha256", "sha224", "sha1", "sha", "md5", "md5sum"]

  type Hash = (string, Bytes) -> string

  /** A size of -1 is unknown; sums maps algorithm names to hex digests. */
  datatype Expect = Expect(size: int, sums: map<string, string>)

  /** strings.ToLower on ASCII text: the same letters, none of them upper case. */
  function Lower(s: string): (r: string)
    ensures |r| == |s| && forall i | 0 <= i < |s| ::
              && !('A' <= r[i] <= 'Z')
              && (r[i] == s[i] || ('A' <= s[i] <= 'Z' && r[i] as int - s[i] as int == 'a' as int - 'A' as int))
  {
    seq(|s|, i requires 0 <= i < |s| => if 'A' <= s[i] <= 'Z' then s[i] + 32 as char else s[i])
  }

  function MakeExpect(size: int, algo: string, digest: string): Expect {
    Expect(if size <= 0 then -1 else size, if algo != "" && digest != "" then map[Lower(algo) := Lower(digest)] else map[])
  }

  /** From a size and checksums by lowercase name, as the pacman database and the
      apt indexes list them. */
  function SumsExpect(size: int, sums: map<string, string>): Expect {
    Expect(if size <= 0 then -1 else size, sums)
  }

  function Staged(dst: Path): Path { dst + STAGED_SUFFIX }

  function Partial(dst: Path): Path { dst + PARTIAL_SUFFIX }

  predicate Listed(e: Expect, algo: string) {
    algo in e.sums && e.sums[algo] != ""
  }

  /** The strongest digest the expectation lists. */
  function BestSum(e: Expect, from: nat := 0): (r: Option<(string, string)>)
    requires from <= |HASH_ORDER|
    ensures r.None? <==> forall i | from <= i < |HASH_ORDER| :: !Listed(e, HASH_ORDER[i])
    ensures r.Some? ==> exists i | from <= i < |HASH_ORDER| ::
              r.value.0 == HASH_ORDER[i] && Listed(e, HASH_ORDER[i]) && r.value.1 == e.sums[HASH_ORDER[i]] &&
              forall j | from <= j < i :: !Listed(e, HASH_ORDER[j])
    decreases |HASH_ORDER| - from
  {
    if from == |HASH_ORDER| then None
    else if Listed(e, HASH_ORDER[from]) then Some((HASH_ORDER[from], e.sums[HASH_ORDER[from]]))
    else BestSum(e, from + 1)
  }

  /** The digest algorithms repository metadata names. */
  predicate KnownAlgorithm(name: string) {
    || name == "sha512" || name == "sha384" || name == "sha256" || name == "sha224"
    || name == "sha1" || name == "sha" || name == "md5" || name == "md5sum"
  }

  /** The order of preference by name, strongest first. */
  lemma {:induction false} StrongestFirst(e: Expect)
    ensures BestSum(e) ==
      if Listed(e, "sha512") then Some(("sha512", e.sums["sha512"]))
      else if Listed(e, "sha384") then Some(("sha384", e.sums["sha384"]))
      else if Listed(e, "sha256") then Some(("sha256", e.sums["sha256"]))
      else if Listed(e, "sha224") then Some(("sha224", e.sums["sha224"]))
      else if Listed(e, "sha1") then Some(("sha1", e.sums["sha1"]))
      else if Listed(e, "sha") then Some(("sha", e.sums["sha"]))
      else if Listed(e, "md5") then Some(("md5", e.sums["md5"]))
      else if Listed(e, "md5sum") then Some(("md5sum", e.sums["md5sum"]))
      else None
  {
    assert BestSum(e) == BestSum(e, 0);
    assert BestSum(e, 6) == if Listed(e, "md5") then Some(("md5", e.sums["md5"]))
                            else if Listed(e, "md5sum") then Some(("md5sum", e.sums["md5sum"])) else None;
    assert BestSum(e, 4) == if Listed(e, "sha1") then Some(("sha1", e.sums["sha1"]))
                            else if Listed(e, "sha") then Some(("sha", e.sums["sha"])) else BestSum(e, 6);
    assert BestSum(e, 2) == if Listed(e, "sha256") then Some(("sha256", e.sums["sha256"]))
                            else if Listed(e, "sha224") then Some(("sha224", e.sums["sha224"])) else BestSum(e, 4);
  }

  predicate SizeMatches(e: Expect, data: Bytes) {
    e.size >= 0 ==> |data| == e.size
  }

  predicate SumMatches(hash: Hash, e: Expect, data: Bytes) {
    var best := BestSum(e);
    best.Some? ==> hash(best.value.0, data) == best.value.1
  }

  /** What a completed transfer has to satisfy. */
  predicate Matches(hash: Hash, want: Option<Expect>, data: Bytes) {
    want.Some? ==> SizeMatches(want.value, data) && SumMatches(hash, want.value, data)
  }

  /** What an existing file has to satisfy to be left alone. */
  predicate Acceptable(hash: Hash, e: Expect, checkHash: bool, data: Bytes) {
    SizeMatches(e, data) && (checkHash ==> SumMatches(hash, e, data))
  }

  /** A live file of the expected size. */
  predicate OfSize(files: Files, name: Path, e: Expect) {
    name in files && SizeMatches(e, files[name])
  }

  /** Data of this size and, where it is checked, with this digest, as metadata
      states them; sizes that are not positive and digests of unknown algorithms
      say nothing. */
  predicate MeetsEntry(hash: Hash, size: int, algo: string, digest: string, checked: bool, data: Bytes) {
    && (size > 0 ==> |data| == size)
    && (checked && KnownAlgorithm(Lower(algo)) && digest != "" ==> hash(Lower(algo), data) == Lower(digest))
  }

  /** What an expectation made from one entry of the metadata demands. */
  lemma {:induction false} ExpectMeans(hash: Hash, size: int, algo: string, digest: string, checked: bool, data: Bytes)
    ensures Acceptable(hash, MakeExpect(size, algo, digest), checked, data) <==> MeetsEntry(hash, size, algo, digest, checked, data)
  {
    var e := MakeExpect(size, algo, digest);
    StrongestFirst(e);
    assert algo == "" ==> !KnownAlgorithm(Lower(algo));
    assert forall name :: Listed(e, name) <==> name == Lower(algo) && algo != "" && digest != "";
  }

  predicate HasSum(sums: map<string, string>, name: string) {
    name in sums && sums[name] != ""
  }

  /** Data of this size and, where it is checked, with the strongest digest that
      is given. */
  predicate MeetsSums(hash: Hash, size: int, sums: map<string, string>, checked: bool, data: Bytes) {
    && (size > 0 ==> |data| == size)
    && (checked ==>
          if HasSum(sums, "sha512") then hash("sha512", data) == sums["sha512"]
          else if HasSum(sums, "sha384") then hash("sha384", data) == sums["sha384"]
          else if HasSum(sums, "sha256") then hash("sha256", data) == sums["sha256"]
          else if HasSum(sums, "sha224") then hash("sha224", data) == sums["sha224"]
          else if HasSum(sums, "sha1") then hash("sha1", data) == sums["sha1"]
          else if HasSum(sums, "sha") then hash("sha", data) == sums["sha"]
          else if HasSum(sums, "md5") then hash("md5", data) == sums["md5"]
          else if HasSum(sums, "md5sum") then hash("md5sum", data) == sums["md5sum"]
          else true)
  }

  lemma {:induction false} SumsMean(hash: Hash, size: int, sums: map<string, string>, checked: bool, data: Bytes)
    ensures Acceptable(hash, SumsExpect(size, sums), checked, data) <==> MeetsSums(hash, size, sums, checked, data)
  {
    StrongestFirst(SumsExpect(size, sums));
    assert forall name :: Listed(SumsExpect(size, sums), name) <==> HasSum(sums, name);
  }

  method VerifyLocal(tree: Tree, hash: Hash, name: Path, e: Expect, checkHash: bool) returns (ok: bool)
    requires tree.Valid()
    modifies tree`statFaults
    ensures tree.statFaults >= old(tree.statFaults)
    ensures ok ==> name in tree.files && Acceptable(hash, e, checkHash, tree.files[name])
    ensures (!checkHash || BestSum(e).None?) && OfSize(tree.files, name, e) && tree.statFaults == old(tree.statFaults) ==> ok
  {
    var err := tree.Stat(name);
    if !err.Fine? || !SizeMatches(e, tree.files[name]) {
      return false;
    }
    if !checkHash || BestSum(e).None? {
      return true;
    }
    var r := tree.Read(name);
    return r.Ok? && hash(BestSum(e).value.0, r.value) == BestSum(e).value.1;
  }

  datatype FetchError = NotFound | Forbidden | Transport | BadSize | BadSum | Local

  /** A 2xx answer; a broken one ends with a read error after body. */
  datatype Response = Response(partialContent: bool, body: Bytes, broken: bool)

  datatype Reply = Got(response: Response) | NotModified | Failed(error: FetchError)

  /** Source.Get: anything at all, except that 304 only answers a conditional
      request. */
  method Get(conditional: bool) returns (r: Reply)
    ensures r.NotModified? ==> conditional
  {
    r := *;
    if r.NotModified? && !conditional {
      r := Failed(Transport);
    }
  }

  type FileResult = Result<FileState, FetchError>

  function Target(dst: Path, stage: bool): Path {
    if stage then Staged(dst) else dst
  }

  /** From the n-th content of the log on, p is as it was in a or has bytes
      that match; a staged copy may also be absent. */
  ghost predicate OnlyVerified(log: seq<Files>, n: nat, a: Files, p: Path, stage: bool, hash: Hash, want: Option<Expect>) {
    forall k | n <= k < |log| ::
      Same(a, log[k], p) || (stage && p !in log[k]) || (p in log[k] && Matches(hash, want, log[k][p]))
  }

  ghost predicate ResumeReady(files: Files, dst: Path, want: Option<Expect>, resumeFrom: nat) {
    resumeFrom > 0 ==>
      want.Some? && want.value.size > 0 && BestSum(want.value).Some? &&
      Partial(dst) in files && |files[Partial(dst)]| == resumeFrom
  }

  /** The bytes are the whole answer, or the prefix that was there and then the
      answer to a ranged request. */
  predicate Delivers(reply: Reply, prefix: Bytes, data: Bytes) {
    && reply.Got? && !reply.response.broken
    && data == (if prefix != [] && reply.response.partialContent then prefix else []) + reply.response.body
  }

  /** Streams the body into the partial file. When resuming, the hash is fed
      the old partial file first, so what was hashed is what the file has. */
  method Receive(tree: Tree, dst: Path, want: Option<Expect>, resumeFrom: nat, resp: Response)
    returns (failure: Option<FetchError>, hashed: Bytes, total: nat)
    requires tree.Valid() && ResumeReady(tree.files, dst, want, resumeFrom)
    modifies tree
    ensures tree.statFaults >= old(tree.statFaults)
    ensures tree.Valid() && old(tree.log) <= tree.log
    ensures KeptSince(tree.log, |old(tree.log)|, old(tree.files), {Partial(dst)})
    ensures SameOutside(old(tree.files), tree.files, {Partial(dst)})
    ensures failure.None? ==>
              Partial(dst) in tree.files && tree.files[Partial(dst)] == hashed && total == |hashed|
    ensures failure.None? ==> Delivers(Got(resp), if resumeFrom > 0 then old(tree.files)[Partial(dst)] else [], hashed)
    ensures failure.Some? ==> failure.value != NotFound
  {
    var partial := Partial(dst);
    var mkdir := tree.MkdirAll(dst);
    if !mkdir.Fine? {
      return Some(Local), [], 0;
    }
    var keepPartial := want.Some? && BestSum(want.value).Some? && want.value.size > 0;
    var resumed := resumeFrom > 0 && resp.partialContent;
    hashed := [];
    if resumed {
      var prefix := tree.Read(partial);
      if prefix.Err? {
        return Some(Local), [], 0;
      }
      hashed := prefix.value;
    }
    var err, written := tree.Write(partial, resumed, resp.body);
    if !err.Fine? || resp.broken {
      if !keepPartial {
        var _ := tree.Remove(partial);
      }
      return Some(if err.Fine? then Transport else Local), [], 0;
    }
    hashed := hashed + resp.body;
    assert resp.body[..written] == resp.body;
    return None, hashed, written + if resumed then resumeFrom else 0;
  }

  /** Checks the transfer and renames the partial file to its target. */
  method Install(tree: Tree, hash: Hash, dst: Path, want: Option<Expect>, stage: bool, hashed: Bytes, total: nat)
    returns (failure: Option<FetchError>)
    requires tree.Valid()
    requires Partial(dst) in tree.files && tree.files[Partial(dst)] == hashed && total == |hashed|
    modifies tree
    ensures tree.statFaults >= old(tree.statFaults)
    ensures tree.Valid() && old(tree.log) <= tree.log
    ensures KeptSince(tree.log, |old(tree.log)|, old(tree.files), {Target(dst, stage), Partial(dst)})
    ensures OnlyVerified(tree.log, |old(tree.log)|, old(tree.files), Target(dst, stage), stage, hash, want)
    ensures SameOutside(old(tree.files), tree.files, {Target(dst, stage), Partial(dst)})
    ensures failure.None? ==>
              Target(dst, stage) in tree.files && tree.files[Target(dst, stage)] == hashed && Matches(hash, want, hashed) && Partial(dst) !in tree.files
    ensures failure.Some? ==> Same(old(tree.files), tree.files, Target(dst, stage)) && failure.value != NotFound
  {
    var partial := Partial(dst);
    if want.Some? && want.value.size >= 0 && total != want.value.size {
      var _ := tree.Remove(partial);
      return Some(BadSize);
    }
    if want.Some? && BestSum(want.value).Some? && hash(BestSum(want.value).value.0, hashed) != BestSum(want.value).value.1 {
      var _ := tree.Remove(partial);
      return Some(BadSum);
    }
    var renamed := tree.Rename(partial, Target(dst, stage));
    if !renamed.Fine? {
      var _ := tree.Remove(partial);
      return Some(Local);
    }
    return None;
  }

  /** Work on the partial file alone leaves the target. */
  lemma {:induction false} OnlyPartial(log: seq<Files>, n: nat, a: Files, files: Files, hash: Hash, dst: Path, want: Option<Expect>, stage: bool)
    requires KeptSince(log, n, a, {Partial(dst)}) && SameOutside(a, files, {Partial(dst)})
    ensures KeptSince(log, n, a, {Target(dst, stage), Partial(dst)}) && SameOutside(a, files, {Target(dst, stage), Partial(dst)})
    ensures OnlyVerified(log, n, a, Target(dst, stage), stage, hash, want)
    ensures Same(a, files, Target(dst, stage))
  {
    assert |Partial(dst)| == |dst| + 8 && |Staged(dst)| == |dst| + 7;
    forall k | n <= k < |log| ensures Same(a, log[k], Target(dst, stage)) && SameOutside(a, log[k], {Target(dst, stage), Partial(dst)}) {
      assert SameOutside(a, log[k], {Partial(dst)});
    }
  }

  /** Receiving touches only the partial file, so Download inherits what
      Install says about the target. */
  lemma {:induction false} JoinStage(log: seq<Files>, n: nat, m: nat, a: Files, b: Files, c: Files, hash: Hash, dst: Path, want: Option<Expect>, stage: bool)
    requires n <= m <= |log|
    requires KeptSince(log[..m], n, a, {Partial(dst)}) && SameOutside(a, b, {Partial(dst)})
    requires KeptSince(log, m, b, {Target(dst, stage), Partial(dst)}) && SameOutside(b, c, {Target(dst, stage), Partial(dst)})
    requires OnlyVerified(log, m, b, Target(dst, stage), stage, hash, want)
    ensures KeptSince(log, n, a, {Target(dst, stage), Partial(dst)})
    ensures SameOutside(a, c, {Target(dst, stage), Partial(dst)})
    ensures OnlyVerified(log, n, a, Target(dst, stage), stage, hash, want)
    ensures Same(b, c, Target(dst, stage)) ==> Same(a, c, Target(dst, stage))
  {
    var changed := {Target(dst, stage), Partial(dst)};
    KeptJoin(log, n, m, a, b, {Partial(dst)}, changed);
    SameOutsideTrans(a, b, c, {Partial(dst)}, changed);
    assert {Partial(dst)} + changed == changed;
    OnlyPartial(log[..m], n, a, b, hash, dst, want, stage);
    VerifiedJoin(log, n, m, a, b, Target(dst, stage), stage, hash, want);
  }

  lemma {:induction false} VerifiedJoin(log: seq<Files>, n: nat, m: nat, a: Files, b: Files, p: Path, stage: bool, hash: Hash, want: Option<Expect>)
    requires n <= m <= |log| && (Same(a, b, p) || (stage && p !in b))
    requires OnlyVerified(log[..m], n, a, p, stage, hash, want) && OnlyVerified(log, m, b, p, stage, hash, want)
    ensures OnlyVerified(log, n, a, p, stage, hash, want)
  {
    forall k | n <= k < |log|
      ensures Same(a, log[k], p) || (stage && p !in log[k]) || (p in log[k] && Matches(hash, want, log[k][p]))
    {
      if k < m { assert log[..m][k] == log[k]; }
    }
  }

  /** One transfer attempt. */
  method Download(tree: Tree, hash: Hash, dst: Path, want: Option<Expect>, stage: bool, resumeFrom: nat, force: bool)
    returns (r: FileResult, ghost reply: Reply)
    requires tree.Valid() && ResumeReady(tree.files, dst, want, resumeFrom)
    modifies tree
    ensures tree.statFaults >= old(tree.statFaults)
    ensures tree.Valid() && old(tree.log) <= tree.log
    ensures KeptSince(tree.log, |old(tree.log)|, old(tree.files), {Target(dst, stage), Partial(dst)})
    ensures OnlyVerified(tree.log, |old(tree.log)|, old(tree.files), Target(dst, stage), stage, hash, want)
    ensures SameOutside(old(tree.files), tree.files, {Target(dst, stage), Partial(dst)})
    ensures r.Ok? ==> r.value == FileUnchanged || r.value == if stage then FileStaged else FileFetched
    ensures r == Ok(FileUnchanged) ==> want.None? && !force && tree.files == old(tree.files) && dst in tree.files
    ensures r.Ok? && r.value != FileUnchanged ==>
              && Target(dst, stage) in tree.files && Matches(hash, want, tree.files[Target(dst, stage)]) && Partial(dst) !in tree.files
              && Delivers(reply, if resumeFrom > 0 then old(tree.files)[Partial(dst)] else [], tree.files[Target(dst, stage)])
    ensures r == Ok(FileUnchanged) <==> reply.NotModified?
    ensures r == Err(NotFound) <==> reply == Failed(NotFound)
    ensures r.Err? ==> Same(old(tree.files), tree.files, Target(dst, stage))
  {
    var conditional := false;
    if want.None? && !force {
      var err := tree.Stat(dst);
      conditional := err.Fine?;
    }
    var answer := Get(conditional);
    reply := answer;
    if answer.NotModified? {
      return Ok(FileUnchanged), reply;
    }
    if answer.Failed? {
      return Err(answer.error), reply;
    }
    var failure, hashed, total := Receive(tree, dst, want, resumeFrom, answer.response);
    if failure.Some? {
      OnlyPartial(tree.log, |old(tree.log)|, old(tree.files), tree.files, hash, dst, want, stage);
      return Err(failure.value), reply;
    }
    ghost var received, m := tree.files, |tree.log|;
    failure := Install(tree, hash, dst, want, stage, hashed, total);
    JoinStage(tree.log, |old(tree.log)|, m, old(tree.files), received, tree.files, hash, dst, want, stage);
    if failure.Some? {
      return Err(failure.value), reply;
    }
    return Ok(if stage then FileStaged else FileFetched), reply;
  }

  lemma {:induction false} Joined(log: seq<Files>, n: nat, m: nat, a: Files, b: Files, c: Files, hash: Hash, dst: Path, want: Option<Expect>, stage: bool)
    requires n <= m <= |log|
    requires KeptSince(log[..m], n, a, {Target(dst, stage), Partial(dst)}) && SameOutside(a, b, {Target(dst, stage), Partial(dst)})
    requires KeptSince(log, m, b, {Target(dst, stage), Partial(dst)}) && SameOutside(b, c, {Target(dst, stage), Partial(dst)})
    requires OnlyVerified(log[..m], n, a, Target(dst, stage), stage, hash, want) && OnlyVerified(log, m, b, Target(dst, stage), stage, hash, want)
    requires Same(a, b, Target(dst, stage)) || (stage && Target(dst, stage) !in b)
    ensures KeptSince(log, n, a, {Target(dst, stage), Partial(dst)})
    ensures SameOutside(a, c, {Target(dst, stage), Partial(dst)})
    ensures OnlyVerified(log, n, a, Target(dst, stage), stage, hash, want)
  {
    var changed := {Target(dst, stage), Partial(dst)};
    KeptJoin(log, n, m, a, b, changed, changed);
    SameOutsideTrans(a, b, c, changed, changed);
    assert changed + changed == changed;
    VerifiedJoin(log, n, m, a, b, Target(dst, stage), stage, hash, want);
  }

  /** Where a ranged request may continue from: the size of a partial file
      shorter than an expectation that has a size and a digest. */
  method ResumePoint(tree: Tree, dst: Path, want: Option<Expect>) returns (from: nat)
    requires tree.Valid()
    modifies tree`statFaults
    ensures tree.statFaults >= old(tree.statFaults)
    ensures ResumeReady(tree.files, dst, want, from)
    ensures from > 0 ==> from < want.value.size
    ensures && tree.statFaults == old(tree.statFaults) && want.Some? && BestSum(want.value).Some?
            && Partial(dst) in tree.files && |tree.files[Partial(dst)]| < want.value.size ==>
              from == |tree.files[Partial(dst)]|
  {
    from := 0;
    if want.Some? && want.value.size > 0 && BestSum(want.value).Some? {
      var err := tree.Stat(Partial(dst));
      if err.Fine? && 0 < |tree.files[Partial(dst)]| < want.value.size {
        from := |tree.files[Partial(dst)]|;
      }
    }
  }

  /** The retry loop of file: a failed resumed transfer is tried once more from
      scratch, as the partial may not be a prefix of the current upstream file. */
  method Transfer(tree: Tree, hash: Hash, dst: Path, want: Option<Expect>, stage: bool, resumeFrom: nat, force: bool)
    returns (r: FileResult, attempts: nat, ghost replies: seq<Reply>)
    requires tree.Valid() && ResumeReady(tree.files, dst, want, resumeFrom)
    modifies tree
    ensures tree.statFaults >= old(tree.statFaults)
    ensures tree.Valid() && old(tree.log) <= tree.log && 1 <= attempts <= 2
    ensures KeptSince(tree.log, |old(tree.log)|, old(tree.files), {Target(dst, stage), Partial(dst)})
    ensures OnlyVerified(tree.log, |old(tree.log)|, old(tree.files), Target(dst, stage), stage, hash, want)
    ensures SameOutside(old(tree.files), tree.files, {Target(dst, stage), Partial(dst)})
    ensures r.Ok? ==> r.value == FileUnchanged || r.value == if stage then FileStaged else FileFetched
    ensures r == Ok(FileUnchanged) ==>
              want.None? && !force && Same(old(tree.files), tree.files, Target(dst, stage)) && dst in tree.files
    ensures r.Ok? && r.value != FileUnchanged ==>
              Target(dst, stage) in tree.files && Matches(hash, want, tree.files[Target(dst, stage)]) && Partial(dst) !in tree.files
    ensures |replies| == attempts && (r == Err(NotFound) <==> replies[attempts - 1] == Failed(NotFound))
    ensures r.Ok? && r.value != FileUnchanged ==>
              Delivers(replies[attempts - 1], if attempts == 1 && resumeFrom > 0 then old(tree.files)[Partial(dst)] else [],
                       tree.files[Target(dst, stage)])
    ensures r.Err? ==> Same(old(tree.files), tree.files, Target(dst, stage))
  {
    ghost var n, a := |tree.log|, tree.files;
    var from := resumeFrom;
    attempts, replies := 0, [];
    while true
      invariant tree.statFaults >= old(tree.statFaults)
      invariant tree.Valid() && old(tree.log) <= tree.log && ResumeReady(tree.files, dst, want, from)
      invariant |replies| == attempts && (attempts == 0 || (attempts == 1 && from == 0))
      invariant attempts == 0 ==> from == resumeFrom && tree.files == a
      invariant KeptSince(tree.log, n, a, {Target(dst, stage), Partial(dst)})
      invariant OnlyVerified(tree.log, n, a, Target(dst, stage), stage, hash, want)
      invariant SameOutside(a, tree.files, {Target(dst, stage), Partial(dst)})
      invariant Same(a, tree.files, Target(dst, stage))
      decreases from, 2 - attempts
    {
      ghost var b, m := tree.files, |tree.log|;
      ghost var reply;
      r, reply := Download(tree, hash, dst, want, stage, from, force);
      attempts, replies := attempts + 1, replies + [reply];
      Joined(tree.log, n, m, a, b, tree.files, hash, dst, want, stage);
      var canceled: bool := *;
      if r.Ok? || from == 0 || r.error == NotFound || canceled {
        return;
      }
      b, m := tree.files, |tree.log|;
      var _ := tree.Remove(Partial(dst));
      Joined(tree.log, n, m, a, b, tree.files, hash, dst, want, stage);
      from := 0;
    }
  }

  /** The download from where it can be resumed. */
  method Obtain(tree: Tree, hash: Hash, dst: Path, want: Option<Expect>, stage: bool, force: bool)
    returns (r: FileResult, attempts: nat, ghost replies: seq<Reply>)
    requires tree.Valid()
    modifies tree
    ensures tree.statFaults >= old(tree.statFaults)
    ensures tree.Valid() && old(tree.log) <= tree.log && 1 <= attempts <= 2
    ensures KeptSince(tree.log, |old(tree.log)|, old(tree.files), {Target(dst, stage), Partial(dst)})
    ensures OnlyVerified(tree.log, |old(tree.log)|, old(tree.files), Target(dst, stage), stage, hash, want)
    ensures SameOutside(old(tree.files), tree.files, {Target(dst, stage), Partial(dst)})
    ensures r.Ok? ==> r.value == FileUnchanged || r.value == if stage then FileStaged else FileFetched
    ensures r == Ok(FileUnchanged) ==>
              want.None? && !force && Same(old(tree.files), tree.files, Target(dst, stage)) && dst in tree.files
    ensures r.Ok? && r.value != FileUnchanged ==>
              Target(dst, stage) in tree.files && Matches(hash, want, tree.files[Target(dst, stage)]) && Partial(dst) !in tree.files
    ensures |replies| == attempts && (r == Err(NotFound) <==> replies[attempts - 1] == Failed(NotFound))
    ensures r.Ok? && r.value != FileUnchanged ==>
              || Delivers(replies[attempts - 1], [], tree.files[Target(dst, stage)])
              || (attempts == 1 && Partial(dst) in old(tree.files) &&
                  Delivers(replies[0], old(tree.files)[Partial(dst)], tree.files[Target(dst, stage)]))
    ensures r.Err? ==> Same(old(tree.files), tree.files, Target(dst, stage))
  {
    var resumeFrom := ResumePoint(tree, dst, want);
    r, attempts, replies := Transfer(tree, hash, dst, want, stage, resumeFrom, force);
  }

  /** Nothing when the live file is accepted, else the download. */
  method Renew(tree: Tree, hash: Hash, dst: Path, want: Option<Expect>, stage: bool, verifyExisting: bool, force: bool)
    returns (r: FileResult, attempts: nat, ghost replies: seq<Reply>)
    requires tree.Valid()
    modifies tree
    ensures tree.statFaults >= old(tree.statFaults)
    ensures tree.Valid() && old(tree.log) <= tree.log && attempts <= 2
    ensures KeptSince(tree.log, |old(tree.log)|, old(tree.files), {Target(dst, stage), Partial(dst)})
    ensures OnlyVerified(tree.log, |old(tree.log)|, old(tree.files), Target(dst, stage), stage, hash, want)
    ensures SameOutside(old(tree.files), tree.files, {Target(dst, stage), Partial(dst)})
    ensures r.Ok? ==> r.value == FileUnchanged || r.value == if stage then FileStaged else FileFetched
    ensures r == Ok(FileUnchanged) ==>
              && Same(old(tree.files), tree.files, Target(dst, stage)) && dst in tree.files
              && if want.Some? then tree.files == old(tree.files) && Acceptable(hash, want.value, verifyExisting, tree.files[dst]) else !force
    ensures r.Ok? && r.value != FileUnchanged ==>
              Target(dst, stage) in tree.files && Matches(hash, want, tree.files[Target(dst, stage)]) && Partial(dst) !in tree.files
    ensures |replies| == attempts && (r.Err? || r.value != FileUnchanged ==> attempts > 0)
    ensures r == Err(NotFound) ==> replies[attempts - 1] == Failed(NotFound)
    ensures r.Ok? && r.value != FileUnchanged ==>
              || Delivers(replies[attempts - 1], [], tree.files[Target(dst, stage)])
              || (attempts == 1 && Partial(dst) in old(tree.files) &&
                  Delivers(replies[0], old(tree.files)[Partial(dst)], tree.files[Target(dst, stage)]))
    ensures r.Err? ==> Same(old(tree.files), tree.files, Target(dst, stage))
    ensures want.Some? && !verifyExisting && OfSize(old(tree.files), dst, want.value) && tree.statFaults == old(tree.statFaults) ==>
              r == Ok(FileUnchanged)
  {
    if want.Some? {
      var ok := VerifyLocal(tree, hash, dst, want.value, verifyExisting);
      if ok {
        return Ok(FileUnchanged), 0, [];
      }
    }
    r, attempts, replies := Obtain(tree, hash, dst, want, stage, force);
  }

  /** What a call leaves: a file and its state that agree, everything else as it
      was, no partial file when it is complete, and no earlier staged copy but one
      that could not be removed. */
  ghost predicate CallEnds(hash: Hash, verifyExisting: bool, a: Files, b: Files, dst: Path, want: Option<Expect>, stage: bool,
                           r: FileResult, leftover: bool) {
    && SameOutside(a, b, {Target(dst, stage), Partial(dst)})
    && (r == Ok(FileUnchanged) ==>
          dst in b && Same(a, b, dst) && (want.Some? ==> Acceptable(hash, want.value, verifyExisting, b[dst])))
    && (r.Ok? ==> r.value == FileUnchanged || r.value == if stage then FileStaged else FileFetched)
    && (r.Ok? && r.value != FileUnchanged ==>
          Target(dst, stage) in b && Matches(hash, want, b[Target(dst, stage)]) && Partial(dst) !in b)
    && (r.Err? && !stage ==> Same(a, b, dst))
    && (stage && Staged(dst) in b && r != Ok(FileStaged) ==> leftover && Same(a, b, Staged(dst)))
  }

  /** file: the destination, or its staged copy, is only ever replaced by bytes
      that match; at most two transfers are attempted; and a staged leftover of
      an earlier run survives a call only when it could not be removed. */
  method File(tree: Tree, hash: Hash, dst: Path, want: Option<Expect>, stage: bool, verifyExisting: bool, force: bool)
    returns (r: FileResult, attempts: nat, leftover: bool, ghost replies: seq<Reply>)
    requires tree.Valid()
    modifies tree
    ensures tree.statFaults >= old(tree.statFaults)
    ensures tree.Valid() && old(tree.log) <= tree.log && attempts <= 2
    ensures KeptSince(tree.log, |old(tree.log)|, old(tree.files), {Target(dst, stage), Partial(dst)})
    ensures OnlyVerified(tree.log, |old(tree.log)|, old(tree.files), Target(dst, stage), stage, hash, want)
    ensures CallEnds(hash, verifyExisting, old(tree.files), tree.files, dst, want, stage, r, leftover)
    ensures r == Ok(FileUnchanged) && want.None? ==> !force
    ensures |replies| == attempts && (r.Err? || r.value != FileUnchanged ==> attempts > 0)
    ensures r == Err(NotFound) ==> replies[attempts - 1] == Failed(NotFound)
    ensures r.Ok? && r.value != FileUnchanged ==>
              || Delivers(replies[attempts - 1], [], tree.files[Target(dst, stage)])
              || (attempts == 1 && Partial(dst) in old(tree.files) &&
                  Delivers(replies[0], old(tree.files)[Partial(dst)], tree.files[Target(dst, stage)]))
    ensures leftover ==> stage && Staged(dst) in old(tree.files)
    ensures leftover && r != Ok(FileStaged) ==> Staged(dst) in tree.files
    ensures want.Some? && !verifyExisting && OfSize(old(tree.files), dst, want.value) && tree.statFaults == old(tree.statFaults) ==>
              r == Ok(FileUnchanged)
  {
    attempts, leftover, replies := 0, false, [];
    ghost var n, a := |tree.log|, tree.files;
    leftover := Clear(tree, hash, dst, want, stage);
    ghost var b, m := tree.files, |tree.log|;
    r, attempts, replies := Renew(tree, hash, dst, want, stage, verifyExisting, force);
    Joined(tree.log, n, m, a, b, tree.files, hash, dst, want, stage);
  }

  /** Clears a staged leftover; leftover says that there is one all the same. */
  method Clear(tree: Tree, ghost hash: Hash, dst: Path, ghost want: Option<Expect>, stage: bool) returns (leftover: bool)
    requires tree.Valid()
    modifies tree`files, tree`log
    ensures tree.Valid() && old(tree.log) <= tree.log
    ensures KeptSince(tree.log, |old(tree.log)|, old(tree.files), {Target(dst, stage), Partial(dst)})
    ensures OnlyVerified(tree.log, |old(tree.log)|, old(tree.files), Target(dst, stage), stage, hash, want)
    ensures SameOutside(old(tree.files), tree.files, {Target(dst, stage), Partial(dst)})
    ensures Same(old(tree.files), tree.files, dst)
    ensures if leftover then stage && tree.files == old(tree.files) && Staged(dst) in tree.files
            else stage ==> Staged(dst) !in tree.files
    ensures tree.files == old(tree.files) || (stage && tree.files == old(tree.files) - {Staged(dst)})
  {
    leftover := false;
    if stage {
      assert |Staged(dst)| == |dst| + 7;
      var err := tree.Remove(Staged(dst));
      leftover := Staged(dst) in tree.files;
    }
  }

  /** The staged copy when there is one, else the promoted file; only a stat
      fault can make it look at the wrong one. */
  method StagedOrFinal(tree: Tree, dst: Path) returns (name: Path)
    requires tree.Valid()
    modifies tree`statFaults
    ensures tree.statFaults >= old(tree.statFaults)
    ensures name == dst || (name == Staged(dst) && Staged(dst) in tree.files)
    ensures tree.statFaults == old(tree.statFaults) ==> (name == Staged(dst) <==> Staged(dst) in tree.files)
  {
    var err := tree.Stat(Staged(dst));
    return if err.Fine? then Staged(dst) else dst;
  }

  /** What a tree holds for dst once its staged copy, if any, is promoted. */
  function Promoted(files: Files, dst: Path): Files {
    if Staged(dst) in files then files[dst := files[Staged(dst)]] - {Staged(dst)} else files
  }

  method PromoteStaged(tree: Tree, dst: Path) returns (ok: bool)
    requires tree.Valid()
    modifies tree
    ensures tree.Valid() && old(tree.log) <= tree.log
    ensures forall k | |old(tree.log)| <= k < |tree.log| :: tree.log[k] == tree.files
    ensures tree.files == if ok then Promoted(old(tree.files), dst) else old(tree.files)
    ensures tree.statFaults >= old(tree.statFaults)
  {
    var err := tree.Stat(Staged(dst));
    if err.NotExist? {
      return true;
    }
    err := tree.MkdirAll(dst);
    if !err.Fine? {
      return false;
    }
    err := tree.Rename(Staged(dst), dst);
    return err.Fine?;
  }

  /** RemoveStale: a failure is only logged. */
  method RemoveStale(tree: Tree, name: Path) returns (failed: bool)
    requires tree.Valid()
    modifies tree`files, tree`log
    ensures tree.Valid() && tree.log == old(tree.log) + [tree.files]
    ensures tree.files == if failed then old(tree.files) else old(tree.files) - {name}
  {
    var err := tree.Remove(name);
    failed := err.Fault?;
  }
}
