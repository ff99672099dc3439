/**
 The discovery crawl (mirror/discover.go): breadth first over directory listings,
 with a visited set and a depth limit, equal to a set reached by rules.

 What a directory lists, glob matching and path escaping are parameters; a
 directory is named by the entries that lead to it from the start.
 */
module Discover {

  import opened Wrappers

  datatype Listing = Listing(dirs: seq<string>, files: set<string>)

  datatype RepoType = RPM | Deb | Arch | Apk

  datatype Crawl = Crawl(
    start: string,
    depth: int,
    types: seq<RepoType>,
    exclude: seq<string>,
    wanted: seq<string>,
    list: string -> Option<Listing>,
    glob: (string, string) -> bool,
    escape: string -> string)

  const APK_INDEX := "APKINDEX.tar.gz"

  predicate HasSuffix(s: string, suffix: string) {
    |suffix| <= |s| && s[|s| - |suffix|..] == suffix
  }

  /** The listing has the format's markers. */
  predicate Marked(listing: Listing, typ: RepoType) {
    match typ
    case RPM => "repodata" in listing.dirs
    case Deb => "InRelease" in listing.files || "Release" in listing.files
    case Arch => exists f | f in listing.files :: HasSuffix(f, ".db")
    case Apk => APK_INDEX in listing.files
  }

  /** repoTypeOf: the first accepted format whose markers are there. */
  function RepoTypeOf(listing: Listing, types: seq<RepoType>, from: nat := 0): (r: Option<RepoType>)
    requires from <= |types|
    ensures r.None? <==> forall i | from <= i < |types| :: !Marked(listing, types[i])
    ensures r.Some? ==> exists i | from <= i < |types| ::
              types[i] == r.value && Marked(listing, types[i]) && forall j | from <= j < i :: !Marked(listing, types[j])
    decreases |types| - from
  {
    if from == |types| then None
    else if Marked(listing, types[from]) then Some(types[from])
    else RepoTypeOf(listing, types, from + 1)
  }

  /** What a directory must list to be taken for a repository of each format. */
  lemma {:induction false} MarkersExactly(listing: Listing, typ: RepoType)
    ensures RepoTypeOf(listing, [typ]).Some? <==>
      match typ
      case RPM => "repodata" in listing.dirs
      case Deb => "InRelease" in listing.files || "Release" in listing.files
      case Arch => exists stem :: stem + ".db" in listing.files
      case Apk => "APKINDEX.tar.gz" in listing.files
  {
    assert RepoTypeOf(listing, [typ], 1).None?;
    forall f | f in listing.files && HasSuffix(f, ".db") ensures exists stem :: stem + ".db" in listing.files {
      assert f[..|f| - 3] + ".db" == f;
    }
    forall stem: string ensures HasSuffix(stem + ".db", ".db") {
    }
  }

  // ---------- Patterns ----------

  /** matchSubject: what a pattern is matched against. */
  function Subject(pattern: string, name: string, rel: string): (string, string) {
    if |pattern| > 0 && pattern[0] == '/' then (pattern[1..], rel)
    else if '/' in pattern then (pattern, rel)
    else (pattern, name)
  }

  /** A pattern without a slash is matched against the name alone, one that begins
      with a slash against the path below the start without it, and any other
      against the path as it is. */
  lemma {:induction false} SubjectMeans(pattern: string, name: string, rel: string)
    ensures '/' !in pattern ==> Subject(pattern, name, rel) == (pattern, name)
    ensures Subject("/" + pattern, name, rel) == (pattern, rel)
    ensures '/' in pattern && pattern[0] != '/' ==> Subject(pattern, name, rel) == (pattern, rel)
  {
    assert ("/" + pattern)[1..] == pattern;
  }

  predicate MatchAny(c: Crawl, patterns: seq<string>, name: string, rel: string) {
    exists p | p in patterns :: c.glob(Subject(p, name, rel).0, Subject(p, name, rel).1)
  }

  /** A file the run asks for, in a directory that is no repository. */
  datatype Loose = Loose(dirURL: string, name: string)

  predicate Wanted(c: Crawl, rel: string, name: string) {
    !MatchAny(c, c.exclude, name, Join(rel, name)) && MatchAny(c, c.wanted, name, Join(rel, name))
  }

  // ---------- Directories ----------

  /** A directory, by the entries that lead to it. */
  datatype Dir = Root | Child(parent: Dir, name: string)

  /** path.Join of a relative directory and an entry. */
  function Join(rel: string, name: string): string {
    if rel == "" then name else rel + "/" + name
  }

  function RelOf(dir: Dir): string {
    match dir
    case Root => ""
    case Child(parent, name) => Join(RelOf(parent), name)
  }

  function DepthOf(dir: Dir): nat {
    match dir
    case Root => 0
    case Child(parent, _) => DepthOf(parent) + 1
  }

  function Url(c: Crawl, dir: Dir): string {
    match dir
    case Root => c.start
    case Child(parent, name) => Url(c, parent) + c.escape(name) + "/"
  }

  function TrimRight(s: string): (r: string)
    ensures r <= s && (r == "" || r[|r| - 1] != '/') && forall i | |r| <= i < |s| :: s[i] == '/'
  {
    if s != "" && s[|s| - 1] == '/' then TrimRight(s[..|s| - 1]) else s
  }

  predicate IsRepo(c: Crawl, listing: Listing) {
    RepoTypeOf(listing, c.types).Some?
  }

  /** Entries of the directory are crawled: it can be listed, is no repository,
      and is above the depth limit. */
  predicate Descends(c: Crawl, dir: Dir) {
    && c.list(Url(c, dir)).Some?
    && !IsRepo(c, c.list(Url(c, dir)).value)
    && DepthOf(dir) < c.depth
  }

  /** Reached from the start through directories that are descended into, by
      entries that are not excluded. */
  predicate Reached(c: Crawl, dir: Dir) {
    match dir
    case Root => true
    case Child(parent, name) =>
      && Reached(c, parent)
      && Descends(c, parent)
      && name in c.list(Url(c, parent)).value.dirs
      && !MatchAny(c, c.exclude, name, RelOf(dir))
  }

  // ---------- URLs name directories ----------

  /** What url.PathEscape guarantees: entries stay apart and hold no slash. And
      the start ends in a slash, as its normalization makes sure. */
  ghost predicate Escapes(c: Crawl) {
    && (forall a :: '/' !in c.escape(a))
    && (forall a, b :: c.escape(a) == c.escape(b) ==> a == b)
    && c.start != "" && c.start[|c.start| - 1] == '/'
  }

  /** Two texts that end in a slash-free part agree only when both parts do. */
  lemma {:induction false} LastPart(a: string, s: string, b: string, t: string)
    requires '/' !in s && '/' !in t && a + s == b + t
    requires a != "" && a[|a| - 1] == '/' && b != "" && b[|b| - 1] == '/'
    ensures a == b && s == t
  {
    assert forall i | |a| <= i < |a + s| :: (a + s)[i] != '/';
    assert forall i | |b| <= i < |b + t| :: (b + t)[i] != '/';
    assert (b + t)[|b| - 1] == '/' && (a + s)[|a| - 1] == '/';
    assert |a| == |b|;
    assert (a + s)[..|a|] == a && (b + t)[..|b|] == b;
    assert (a + s)[|a|..] == s && (b + t)[|b|..] == t;
  }

  lemma {:induction false} UrlEnds(c: Crawl, dir: Dir)
    requires Escapes(c)
    ensures |Url(c, dir)| >= |c.start| && Url(c, dir) != "" && Url(c, dir)[|Url(c, dir)| - 1] == '/'
    ensures dir.Child? ==> |Url(c, dir)| > |Url(c, dir.parent)|
    ensures dir.Child? ==> |Url(c, dir)| > |c.start|
  {
    if dir.Child? { UrlEnds(c, dir.parent); }
  }

  /** Each directory has its own URL, so the visited set tells directories
      apart. */
  lemma {:induction false} UrlInjective(c: Crawl, a: Dir, b: Dir)
    requires Escapes(c) && Url(c, a) == Url(c, b)
    ensures a == b
  {
    UrlEnds(c, a);
    UrlEnds(c, b);
    if a.Child? && b.Child? {
      var x, y := Url(c, a.parent) + c.escape(a.name), Url(c, b.parent) + c.escape(b.name);
      assert Url(c, a) == x + "/" && Url(c, b) == y + "/";
      assert (x + "/")[..|x|] == x && (y + "/")[..|y|] == y;
      UrlEnds(c, a.parent);
      UrlEnds(c, b.parent);
      LastPart(Url(c, a.parent), c.escape(a.name), Url(c, b.parent), c.escape(b.name));
      UrlInjective(c, a.parent, b.parent);
    }
  }

  // ---------- The crawl is finite ----------

  function DirsOf(c: Crawl, dir: Dir): set<string> {
    var listing := c.list(Url(c, dir));
    if listing.None? then {} else set d | d in listing.value.dirs
  }

  /** Everything within d entries of the start. */
  function Upto(c: Crawl, d: nat): set<Dir> {
    if d == 0 then {Root} else Upto(c, d - 1) + set p, x | p in Upto(c, d - 1) && x in DirsOf(c, p) :: Child(p, x)
  }

  lemma {:induction false} ReachedIsUpto(c: Crawl, dir: Dir, d: nat)
    requires Reached(c, dir) && DepthOf(dir) <= d
    ensures dir in Upto(c, d)
    decreases d
  {
    if dir.Child? {
      ReachedIsUpto(c, dir.parent, d - 1);
      assert dir.name in DirsOf(c, dir.parent);
    } else if d > 0 {
      ReachedIsUpto(c, dir, d - 1);
    }
  }

  function Limit(c: Crawl): nat {
    if c.depth < 0 then 0 else c.depth
  }

  /** The directories not listed yet; the crawl ends when there are none. */
  ghost function Remaining(c: Crawl, all: seq<Dir>, n: nat): set<Dir>
    requires n <= |all|
  {
    Upto(c, Limit(c)) - Elements(all[..n])
  }

  lemma {:induction false} RemainingShrinks(c: Crawl, all: seq<Dir>, n: nat)
    requires n < |all| && NoRepeats(all) && Reached(c, all[n])
    ensures Remaining(c, all, n + 1) < Remaining(c, all, n)
  {
    ReachedIsUpto(c, all[n], Limit(c));
    assert all[..n + 1] == all[..n] + [all[n]];
    assert all[n] in Remaining(c, all, n) && all[n] in Elements(all[..n + 1]);
  }

  // ---------- The result ----------

  datatype Repo = Repo(url: string, typ: RepoType)

  datatype Found = Found(repos: seq<Repo>, files: seq<Loose>, failures: nat)

  /** What one directory adds to the result. */
  function RepoIn(c: Crawl, dir: Dir): seq<Repo> {
    var listing := c.list(Url(c, dir));
    if listing.Some? && IsRepo(c, listing.value)
    then [Repo(TrimRight(Url(c, dir)), RepoTypeOf(listing.value, c.types).value)] else []
  }

  function Selected(c: Crawl, names: set<string>, url: string, rel: string): set<Loose> {
    set f | f in names && Wanted(c, rel, f) :: Loose(TrimRight(url), f)
  }

  function FilesIn(c: Crawl, dir: Dir): set<Loose> {
    var listing := c.list(Url(c, dir));
    if listing.Some? && !IsRepo(c, listing.value)
    then Selected(c, listing.value.files, Url(c, dir), RelOf(dir)) else {}
  }

  function ReposOf(c: Crawl, dirs: seq<Dir>): seq<Repo> {
    if dirs == [] then [] else ReposOf(c, dirs[..|dirs| - 1]) + RepoIn(c, dirs[|dirs| - 1])
  }

  function FilesOf(c: Crawl, dirs: seq<Dir>): set<Loose> {
    if dirs == [] then {} else FilesOf(c, dirs[..|dirs| - 1]) + FilesIn(c, dirs[|dirs| - 1])
  }

  function FailuresOf(c: Crawl, dirs: seq<Dir>): nat {
    if dirs == [] then 0
    else FailuresOf(c, dirs[..|dirs| - 1]) + if c.list(Url(c, dirs[|dirs| - 1])).None? then 1 else 0
  }

  predicate NoRepeats<T(==)>(s: seq<T>) {
    forall i, j | 0 <= i < j < |s| :: s[i] != s[j]
  }

  function Elements<T>(s: seq<T>): set<T> {
    set x | x in s
  }

  /** The result is that of exactly these directories. */
  ghost predicate Collected(c: Crawl, listed: seq<Dir>, found: Found) {
    && found.repos == ReposOf(c, listed)
    && Elements(found.files) == FilesOf(c, listed)
    && found.failures == FailuresOf(c, listed)
  }

  /** matchedFiles */
  method MatchedFiles(c: Crawl, listing: Listing, url: string, rel: string) returns (files: seq<Loose>)
    ensures Elements(files) == Selected(c, listing.files, url, rel) && NoRepeats(files)
  {
    files := [];
    if |c.wanted| == 0 {
      return;
    }
    var names := listing.files;
    ghost var done: set<string> := {};
    while names != {}
      invariant done + names == listing.files && done !! names
      invariant Elements(files) == Selected(c, done, url, rel) && NoRepeats(files)
      decreases names
    {
      var name :| name in names;
      names := names - {name};
      assert Loose(TrimRight(url), name) !in Selected(c, done, url, rel);
      done := done + {name};
      var entry := Join(rel, name);
      if MatchAny(c, c.exclude, name, entry) || !MatchAny(c, c.wanted, name, entry) {
        continue;
      }
      assert Loose(TrimRight(url), name) !in Elements(files);
      assert Elements(files + [Loose(TrimRight(url), name)]) == Elements(files) + {Loose(TrimRight(url), name)};
      files := files + [Loose(TrimRight(url), name)];
    }
  }

  // ---------- The crawl ----------

  datatype Node = Node(url: string, rel: string, depth: nat)

  function NodeOf(c: Crawl, dir: Dir): Node {
    Node(Url(c, dir), RelOf(dir), DepthOf(dir))
  }

  ghost predicate Queued(c: Crawl, all: seq<Dir>, n: nat, queue: seq<Node>) {
    n + |queue| == |all| && forall i | 0 <= i < |queue| :: queue[i] == NodeOf(c, all[n + i])
  }

  ghost predicate Seen(c: Crawl, all: seq<Dir>, visited: set<string>) {
    && NoRepeats(all)
    && (forall d | d in all :: Reached(c, d) && Url(c, d) in visited)
    && (forall u | u in visited :: exists d | d in all :: u == Url(c, d))
  }

  /** The crawl's bookkeeping: all directories met so far, of which the first n
      are listed and the others wait in the queue, and the URLs seen. */
  ghost predicate Tracks(c: Crawl, all: seq<Dir>, n: nat, queue: seq<Node>, visited: set<string>) {
    Queued(c, all, n, queue) && Seen(c, all, visited)
  }

  /** Everything reached from the directory is in the set. */
  ghost predicate ChildrenIn(c: Crawl, dir: Dir, all: set<Dir>) {
    forall x | Reached(c, Child(dir, x)) :: Child(dir, x) in all
  }

  /** Nothing reached from a listed directory is forgotten. */
  ghost predicate Closed(c: Crawl, all: seq<Dir>, n: nat)
    requires n <= |all|
  {
    Root in all && forall i | 0 <= i < n :: ChildrenIn(c, all[i], Elements(all))
  }

  ghost predicate Crawling(c: Crawl, all: seq<Dir>, n: nat, queue: seq<Node>, visited: set<string>, found: Found) {
    Tracks(c, all, n, queue, visited) && Closed(c, all, n) && Collected(c, all[..n], found)
  }

  /** One entry of a directory: excluded, seen before, or put on the queue. */
  method EnqueueOne(c: Crawl, name: string, node: Node, queue: seq<Node>, visited: set<string>,
                    ghost dir: Dir, ghost all: seq<Dir>, ghost n: nat)
    returns (queue': seq<Node>, visited': set<string>, ghost all': seq<Dir>)
    requires Escapes(c) && Tracks(c, all, n, queue, visited) && node == NodeOf(c, dir)
    requires Reached(c, Child(dir, name)) <==> !MatchAny(c, c.exclude, name, RelOf(Child(dir, name)))
    ensures Tracks(c, all', n, queue', visited') && all <= all'
    ensures Reached(c, Child(dir, name)) ==> Child(dir, name) in all'
  {
    queue', visited', all' := queue, visited, all;
    ghost var child := Child(dir, name);
    var rel := Join(node.rel, name);
    if MatchAny(c, c.exclude, name, rel) {
      return;
    }
    var url := node.url + c.escape(name) + "/";
    if url in visited {
      ghost var seen :| seen in all && url == Url(c, seen);
      UrlInjective(c, child, seen);
      return;
    }
    visited' := visited + {url};
    queue' := queue + [Node(url, rel, node.depth + 1)];
    all' := all + [child];
  }

  /** The reached ones among these entries are met. */
  ghost predicate Handled(c: Crawl, dir: Dir, names: seq<string>, all: seq<Dir>) {
    forall x | x in names && Reached(c, Child(dir, x)) :: Child(dir, x) in all
  }

  lemma {:induction false} HandledNext(c: Crawl, dir: Dir, names: seq<string>, i: nat, before: seq<Dir>, all: seq<Dir>)
    requires i < |names| && before <= all && Handled(c, dir, names[..i], before)
    requires Reached(c, Child(dir, names[i])) ==> Child(dir, names[i]) in all
    ensures Handled(c, dir, names[..i + 1], all)
  {
    forall x | x in names[..i + 1] && Reached(c, Child(dir, x)) ensures Child(dir, x) in all {
      if x in names[..i] {
        var k :| 0 <= k < |before| && before[k] == Child(dir, x);
        assert all[k] == Child(dir, x);
      } else {
        assert x == names[i];
      }
    }
  }

  /** The loop over a directory's entries: each reached child is waiting or
      was seen before. */
  method Enqueue(c: Crawl, listing: Listing, node: Node, queue: seq<Node>, visited: set<string>,
                 ghost dir: Dir, ghost all: seq<Dir>, ghost n: nat)
    returns (queue': seq<Node>, visited': set<string>, ghost all': seq<Dir>)
    requires Escapes(c) && Tracks(c, all, n, queue, visited) && node == NodeOf(c, dir)
    requires Reached(c, dir) && Descends(c, dir) && c.list(node.url) == Some(listing)
    ensures Tracks(c, all', n, queue', visited') && all <= all'
    ensures ChildrenIn(c, dir, Elements(all'))
  {
    queue', visited', all' := queue, visited, all;
    for i := 0 to |listing.dirs|
      invariant Tracks(c, all', n, queue', visited') && all <= all'
      invariant Handled(c, dir, listing.dirs[..i], all')
    {
      ghost var before := all';
      queue', visited', all' := EnqueueOne(c, listing.dirs[i], node, queue', visited', dir, all', n);
      HandledNext(c, dir, listing.dirs, i, before, all');
    }
    assert listing.dirs[..|listing.dirs|] == listing.dirs;
  }

  /** What is collected from one directory, and its listing when its entries
      may be crawled. */
  method Collect(c: Crawl, node: Node, found: Found, ghost dir: Dir, ghost listed: seq<Dir>)
    returns (found': Found, further: Option<Listing>)
    requires node == NodeOf(c, dir) && Collected(c, listed, found)
    ensures Collected(c, listed + [dir], found')
    ensures further.Some? ==> c.list(node.url) == further && !IsRepo(c, further.value)
    ensures further.None? ==> c.list(node.url).None? || IsRepo(c, c.list(node.url).value)
  {
    var listing := c.list(node.url);
    if listing.None? {
      found' := found.(failures := found.failures + 1);
      return found', None;
    }
    var typ := RepoTypeOf(listing.value, c.types);
    if typ.Some? {
      found' := found.(repos := found.repos + [Repo(TrimRight(node.url), typ.value)]);
      return found', None;
    }
    var files := MatchedFiles(c, listing.value, node.url, node.rel);
    found' := found.(files := found.files + files);
    assert Elements(found.files + files) == Elements(found.files) + Elements(files);
    return found', listing;
  }

  /** The entries of a listed directory, when they may be crawled. */
  method Descend(c: Crawl, further: Option<Listing>, node: Node, queue: seq<Node>, visited: set<string>,
                 ghost dir: Dir, ghost all: seq<Dir>, ghost n: nat)
    returns (queue': seq<Node>, visited': set<string>, ghost all': seq<Dir>)
    requires Escapes(c) && node == NodeOf(c, dir) && Reached(c, dir) && Tracks(c, all, n, queue, visited)
    requires further.Some? ==> c.list(node.url) == further && !IsRepo(c, further.value)
    requires further.None? ==> c.list(node.url).None? || IsRepo(c, c.list(node.url).value)
    ensures Tracks(c, all', n, queue', visited') && all <= all' && ChildrenIn(c, dir, Elements(all'))
  {
    queue', visited', all' := queue, visited, all;
    if further.None? || node.depth >= c.depth {
      return;
    }
    queue', visited', all' := Enqueue(c, further.value, node, queue, visited, dir, all, n);
  }

  lemma {:induction false} Dequeue(c: Crawl, all: seq<Dir>, n: nat, queue: seq<Node>, visited: set<string>)
    requires Tracks(c, all, n, queue, visited) && queue != []
    ensures n < |all| && queue[0] == NodeOf(c, all[n]) && Reached(c, all[n]) && Tracks(c, all, n + 1, queue[1..], visited)
    ensures Remaining(c, all, n + 1) < Remaining(c, all, n)
  {
    assert all[n] in all;
    RemainingShrinks(c, all, n);
  }

  lemma {:induction false} SamePrefix(a: seq<Dir>, b: seq<Dir>, n: nat)
    requires a <= b && n < |a|
    ensures b[..n + 1] == a[..n] + [a[n]] && Elements(b[..n + 1]) == Elements(a[..n + 1])
  {
    assert b[..n + 1] == a[..n + 1] == a[..n] + [a[n]];
  }

  /** One round of the crawl. */
  method Next(c: Crawl, queue: seq<Node>, visited: set<string>, found: Found, ghost all: seq<Dir>, ghost n: nat)
    returns (queue': seq<Node>, visited': set<string>, found': Found, ghost all': seq<Dir>)
    requires Escapes(c) && Crawling(c, all, n, queue, visited, found) && queue != []
    ensures Crawling(c, all', n + 1, queue', visited', found')
    ensures Remaining(c, all', n + 1) < Remaining(c, all, n)
  {
    Dequeue(c, all, n, queue, visited);
    var further;
    found', further := Collect(c, queue[0], found, all[n], all[..n]);
    queue', visited', all' := Descend(c, further, queue[0], queue[1..], visited, all[n], all, n + 1);
    SamePrefix(all, all', n);
  }

  lemma {:induction false} AllReachedMet(c: Crawl, all: seq<Dir>, d: Dir)
    requires Closed(c, all, |all|) && Reached(c, d)
    ensures d in all
  {
    if d.Child? {
      AllReachedMet(c, all, d.parent);
      var i :| 0 <= i < |all| && all[i] == d.parent;
      assert ChildrenIn(c, all[i], Elements(all));
      assert d == Child(d.parent, d.name);
    }
  }

  lemma {:induction false} AtStart(c: Crawl) returns (all: seq<Dir>)
    ensures Crawling(c, all, 0, [Node(c.start, "", 0)], {c.start}, Found([], [], 0))
  {
    all := [Root];
    assert NodeOf(c, all[0]) == Node(c.start, "", 0);
    assert Root in all;
  }

  lemma {:induction false} ListedSoFar(c: Crawl, all: seq<Dir>, n: nat, queue: seq<Node>, visited: set<string>)
    requires Tracks(c, all, n, queue, visited)
    ensures NoRepeats(all[..n]) && forall d | d in all[..n] :: Reached(c, d)
    ensures queue == [] ==> all[..n] == all
  {
    forall d | d in all[..n] ensures Reached(c, d) {
      assert d in all;
    }
  }

  /** Every directory reached by the rules; there are finitely many. */
  ghost function AllReached(c: Crawl): (dirs: set<Dir>)
    ensures forall d :: d in dirs <==> Reached(c, d)
  {
    assert forall d | Reached(c, d) :: d in Upto(c, Limit(c)) by {
      forall d | Reached(c, d) ensures d in Upto(c, Limit(c)) { ReachedIsUpto(c, d, Limit(c)); }
    }
    set d | d in Upto(c, Limit(c)) && Reached(c, d)
  }

  lemma {:induction false} AllListed(c: Crawl, all: seq<Dir>, n: nat, queue: seq<Node>, visited: set<string>, found: Found)
    requires Crawling(c, all, n, queue, visited, found) && queue == []
    ensures NoRepeats(all) && Elements(all) == AllReached(c) && Collected(c, all, found)
  {
    assert all[..n] == all;
    forall d | Reached(c, d) ensures d in all {
      AllReachedMet(c, all, d);
    }
  }

  ghost function Unlistable(c: Crawl, dirs: set<Dir>): set<Dir> {
    set d | d in dirs && c.list(Url(c, d)).None?
  }

  /** The result without reference to the crawl or its order: the repositories
      and wanted files of these directories, and how many could not be listed. */
  ghost predicate Describes(c: Crawl, dirs: set<Dir>, found: Found) {
    && (forall r :: r in found.repos <==> exists d | d in dirs :: r in RepoIn(c, d))
    && (forall f :: f in found.files <==> exists d | d in dirs :: f in FilesIn(c, d))
    && found.failures == |Unlistable(c, dirs)|
  }

  /** discoverRepos: the crawl lists only directories reached by the rules, each
      once; unless the context ends it, it lists all of them and returns the
      repositories, loose files and failures of exactly those. */
  method DiscoverRepos(c: Crawl) returns (found: Option<Found>, ghost listed: seq<Dir>)
    requires Escapes(c)
    ensures NoRepeats(listed) && forall d | d in listed :: Reached(c, d)
    ensures found.Some? ==> Elements(listed) == AllReached(c) && Collected(c, listed, found.value)
    ensures found.Some? ==> Describes(c, AllReached(c), found.value)
  {
    var queue := [Node(c.start, "", 0)];
    var visited := {c.start};
    var result := Found([], [], 0);
    ghost var n := 0;
    ghost var all := AtStart(c);
    while queue != []
      invariant Crawling(c, all, n, queue, visited, result)
      decreases Remaining(c, all, n)
    {
      var canceled: bool := *;
      if canceled {
        ListedSoFar(c, all, n, queue, visited);
        return None, all[..n];
      }
      queue, visited, result, all := Next(c, queue, visited, result, all, n);
      n := n + 1;
    }
    AllListed(c, all, n, queue, visited, result);
    CollectedMeans(c, all, result);
    return Some(result), all;
  }

  /** Where the crawl goes on: from a directory that could be listed, is no
      repository and is not too deep, to those in it that no pattern excludes. */
  lemma {:induction false} ReachedExactly(c: Crawl, parent: Dir, name: string)
    ensures
      var path := if RelOf(parent) == "" then name else RelOf(parent) + "/" + name;
      Reached(c, Child(parent, name)) <==>
      && Reached(c, parent) && c.list(Url(c, parent)).Some? && name in c.list(Url(c, parent)).value.dirs
      && (forall t | t in c.types :: !Marked(c.list(Url(c, parent)).value, t)) && DepthOf(parent) < c.depth
      && forall p | p in c.exclude :: !c.glob(Subject(p, name, path).0, Subject(p, name, path).1)
  {
    if c.list(Url(c, parent)).Some? {
      assert (forall t | t in c.types :: !Marked(c.list(Url(c, parent)).value, t)) <==>
             forall i | 0 <= i < |c.types| :: !Marked(c.list(Url(c, parent)).value, c.types[i]);
    }
  }

  /** A directory's repository: of the first accepted format that it looks like,
      at its URL without slashes at the end. */
  lemma {:induction false} RepoExactly(c: Crawl, dir: Dir, r: Repo)
    ensures r in RepoIn(c, dir) <==>
      && c.list(Url(c, dir)).Some?
      && (exists i | 0 <= i < |c.types| ::
            c.types[i] == r.typ && Marked(c.list(Url(c, dir)).value, r.typ) &&
            forall j | 0 <= j < i :: !Marked(c.list(Url(c, dir)).value, c.types[j]))
      && r.url <= Url(c, dir) && (r.url == "" || r.url[|r.url| - 1] != '/')
      && forall i | |r.url| <= i < |Url(c, dir)| :: Url(c, dir)[i] == '/'
  {
    if r.url <= Url(c, dir) && (r.url == "" || r.url[|r.url| - 1] != '/') && forall i | |r.url| <= i < |Url(c, dir)| :: Url(c, dir)[i] == '/' {
      TrimmedIs(Url(c, dir), r.url);
    }
    if c.list(Url(c, dir)).Some? { TypeIs(c.list(Url(c, dir)).value, c.types, r.typ); }
  }

  lemma {:induction false} TrimmedIs(s: string, t: string)
    requires t <= s && (t == "" || t[|t| - 1] != '/') && forall i | |t| <= i < |s| :: s[i] == '/'
    ensures TrimRight(s) == t
  {
    if |s| > |t| {
      TrimmedIs(s[..|s| - 1], t);
    } else {
      assert s == t;
    }
  }

  lemma {:induction false} TypeIs(listing: Listing, types: seq<RepoType>, typ: RepoType)
    ensures RepoTypeOf(listing, types) == Some(typ) <==>
      exists i | 0 <= i < |types| :: types[i] == typ && Marked(listing, typ) && forall j | 0 <= j < i :: !Marked(listing, types[j])
  {
    if i :| 0 <= i < |types| && types[i] == typ && Marked(listing, typ) && forall j | 0 <= j < i :: !Marked(listing, types[j]) {
      var k :| 0 <= k < |types| && types[k] == RepoTypeOf(listing, types).value && Marked(listing, types[k]) &&
               forall j | 0 <= j < k :: !Marked(listing, types[j]);
      assert k == i;
    }
  }

  /** A directory's loose files: where it is no repository, those that a wanted
      pattern matches and no excluded one does. */
  lemma {:induction false} FileExactly(c: Crawl, dir: Dir, name: string)
    ensures
      var path := if RelOf(dir) == "" then name else RelOf(dir) + "/" + name;
      (exists f | f in FilesIn(c, dir) :: f.name == name) <==>
      && c.list(Url(c, dir)).Some? && name in c.list(Url(c, dir)).value.files
      && (forall t | t in c.types :: !Marked(c.list(Url(c, dir)).value, t))
      && (exists p | p in c.wanted :: c.glob(Subject(p, name, path).0, Subject(p, name, path).1))
      && forall p | p in c.exclude :: !c.glob(Subject(p, name, path).0, Subject(p, name, path).1)
  {
    if c.list(Url(c, dir)).Some? && name in c.list(Url(c, dir)).value.files && Wanted(c, RelOf(dir), name) {
      var f := Loose(TrimRight(Url(c, dir)), name);
      assert !IsRepo(c, c.list(Url(c, dir)).value) ==> f in FilesIn(c, dir);
      assert f.name == name;
    }
  }

  /** What the crawl collected, directory by directory, describes the set of
      directories it listed. */
  lemma {:induction false} CollectedMeans(c: Crawl, listed: seq<Dir>, found: Found)
    requires NoRepeats(listed) && Collected(c, listed, found)
    ensures Describes(c, Elements(listed), found)
  {
    ReposMean(c, listed);
    FilesMean(c, listed);
    FailuresMean(c, listed);
    forall f ensures f in found.files <==> f in FilesOf(c, listed) {
      assert f in found.files <==> f in Elements(found.files);
    }
  }

  lemma {:induction false} ReposMean(c: Crawl, listed: seq<Dir>)
    ensures forall r :: r in ReposOf(c, listed) <==> exists d | d in listed :: r in RepoIn(c, d)
  {
    if listed != [] {
      var front, last := listed[..|listed| - 1], listed[|listed| - 1];
      ReposMean(c, front);
      assert listed == front + [last];
    }
  }

  lemma {:induction false} FilesMean(c: Crawl, listed: seq<Dir>)
    ensures forall f :: f in FilesOf(c, listed) <==> exists d | d in listed :: f in FilesIn(c, d)
  {
    if listed != [] {
      var front, last := listed[..|listed| - 1], listed[|listed| - 1];
      FilesMean(c, front);
      assert listed == front + [last];
    }
  }

  lemma {:induction false} UnlistableNext(c: Crawl, dirs: set<Dir>, dir: Dir)
    requires dir !in dirs
    ensures |Unlistable(c, dirs + {dir})| == |Unlistable(c, dirs)| + if c.list(Url(c, dir)).None? then 1 else 0
  {
    var before := Unlistable(c, dirs);
    assert Unlistable(c, dirs + {dir}) == if c.list(Url(c, dir)).None? then before + {dir} else before;
  }

  /** Each failure is counted once. */
  lemma {:induction false} FailuresMean(c: Crawl, listed: seq<Dir>)
    requires NoRepeats(listed)
    ensures FailuresOf(c, listed) == |Unlistable(c, Elements(listed))|
  {
    if listed == [] {
      assert Unlistable(c, Elements(listed)) == {};
    } else {
      var front, last := listed[..|listed| - 1], listed[|listed| - 1];
      FailuresMean(c, front);
      assert listed == front + [last];
      assert last !in Elements(front);
      assert Elements(listed) == Elements(front) + {last};
      UnlistableNext(c, Elements(front), last);
    }
  }
}
