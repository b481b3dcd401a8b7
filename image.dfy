/**
 * Building a Platform Image (image.go): the repository's name and version,
 * the image file name, the choice of the source directory, and the walk
 * that turns the source tree into tar entries. The image is read back by
 * the extraction of actions/deploy/deploy.go, modelled in `Tar`.
 */
module Image {
  import opened Common
  import opened Paths
  import opened FileTree
  import opened Tar

  // ---------------------------------------------------------------------
  // Repository name and version

  /** A tag: its short name and the hash of the reference itself. For a
      lightweight tag that is the commit it names; for an annotated tag it
      is the tag object's own hash, which never equals a commit hash. */
  datatype Ref = Ref(short: string, hash: string)

  /** What the git library answers: each call's failure, the origin's
      URLs, the HEAD commit (a 40-digit hash) and the tags in the order the
      iterator yields them. */
  datatype Repo = Repo(openFault: Option<Error>, remoteFault: Option<Error>, urls: seq<string>,
                       headFault: Option<Error>, head: string,
                       tagsFault: Option<Error>, tags: seq<Ref>)

  /** `filepath.Base` of the URL without one trailing `.git`. */
  function RepoName(url: string): string
  {
    TrimSuffix(Base(url), ".git")
  }

  /** The short name of the first tag on `head`, or empty when no tag is:
      the `ForEach` callback stops at the first match. */
  function FirstTag(tags: seq<Ref>, head: string): (r: string)
    ensures (forall i :: 0 <= i < |tags| ==> tags[i].hash != head) ==> r == ""
    ensures forall i :: (0 <= i < |tags| && tags[i].hash == head &&
      forall j :: 0 <= j < i ==> tags[j].hash != head) ==> r == tags[i].short
  {
    if |tags| == 0 then ""
    else if tags[0].hash == head then tags[0].short
    else
      var r := FirstTag(tags[1..], head);
      assert forall i :: 1 <= i < |tags| ==> tags[i] == tags[1..][i - 1];
      r
  }

  /** The version: the tag on HEAD, else the first seven digits of its hash. */
  function Version(tags: seq<Ref>, head: string): string
    requires |head| >= 7
  {
    var tag := FirstTag(tags, head);
    if tag != "" then tag else head[..7]
  }

  /** `getRepoInfo`; the library's errors are returned as they are. */
  function RepoInfoSpec(repo: Repo): Result<(string, string)>
    requires |repo.urls| > 0 && |repo.head| >= 7
  {
    if repo.openFault.Some? then Err(repo.openFault.value)
    else if repo.remoteFault.Some? then Err(repo.remoteFault.value)
    else if repo.headFault.Some? then Err(repo.headFault.value)
    else if repo.tagsFault.Some? then Err(repo.tagsFault.value)
    else Ok((RepoName(repo.urls[0]), Version(repo.tags, repo.head)))
  }

  /** The tag scan of `getRepoInfo`, stopping at the first match. */
  method FindTag(tags: seq<Ref>, head: string) returns (tagName: string)
    ensures tagName == FirstTag(tags, head)
  {
    tagName := "";
    var i := 0;
    while i < |tags|
      invariant 0 <= i <= |tags|
      invariant FirstTag(tags, head) == FirstTag(tags[i..], head)
      invariant tagName == ""
    {
      if tags[i].hash == head {
        tagName := tags[i].short;
        return;
      }
      assert tags[i..][1..] == tags[i + 1..];
      i := i + 1;
    }
  }

  method GetRepoInfo(repo: Repo) returns (r: Result<(string, string)>)
    requires |repo.urls| > 0 && |repo.head| >= 7
    ensures r == RepoInfoSpec(repo)
  {
    if repo.openFault.Some? {
      return Err(repo.openFault.value);
    }
    if repo.remoteFault.Some? {
      return Err(repo.remoteFault.value);
    }
    var name := RepoName(repo.urls[0]);
    if repo.headFault.Some? {
      return Err(repo.headFault.value);
    }
    if repo.tagsFault.Some? {
      return Err(repo.tagsFault.value);
    }
    var tagName := FindTag(repo.tags, repo.head);
    var version := if tagName != "" then tagName else repo.head[..7];
    return Ok((name, version));
  }

  /** A URL whose last element is `name` followed by `.git` names the
      repository `name`. */
  lemma RepoNameOfGitUrl(prefix: string, name: string)
    requires '/' !in name
    ensures RepoName(prefix + "/" + name + ".git") == name
  {
    var last := name + ".git";
    var url := prefix + "/" + last;
    assert prefix + "/" + name + ".git" == url;
    assert '/' !in last by {
      forall i | 0 <= i < |last| ensures last[i] != '/' {
        if i >= |name| { assert last[i] == ".git"[i - |name|]; }
      }
    }
    assert url[|url| - |last|..] == last;
    assert url[|url| - |last| - 1] == '/';
    LastOfSlashed(url, |url| - |last|);
    assert last[|last| - 4..] == ".git";
    assert last[..|last| - 4] == name;
  }

  /** The last element of a path that ends in a slash-free, non-empty run
      after a slash. */
  lemma LastOfSlashed(p: string, k: nat)
    requires 0 < k < |p| && p[k - 1] == '/' && '/' !in p[k..]
    ensures Base(p) == p[k..]
  {
    assert p[|p| - 1] == p[k..][|p| - 1 - k];
    assert DropTrailingSlashes(p) == p;
  }

  // ---------------------------------------------------------------------
  // The image file and its source

  const PrepareDir := ".plasma/prepare"
  const ComposeDir := ".plasma/package/compose/merged"

  function ImageFileName(repoName: string, version: string): string
  {
    repoName + "-" + version + ".pi"
  }

  /** The source directory: the prepare output when a prepare action
      exists, the compose output otherwise, with no fallback between them;
      `missing` holds the paths `Stat` reports absent. */
  function SourceDir(hasPrepare: bool, missing: set<string>): (r: Result<string>)
    ensures r.Ok? ==> r.value == (if hasPrepare then PrepareDir else ComposeDir) && r.value !in missing
    ensures r.Err? <==> (if hasPrepare then PrepareDir else ComposeDir) in missing
  {
    if hasPrepare then
      if PrepareDir in missing
      then Err(Fail("platform:prepare action exists but " + PrepareDir + " not found: run platform:prepare first"))
      else Ok(PrepareDir)
    else if ComposeDir in missing then Err(Fail("no source directory found: run package:compose first"))
    else Ok(ComposeDir)
  }


  // ---------------------------------------------------------------------
  // The walk

  /** The mode `Lstat` gives a symbolic link. */
  const LinkMode: nat := 0x1FF

  /** A source tree: paths relative to the source directory, every segment
      plain, every node's parent a directory (the root is the empty path). */
  predicate SourceTree(src: Tree)
  {
    WellFormed(src) && forall p :: p in src ==> forall k :: 0 <= k < |p| ==> Plain(p[k])
  }

  /** An order `filepath.Walk` may visit the tree in: the root first, each
      node once, every node after its parent. The walk's lexical order is one
      such order. */
  predicate WalkOrder(src: Tree, order: seq<Path>)
  {
    && WalkPrefix(src, order)
    && |order| > 0
    && (forall p :: p in src ==> p in order)
  }

  /** A prefix of a walk order. */
  predicate WalkPrefix(src: Tree, ps: seq<Path>)
  {
    && (|ps| > 0 ==> ps[0] == [])
    && NoDuplicates(ps)
    && (forall i :: 0 < i < |ps| ==> ps[i] in src && Parent(ps[i]) in ps[..i])
  }

  /** The headers written for one node as image.go writes them: a link gets
      one header whose link name is its own relative path, then a second
      one with the link's target. */
  function WrittenNode(src: Tree, rootMode: nat, p: Path): seq<Entry>
  {
    if p == [] then [Entry(SlashName(p), Directory, rootMode, "", [], None)]
    else if p !in src then []
    else match src[p]
      case Dir(m) => [Entry(SlashName(p), Directory, m, "", [], None)]
      case File(m, d) => [Entry(SlashName(p), Regular, m, "", d, None)]
      case Symlink(target) =>
        [Entry(SlashName(p), SymbolicLink, LinkMode, Join(p, "/"), [], None),
         Entry(SlashName(p), SymbolicLink, LinkMode, target, [], None)]
  }

  /** The header for one node with a single header per link, carrying the
      link's target. */
  function NodeEntries(src: Tree, rootMode: nat, p: Path): (r: seq<Entry>)
    ensures (p == [] || p in src) ==> |r| == 1 && r[0].name == SlashName(p)
  {
    if p == [] then [Entry(SlashName(p), Directory, rootMode, "", [], None)]
    else if p !in src then []
    else match src[p]
      case Dir(m) => [Entry(SlashName(p), Directory, m, "", [], None)]
      case File(m, d) => [Entry(SlashName(p), Regular, m, "", d, None)]
      case Symlink(target) => [Entry(SlashName(p), SymbolicLink, LinkMode, target, [], None)]
  }

  /** The archive as image.go writes it. */
  function WrittenArchive(src: Tree, rootMode: nat, ps: seq<Path>): seq<Entry>
  {
    if |ps| == 0 then []
    else WrittenArchive(src, rootMode, ps[..|ps| - 1]) + WrittenNode(src, rootMode, ps[|ps| - 1])
  }

  /** The archive with one header per link. */
  function Archive(src: Tree, rootMode: nat, ps: seq<Path>): seq<Entry>
  {
    if |ps| == 0 then []
    else Archive(src, rootMode, ps[..|ps| - 1]) + NodeEntries(src, rootMode, ps[|ps| - 1])
  }

  // ---------------------------------------------------------------------
  // The finding: a link is written twice

  lemma {:induction false} WrittenPrefix(src: Tree, rootMode: nat, ps: seq<Path>, m: nat)
    requires m <= |ps|
    ensures WrittenArchive(src, rootMode, ps[..m]) <= WrittenArchive(src, rootMode, ps)
    decreases |ps|
  {
    if m < |ps| {
      var init := ps[..|ps| - 1];
      assert init[..m] == ps[..m];
      WrittenPrefix(src, rootMode, init, m);
    } else {
      assert ps[..m] == ps;
    }
  }

  /**
   * Any archive holding a link written as image.go writes it cannot be
   * extracted, wherever and into whatever: the second header names the
   * path the first one made, and `os.Symlink` refuses to replace it.
   */
  lemma WrittenLinkFails(t: Tree, dir: Path, src: Tree, rootMode: nat, order: seq<Path>, k: nat)
    requires k < |order| && order[k] != [] && order[k] in src && src[order[k]].Symlink?
    ensures ExtractSpec(t, dir, WrittenArchive(src, rootMode, order)).1.Some?
  {
    var p := order[k];
    var entries := WrittenArchive(src, rootMode, order);
    var upTo := WrittenArchive(src, rootMode, order[..k + 1]);
    assert order[..k + 1][..k] == order[..k];
    WrittenPrefix(src, rootMode, order, k + 1);
    var i := |WrittenArchive(src, rootMode, order[..k])|;
    var node := WrittenNode(src, rootMode, p);
    assert |node| == 2 && node[0].name == node[1].name && node[1].kind.SymbolicLink? && node[0].kind.SymbolicLink?;
    assert upTo == WrittenArchive(src, rootMode, order[..k]) + node;
    assert entries[i] == upTo[i] && entries[i + 1] == upTo[i + 1];
    if ExtractSpec(t, dir, entries).1.None? {
      NoLinkOverwrite(t, dir, entries);
      assert false;
    }
  }

  // ---------------------------------------------------------------------
  // The corrected archive extracts back to the tree it was made from

  const ExtractDir := ".deploy"

  /** The tree the extraction should produce: `t` with every walked node
      placed under `.deploy`. */
  function Expected(t: Tree, src: Tree, ps: seq<Path>): Tree
  {
    if |ps| == 0 then t
    else
      var u := Expected(t, src, ps[..|ps| - 1]);
      var p := ps[|ps| - 1];
      if p == [] || p !in src then u else u[[ExtractDir] + p := src[p]]
  }

  lemma {:induction false} ExtractAppend(t: Tree, dir: Path, a: seq<Entry>, b: seq<Entry>)
    ensures ExtractSpec(t, dir, a + b) ==
      (var r := ExtractSpec(t, dir, a); if r.1.Some? then r else ExtractSpec(r.0, dir, b))
    decreases |a|
  {
    if |a| == 0 {
      assert a + b == b;
    } else {
      assert (a + b)[0] == a[0] && (a + b)[1..] == a[1..] + b;
      var (t1, err) := Apply(t, dir, a[0]);
      if err.None? {
        ExtractAppend(t1, dir, a[1..], b);
      }
    }
  }

  /** Putting `.deploy` in front keeps paths apart and below it. */
  lemma PrefixCancel(a: Path, b: Path)
    ensures [ExtractDir] + a == [ExtractDir] + b <==> a == b
    ensures a != [] ==> [ExtractDir] < [ExtractDir] + a
  {
    assert ([ExtractDir] + a)[1..] == a && ([ExtractDir] + b)[1..] == b;
    assert ([ExtractDir] + a)[..1] == [ExtractDir];
  }

  /** `Expected` keeps the nodes of `t`, and changes none outside `.deploy`. */
  lemma {:induction false} ExpectedKeeps(t: Tree, src: Tree, ps: seq<Path>)
    ensures forall q :: q in t ==> q in Expected(t, src, ps)
    ensures forall q :: q in t && !([ExtractDir] < q) ==> Expected(t, src, ps)[q] == t[q]
    decreases |ps|
  {
    if |ps| > 0 {
      ExpectedKeeps(t, src, ps[..|ps| - 1]);
      PrefixCancel(ps[|ps| - 1], []);
    }
  }

  /** `Expected` adds nothing but walked nodes below `.deploy`. */
  lemma {:induction false} ExpectedOnly(t: Tree, src: Tree, ps: seq<Path>)
    ensures forall q :: q in Expected(t, src, ps) ==>
      q in t || exists j :: 0 <= j < |ps| && ps[j] != [] && ps[j] in src && q == [ExtractDir] + ps[j]
    decreases |ps|
  {
    if |ps| > 0 {
      var init := ps[..|ps| - 1];
      ExpectedOnly(t, src, init);
      forall q | q in Expected(t, src, ps) && q !in t
        ensures exists j :: 0 <= j < |ps| && ps[j] != [] && ps[j] in src && q == [ExtractDir] + ps[j]
      {
        if q in Expected(t, src, init) {
          var j :| 0 <= j < |init| && init[j] != [] && init[j] in src && q == [ExtractDir] + init[j];
          assert ps[j] == init[j];
        } else {
          assert q == [ExtractDir] + ps[|ps| - 1];
        }
      }
    }
  }

  /** Every walked node is placed as it is in the source. */
  lemma {:induction false} ExpectedHas(t: Tree, src: Tree, ps: seq<Path>)
    requires NoDuplicates(ps)
    ensures forall j :: 0 <= j < |ps| && ps[j] != [] && ps[j] in src ==>
      [ExtractDir] + ps[j] in Expected(t, src, ps) && Expected(t, src, ps)[[ExtractDir] + ps[j]] == src[ps[j]]
    decreases |ps|
  {
    if |ps| > 0 {
      var init := ps[..|ps| - 1];
      var p := ps[|ps| - 1];
      assert NoDuplicates(init) by {
        forall i, j | 0 <= i < j < |init| ensures init[i] != init[j] {
          assert init[i] == ps[i] && init[j] == ps[j];
        }
      }
      ExpectedHas(t, src, init);
      forall j | 0 <= j < |ps| - 1 && ps[j] != [] && ps[j] in src
        ensures [ExtractDir] + ps[j] in Expected(t, src, ps)
        ensures Expected(t, src, ps)[[ExtractDir] + ps[j]] == src[ps[j]]
      {
        assert init[j] == ps[j];
        PrefixCancel(ps[j], p);
      }
    }
  }

  /** The target tree: `.deploy` is a directory with nothing below it. */
  predicate FreshTarget(t: Tree)
  {
    [ExtractDir] in t && t[[ExtractDir]].Dir? &&
    forall q :: q in t ==> !([ExtractDir] < q)
  }

  /** One node of the corrected archive, applied where its parent already
      is and it is not. */
  lemma ApplyNode(u: Tree, src: Tree, rootMode: nat, p: Path)
    requires p == [] || p in src
    requires p == [] ==> IsDir(u, [ExtractDir])
    requires p != [] ==> (forall k :: 0 <= k < |p| ==> Plain(p[k]))
    requires p != [] ==> [ExtractDir] + p !in u && IsDir(u, [ExtractDir] + Parent(p))
    ensures Apply(u, [ExtractDir], NodeEntries(src, rootMode, p)[0]) ==
      (if p == [] then u else u[[ExtractDir] + p := src[p]], None)
  {
    var dir: Path := [ExtractDir];
    NameRoundTrip(dir, p);
    if p == [] {
      assert dir + p == dir;
      assert MkdirAll(u, dir, rootMode) == Ok(u);
    } else {
      var target := dir + p;
      var up := dir + Parent(p);
      assert Parent(target) == up && target[..|target| - 1] == up;
      match src[p]
      case Dir(m) =>
        assert MkdirAll(u, up, m) == Ok(u);
      case File(m, d) =>
        assert MkdirAll(u, up, ParentMode) == Ok(u);
        assert WriteFile(u, target, m, d) == Ok(u[target := File(m, d)]);
      case Symlink(l) =>
        assert MakeSymlink(u, l, target) == Ok(u[target := Symlink(l)]);
    }
  }

  /** The step of the round trip: the next node of a walk prefix lands
      where `Expected` says. */
  lemma RoundTripStep(t: Tree, src: Tree, rootMode: nat, ps: seq<Path>)
    requires SourceTree(src) && FreshTarget(t)
    requires WalkPrefix(src, ps) && |ps| > 0
    ensures var init := ps[..|ps| - 1];
      Apply(Expected(t, src, init), [ExtractDir], NodeEntries(src, rootMode, ps[|ps| - 1])[0]) ==
        (Expected(t, src, ps), None)
  {
    var dir: Path := [ExtractDir];
    var init := ps[..|ps| - 1];
    var p := ps[|ps| - 1];
    var u := Expected(t, src, init);
    ExpectedKeeps(t, src, init);
    if p == [] {
      ApplyNode(u, src, rootMode, p);
    } else {
      NextNodeFits(t, src, ps);
      ApplyNode(u, src, rootMode, p);
    }
  }

  /** The next walked node below the root is not yet placed, and its
      parent is already a directory under `.deploy`. */
  lemma NextNodeFits(t: Tree, src: Tree, ps: seq<Path>)
    requires SourceTree(src) && FreshTarget(t)
    requires WalkPrefix(src, ps) && |ps| > 0 && ps[|ps| - 1] != []
    ensures var u := Expected(t, src, ps[..|ps| - 1]);
      && ps[|ps| - 1] in src
      && [ExtractDir] + ps[|ps| - 1] !in u
      && IsDir(u, [ExtractDir] + Parent(ps[|ps| - 1]))
  {
    var dir: Path := [ExtractDir];
    var init := ps[..|ps| - 1];
    var p := ps[|ps| - 1];
    var u := Expected(t, src, init);
    ExpectedKeeps(t, src, init);
    assert |ps| > 1 && p in src;
    ExpectedOnly(t, src, init);
    PrefixCancel(p, []);
    forall j | 0 <= j < |init| && init[j] != [] && init[j] in src
      ensures dir + init[j] != dir + p
    {
      assert init[j] == ps[j];
      PrefixCancel(init[j], p);
    }
    var q := Parent(p);
    if q == [] {
      assert dir + q == dir;
    } else {
      ExpectedHas(t, src, init);
      var j :| 0 <= j < |init| && init[j] == q;
    }
  }

  lemma WalkPrefixInit(src: Tree, ps: seq<Path>)
    requires WalkPrefix(src, ps) && |ps| > 0
    ensures WalkPrefix(src, ps[..|ps| - 1])
  {
    var init := ps[..|ps| - 1];
    forall i | 0 < i < |init| ensures init[i] in src && Parent(init[i]) in init[..i] {
      assert init[i] == ps[i] && init[..i] == ps[..i];
    }
  }

  /** The corrected archive of a walk prefix extracts without error to
      `Expected`. */
  lemma {:induction false} RoundTripPrefix(t: Tree, src: Tree, rootMode: nat, ps: seq<Path>)
    requires SourceTree(src) && FreshTarget(t) && WalkPrefix(src, ps)
    ensures ExtractSpec(t, [ExtractDir], Archive(src, rootMode, ps)) == (Expected(t, src, ps), None)
    decreases |ps|
  {
    if |ps| > 0 {
      var dir: Path := [ExtractDir];
      var init := ps[..|ps| - 1];
      var e := NodeEntries(src, rootMode, ps[|ps| - 1]);
      WalkPrefixInit(src, ps);
      RoundTripPrefix(t, src, rootMode, init);
      ExtractAppend(t, dir, Archive(src, rootMode, init), e);
      RoundTripStep(t, src, rootMode, ps);
      assert e[1..] == [];
    }
  }

  /**
   * The corrected image round-trips: extracted into an empty `.deploy`, it
   * succeeds, puts every node of the source tree below `.deploy` exactly as
   * it was (kind, mode, content, link target), keeps everything that was
   * there before, and adds nothing else. The root's own mode is not
   * copied: `.deploy` keeps the mode it was created with.
   */
  lemma RoundTrip(t: Tree, src: Tree, rootMode: nat, order: seq<Path>)
    requires SourceTree(src) && WalkOrder(src, order) && FreshTarget(t)
    ensures var (r, err) := ExtractSpec(t, [ExtractDir], Archive(src, rootMode, order));
      && err.None?
      && (forall p :: p in src ==> [ExtractDir] + p in r && r[[ExtractDir] + p] == src[p])
      && (forall q :: q in t ==> q in r && r[q] == t[q])
      && (forall q :: q in r ==> q in t || exists p :: p in src && q == [ExtractDir] + p)
  {
    RoundTripPrefix(t, src, rootMode, order);
    var r := Expected(t, src, order);
    ExpectedHas(t, src, order);
    forall p | p in src
      ensures [ExtractDir] + p in r && r[[ExtractDir] + p] == src[p]
    {
      var j :| 0 <= j < |order| && order[j] == p;
    }
    ExpectedKeeps(t, src, order);
    ExpectedOnly(t, src, order);
  }

  // ---------------------------------------------------------------------
  // Writing the image

  /** What the calls of `createArchive` answer: the failures of creating
      the two directories and the temporary archive, the read failure of
      each file or link (open and copy of a file, `Readlink` of a link), and
      the failures of the steps after the walk. */
  datatype ArchiveWorld = ArchiveWorld(
    tempDirFault: Option<Error>, imageDirFault: Option<Error>, createFault: Option<Error>,
    readFaults: map<Path, Error>,
    tarCloseFault: Option<Error>, gzipCloseFault: Option<Error>, openFault: Option<Error>,
    destFault: Option<Error>, copyFault: Option<Error>, removeFault: Option<Error>)

  /** A read failure stops the walk at a file or a link. */
  predicate Unreadable(src: Tree, p: Path, faults: map<Path, Error>)
  {
    p in faults && p in src && !src[p].Dir?
  }

  /** `filepath.Walk` over `ps`: the entries written, up to the node whose
      read fails, and that failure. */
  function WalkSpec(src: Tree, rootMode: nat, ps: seq<Path>, faults: map<Path, Error>): (seq<Entry>, Option<Error>)
  {
    if |ps| == 0 then ([], None)
    else
      var (written, err) := WalkSpec(src, rootMode, ps[..|ps| - 1], faults);
      var p := ps[|ps| - 1];
      if err.Some? then (written, err)
      else if Unreadable(src, p, faults) then (written, Some(faults[p]))
      else (written + NodeEntries(src, rootMode, p), None)
  }

  /** The walk fails exactly when some visited file or link cannot be
      read; otherwise it writes the whole archive. */
  lemma {:induction false} WalkOutcome(src: Tree, rootMode: nat, ps: seq<Path>, faults: map<Path, Error>)
    ensures WalkSpec(src, rootMode, ps, faults).1.None? <==>
      forall i :: 0 <= i < |ps| ==> !Unreadable(src, ps[i], faults)
    ensures WalkSpec(src, rootMode, ps, faults).1.None? ==>
      WalkSpec(src, rootMode, ps, faults).0 == Archive(src, rootMode, ps)
    decreases |ps|
  {
    if |ps| > 0 {
      var init := ps[..|ps| - 1];
      WalkOutcome(src, rootMode, init, faults);
      assert forall i :: 0 <= i < |init| ==> init[i] == ps[i];
    }
  }

  /** One more node of the walk after a prefix that did not fail. */
  lemma WalkNext(src: Tree, rootMode: nat, ps: seq<Path>, faults: map<Path, Error>, i: nat)
    requires i < |ps| && WalkSpec(src, rootMode, ps[..i], faults).1.None?
    ensures WalkSpec(src, rootMode, ps[..i + 1], faults) ==
      if Unreadable(src, ps[i], faults) then (WalkSpec(src, rootMode, ps[..i], faults).0, Some(faults[ps[i]]))
      else (WalkSpec(src, rootMode, ps[..i], faults).0 + NodeEntries(src, rootMode, ps[i]), None)
  {
    assert ps[..i + 1][..i] == ps[..i];
  }

  /** Once the walk fails, it ends with that failure and what was
      written before it. */
  lemma {:induction false} WalkFailed(src: Tree, rootMode: nat, ps: seq<Path>, faults: map<Path, Error>, m: nat)
    requires m <= |ps| && WalkSpec(src, rootMode, ps[..m], faults).1.Some?
    ensures WalkSpec(src, rootMode, ps, faults) == WalkSpec(src, rootMode, ps[..m], faults)
    decreases |ps|
  {
    if m < |ps| {
      var init := ps[..|ps| - 1];
      assert init[..m] == ps[..m];
      WalkFailed(src, rootMode, init, faults, m);
    } else {
      assert ps[..m] == ps;
    }
  }

  /** `fmt.Errorf("<context>: %v", e)`: the cause's text, not the cause. */
  function Flatten(context: string, e: Error): Option<Error>
  {
    Some(Fail(context + ": " + ErrorText(e)))
  }

  /** The steps after the walk: closing the writers, copying the temporary
      archive to the image path, removing it. */
  function DeliverSpec(files: map<string, seq<Entry>>, temp: string, artifact: string,
                       w: ArchiveWorld): (r: (map<string, seq<Entry>>, Option<Error>))
    requires temp in files
    ensures r.1.None? ==> r.0 == files[artifact := files[temp]] - {temp}
  {
    if w.tarCloseFault.Some? then (files, Flatten("error closing tar writer", w.tarCloseFault.value))
    else if w.gzipCloseFault.Some? then (files, Flatten("error closing gzip writer", w.gzipCloseFault.value))
    else if w.openFault.Some? then (files, Flatten("error opening archive file", w.openFault.value))
    else if w.destFault.Some? then (files, Flatten("error creating image file", w.destFault.value))
    else if w.copyFault.Some? then
      (files[artifact := []], Flatten("error copying archive to image directory", w.copyFault.value))
    else
      var copied := files[artifact := files[temp]];
      if w.removeFault.Some? then (copied, Flatten("error deleting temp file", w.removeFault.value))
      else (copied - {temp}, None)
  }

  /** What `createArchive` leaves: the directories made, the archive
      files by path (each holding the entries written to it), and the
      error. */
  function ArchiveSpec(dirs: set<string>, files: map<string, seq<Entry>>, src: Tree, rootMode: nat,
                       order: seq<Path>, tempDir: string, imageDir: string, name: string,
                       w: ArchiveWorld): (set<string>, map<string, seq<Entry>>, Option<Error>)
  {
    var temp := JoinPath(tempDir, name);
    if w.tempDirFault.Some? then (dirs, files, w.tempDirFault)
    else if w.imageDirFault.Some? then (dirs + {tempDir}, files, w.imageDirFault)
    else
      var made := dirs + {tempDir} + {imageDir};
      if w.createFault.Some? then (made, files, w.createFault)
      else
        var (written, walkErr) := WalkSpec(src, rootMode, order, w.readFaults);
        var archived := files[temp := written];
        if walkErr.Some? then (made, archived, Flatten("error walking directory", walkErr.value))
        else
          var (delivered, err) := DeliverSpec(archived, temp, JoinPath(imageDir, name), w);
          (made, delivered, err)
  }

  /**
   * A successful `createArchive` leaves the whole archive of the walked
   * tree at the image path, no temporary archive, both directories, and
   * every other file as it was.
   */
  lemma ArchiveDelivered(dirs: set<string>, files: map<string, seq<Entry>>, src: Tree, rootMode: nat,
                         order: seq<Path>, tempDir: string, imageDir: string, name: string, w: ArchiveWorld)
    requires JoinPath(tempDir, name) != JoinPath(imageDir, name)
    ensures var (dirs', files', err) := ArchiveSpec(dirs, files, src, rootMode, order, tempDir, imageDir, name, w);
      err.None? ==>
        && JoinPath(imageDir, name) in files' && files'[JoinPath(imageDir, name)] == Archive(src, rootMode, order)
        && JoinPath(tempDir, name) !in files'
        && dirs' == dirs + {tempDir} + {imageDir}
        && (forall f :: f in files && f != JoinPath(tempDir, name) && f != JoinPath(imageDir, name) ==>
              f in files' && files'[f] == files[f])
  {
    WalkOutcome(src, rootMode, order, w.readFaults);
  }

  /** What `createImage` leaves, with the error wrapped as it returns it. */
  function ImageSpec(dirs: set<string>, files: map<string, seq<Entry>>, repo: Repo, hasPrepare: bool,
                     missing: set<string>, src: Tree, rootMode: nat, order: seq<Path>,
                     w: ArchiveWorld): (set<string>, map<string, seq<Entry>>, Option<Error>)
    requires |repo.urls| > 0 && |repo.head| >= 7
  {
    match RepoInfoSpec(repo)
    case Err(e) => (dirs, files, Some(Wrap("error getting repository information", e)))
    case Ok((repoName, version)) =>
      match SourceDir(hasPrepare, missing)
      case Err(e) => (dirs, files, Some(e))
      case Ok(_) =>
        var (dirs', files', err) :=
          ArchiveSpec(dirs, files, src, rootMode, order, ImageTempDir, ImageDir, ImageFileName(repoName, version), w);
        (dirs', files', if err.Some? then Some(Wrap("error creating image", err.value)) else None)
  }

  const ImageTempDir := "img/.tmp"
  const ImageDir := "img"

  /**
   * The working directory as image creation touches it: the directories
   * made and the archive files.
   */
  class Workspace {
    var dirs: set<string>
    var files: map<string, seq<Entry>>

    constructor(dirs: set<string>, files: map<string, seq<Entry>>)
      ensures this.dirs == dirs && this.files == files
    {
      this.dirs := dirs;
      this.files := files;
    }

    /** `createArchive`: the walk appends the headers of each node to the
        temporary archive, which is then copied to the image path and
        removed. */
    method CreateArchive(src: Tree, rootMode: nat, order: seq<Path>, tempDir: string, imageDir: string,
                         name: string, w: ArchiveWorld) returns (err: Option<Error>)
      modifies this
      ensures (dirs, files, err) ==
        ArchiveSpec(old(dirs), old(files), src, rootMode, order, tempDir, imageDir, name, w)
    {
      if w.tempDirFault.Some? {
        return w.tempDirFault;
      }
      dirs := dirs + {tempDir};
      if w.imageDirFault.Some? {
        return w.imageDirFault;
      }
      dirs := dirs + {imageDir};
      var temp := JoinPath(tempDir, name);
      var artifact := JoinPath(imageDir, name);
      if w.createFault.Some? {
        return w.createFault;
      }
      var walkErr := Walk(src, rootMode, order, temp, w.readFaults);
      if walkErr.Some? {
        return Flatten("error walking directory", walkErr.value);
      }
      err := Deliver(temp, artifact, w);
    }

    /** The `filepath.Walk` callback over every node: its headers are
        appended to the temporary archive `temp`, created empty. */
    method Walk(src: Tree, rootMode: nat, order: seq<Path>, temp: string, faults: map<Path, Error>)
      returns (walkErr: Option<Error>)
      modifies this
      ensures dirs == old(dirs)
      ensures files == old(files)[temp := WalkSpec(src, rootMode, order, faults).0]
      ensures walkErr == WalkSpec(src, rootMode, order, faults).1
    {
      files := files[temp := []];
      assert order[..0] == [];
      var i := 0;
      walkErr := None;
      while i < |order|
        invariant 0 <= i <= |order|
        invariant dirs == old(dirs)
        invariant walkErr.None?
        invariant files == old(files)[temp := WalkSpec(src, rootMode, order[..i], faults).0]
        invariant WalkSpec(src, rootMode, order[..i], faults).1.None?
      {
        var p := order[i];
        WalkNext(src, rootMode, order, faults, i);
        if Unreadable(src, p, faults) {
          walkErr := Some(faults[p]);
          WalkFailed(src, rootMode, order, faults, i + 1);
          return;
        }
        files := files[temp := files[temp] + NodeEntries(src, rootMode, p)];
        i := i + 1;
      }
      assert order[..i] == order;
    }

    /** Closing the writers, copying the temporary archive to the image
        path and removing it. */
    method Deliver(temp: string, artifact: string, w: ArchiveWorld) returns (err: Option<Error>)
      requires temp in files
      modifies this
      ensures dirs == old(dirs)
      ensures (files, err) == DeliverSpec(old(files), temp, artifact, w)
    {
      if w.tarCloseFault.Some? {
        return Flatten("error closing tar writer", w.tarCloseFault.value);
      }
      if w.gzipCloseFault.Some? {
        return Flatten("error closing gzip writer", w.gzipCloseFault.value);
      }
      if w.openFault.Some? {
        return Flatten("error opening archive file", w.openFault.value);
      }
      if w.destFault.Some? {
        return Flatten("error creating image file", w.destFault.value);
      }
      var content := files[temp];
      files := files[artifact := []];
      if w.copyFault.Some? {
        return Flatten("error copying archive to image directory", w.copyFault.value);
      }
      files := files[artifact := content];
      assert files == old(files)[artifact := content];
      if w.removeFault.Some? {
        return Flatten("error deleting temp file", w.removeFault.value);
      }
      files := files - {temp};
      return None;
    }

    /** `createImage`: the name and version, the source directory, then
        the archive of the tree found there. */
    method CreateImage(repo: Repo, hasPrepare: bool, missing: set<string>, src: Tree, rootMode: nat,
                       order: seq<Path>, w: ArchiveWorld) returns (err: Option<Error>)
      requires |repo.urls| > 0 && |repo.head| >= 7
      modifies this
      ensures (dirs, files, err) ==
        ImageSpec(old(dirs), old(files), repo, hasPrepare, missing, src, rootMode, order, w)
    {
      var info := GetRepoInfo(repo);
      if info.Err? {
        return Some(Wrap("error getting repository information", info.error));
      }
      var (repoName, version) := info.value;
      var imageFile := ImageFileName(repoName, version);
      var srcDir := SourceDir(hasPrepare, missing);
      if srcDir.Err? {
        return Some(srcDir.error);
      }
      err := CreateArchive(src, rootMode, order, ImageTempDir, ImageDir, imageFile, w);
      if err.Some? {
        err := Some(Wrap("error creating image", err.value));
      }
    }
  }
}
