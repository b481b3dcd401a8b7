/**
 * Unpacking a Platform Image: the entries of the tar stream applied one by
 * one to the file tree below the extraction directory, as the loop of
 * `extractImage` in actions/deploy/deploy.go does.
 */
module Tar {
  import opened Common
  import opened Paths
  import opened FileTree

  /** The type flags the extractor dispatches on; any other flag is skipped. */
  datatype Kind = Directory | Regular | SymbolicLink | OtherKind(flag: char)

  /**
   * One header of the archive with the content that follows it. `fault` is
   * a read error met while copying the content, after `data` was copied.
   */
  datatype Entry = Entry(name: string, kind: Kind, mode: nat, linkname: string,
                         data: seq<bv8>, fault: Option<Error>)

  /** The stream as the reader yields it: the entries, then either the end
      of the archive (`tail` is None) or a read error. */
  datatype Stream = Stream(entries: seq<Entry>, tail: Option<Error>)

  /** Mode 0755 of the parent directories created for regular files. */
  const ParentMode: nat := 0x1ED

  /** Where an entry lands: the extraction directory joined with its name. */
  function Target(dir: Path, e: Entry): Path
  {
    Under(dir, e.name)
  }

  /** One iteration of the extraction loop: the tree afterwards and the
      error that ends the loop, if any. */
  function Apply(t: Tree, dir: Path, e: Entry): (Tree, Option<Error>)
  {
    var target := Target(dir, e);
    match e.kind
    case Directory =>
      (match MkdirAll(t, target, e.mode)
       case Ok(t1) => (t1, None)
       case Err(x) => (t, Some(Wrap("failed to create directory", x))))
    case Regular =>
      (match MkdirAll(t, Parent(target), ParentMode)
       case Err(x) => (t, Some(Wrap("failed to create parent directory", x)))
       case Ok(t1) =>
         match WriteFile(t1, target, e.mode, e.data)
         case Err(x) => (t1, Some(Wrap("failed to create file", x)))
         case Ok(t2) =>
           (t2, if e.fault.Some? then Some(Wrap("failed to write file", e.fault.value)) else None))
    case SymbolicLink =>
      (match MakeSymlink(t, e.linkname, target)
       case Ok(t1) => (t1, None)
       case Err(x) => (t, Some(Wrap("failed to create symlink", x))))
    case OtherKind(_) => (t, None)
  }

  /** The extraction loop over a list of entries: it stops at the first
      error and keeps whatever was created until then. */
  function ExtractSpec(t: Tree, dir: Path, entries: seq<Entry>): (Tree, Option<Error>)
    decreases |entries|
  {
    if |entries| == 0 then (t, None)
    else
      var (t1, err) := Apply(t, dir, entries[0]);
      if err.Some? then (t1, err) else ExtractSpec(t1, dir, entries[1..])
  }

  /** The whole stream: the entries, then the read error at its end. */
  function ExtractStream(t: Tree, dir: Path, s: Stream): (Tree, Option<Error>)
  {
    var (t1, err) := ExtractSpec(t, dir, s.entries);
    if err.Some? then (t1, err)
    else if s.tail.Some? then (t1, Some(Wrap("failed to read tar", s.tail.value)))
    else (t1, None)
  }

  // ---------------------------------------------------------------------
  // Properties

  /** What an applied entry leaves behind: a directory, a regular file, or
      the link with the header's link name. */
  predicate Placed(t: Tree, dir: Path, e: Entry)
  {
    var target := Target(dir, e);
    match e.kind
    case Directory => IsDir(t, target)
    case Regular => target in t && t[target].File?
    case SymbolicLink => target in t && t[target] == Symlink(e.linkname)
    case OtherKind(_) => true
  }

  /** `u` extends `t`: nothing is removed, directories and links stay as
      they are, files stay files (their content may be rewritten). */
  predicate Stable(t: Tree, u: Tree)
  {
    forall q :: q in t ==>
      q in u && (t[q].File? ==> u[q].File?) && (!t[q].File? ==> u[q] == t[q])
  }

  lemma StableTrans(t: Tree, u: Tree, v: Tree)
    requires Stable(t, u) && Stable(u, v)
    ensures Stable(t, v)
  {
  }

  lemma PlacedStable(t: Tree, u: Tree, dir: Path, e: Entry)
    requires Placed(t, dir, e) && Stable(t, u)
    ensures Placed(u, dir, e)
  {
  }

  /** One entry never removes or changes the kind of a node, and when it
      succeeds its node is in place. */
  lemma ApplyStable(t: Tree, dir: Path, e: Entry)
    ensures Stable(t, Apply(t, dir, e).0)
    ensures Apply(t, dir, e).1.None? ==> Placed(Apply(t, dir, e).0, dir, e)
    ensures Apply(t, dir, e).1.None? ==> e.fault.None? || !e.kind.Regular?
  {
    var target := Target(dir, e);
    match e.kind
    case Directory =>
    case Regular =>
      var r1 := MkdirAll(t, Parent(target), ParentMode);
      if r1.Ok? {
        var r2 := WriteFile(r1.value, target, e.mode, e.data);
        if r2.Ok? {
          assert Stable(r1.value, r2.value);
        }
      }
    case SymbolicLink =>
    case OtherKind(_) =>
  }

  /**
   * A successful extraction leaves every entry's node in place, and keeps
   * every node that was there before.
   */
  lemma {:induction false} ExtractPlaces(t: Tree, dir: Path, entries: seq<Entry>)
    ensures Stable(t, ExtractSpec(t, dir, entries).0)
    ensures ExtractSpec(t, dir, entries).1.None? ==>
      forall i :: 0 <= i < |entries| ==> Placed(ExtractSpec(t, dir, entries).0, dir, entries[i])
    decreases |entries|
  {
    if |entries| > 0 {
      ApplyStable(t, dir, entries[0]);
      var (t1, err) := Apply(t, dir, entries[0]);
      if err.None? {
        var r := ExtractSpec(t1, dir, entries[1..]);
        ExtractPlaces(t1, dir, entries[1..]);
        StableTrans(t, t1, r.0);
        if r.1.None? {
          PlacedStable(t1, r.0, dir, entries[0]);
          forall i | 0 <= i < |entries|
            ensures Placed(r.0, dir, entries[i])
          {
            if i > 0 {
              assert entries[i] == entries[1..][i - 1];
            }
          }
        }
      }
    }
  }

  /** Every link of a successful extraction was made where nothing was. */
  lemma {:induction false} SymlinkTargetsFresh(t: Tree, dir: Path, entries: seq<Entry>)
    requires ExtractSpec(t, dir, entries).1.None?
    ensures forall j :: 0 <= j < |entries| && entries[j].kind.SymbolicLink? ==>
      !Present(t, Target(dir, entries[j]))
    decreases |entries|
  {
    if |entries| > 0 {
      ApplyStable(t, dir, entries[0]);
      var (t1, err) := Apply(t, dir, entries[0]);
      SymlinkTargetsFresh(t1, dir, entries[1..]);
      forall j | 0 <= j < |entries| && entries[j].kind.SymbolicLink?
        ensures !Present(t, Target(dir, entries[j]))
      {
        if j > 0 {
          assert entries[j] == entries[1..][j - 1];
        }
      }
    }
  }

  /**
   * Links are never replaced: in an archive that extracts without error,
   * no link lands where an earlier entry (other than a skipped one)
   * already put a node. Equivalently, an archive that names the same link
   * path twice always fails.
   */
  lemma {:induction false} NoLinkOverwrite(t: Tree, dir: Path, entries: seq<Entry>)
    requires ExtractSpec(t, dir, entries).1.None?
    ensures forall i, j ::
      (0 <= i < j < |entries| && entries[j].kind.SymbolicLink? && !entries[i].kind.OtherKind?) ==>
        Target(dir, entries[i]) != Target(dir, entries[j])
    decreases |entries|
  {
    if |entries| > 0 {
      ApplyStable(t, dir, entries[0]);
      var (t1, err) := Apply(t, dir, entries[0]);
      var rest := entries[1..];
      NoLinkOverwrite(t1, dir, rest);
      SymlinkTargetsFresh(t1, dir, rest);
      forall i, j | 0 <= i < j < |entries| && entries[j].kind.SymbolicLink?
        && !entries[i].kind.OtherKind?
        ensures Target(dir, entries[i]) != Target(dir, entries[j])
      {
        assert entries[j] == rest[j - 1];
        if i > 0 {
          assert entries[i] == rest[i - 1];
        }
      }
    }
  }

  /** `MkdirAll` keeps a tree well formed: it creates parents first. */
  lemma {:induction false} MkdirAllWellFormed(t: Tree, p: Path, mode: nat)
    requires WellFormed(t)
    ensures MkdirAll(t, p, mode).Ok? ==> WellFormed(MkdirAll(t, p, mode).value)
    decreases |p|
  {
    if |p| > 0 && p !in t {
      MkdirAllWellFormed(t, p[..|p| - 1], mode);
    }
  }

  /** One entry keeps the tree well formed, also when it fails. */
  lemma ApplyWellFormed(t: Tree, dir: Path, e: Entry)
    requires WellFormed(t)
    ensures WellFormed(Apply(t, dir, e).0)
  {
    var target := Target(dir, e);
    match e.kind {
      case Directory =>
        MkdirAllWellFormed(t, target, e.mode);
      case Regular =>
        var r1 := MkdirAll(t, Parent(target), ParentMode);
        MkdirAllWellFormed(t, Parent(target), ParentMode);
        if r1.Ok? {
          WriteWellFormed(r1.value, target, e.mode, e.data);
        }
      case SymbolicLink =>
      case OtherKind(_) =>
    }
  }

  lemma WriteWellFormed(t: Tree, p: Path, mode: nat, data: seq<bv8>)
    requires WellFormed(t)
    ensures WriteFile(t, p, mode, data).Ok? ==> WellFormed(WriteFile(t, p, mode, data).value)
  {
  }

  /** Extraction keeps the tree well formed, also when it stops early. */
  lemma {:induction false} ExtractWellFormed(t: Tree, dir: Path, entries: seq<Entry>)
    requires WellFormed(t)
    ensures WellFormed(ExtractSpec(t, dir, entries).0)
    decreases |entries|
  {
    if |entries| > 0 {
      ApplyWellFormed(t, dir, entries[0]);
      var (t1, err) := Apply(t, dir, entries[0]);
      if err.None? {
        ExtractWellFormed(t1, dir, entries[1..]);
      }
    }
  }
}
