/**
 * The file system as the deploy and image code touch it: a map from the
 * segments of a path, relative to the working directory, to a node. The
 * empty path is the working directory itself, which always exists. Only
 * the operations the code calls are modelled, with the error each returns.
 */
module FileTree {
  import opened Common
  import opened Paths

  datatype Node = Dir(mode: nat) | File(mode: nat, data: seq<bv8>) | Symlink(target: string)

  type Tree = map<Path, Node>

  /** The system errors the modelled calls can return (`syscall.Errno`
      texts). */
  const NotDirectory := Fail("not a directory")
  const Exists := Fail("file exists")
  const IsDirectory := Fail("is a directory")
  const NoEntry := Fail("no such file or directory")
  /** Opening a path that is a symbolic link follows the link; the model
      does not resolve links and reports this instead. */
  const LinkNotFollowed := Fail("symbolic link not followed")

  function Parent(p: Path): Path
  {
    if |p| == 0 then [] else p[..|p| - 1]
  }

  predicate IsDir(t: Tree, p: Path)
  {
    p == [] || (p in t && t[p].Dir?)
  }

  predicate Present(t: Tree, p: Path)
  {
    p == [] || p in t
  }

  /** Every node's parent is a directory. */
  predicate WellFormed(t: Tree)
  {
    forall p :: p in t ==> p != [] && IsDir(t, Parent(p))
  }

  /**
   * `os.MkdirAll(p, mode)`: nothing to do for an existing directory, an
   * error for an existing non-directory, otherwise the parent first and
   * then the directory itself with the given mode.
   */
  function MkdirAll(t: Tree, p: Path, mode: nat): (r: Result<Tree>)
    ensures r.Ok? ==> IsDir(r.value, p)
    ensures r.Ok? ==> forall q :: q in t ==> q in r.value && r.value[q] == t[q]
    ensures r.Ok? ==> forall q :: q in r.value && q !in t ==> q <= p && r.value[q] == Dir(mode)
    ensures r.Err? ==> r.error == NotDirectory
    decreases |p|
  {
    if |p| == 0 then Ok(t)
    else if p in t then (if t[p].Dir? then Ok(t) else Err(NotDirectory))
    else match MkdirAll(t, p[..|p| - 1], mode)
      case Err(e) => Err(e)
      case Ok(t') => Ok(t'[p := Dir(mode)])
  }

  /** The error the kernel gives when the parent of `p` is unusable. */
  function ParentError(t: Tree, p: Path): Error
  {
    if Present(t, Parent(p)) then NotDirectory else NoEntry
  }

  /**
   * `os.OpenFile(p, O_CREATE|O_WRONLY|O_TRUNC, mode)` followed by writing
   * `data`: an existing file keeps its mode and gets the new content, a
   * new file gets `mode`.
   */
  function WriteFile(t: Tree, p: Path, mode: nat, data: seq<bv8>): (r: Result<Tree>)
    ensures r.Ok? ==> p in r.value && r.value[p].File? && r.value[p].data == data
    ensures r.Ok? ==> r.value == t[p := r.value[p]]
    ensures r.Ok? && p in t ==> t[p].File? && r.value[p].mode == t[p].mode
    ensures r.Ok? && p !in t ==> r.value[p].mode == mode
    ensures r.Ok? <==> p != [] && IsDir(t, Parent(p)) && (p in t ==> t[p].File?)
  {
    if !IsDir(t, Parent(p)) then Err(ParentError(t, p))
    else if IsDir(t, p) then Err(IsDirectory)
    else if p in t && t[p].Symlink? then Err(LinkNotFollowed)
    else if p in t then Ok(t[p := File(t[p].mode, data)])
    else Ok(t[p := File(mode, data)])
  }

  /** `os.Symlink(target, p)`: a new link, never over an existing node. */
  function MakeSymlink(t: Tree, target: string, p: Path): (r: Result<Tree>)
    ensures r.Ok? <==> IsDir(t, Parent(p)) && !Present(t, p)
    ensures r.Ok? ==> r.value == t[p := Symlink(target)]
    ensures Present(t, p) && IsDir(t, Parent(p)) ==> r == Err(Exists)
  {
    if !IsDir(t, Parent(p)) then Err(ParentError(t, p))
    else if Present(t, p) then Err(Exists)
    else Ok(t[p := Symlink(target)])
  }

  /**
   * `os.Stat` reporting "not exist": the path is absent and nothing on the
   * way to it is other than a directory (a file on the way gives "not a
   * directory", which is a different error).
   */
  predicate StatNotExist(t: Tree, p: Path)
  {
    !Present(t, p) && forall k :: 0 < k < |p| && p[..k] in t ==> t[p[..k]].Dir?
  }

  /** `os.ReadFile(p)`: the content of a file. */
  function ReadFile(t: Tree, p: Path): (r: Result<seq<bv8>>)
    ensures r.Ok? <==> p in t && t[p].File?
    ensures r.Ok? ==> r.value == t[p].data
  {
    if p in t && t[p].File? then Ok(t[p].data)
    else if IsDir(t, p) then Err(IsDirectory)
    else if p in t then Err(LinkNotFollowed)
    else Err(NoEntry)
  }

  /** `os.RemoveAll(p)`: the node and everything below it. */
  function RemoveAll(t: Tree, p: Path): (r: Tree)
    ensures forall q :: q in r <==> q in t && !(p <= q)
    ensures forall q :: q in r ==> r[q] == t[q]
  {
    map q | q in t && !(p <= q) :: t[q]
  }
}
