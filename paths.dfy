/**
 * Slash-separated paths as Go's `path/filepath` treats them on Unix:
 * cleaning, joining, the last element, the extension and the parent.
 * A cleaned relative path is also kept as its sequence of segments, which
 * is how the file-tree model names its nodes.
 */
module Paths {
  import opened Common

  /** The segments of a cleaned relative path. */
  type Path = seq<string>

  /** A segment that names a child: not empty, not `.` or `..`, no slash. */
  predicate Plain(seg: string)
  {
    seg != "" && seg != "." && seg != ".." && '/' !in seg
  }

  /**
   * The lexical cleaning of `filepath.Clean`, one segment at a time from the
   * left onto `acc`: empty and `.` segments vanish, `..` removes the
   * previous real segment, or stays when there is none (relative paths) or
   * vanishes at the root (rooted paths).
   */
  function Resolve(acc: Path, segs: seq<string>, rooted: bool): Path
    decreases |segs|
  {
    if |segs| == 0 then acc
    else
      var s := segs[0];
      var next :=
        if s == "" || s == "." then acc
        else if s == ".." then
          (if |acc| > 0 && acc[|acc| - 1] != ".." then acc[..|acc| - 1]
           else if rooted then acc
           else acc + [".."])
        else acc + [s];
      Resolve(next, segs[1..], rooted)
  }

  /** `filepath.Clean`. */
  function Clean(p: string): string
  {
    if p == "" then "."
    else
      var rooted := p[0] == '/';
      var body := Join(Resolve([], Split(p, "/"), rooted), "/");
      if rooted then "/" + body
      else if body == "" then "."
      else body
  }

  /** `filepath.Join` of two elements: empty elements are ignored, the
      rest joined with a slash and cleaned. */
  function JoinPath(a: string, b: string): string
  {
    if a == "" && b == "" then ""
    else if a == "" then Clean(b)
    else if b == "" then Clean(a)
    else Clean(a + "/" + b)
  }

  /** `filepath.IsAbs` on Unix. */
  predicate IsAbs(p: string)
  {
    |p| > 0 && p[0] == '/'
  }

  /** The node `filepath.Join(base, name)` names, as segments, for a
      relative base given by its segments. */
  function Under(base: Path, name: string): Path
  {
    Resolve(base, Split(name, "/"), false)
  }

  /** The slash form of a relative path, as `filepath.Rel` followed by
      `filepath.ToSlash` gives it: `.` for the directory itself. */
  function SlashName(p: Path): string
  {
    if |p| == 0 then "." else Join(p, "/")
  }

  /** `filepath.Base`: the last element, after trailing slashes are
      dropped; `.` for the empty path and `/` for the root. */
  function Base(p: string): (r: string)
    ensures p != "" && '/' !in p ==> r == p
  {
    if p == "" then "."
    else
      var q := DropTrailingSlashes(p);
      if q == "" then "/"
      else LastElement(q)
  }

  function DropTrailingSlashes(p: string): (r: string)
    ensures |r| <= |p| && r == p[..|r|]
    ensures r == "" || r[|r| - 1] != '/'
    ensures '/' !in p ==> r == p
  {
    if |p| > 0 && p[|p| - 1] == '/' then DropTrailingSlashes(p[..|p| - 1]) else p
  }

  /** The part after the last slash. */
  function LastElement(p: string): (r: string)
    ensures '/' !in r
    ensures |r| <= |p| && r == p[|p| - |r|..]
    ensures |r| < |p| ==> p[|p| - |r| - 1] == '/'
    ensures '/' !in p ==> r == p
  {
    if |p| == 0 then ""
    else if p[|p| - 1] == '/' then ""
    else LastElement(p[..|p| - 1]) + [p[|p| - 1]]
  }

  /** `filepath.Ext`: the suffix from the last dot of the last element, or
      empty when that element has no dot. */
  function Ext(p: string): (r: string)
    ensures r == "" || (r[0] == '.' && HasSuffix(p, r) && '/' !in r)
    decreases |p|
  {
    if |p| == 0 || p[|p| - 1] == '/' then ""
    else if p[|p| - 1] == '.' then "."
    else
      var e := Ext(p[..|p| - 1]);
      if e == "" then "" else e + [p[|p| - 1]]
  }

  // ---------------------------------------------------------------------
  // Properties

  /** Plain segments are only appended. */
  lemma {:induction false} ResolvePlain(acc: Path, segs: seq<string>, rooted: bool)
    requires forall i :: 0 <= i < |segs| ==> Plain(segs[i])
    ensures Resolve(acc, segs, rooted) == acc + segs
    decreases |segs|
  {
    if |segs| > 0 {
      ResolvePlain(acc + [segs[0]], segs[1..], rooted);
      assert acc + [segs[0]] + segs[1..] == acc + segs;
    }
  }

  /** Without `..` segments, cleaning never leaves the base: the result
      extends it. */
  lemma {:induction false} ResolveStaysUnder(acc: Path, segs: seq<string>, rooted: bool)
    requires forall i :: 0 <= i < |segs| ==> segs[i] != ".."
    ensures acc <= Resolve(acc, segs, rooted)
    decreases |segs|
  {
    if |segs| > 0 {
      var s := segs[0];
      var next := if s == "" || s == "." then acc else acc + [s];
      ResolveStaysUnder(next, segs[1..], rooted);
    }
  }

  lemma {:induction false} SplitNoSep(a: string)
    requires '/' !in a
    ensures Split(a, "/") == [a]
    decreases |a|
  {
    if |a| > 0 {
      assert a[0] != '/' && a[..1] == [a[0]];
      SplitNoSep(a[1..]);
      assert [a[0]] + a[1..] == a;
    }
  }

  lemma {:induction false} SplitCons(a: string, b: string)
    requires '/' !in a
    ensures Split(a + "/" + b, "/") == [a] + Split(b, "/")
    decreases |a|
  {
    var s := a + "/" + b;
    if |a| == 0 {
      assert s == "/" + b;
      assert HasPrefix(s, "/");
      assert s[1..] == b;
    } else {
      assert s[0] == a[0] && s[..1] == [a[0]] && a[0] != '/';
      assert s[1..] == a[1..] + "/" + b;
      SplitCons(a[1..], b);
      assert [a[0]] + a[1..] == a;
    }
  }

  /** A sequence of slash-free segments survives joining and splitting. */
  lemma {:induction false} SplitJoin(p: seq<string>)
    requires |p| >= 1
    requires forall i :: 0 <= i < |p| ==> '/' !in p[i]
    ensures Split(Join(p, "/"), "/") == p
    decreases |p|
  {
    if |p| == 1 {
      SplitNoSep(p[0]);
    } else {
      SplitJoin(p[1..]);
      SplitCons(p[0], Join(p[1..], "/"));
      assert [p[0]] + p[1..] == p;
    }
  }

  /**
   * The name an archive gives a node names that node again once joined to
   * an extraction directory: `filepath.Join(dir, SlashName(p))` is `dir`
   * followed by `p`, for a path of plain segments.
   */
  lemma NameRoundTrip(dir: Path, p: Path)
    requires forall i :: 0 <= i < |p| ==> Plain(p[i])
    ensures Under(dir, SlashName(p)) == dir + p
  {
    if |p| == 0 {
      assert Split(".", "/") == ["."] by { SplitNoSep("."); }
      assert Resolve(dir, ["."], false) == Resolve(dir, [], false);
    } else {
      SplitJoin(p);
      ResolvePlain(dir, p, false);
    }
  }

  /** Entry names without `..` stay inside the directory they are joined to. */
  lemma UnderStays(dir: Path, name: string)
    requires forall i :: 0 <= i < |Split(name, "/")| ==> Split(name, "/")[i] != ".."
    ensures dir <= Under(dir, name)
  {
    ResolveStaysUnder(dir, Split(name, "/"), false);
  }

  lemma ResolveUp(acc: Path, rest: seq<string>, rooted: bool)
    requires |acc| > 0 && acc[|acc| - 1] != ".."
    ensures Resolve(acc, [".."] + rest, rooted) == Resolve(acc[..|acc| - 1], rest, rooted)
  {
    assert ([".."] + rest)[0] == ".." && ([".."] + rest)[1..] == rest;
  }

  lemma ResolveUpRelative(acc: Path, rest: seq<string>)
    requires |acc| == 0 || acc[|acc| - 1] == ".."
    ensures Resolve(acc, [".."] + rest, false) == Resolve(acc + [".."], rest, false)
  {
    assert ([".."] + rest)[0] == ".." && ([".."] + rest)[1..] == rest;
  }

  /** Joining does not check for traversal: a name whose segments start
      with two `..` names a node outside the directory's parent. */
  lemma UnderEscapes(name: string, q: Path)
    requires Split(name, "/") == ["..", ".."] + q
    requires forall i :: 0 <= i < |q| ==> Plain(q[i])
    ensures Under([".deploy"], name) == [".."] + q
  {
    var p0: Path := [".deploy"];
    var up: Path := [".."];
    var none: Path := [];
    assert ["..", ".."] + q == [".."] + ([".."] + q);
    assert p0[..0] == none;
    ResolveUp(p0, [".."] + q, false);
    ResolveUpRelative(none, q);
    assert none + up == up;
    ResolvePlain(up, q, false);
  }
}
