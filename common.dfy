/**
 * Shared vocabulary: optional values, results carrying an error chain, and
 * the string operations of Go's `strings` package and Python's `str` that
 * the platform tooling relies on.  Strings are sequences of characters.
 */
module Common {

  datatype Option<T> = None | Some(value: T)

  /** An error as Go reports it: a message, or a message wrapped with the
      context of the stage that failed (`fmt.Errorf("stage: %w", err)`). */
  datatype Error = Fail(msg: string) | Wrap(context: string, cause: Error)

  datatype Result<T> = Ok(value: T) | Err(error: Error)

  /** The text `Error()` prints for an error chain. */
  function ErrorText(e: Error): string
  {
    match e
    case Fail(m) => m
    case Wrap(c, inner) => c + ": " + ErrorText(inner)
  }

  /** Go's `%q` for the identifiers and keys that appear in messages
      (escaping of quotes and control characters is not modelled). */
  function Quote(s: string): string
  {
    "\"" + s + "\""
  }

  // ---------------------------------------------------------------------
  // Prefixes, suffixes and substrings

  predicate HasPrefix(s: string, p: string)
  {
    |p| <= |s| && s[..|p|] == p
  }

  predicate HasSuffix(s: string, p: string)
  {
    |p| <= |s| && s[|s| - |p|..] == p
  }

  /** `strings.Contains(s, sub)` / Python's `sub in s`. */
  predicate Contains(s: string, sub: string)
    decreases |s|
  {
    HasPrefix(s, sub) || (|s| > 0 && Contains(s[1..], sub))
  }

  lemma {:induction false} ContainsAt(s: string, sub: string, i: nat)
    requires i + |sub| <= |s| && s[i..i + |sub|] == sub
    ensures Contains(s, sub)
    decreases i
  {
    if i > 0 {
      assert s[1..][i - 1..i - 1 + |sub|] == sub;
      ContainsAt(s[1..], sub, i - 1);
    }
  }

  lemma {:induction false} ContainsWitness(s: string, sub: string) returns (i: nat)
    requires Contains(s, sub)
    ensures i + |sub| <= |s| && s[i..i + |sub|] == sub
    decreases |s|
  {
    if HasPrefix(s, sub) {
      i := 0;
    } else {
      var j := ContainsWitness(s[1..], sub);
      assert s[1..][j..j + |sub|] == s[j + 1..j + 1 + |sub|];
      i := j + 1;
    }
  }

  lemma ContainsChar(s: string, c: char)
    ensures Contains(s, [c]) <==> c in s
  {
    if c in s {
      var i :| 0 <= i < |s| && s[i] == c;
      assert s[i..i + 1] == [c];
      ContainsAt(s, [c], i);
    }
    if Contains(s, [c]) {
      var i := ContainsWitness(s, [c]);
      assert s[i] == s[i..i + 1][0];
    }
  }

  /** `strings.TrimSuffix`: removes one occurrence of the suffix if present. */
  function TrimSuffix(s: string, suffix: string): (r: string)
    ensures HasSuffix(s, suffix) ==> r + suffix == s
    ensures !HasSuffix(s, suffix) ==> r == s
  {
    if HasSuffix(s, suffix) then s[..|s| - |suffix|] else s
  }

  // ---------------------------------------------------------------------
  // Splitting and joining

  /** `s.split(sep)` in Python and `strings.Split(s, sep)` in Go, for a
      non-empty separator: the pieces between the leftmost non-overlapping
      occurrences of `sep`. There is always at least one piece. */
  function Split(s: string, sep: string): (r: seq<string>)
    requires |sep| > 0
    ensures |r| >= 1
    decreases |s|
  {
    if |s| == 0 then [""]
    else if HasPrefix(s, sep) then [""] + Split(s[|sep|..], sep)
    else
      var rest := Split(s[1..], sep);
      [[s[0]] + rest[0]] + rest[1..]
  }

  /** `sep.join(parts)` / `strings.Join(parts, sep)`. */
  function Join(parts: seq<string>, sep: string): string
  {
    if |parts| == 0 then ""
    else if |parts| == 1 then parts[0]
    else parts[0] + sep + Join(parts[1..], sep)
  }

  lemma JoinAppend(parts: seq<string>, last: string, sep: string)
    requires |parts| >= 1
    ensures Join(parts + [last], sep) == Join(parts, sep) + sep + last
  {
    if |parts| == 1 {
      assert (parts + [last])[1..] == [last];
    } else {
      assert (parts + [last])[1..] == parts[1..] + [last];
      JoinAppend(parts[1..], last, sep);
    }
  }

  /** Joining a piece in front of non-empty pieces puts a separator
      between it and their join. */
  lemma JoinCons(x: string, rest: seq<string>, sep: string)
    requires |rest| >= 1
    ensures Join([x] + rest, sep) == x + sep + Join(rest, sep)
  {
    assert ([x] + rest)[1..] == rest;
  }

  /** Extending the first piece by a character extends the join by it. */
  lemma JoinExtendHead(ch: char, rest: seq<string>, sep: string)
    requires |rest| >= 1
    ensures Join([[ch] + rest[0]] + rest[1..], sep) == [ch] + Join(rest, sep)
  {
    var r := [[ch] + rest[0]] + rest[1..];
    if |rest| > 1 {
      assert r[1..] == rest[1..];
      assert Join(rest, sep) == rest[0] + sep + Join(rest[1..], sep);
    }
  }

  /** Splitting and joining back with the same separator gives the input. */
  lemma {:induction false} JoinSplit(s: string, sep: string)
    requires |sep| > 0
    ensures Join(Split(s, sep), sep) == s
    decreases |s|
  {
    if |s| == 0 {
    } else if HasPrefix(s, sep) {
      var rest := Split(s[|sep|..], sep);
      calc {
        Join(Split(s, sep), sep);
        Join([""] + rest, sep);
        { JoinCons("", rest, sep); }
        "" + sep + Join(rest, sep);
        { JoinSplit(s[|sep|..], sep); assert "" + sep == s[..|sep|]; }
        s[..|sep|] + s[|sep|..];
        s;
      }
    } else {
      var rest := Split(s[1..], sep);
      calc {
        Join(Split(s, sep), sep);
        Join([[s[0]] + rest[0]] + rest[1..], sep);
        { JoinExtendHead(s[0], rest, sep); }
        [s[0]] + Join(rest, sep);
        { JoinSplit(s[1..], sep); }
        [s[0]] + s[1..];
        s;
      }
    }
  }

  /** Text whose characters never start the separator splits as text
      before the first separator, then the pieces of the rest. */
  lemma {:induction false} SplitCut(a: string, sep: string, b: string)
    requires |sep| > 0 && sep[0] !in a
    ensures Split(a + sep + b, sep) == [a] + Split(b, sep)
    decreases |a|
  {
    var s := a + sep + b;
    if |a| == 0 {
      assert s == sep + b && HasPrefix(s, sep);
      assert s[|sep|..] == b;
    } else {
      assert s[0] == a[0] && !HasPrefix(s, sep);
      assert s[1..] == a[1..] + sep + b;
      SplitCut(a[1..], sep, b);
      assert [s[0]] + a[1..] == a;
    }
  }

  /** Text without the separator's first character is a single piece. */
  lemma {:induction false} SplitNone(s: string, sep: string)
    requires |sep| > 0 && sep[0] !in s
    ensures Split(s, sep) == [s]
    decreases |s|
  {
    if |s| > 0 {
      assert !HasPrefix(s, sep);
      SplitNone(s[1..], sep);
      assert [s[0]] + s[1..] == s;
    }
  }

  /** No piece of a split on a character holds that character. */
  lemma {:induction false} SplitCharPieces(s: string, c: char)
    ensures forall i :: 0 <= i < |Split(s, [c])| ==> c !in Split(s, [c])[i]
    decreases |s|
  {
    if |s| > 0 {
      SplitCharPieces(s[|[c]|..], c);
      SplitCharPieces(s[1..], c);
      if !HasPrefix(s, [c]) {
        assert s[..1] == [s[0]];
      }
    }
  }

  /** The last piece of a split on a character is the text after the last
      occurrence of the character, or all of it when there is none. */
  lemma {:induction false} SplitCharLast(s: string, c: char)
    ensures var parts := Split(s, [c]);
      var last := parts[|parts| - 1];
      HasSuffix(s, last) && c !in last && (|last| == |s| || s[|s| - |last| - 1] == c)
    decreases |s|
  {
    if |s| > 0 {
      var parts := Split(s, [c]);
      var rest := Split(s[1..], [c]);
      var last := rest[|rest| - 1];
      SplitCharLast(s[1..], c);
      if HasPrefix(s, [c]) {
        assert parts == [""] + rest;
        assert parts[|parts| - 1] == last;
      } else if |rest| > 1 {
        SplitCharFirst(s[1..], c);
        assert parts == [[s[0]] + rest[0]] + rest[1..];
        assert parts[|parts| - 1] == last;
        assert |last| < |s| - 1;
        assert s[|s| - |last|..] == s[1..][|s| - 1 - |last|..];
        assert s[|s| - |last| - 1] == s[1..][|s| - 1 - |last| - 1];
      } else {
        SplitCharFirst(s[1..], c);
        SplitNone(s[1..], [c]);
        assert s[0] != c by { assert s[..1] == [s[0]]; }
        assert parts == [[s[0]] + s[1..]];
        assert [s[0]] + s[1..] == s;
      }
    }
  }

  /** Splitting on a character gives more than one piece iff the character
      occurs; the first piece is the text before its first occurrence, and
      the other pieces joined are the text after it. */
  lemma SplitCharFirst(s: string, c: char)
    ensures |Split(s, [c])| > 1 <==> c in s
    ensures HasPrefix(s, Split(s, [c])[0]) && c !in Split(s, [c])[0]
    ensures c in s ==>
      var head := Split(s, [c])[0];
      |head| < |s| && s[|head|] == c && Join(Split(s, [c])[1..], [c]) == s[|head| + 1..]
  {
    SplitCharPieces(s, c);
    if c in s {
      var i :| 0 <= i < |s| && s[i] == c;
      while c in s[..i]
        invariant 0 <= i < |s| && s[i] == c
        decreases i
      {
        var j :| 0 <= j < i && s[..i][j] == c;
        i := j;
      }
      SplitAtFirst(s, c, i);
    } else {
      SplitNone(s, [c]);
    }
  }

  /** Cutting at the first occurrence `i` of the separator character: the
      first piece is what precedes it and the rest join to what follows. */
  lemma SplitAtFirst(s: string, c: char, i: nat)
    requires i < |s| && s[i] == c && c !in s[..i]
    ensures Split(s, [c]) == [s[..i]] + Split(s[i + 1..], [c])
    ensures Join(Split(s, [c])[1..], [c]) == s[i + 1..]
  {
    assert s == s[..i] + [c] + s[i + 1..];
    SplitCut(s[..i], [c], s[i + 1..]);
    var parts := Split(s, [c]);
    assert parts[1..] == Split(s[i + 1..], [c]);
    JoinSplit(s[i + 1..], [c]);
  }

  /** A last piece without the separator character is split off as the
      last piece. */
  lemma {:induction false} SplitSuffix(x: string, c: char, y: string)
    requires c !in y
    ensures Split(x + [c] + y, [c]) == Split(x, [c]) + [y]
    decreases |x|
  {
    var s := x + [c] + y;
    if |x| == 0 {
      assert s == [c] + y && HasPrefix(s, [c]) && s[1..] == y;
      SplitNone(y, [c]);
    } else if x[0] == c {
      assert HasPrefix(s, [c]) && HasPrefix(x, [c]);
      assert s[1..] == x[1..] + [c] + y;
      SplitSuffix(x[1..], c, y);
    } else {
      assert s[0] == x[0] && s[..1] == [x[0]] && x[..1] == [x[0]];
      assert s[1..] == x[1..] + [c] + y;
      SplitSuffix(x[1..], c, y);
      var rest := Split(x[1..], [c]);
      assert (rest + [y])[0] == rest[0] && (rest + [y])[1..] == rest[1..] + [y];
    }
  }

  /** Replacing one separator character by another, absent one, keeps the
      pieces. */
  lemma {:induction false} SplitReplaceChar(s: string, a: char, b: char)
    requires b !in s
    ensures Split(Replace(s, [a], [b]), [b]) == Split(s, [a])
    decreases |s|
  {
    if |s| > 0 {
      assert s[..1] == [s[0]];
      var t := Replace(s, [a], [b]);
      SplitReplaceChar(s[1..], a, b);
      if s[0] == a {
        assert t == [b] + Replace(s[1..], [a], [b]);
        assert HasPrefix(t, [b]) && t[1..] == Replace(s[1..], [a], [b]);
      } else {
        assert t == [s[0]] + Replace(s[1..], [a], [b]);
        assert !HasPrefix(t, [b]) && t[1..] == Replace(s[1..], [a], [b]);
      }
    }
  }

  /** The first occurrence of `sep` in `s`, if any. */
  function IndexOf(s: string, sep: string): (r: Option<nat>)
    ensures r.Some? ==> r.value + |sep| <= |s| && s[r.value..r.value + |sep|] == sep
    ensures r.Some? ==> forall j :: 0 <= j < r.value ==> !HasPrefix(s[j..], sep)
    ensures r.None? ==> forall j :: 0 <= j <= |s| ==> !HasPrefix(s[j..], sep)
    decreases |s|
  {
    if HasPrefix(s, sep) then Some(0)
    else if |s| == 0 then None
    else match IndexOf(s[1..], sep)
      case None =>
        NotAfterFirst(s, sep, |s|);
        None
      case Some(i) =>
        NotAfterFirst(s, sep, i);
        assert s[i + 1..i + 1 + |sep|] == s[1..][i..i + |sep|];
        Some(i + 1)
  }

  /** If `sep` starts neither `s` nor any of the first `n` suffixes of
      `s[1..]`, it starts none of the first `n + 1` suffixes of `s`. */
  lemma NotAfterFirst(s: string, sep: string, n: nat)
    requires 0 < |s| && n <= |s| && !HasPrefix(s, sep)
    requires forall j :: 0 <= j < n ==> !HasPrefix(s[1..][j..], sep)
    ensures forall j :: 0 <= j <= n ==> !HasPrefix(s[j..], sep)
  {
    forall j | 1 <= j <= n
      ensures !HasPrefix(s[j..], sep)
    {
      assert s[j..] == s[1..][j - 1..];
    }
  }

  /** `s.split(sep, 1)` / `strings.SplitN(s, sep, 2)`: cut at the first
      occurrence; `None` when `sep` does not occur. */
  function SplitOnce(s: string, sep: string): (r: Option<(string, string)>)
    ensures r.Some? ==> r.value.0 + sep + r.value.1 == s
    ensures r.None? <==> IndexOf(s, sep).None?
  {
    match IndexOf(s, sep)
    case None => None
    case Some(i) =>
      assert s == s[..i] + s[i..i + |sep|] + s[i + |sep|..];
      Some((s[..i], s[i + |sep|..]))
  }

  /** Python's `s.split()` / Go's `strings.Fields`: the maximal runs of
      non-blank characters. */
  function Fields(s: string): seq<string>
    decreases |s|
  {
    if |s| == 0 then []
    else if IsSpace(s[0]) then Fields(s[1..])
    else
      var n := WordLength(s);
      [s[..n]] + Fields(s[n..])
  }

  function WordLength(s: string): (n: nat)
    ensures n <= |s|
    ensures |s| > 0 && !IsSpace(s[0]) ==> n > 0
    decreases |s|
  {
    if |s| == 0 || IsSpace(s[0]) then 0 else 1 + WordLength(s[1..])
  }

  // ---------------------------------------------------------------------
  // Replacing

  /** `s.replace(old, new)` / `strings.ReplaceAll`: every leftmost
      non-overlapping occurrence of a non-empty `pat` is replaced by `rep`. */
  function Replace(s: string, pat: string, rep: string): string
    requires |pat| > 0
    decreases |s|
  {
    if |s| < |pat| then s
    else if s[..|pat|] == pat then rep + Replace(s[|pat|..], pat, rep)
    else [s[0]] + Replace(s[1..], pat, rep)
  }

  /** Replacing a character by a character maps the string pointwise. */
  lemma {:induction false} ReplaceCharAt(s: string, a: char, b: char)
    ensures |Replace(s, [a], [b])| == |s|
    ensures forall i :: 0 <= i < |s| ==>
      Replace(s, [a], [b])[i] == (if s[i] == a then b else s[i])
    decreases |s|
  {
    if |s| >= 1 {
      ReplaceCharAt(s[1..], a, b);
      assert s[..1] == [s[0]];
    }
  }

  /** The characters of `s` other than `a`, in order: every `a` gone and
      every other character kept as often as it occurs. */
  function Omit(s: string, a: char): (r: string)
    ensures a !in r && |r| <= |s|
    ensures multiset(r) == multiset(s)[a := 0]
    decreases |s|
  {
    if |s| == 0 then ""
    else
      assert s == [s[0]] + s[1..];
      (if s[0] == a then "" else [s[0]]) + Omit(s[1..], a)
  }

  /** Deleting a character is omitting it. */
  lemma {:induction false} DeleteChar(s: string, a: char)
    ensures Replace(s, [a], "") == Omit(s, a)
    decreases |s|
  {
    if |s| >= 1 {
      DeleteChar(s[1..], a);
      assert s[..1] == [s[0]];
    }
  }

  /** Replacing a character by a different one leaves none of it behind. */
  lemma ReplaceCharGone(s: string, a: char, b: char)
    requires a != b
    ensures a !in Replace(s, [a], [b])
  {
    ReplaceCharAt(s, a, b);
  }

  /** Replacing a text that does not occur changes nothing. */
  lemma {:induction false} ReplaceAbsent(s: string, pat: string, rep: string)
    requires |pat| > 0 && !Contains(s, pat)
    ensures Replace(s, pat, rep) == s
    decreases |s|
  {
    if |s| >= |pat| {
      assert !HasPrefix(s, pat);
      ReplaceAbsent(s[1..], pat, rep);
    }
  }

  /** After replacing a character, every character left is one of the
      original's other characters or one of the replacement's. */
  lemma {:induction false} ReplaceCharSources(s: string, a: char, rep: string)
    ensures forall c :: c in Replace(s, [a], rep) ==> (c in s && c != a) || c in rep
    decreases |s|
  {
    if |s| >= 1 {
      assert s[..1] == [s[0]];
      ReplaceCharSources(s[1..], a, rep);
      if s[0] == a {
        assert Replace(s, [a], rep) == rep + Replace(s[1..], [a], rep);
      } else {
        assert Replace(s, [a], rep) == [s[0]] + Replace(s[1..], [a], rep);
      }
    }
  }

  /** Replacing brings in no character that neither the original nor the
      replacement holds. */
  lemma {:induction false} ReplaceSources(s: string, pat: string, rep: string)
    requires |pat| > 0
    ensures forall c :: c in Replace(s, pat, rep) ==> c in s || c in rep
    decreases |s|
  {
    if |s| >= |pat| {
      if s[..|pat|] == pat {
        ReplaceSources(s[|pat|..], pat, rep);
        assert forall c :: c in s[|pat|..] ==> c in s;
      } else {
        ReplaceSources(s[1..], pat, rep);
        assert forall c :: c in s[1..] ==> c in s;
      }
    }
  }

  // ---------------------------------------------------------------------
  // Case and blanks

  predicate IsSpace(c: char)
  {
    c == ' ' || c == '\t' || c == '\n' || c == '\r' || c == '\U{000B}' || c == '\U{000C}'
    || c == '\U{0085}' || c == '\U{00A0}'
  }

  function LowerChar(c: char): char
  {
    if 'A' <= c <= 'Z' then (c as int + 32) as char else c
  }

  /** ASCII lower-casing, applied character by character. */
  function Lower(s: string): (r: string)
    ensures |r| == |s|
    ensures forall i :: 0 <= i < |s| ==> r[i] == LowerChar(s[i])
  {
    seq(|s|, i requires 0 <= i < |s| => LowerChar(s[i]))
  }

  function TrimLeft(s: string): (r: string)
    ensures |r| <= |s| && HasSuffix(s, r)
    ensures |r| > 0 ==> !IsSpace(r[0])
    decreases |s|
  {
    if |s| > 0 && IsSpace(s[0]) then TrimLeft(s[1..]) else s
  }

  function TrimRight(s: string): (r: string)
    ensures |r| <= |s| && HasPrefix(s, r)
    ensures |r| > 0 ==> !IsSpace(r[|r| - 1])
    decreases |s|
  {
    if |s| > 0 && IsSpace(s[|s| - 1]) then TrimRight(s[..|s| - 1]) else s
  }

  /** `strings.TrimSpace` / Python's `str.strip()`. */
  function TrimSpace(s: string): (r: string)
    ensures |r| <= |s|
    ensures |r| > 0 ==> !IsSpace(r[0]) && !IsSpace(r[|r| - 1])
  {
    var l := TrimLeft(s);
    var r := TrimRight(l);
    assert |r| > 0 ==> r[0] == l[0];
    r
  }

  /** Decimal rendering of a natural number (Go's `%d`, Python's `str`). */
  function NatToString(n: nat): (r: string)
    ensures |r| >= 1
    ensures forall i :: 0 <= i < |r| ==> '0' <= r[i] <= '9'
    decreases n
  {
    if n < 10 then [Digit(n)] else NatToString(n / 10) + [Digit(n % 10)]
  }

  function Digit(d: nat): (c: char)
    requires d < 10
    ensures '0' <= c <= '9'
  {
    ['0', '1', '2', '3', '4', '5', '6', '7', '8', '9'][d]
  }

  function IntToString(n: int): string
  {
    if n < 0 then "-" + NatToString(-n) else NatToString(n)
  }

  // ---------------------------------------------------------------------
  // Sequences

  /** Concatenation regroups freely. */
  lemma AppendAssoc<T>(a: seq<T>, b: seq<T>, c: seq<T>)
    ensures (a + b) + c == a + (b + c)
  {
  }

  /** Python's `list.index(x)`: the position of the first occurrence. */
  function FirstIndex<T(==)>(xs: seq<T>, x: T): (i: nat)
    requires x in xs
    ensures i < |xs| && xs[i] == x
    ensures forall j :: 0 <= j < i ==> xs[j] != x
  {
    if xs[0] == x then 0 else 1 + FirstIndex(xs[1..], x)
  }

  /** Appending an item does not move the first occurrence of the items
      already there, and an absent item first occurs at the end. */
  lemma FirstIndexAppend<T>(xs: seq<T>, x: T, y: T)
    requires y in xs + [x]
    ensures y in xs ==> FirstIndex(xs + [x], y) == FirstIndex(xs, y)
    ensures y !in xs ==> FirstIndex(xs + [x], y) == |xs|
  {
    var i := FirstIndex(xs + [x], y);
    if y in xs {
      var j := FirstIndex(xs, y);
      assert (xs + [x])[j] == y;
      assert i < |xs| ==> xs[i] == y;
    } else {
      assert (xs + [x])[|xs|] == y;
    }
  }

  predicate NoDuplicates<T(==)>(xs: seq<T>)
  {
    forall i, j :: 0 <= i < j < |xs| ==> xs[i] != xs[j]
  }

  /** Without repeats, the last item is not among the others, which have
      no repeats either. */
  lemma NoDuplicatesInit<T>(xs: seq<T>)
    requires NoDuplicates(xs) && |xs| > 0
    ensures NoDuplicates(xs[..|xs| - 1]) && xs[|xs| - 1] !in xs[..|xs| - 1]
  {
    var init := xs[..|xs| - 1];
    forall i, j | 0 <= i < j < |init|
      ensures init[i] != init[j]
    {
      assert init[i] == xs[i] && init[j] == xs[j];
    }
    forall i | 0 <= i < |init|
      ensures init[i] != xs[|xs| - 1]
    {
      assert init[i] == xs[i];
    }
  }

  /** Appends `x` unless it is already present (Python's
      `if x not in l: l.append(x)`). */
  function AppendNew<T(==,!new)>(xs: seq<T>, x: T): (r: seq<T>)
    ensures x in r
    ensures NoDuplicates(xs) ==> NoDuplicates(r)
    ensures x in xs ==> r == xs
    ensures x !in xs ==> r == xs + [x]
  {
    if x in xs then xs else xs + [x]
  }

  /** `xs` appended one by one to `acc`, each only if it is not yet
      present: Python's `for x in xs: if x not in acc: acc.append(x)`. */
  function AddAll<T(==,!new)>(acc: seq<T>, xs: seq<T>): seq<T>
    decreases |xs|
  {
    if |xs| == 0 then acc
    else AppendNew(AddAll(acc, xs[..|xs| - 1]), xs[|xs| - 1])
  }

  /** What was there comes first, unchanged. */
  lemma {:induction false} AddAllExtends<T(!new)>(acc: seq<T>, xs: seq<T>)
    ensures |acc| <= |AddAll(acc, xs)| && AddAll(acc, xs)[..|acc|] == acc
    decreases |xs|
  {
    if |xs| > 0 {
      AddAllExtends(acc, xs[..|xs| - 1]);
    }
  }

  /** Afterwards an item is present iff it was there or is one of `xs`. */
  lemma {:induction false} AddAllMembers<T(!new)>(acc: seq<T>, xs: seq<T>)
    ensures forall y :: y in AddAll(acc, xs) <==> y in acc || y in xs
    decreases |xs|
  {
    if |xs| > 0 {
      AddAllMembers(acc, xs[..|xs| - 1]);
      assert xs == xs[..|xs| - 1] + [xs[|xs| - 1]];
    }
  }

  /** No item is appended twice, so a list without repeats keeps none. */
  lemma {:induction false} AddAllNoDuplicates<T(!new)>(acc: seq<T>, xs: seq<T>)
    requires NoDuplicates(acc)
    ensures NoDuplicates(AddAll(acc, xs))
    decreases |xs|
  {
    if |xs| > 0 {
      AddAllNoDuplicates(acc, xs[..|xs| - 1]);
    }
  }

  /** Items that are all present already change nothing. */
  lemma {:induction false} AddAllPresent<T(!new)>(acc: seq<T>, xs: seq<T>)
    requires forall x :: x in xs ==> x in acc
    ensures AddAll(acc, xs) == acc
    decreases |xs|
  {
    if |xs| > 0 {
      assert forall x :: x in xs[..|xs| - 1] ==> x in xs;
      AddAllPresent(acc, xs[..|xs| - 1]);
    }
  }

  /** A subset is no larger than its superset. */
  lemma SubsetCard<T>(a: set<T>, b: set<T>)
    requires a <= b
    ensures |a| <= |b|
    decreases a
  {
    if a != {} {
      var x :| x in a;
      SubsetCard(a - {x}, b - {x});
    }
  }
}
