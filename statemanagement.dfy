/**
 * The state-management module of the prepare action
 * (modules/state_management_components/state_management_components.py):
 * the versions read from the environment, from the images the node holds
 * and from the image registry, the merge of those, the per-tag build
 * state of each platform component, and the rotation of old state files.
 */
module StateManagement {
  import opened Common
  import opened Values

  /** Versions by resource name: for each name, its versions by tag, and
      possibly its `current_version`. */
  type Records = map<string, map<string, Value>>

  /** The record one version makes: the version listed under the tag. */
  function Listed(tag: string, version: string): map<string, Value>
  {
    map[tag := List([Str(version)])]
  }

  // ---------------------------------------------------------------------
  // Versions from the environment (state_management_components.py:32-40)

  /** A line of `env` output that names a version. */
  predicate EnvLine(line: string)
  {
    Contains(line, "MRV")
  }

  /** The name and the value of an `env` line, when it splits at `=` into
      exactly two parts; otherwise the unpacking raises `ValueError`. */
  function EnvPair(line: string): Option<(string, string)>
  {
    var parts := Split(TrimSpace(line), "=");
    if |parts| == 2 then Some((parts[0], parts[1])) else None
  }

  /** The resource a version variable stands for: its name without
      `_MRV`, lower-cased. */
  function EnvName(key: string): string
  {
    Lower(Replace(key, "_MRV", ""))
  }

  /** `get_env_vars_with_mrv` over the lines of the `env` output: every
      version line, in order, records its value under the default tag for
      its resource. */
  function EnvSpec(lines: seq<string>, tag: string): Attempt<Records>
    decreases |lines|
  {
    if |lines| == 0 then Done(map[])
    else
      match EnvSpec(lines[..|lines| - 1], tag)
      case Threw(e) => Threw(e)
      case Done(d) =>
        var line := lines[|lines| - 1];
        if !EnvLine(line) then Done(d)
        else
          match EnvPair(line)
          case None => Threw(ValueError)
          case Some(kv) => Done(d[EnvName(kv.0) := Listed(tag, kv.1)])
  }

  /** Line `i` is a version line of resource `name`. */
  predicate EnvNames(lines: seq<string>, i: int, name: string)
  {
    0 <= i < |lines| && EnvLine(lines[i]) && EnvPair(lines[i]).Some? && EnvName(EnvPair(lines[i]).value.0) == name
  }

  /** Reading fails exactly when some version line does not split into a
      name and a value. */
  lemma {:induction false} EnvFails(lines: seq<string>, tag: string)
    ensures EnvSpec(lines, tag).Threw? <==> exists i :: 0 <= i < |lines| && EnvLine(lines[i]) && EnvPair(lines[i]).None?
    ensures EnvSpec(lines, tag).Threw? ==> EnvSpec(lines, tag).error == ValueError
    decreases |lines|
  {
    if |lines| > 0 {
      var init := lines[..|lines| - 1];
      var last := lines[|lines| - 1];
      EnvFails(init, tag);
      assert (exists i :: 0 <= i < |lines| && EnvLine(lines[i]) && EnvPair(lines[i]).None?) <==>
        (exists i :: 0 <= i < |init| && EnvLine(init[i]) && EnvPair(init[i]).None?) || (EnvLine(last) && EnvPair(last).None?)
      by {
        if exists i :: 0 <= i < |init| && EnvLine(init[i]) && EnvPair(init[i]).None? {
          var i :| 0 <= i < |init| && EnvLine(init[i]) && EnvPair(init[i]).None?;
          assert lines[i] == init[i];
        }
        if exists i :: 0 <= i < |lines| - 1 && EnvLine(lines[i]) && EnvPair(lines[i]).None? {
          var i :| 0 <= i < |lines| - 1 && EnvLine(lines[i]) && EnvPair(lines[i]).None?;
          assert init[i] == lines[i];
        }
      }
    }
  }

  /** The last line adds its resource, if it names one, to what the
      lines before it record. */
  lemma EnvStepKeys(lines: seq<string>, tag: string, name: string)
    requires |lines| > 0 && EnvSpec(lines, tag).Done?
    ensures EnvSpec(lines[..|lines| - 1], tag).Done?
    ensures name in EnvSpec(lines, tag).value <==>
      name in EnvSpec(lines[..|lines| - 1], tag).value || EnvNames(lines, |lines| - 1, name)
  {
  }

  /** A resource is recorded iff a version line names it. */
  lemma {:induction false} EnvRecorded(lines: seq<string>, tag: string, name: string)
    requires EnvSpec(lines, tag).Done?
    ensures name in EnvSpec(lines, tag).value <==> exists i :: EnvNames(lines, i, name)
    decreases |lines|
  {
    if |lines| > 0 {
      var init := lines[..|lines| - 1];
      EnvStepKeys(lines, tag, name);
      EnvRecorded(init, tag, name);
      if exists i :: EnvNames(init, i, name) {
        var i :| EnvNames(init, i, name);
        assert init[i] == lines[i];
        assert EnvNames(lines, i, name);
      }
      if exists i :: EnvNames(lines, i, name) && i < |lines| - 1 {
        var i :| EnvNames(lines, i, name) && i < |lines| - 1;
        assert init[i] == lines[i];
        assert EnvNames(init, i, name);
      }
    }
  }

  /** A recorded resource holds the value of the last line naming it. */
  lemma {:induction false} EnvLast(lines: seq<string>, tag: string, i: nat)
    requires EnvSpec(lines, tag).Done?
    requires i < |lines| && EnvLine(lines[i]) && EnvPair(lines[i]).Some?
    requires forall j :: i < j < |lines| ==> !EnvNames(lines, j, EnvName(EnvPair(lines[i]).value.0))
    ensures var name := EnvName(EnvPair(lines[i]).value.0);
      name in EnvSpec(lines, tag).value && EnvSpec(lines, tag).value[name] == Listed(tag, EnvPair(lines[i]).value.1)
    decreases |lines|
  {
    var init := lines[..|lines| - 1];
    var name := EnvName(EnvPair(lines[i]).value.0);
    assert EnvSpec(init, tag).Done?;
    if i < |lines| - 1 {
      assert !EnvNames(lines, |lines| - 1, name);
      assert init[i] == lines[i];
      forall j | i < j < |init|
        ensures !EnvNames(init, j, name)
      {
        assert init[j] == lines[j];
        assert !EnvNames(lines, j, name);
      }
      EnvLast(init, tag, i);
    }
  }

  /** `get_env_vars_with_mrv` (state_management_components.py:32-40) on
      the `env` output it reads. */
  method EnvVersions(output: string, tag: string) returns (r: Attempt<Records>)
    ensures r == EnvSpec(Split(output, "\n"), tag)
  {
    var lines := Split(output, "\n");
    var data: Records := map[];
    var i := 0;
    while i < |lines|
      invariant 0 <= i <= |lines|
      invariant EnvSpec(lines[..i], tag) == Done(data)
    {
      assert lines[..i + 1][..i] == lines[..i];
      var line := lines[i];
      if EnvLine(line) {
        var parts := Split(TrimSpace(line), "=");
        if |parts| != 2 {
          EnvFails(lines, tag);
          assert EnvLine(lines[i]) && EnvPair(lines[i]).None?;
          return Threw(ValueError);
        }
        data := data[EnvName(parts[0]) := Listed(tag, parts[1])];
      }
      i := i + 1;
    }
    assert lines[..i] == lines;
    return Done(data);
  }

  // ---------------------------------------------------------------------
  // Versions from the images on the node (state_management_components.py:85-153)

  /** What one `crictl images` line records: the resource, the tag suffix
      without `-cur`, and the version id. */
  datatype ImageVersion = ImageVersion(mrn: string, suffix: string, id: string)

  /** A tag with a single-underscore separator: it holds `_` but no `__`. */
  predicate Versioned(tag: string)
  {
    Contains(tag, "_") && !Contains(tag, "__")
  }

  /** The path segments other than the registry address, in order. */
  function Without(parts: seq<string>, uri: string): (r: seq<string>)
    ensures forall p :: p in r <==> p in parts && p != uri
    decreases |parts|
  {
    if |parts| == 0 then []
    else
      var rest := Without(parts[1..], uri);
      assert forall p :: p in parts <==> p == parts[0] || p in parts[1..];
      if parts[0] == uri then rest else [parts[0]] + rest
  }

  /** The resource an image stands for: its path without the registry
      address, the segments joined by `__`, every `-` turned into `_`. */
  function ImageName(image: string, uri: string): string
  {
    Replace(Join(Without(Split(image, "/"), uri), "__"), "-", "_")
  }

  /** The record a `crictl images` line makes, if any: lines of fewer than
      two columns, tags without `cur` and tags that are not single-underscore
      versions are skipped. */
  function CrictlEntry(line: string, uri: string): Option<ImageVersion>
  {
    var columns := Fields(line);
    if |columns| < 2 then None
    else
      var image, tag := columns[0], columns[1];
      if !Contains(tag, "cur") || !Versioned(tag) then None
      else
        match SplitOnce(tag, "_")
        case None => None
        case Some(parts) => Some(ImageVersion(ImageName(image, uri), Replace(parts.1, "-cur", ""), parts.0))
  }

  /** A line is recorded exactly when it has an image and a tag, and the
      tag is a current single-underscore version; the id is the tag up to
      its first `_`, the suffix the rest without `-cur`. */
  lemma CrictlEntryMeaning(line: string, uri: string)
    ensures var columns := Fields(line);
      CrictlEntry(line, uri).Some? <==>
        |columns| >= 2 && Contains(columns[1], "cur") && Versioned(columns[1])
    ensures CrictlEntry(line, uri).Some? ==>
      var e, image, tag := CrictlEntry(line, uri).value, Fields(line)[0], Fields(line)[1];
      e.mrn == ImageName(image, uri) && '_' !in e.id && HasPrefix(tag, e.id + "_")
      && e.suffix == Replace(tag[|e.id| + 1..], "-cur", "")
  {
    var columns := Fields(line);
    if |columns| >= 2 && Contains(columns[1], "cur") && Versioned(columns[1]) {
      var tag := columns[1];
      var w := ContainsWitness(tag, "_");
      if IndexOf(tag, "_").None? {
        assert HasPrefix(tag[w..], "_");
        assert false;
      }
      var k := IndexOf(tag, "_").value;
      var parts := SplitOnce(tag, "_").value;
      assert parts.0 == tag[..k] && parts.1 == tag[k + 1..];
      forall j | 0 <= j < k
        ensures tag[j] != '_'
      {
        assert !HasPrefix(tag[j..], "_");
      }
      assert tag[..k + 1] == parts.0 + "_";
    }
  }

  /** The record of each line, in order. */
  function CrictlEntries(lines: seq<string>, uri: string): (r: seq<Option<ImageVersion>>)
    ensures |r| == |lines| && forall i :: 0 <= i < |lines| ==> r[i] == CrictlEntry(lines[i], uri)
  {
    seq(|lines|, i requires 0 <= i < |lines| => CrictlEntry(lines[i], uri))
  }

  /** The records in order: a later record for the same resource and
      suffix overwrites an earlier one. */
  function RecordImages(entries: seq<Option<ImageVersion>>): Records
    decreases |entries|
  {
    if |entries| == 0 then map[]
    else
      var d := RecordImages(entries[..|entries| - 1]);
      match entries[|entries| - 1]
      case None => d
      case Some(e) => d[e.mrn := (if e.mrn in d then d[e.mrn] else map[])[e.suffix := List([Str(e.id)])]]
  }

  /** The versions `process_crictl_output` records from the lines it
      reads. */
  function CrictlSpec(lines: seq<string>, uri: string): Records
  {
    RecordImages(CrictlEntries(lines, uri))
  }

  /** Record `i` is a version of resource `mrn`. */
  predicate ImageAt(entries: seq<Option<ImageVersion>>, i: int, mrn: string)
  {
    0 <= i < |entries| && entries[i].Some? && entries[i].value.mrn == mrn
  }

  /** Record `i` is a version of resource `mrn` under `suffix`. */
  predicate SuffixAt(entries: seq<Option<ImageVersion>>, i: int, mrn: string, suffix: string)
  {
    ImageAt(entries, i, mrn) && entries[i].value.suffix == suffix
  }

  /** The suffixes a resource is recorded under, none when it is not. */
  function CrictlSuffixes(d: Records, mrn: string): map<string, Value>
  {
    if mrn in d then d[mrn] else map[]
  }

  /** A resource is recorded iff some line records it. */
  lemma {:induction false} ImagesRecorded(entries: seq<Option<ImageVersion>>, mrn: string)
    ensures mrn in RecordImages(entries) <==> exists i :: ImageAt(entries, i, mrn)
    decreases |entries|
  {
    if |entries| > 0 {
      var init := entries[..|entries| - 1];
      ImagesRecorded(init, mrn);
      forall i | 0 <= i < |init|
        ensures ImageAt(init, i, mrn) <==> ImageAt(entries, i, mrn)
      {
        assert init[i] == entries[i];
      }
      if !ImageAt(entries, |entries| - 1, mrn) && exists i :: ImageAt(entries, i, mrn) {
        var i :| ImageAt(entries, i, mrn);
        assert ImageAt(init, i, mrn);
      }
    }
  }

  /** A resource is recorded under a suffix iff some line records both. */
  lemma {:induction false} SuffixesRecorded(entries: seq<Option<ImageVersion>>, mrn: string, suffix: string)
    ensures suffix in CrictlSuffixes(RecordImages(entries), mrn) <==> exists i :: SuffixAt(entries, i, mrn, suffix)
    decreases |entries|
  {
    if |entries| > 0 {
      var init := entries[..|entries| - 1];
      SuffixesRecorded(init, mrn, suffix);
      forall i | 0 <= i < |init|
        ensures SuffixAt(init, i, mrn, suffix) <==> SuffixAt(entries, i, mrn, suffix)
      {
        assert init[i] == entries[i];
      }
      var d := RecordImages(init);
      var last := entries[|entries| - 1];
      if last.Some? && last.value.mrn == mrn {
        assert CrictlSuffixes(RecordImages(entries), mrn) == CrictlSuffixes(d, mrn)[last.value.suffix := List([Str(last.value.id)])];
      } else {
        assert CrictlSuffixes(RecordImages(entries), mrn) == CrictlSuffixes(d, mrn);
      }
      if !SuffixAt(entries, |entries| - 1, mrn, suffix) && exists i :: SuffixAt(entries, i, mrn, suffix) {
        var i :| SuffixAt(entries, i, mrn, suffix);
        assert SuffixAt(init, i, mrn, suffix);
      }
    }
  }

  /** A recorded suffix holds the id of the last line that records it. */
  lemma {:induction false} ImagesLast(entries: seq<Option<ImageVersion>>, i: nat)
    requires i < |entries| && entries[i].Some?
    requires forall j :: i < j < |entries| ==> !SuffixAt(entries, j, entries[i].value.mrn, entries[i].value.suffix)
    ensures var e := entries[i].value;
      e.mrn in RecordImages(entries) && e.suffix in RecordImages(entries)[e.mrn]
      && RecordImages(entries)[e.mrn][e.suffix] == List([Str(e.id)])
    decreases |entries|
  {
    var init := entries[..|entries| - 1];
    var e := entries[i].value;
    if i < |entries| - 1 {
      assert !SuffixAt(entries, |entries| - 1, e.mrn, e.suffix);
      assert init[i] == entries[i];
      forall j | i < j < |init|
        ensures !SuffixAt(init, j, e.mrn, e.suffix)
      {
        assert init[j] == entries[j];
        assert !SuffixAt(entries, j, e.mrn, e.suffix);
      }
      ImagesLast(init, i);
    }
  }

  /** The lines of the `crictl images | grep images` output. */
  function CrictlLines(stdout: string): (r: seq<string>)
    ensures |r| >= 1 && Join(r, "\n") == TrimSpace(stdout)
    ensures forall i :: 0 <= i < |r| ==> '\n' !in r[i]
  {
    JoinSplit(TrimSpace(stdout), "\n");
    SplitCharPieces(TrimSpace(stdout), '\n');
    Split(TrimSpace(stdout), "\n")
  }

  /** The loop of `process_crictl_output` over the lines it keeps. */
  method ParseCrictl(lines: seq<string>, uri: string) returns (result: Records)
    ensures result == CrictlSpec(lines, uri)
  {
    result := map[];
    var i := 0;
    while i < |lines|
      invariant 0 <= i <= |lines|
      invariant result == CrictlSpec(lines[..i], uri)
    {
      assert CrictlEntries(lines[..i + 1], uri)[..i] == CrictlEntries(lines[..i], uri);
      var columns := Fields(lines[i]);
      if |columns| >= 2 {
        var image, tag := columns[0], columns[1];
        if Contains(tag, "cur") && Contains(tag, "_") && !Contains(tag, "__") {
          var parts := SplitOnce(tag, "_");
          if parts.Some? {
            var id, suffix := parts.value.0, Replace(parts.value.1, "-cur", "");
            var mrn := ImageName(image, uri);
            if mrn in result {
              result := result[mrn := result[mrn][suffix := List([Str(id)])]];
            } else {
              result := result[mrn := map[suffix := List([Str(id)])]];
            }
          }
        }
      }
      i := i + 1;
    }
    assert lines[..i] == lines;
  }

  /** `process_crictl_output` as written: it drops the last line before
      the loop, although `grep images` has already removed the header. */
  method ProcessCrictlOutput(stdout: string, uri: string) returns (result: Records)
    ensures result == CrictlSpec(CrictlLines(stdout)[..|CrictlLines(stdout)| - 1], uri)
  {
    var lines := CrictlLines(stdout);
    lines := lines[..|lines| - 1];
    result := ParseCrictl(lines, uri);
  }

  /** The versions the node's images carry: every line of the output. */
  function LocalImages(stdout: string, uri: string): Records
  {
    CrictlSpec(CrictlLines(stdout), uri)
  }

  /** Every output line that names a current version is recorded. */
  lemma LocalImagesRecorded(stdout: string, uri: string, i: nat)
    requires i < |CrictlLines(stdout)| && CrictlEntry(CrictlLines(stdout)[i], uri).Some?
    ensures var e := CrictlEntry(CrictlLines(stdout)[i], uri).value;
      e.mrn in LocalImages(stdout, uri) && e.suffix in LocalImages(stdout, uri)[e.mrn]
  {
    var entries := CrictlEntries(CrictlLines(stdout), uri);
    var e := entries[i].value;
    assert SuffixAt(entries, i, e.mrn, e.suffix);
    ImagesRecorded(entries, e.mrn);
    SuffixesRecorded(entries, e.mrn, e.suffix);
  }

  /** The output of a single matching image is lost as written. */
  lemma CrictlDropsOnlyLine(line: string, uri: string)
    requires CrictlEntry(line, uri).Some? && TrimSpace(line) == line && '\n' !in line
    ensures CrictlSpec(CrictlLines(line)[..|CrictlLines(line)| - 1], uri) == map[]
    ensures CrictlEntry(line, uri).value.mrn in LocalImages(line, uri)
  {
    SplitNone(line, "\n");
    assert CrictlLines(line) == [line];
    LocalImagesRecorded(line, uri, 0);
  }

  /** How the `crictl` command ended: with its output and error text, or
      with a timeout, a failing exit status or another error. */
  datatype CrictlRun = Finished(stdout: string, stderr: string) | Failed

  /** `fetch_local_images`: nothing when the command fails or writes to
      its error stream. */
  function FetchLocalImages(run: CrictlRun, uri: string): (r: Records)
    ensures run.Failed? || run.stderr != "" ==> r == map[]
    ensures run.Finished? && run.stderr == "" ==> r == LocalImages(run.stdout, uri)
  {
    match run
    case Failed => map[]
    case Finished(stdout, stderr) => if stderr != "" then map[] else LocalImages(stdout, uri)
  }

  // ---------------------------------------------------------------------
  // Versions from the image registry (state_management_components.py:230-257)

  /** The first `_`-separated piece of a versioned tag: the version. */
  function TagPrefix(tag: string): string
    requires Versioned(tag)
  {
    Split(tag, "_")[0]
  }

  /** The second `_`-separated piece of a versioned tag, without `-cur`:
      the line of versions it belongs to. */
  function TagSuffix(tag: string): string
    requires Versioned(tag)
  {
    ContainsChar(tag, '_');
    SplitCharFirst(tag, '_');
    Replace(Split(tag, "_")[1], "-cur", "")
  }

  /** A suffix holds no `_`, so it is never the `current_version` key. */
  lemma SuffixNotCurrent(tag: string)
    requires Versioned(tag)
    ensures '_' !in TagSuffix(tag) && TagSuffix(tag) != "current_version"
  {
    ContainsChar(tag, '_');
    SplitCharFirst(tag, '_');
    SplitCharPieces(tag, '_');
    ReplaceSources(Split(tag, "_")[1], "-cur", "");
    assert "current_version"[7] == '_';
  }

  /** The tag dictionary of one repository: the versions under each
      suffix, in tag order, and the current version if a current tag was
      seen. The two parts share no key. */
  datatype TagDict = TagDict(groups: map<string, seq<string>>, current: Option<string>)

  /** One tag of the registry's list: a versioned tag appends its version
      under its suffix and, when it is a `cur` tag, becomes the current
      version; any other tag is skipped. */
  function TagStep(d: TagDict, tag: string): TagDict
  {
    if !Versioned(tag) then d
    else
      var prefix, suffix := TagPrefix(tag), TagSuffix(tag);
      var groups := d.groups[suffix := (if suffix in d.groups then d.groups[suffix] else []) + [prefix]];
      TagDict(groups, if Contains(tag, "cur") then Some(prefix) else d.current)
  }

  /** The tags in order. */
  function TagsSpec(tags: seq<string>): TagDict
    decreases |tags|
  {
    if |tags| == 0 then TagDict(map[], None)
    else TagStep(TagsSpec(tags[..|tags| - 1]), tags[|tags| - 1])
  }

  /** Some tag of the list mentions `cur`. */
  predicate AnyCurrent(tags: seq<string>)
  {
    exists i :: 0 <= i < |tags| && Contains(tags[i], "cur")
  }

  /** The dictionary a registry response yields: empty unless some tag
      mentions `cur`. */
  function TagDictOf(tags: seq<string>): TagDict
  {
    if AnyCurrent(tags) then TagsSpec(tags) else TagDict(map[], None)
  }

  /** The versions of the versioned tags with a given suffix, in order: the
      reference the tag dictionary is checked against. */
  function PrefixesFor(tags: seq<string>, suffix: string): (r: seq<string>)
    ensures |r| <= |tags|
    ensures forall v :: v in r ==> exists t :: t in tags && Versioned(t) && TagSuffix(t) == suffix && v == TagPrefix(t)
    ensures forall t :: t in tags && Versioned(t) && TagSuffix(t) == suffix ==> TagPrefix(t) in r
  {
    if |tags| == 0 then []
    else
      var rest := PrefixesFor(tags[1..], suffix);
      if Versioned(tags[0]) && TagSuffix(tags[0]) == suffix then [TagPrefix(tags[0])] + rest else rest
  }

  lemma {:induction false} PrefixesForAppend(tags: seq<string>, tag: string, suffix: string)
    ensures PrefixesFor(tags + [tag], suffix)
      == PrefixesFor(tags, suffix) + (if Versioned(tag) && TagSuffix(tag) == suffix then [TagPrefix(tag)] else [])
    decreases |tags|
  {
    if |tags| == 0 {
      assert [tag][1..] == [];
    } else {
      assert (tags + [tag])[1..] == tags[1..] + [tag];
      PrefixesForAppend(tags[1..], tag, suffix);
    }
  }

  /** Under each suffix stand the versions of exactly the versioned tags
      with that suffix, in tag order; `current_version` is never a suffix. */
  lemma {:induction false} TagsGroups(tags: seq<string>, suffix: string)
    ensures suffix in TagsSpec(tags).groups <==> PrefixesFor(tags, suffix) != []
    ensures suffix in TagsSpec(tags).groups ==> TagsSpec(tags).groups[suffix] == PrefixesFor(tags, suffix)
    ensures "current_version" !in TagsSpec(tags).groups
    decreases |tags|
  {
    if |tags| > 0 {
      var init, last := tags[..|tags| - 1], tags[|tags| - 1];
      TagsGroups(init, suffix);
      TagsGroups(init, "current_version");
      assert init + [last] == tags;
      PrefixesForAppend(init, last, suffix);
      if Versioned(last) {
        SuffixNotCurrent(last);
      }
    }
  }

  /** Tag `i` is a current versioned tag. */
  predicate CurrentAt(tags: seq<string>, i: int)
  {
    0 <= i < |tags| && Versioned(tags[i]) && Contains(tags[i], "cur")
  }

  /** The current version is the version of the last current versioned
      tag, and there is one iff such a tag exists. */
  lemma {:induction false} TagsCurrent(tags: seq<string>, i: int)
    requires CurrentAt(tags, i) && forall j :: i < j < |tags| ==> !CurrentAt(tags, j)
    ensures TagsSpec(tags).current == Some(TagPrefix(tags[i]))
    decreases |tags|
  {
    var init := tags[..|tags| - 1];
    if i < |tags| - 1 {
      assert !CurrentAt(tags, |tags| - 1);
      assert init[i] == tags[i];
      forall j | i < j < |init|
        ensures !CurrentAt(init, j)
      {
        assert init[j] == tags[j];
        assert !CurrentAt(tags, j);
      }
      TagsCurrent(init, i);
    }
  }

  lemma {:induction false} TagsNoCurrent(tags: seq<string>)
    requires forall j :: 0 <= j < |tags| ==> !CurrentAt(tags, j)
    ensures TagsSpec(tags).current.None?
    decreases |tags|
  {
    if |tags| > 0 {
      var init := tags[..|tags| - 1];
      forall j | 0 <= j < |init|
        ensures !CurrentAt(init, j)
      {
        assert init[j] == tags[j];
        assert !CurrentAt(tags, j);
      }
      TagsNoCurrent(init);
      assert !CurrentAt(tags, |tags| - 1);
    }
  }

  /** The loop over one response's tags (state_management_components.py:235-251). */
  method CurrentTags(tags: seq<string>) returns (d: TagDict)
    ensures d == TagDictOf(tags)
  {
    var exist := false;
    var k := 0;
    while k < |tags|
      invariant 0 <= k <= |tags|
      invariant exist <==> exists i :: 0 <= i < k && Contains(tags[i], "cur")
    {
      exist := exist || Contains(tags[k], "cur");
      k := k + 1;
    }
    d := TagDict(map[], None);
    if exist {
      var i := 0;
      while i < |tags|
        invariant 0 <= i <= |tags|
        invariant d == TagsSpec(tags[..i])
      {
        assert tags[..i + 1][..i] == tags[..i];
        var cur := tags[i];
        if Contains(cur, "_") && !Contains(cur, "__") {
          var prefix, suffix := TagPrefix(cur), TagSuffix(cur);
          if suffix in d.groups {
            d := d.(groups := d.groups[suffix := d.groups[suffix] + [prefix]]);
          } else {
            assert [] + [prefix] == [prefix];
            d := d.(groups := d.groups[suffix := [prefix]]);
          }
          if Contains(cur, "cur") {
            d := d.(current := Some(prefix));
          }
        }
        i := i + 1;
      }
      assert tags[..i] == tags;
    }
  }

  /** The dictionary as the module returns it: each suffix with its list
      of versions, and `current_version` with the current one. */
  function TagValues(d: TagDict): map<string, Value>
  {
    var groups := map s | s in d.groups :: List(Strs(d.groups[s]));
    if d.current.Some? then groups["current_version" := Str(d.current.value)] else groups
  }

  /** One registry answer: the repository's name and its `tags`, which
      the registry may give as null. */
  datatype TagsResponse = TagsResponse(name: string, tags: Option<seq<string>>)

  /** The resource a repository stands for: `/` becomes `__`, `-` becomes
      `_`. */
  function RepositoryName(name: string): string
  {
    Replace(Replace(name, "/", "__"), "-", "_")
  }

  /** The dictionary one answer yields; null tags count as none. */
  function ResponseValues(response: TagsResponse): map<string, Value>
  {
    TagValues(TagDictOf(if response.tags.Some? then response.tags.value else []))
  }

  /** The answers in the order they complete: a later answer for the same
      resource updates the earlier dictionary key by key. */
  function RegistrySpec(responses: seq<TagsResponse>): Records
    decreases |responses|
  {
    if |responses| == 0 then map[]
    else
      var results := RegistrySpec(responses[..|responses| - 1]);
      var response := responses[|responses| - 1];
      var name := RepositoryName(response.name);
      results[name := (if name in results then results[name] else map[]) + ResponseValues(response)]
  }

  /** Answer `i` names resource `name`. */
  predicate AnswersFor(responses: seq<TagsResponse>, i: int, name: string)
  {
    0 <= i < |responses| && RepositoryName(responses[i].name) == name
  }

  /** A resource has a dictionary iff some answer names it; the
      dictionary holds every key of the last such answer, with its value. */
  lemma {:induction false} RegistryRecorded(responses: seq<TagsResponse>, name: string)
    ensures name in RegistrySpec(responses) <==> exists i :: AnswersFor(responses, i, name)
    decreases |responses|
  {
    if |responses| > 0 {
      var init := responses[..|responses| - 1];
      RegistryRecorded(init, name);
      forall i | 0 <= i < |init|
        ensures AnswersFor(init, i, name) <==> AnswersFor(responses, i, name)
      {
        assert init[i] == responses[i];
      }
      if !AnswersFor(responses, |responses| - 1, name) && exists i :: AnswersFor(responses, i, name) {
        var i :| AnswersFor(responses, i, name);
        assert AnswersFor(init, i, name);
      }
    }
  }

  /** The last answer for a resource decides every key it holds. */
  lemma {:induction false} RegistryLast(responses: seq<TagsResponse>, i: nat, key: string)
    requires i < |responses| && key in ResponseValues(responses[i])
    requires forall j :: i < j < |responses| ==> !AnswersFor(responses, j, RepositoryName(responses[i].name))
    ensures var name := RepositoryName(responses[i].name);
      name in RegistrySpec(responses) && key in RegistrySpec(responses)[name]
      && RegistrySpec(responses)[name][key] == ResponseValues(responses[i])[key]
    decreases |responses|
  {
    var init := responses[..|responses| - 1];
    var name := RepositoryName(responses[i].name);
    if i < |responses| - 1 {
      assert !AnswersFor(responses, |responses| - 1, name);
      assert init[i] == responses[i];
      forall j | i < j < |init|
        ensures !AnswersFor(init, j, name)
      {
        assert init[j] == responses[j];
        assert !AnswersFor(responses, j, name);
      }
      RegistryLast(init, i, key);
    }
  }

  /** The collecting loop of `fetch_from_registry` over the answers in the
      order they complete. */
  method RegistryTags(responses: seq<TagsResponse>) returns (results: Records)
    ensures results == RegistrySpec(responses)
  {
    results := map[];
    var i := 0;
    while i < |responses|
      invariant 0 <= i <= |responses|
      invariant results == RegistrySpec(responses[..i])
    {
      assert responses[..i + 1][..i] == responses[..i];
      var tags := if responses[i].tags.Some? then responses[i].tags.value else [];
      var d := CurrentTags(tags);
      var name := RepositoryName(responses[i].name);
      if name in results {
        results := results[name := results[name] + TagValues(d)];
      } else {
        assert map[] + TagValues(d) == TagValues(d);
        results := results[name := TagValues(d)];
      }
      i := i + 1;
    }
    assert responses[..i] == responses;
  }

  // ---------------------------------------------------------------------
  // Merging the registry's versions into the node's (state_management_components.py:68-83)

  /** The merged versions: a resource the registry knows gets the node's
      dictionary updated by the registry's, any other keeps the node's. */
  function MergeSpec(registry: Records, local: Records): Records
  {
    map k | k in local.Keys + registry.Keys ::
      if k in registry then CrictlSuffixes(local, k) + registry[k] else local[k]
  }

  /** Every resource of either side is kept; for a resource, the registry's
      value of a key overrides the node's, and the node's other keys
      remain. */
  lemma MergeMeaning(registry: Records, local: Records, k: string, key: string)
    ensures k in MergeSpec(registry, local) <==> k in registry || k in local
    ensures key in CrictlSuffixes(MergeSpec(registry, local), k)
      <==> key in CrictlSuffixes(registry, k) || key in CrictlSuffixes(local, k)
    ensures key in CrictlSuffixes(registry, k) ==>
      MergeSpec(registry, local)[k][key] == registry[k][key]
    ensures key !in CrictlSuffixes(registry, k) && key in CrictlSuffixes(local, k) ==>
      MergeSpec(registry, local)[k][key] == local[k][key]
  {
  }

  /** The merging loop of `fetch_version`: it updates the node's
      dictionaries in turn. */
  method MergeImages(registry: Records, local: Records) returns (merged: Records)
    ensures merged == MergeSpec(registry, local)
  {
    merged := local;
    var todo := registry.Keys;
    ghost var done: set<string> := {};
    while todo != {}
      invariant done <= registry.Keys && todo == registry.Keys - done
      invariant forall k :: k in merged <==> k in local || k in done
      invariant forall k :: k in merged ==>
        merged[k] == if k in done then CrictlSuffixes(local, k) + registry[k] else local[k]
      decreases todo
    {
      var key :| key in todo;
      if key in merged {
        merged := merged[key := merged[key] + registry[key]];
      } else {
        assert map[] + registry[key] == registry[key];
        merged := merged[key := registry[key]];
      }
      todo := todo - {key};
      done := done + {key};
    }
    assert done == registry.Keys;
  }

  /** `ImagesVersionFetcher.fetch_version`: the registry's versions merged
      into those of the node's images. */
  function FetchImages(responses: seq<TagsResponse>, run: CrictlRun, uri: string): (r: Records)
    ensures forall k :: k in r <==> k in RegistrySpec(responses) || k in FetchLocalImages(run, uri)
    ensures run.Failed? || run.stderr != "" ==> r == RegistrySpec(responses)
  {
    ghost var registry := RegistrySpec(responses);
    assert forall k :: k in registry ==> CrictlSuffixes(map[], k) + registry[k] == registry[k];
    MergeSpec(RegistrySpec(responses), FetchLocalImages(run, uri))
  }

  // ---------------------------------------------------------------------
  // The build state of one tag (state_management_components.py:264-277)

  /** Python's `x in container` for any loaded value `x`: list elements
      compare by equality, a string takes only a string, a dict takes only
      a hashable key, and nothing else is a container. */
  function Member(x: Value, container: Value): Attempt<bool>
  {
    match container
    case List(items) => Done(x in items)
    case Str(s) => if x.Str? then Done(Contains(s, x.s)) else Threw(TypeError)
    case Dict(m) => if x.Dict? || x.List? then Threw(TypeError) else Done(x.Str? && x.s in m)
    case _ => Threw(TypeError)
  }

  /** `state_helper`: the state of a tag against the versions recorded
      for the resource (`record` is empty when there is no record). */
  function StateHelper(newVersion: Value, tag: string, record: map<string, Value>): Attempt<map<string, Value>>
  {
    var recorded := if tag in record then record[tag] else List([]);
    var current := if "current_version" in record then record["current_version"] else if tag in record then record[tag] else Nil;
    match Member(newVersion, recorded)
    case Threw(e) => Threw(e)
    case Done(found) =>
      Done(map[tag := Dict(map["mrv" := recorded, "mrv_cur" := current, "exists" := Bool(recorded != Nil),
                              "fresh" := Bool(found), "build" := Bool(!found)])])
  }

  /** The fields of a tag's state, when the helper returns. */
  function StateFields(r: Attempt<map<string, Value>>, tag: string): map<string, Value>
  {
    if r.Done? && tag in r.value && r.value[tag].Dict? then r.value[tag].entries else map[]
  }

  /** The helper returns one state, for the tag, in which `build` is the
      negation of `fresh` and `exists` holds: a record of None makes the
      membership test raise, so a state never says it does not exist. */
  lemma StateHelperShape(newVersion: Value, tag: string, record: map<string, Value>)
    ensures var r := StateHelper(newVersion, tag, record);
      r.Done? ==> r.value.Keys == {tag} && r.value[tag].Dict?
    ensures var f := StateFields(StateHelper(newVersion, tag, record), tag);
      StateHelper(newVersion, tag, record).Done? ==>
        f.Keys == {"mrv", "mrv_cur", "exists", "fresh", "build"}
        && f["fresh"].Bool? && f["build"] == Bool(!f["fresh"].b) && f["exists"] == Bool(true)
    ensures tag in record && record[tag] == Nil ==> StateHelper(newVersion, tag, record) == Threw(TypeError)
  {
  }

  /** A state is fresh iff the new version is among the recorded ones; the
      recorded versions and the current version are reported back, the
      current version preferring `current_version`. */
  lemma StateHelperFresh(newVersion: Value, tag: string, record: map<string, Value>)
    requires tag in record && record[tag].List?
    ensures var f := StateFields(StateHelper(newVersion, tag, record), tag);
      StateHelper(newVersion, tag, record).Done?
      && f["fresh"] == Bool(newVersion in record[tag].items) && f["mrv"] == record[tag]
      && f["mrv_cur"] == (if "current_version" in record then record["current_version"] else record[tag])
  {
  }

  /** Without a record, a tag must be built: nothing is recorded, there is
      no current version, and the state still says it exists. */
  lemma StateHelperUnrecorded(newVersion: Value, tag: string)
    ensures var f := StateFields(StateHelper(newVersion, tag, map[]), tag);
      StateHelper(newVersion, tag, map[]).Done?
      && f["mrv"] == List([]) && f["mrv_cur"] == Nil && f["exists"] == Bool(true)
      && f["fresh"] == Bool(false) && f["build"] == Bool(true)
  {
  }

  // ---------------------------------------------------------------------
  // The states of the platform components (state_management_components.py:279-309)

  /** A platform component's dictionary, which `create_state` updates in
      place and returns by reference. */
  class Component {
    var fields: map<string, Value>

    constructor (fields: map<string, Value>)
      ensures this.fields == fields
    {
      this.fields := fields;
    }
  }

  /** A component's dictionary after some steps, and the exception that
      stopped them, if any. */
  datatype Outcome = Outcome(fields: map<string, Value>, raised: Option<Raise>)

  /** The Jinja reference to a component's service password. */
  function PasswordTemplate(mrsn: string): string
  {
    "{{ " + Replace(mrsn, "-", "_") + "_service_plain_password|default(\"\") }}"
  }

  /** The tags `for tag in comp["mrt"]` visits: a list's items, a string's
      characters. */
  function TagList(mrt: Value): Attempt<seq<Value>>
  {
    match mrt
    case List(items) => Done(items)
    case Str(s) => Done(seq(|s|, i requires 0 <= i < |s| => Str([s[i]])))
    case _ => Threw(TypeError)
  }

  /** The state of resource `mrn` is recorded under `tag`. */
  predicate Known(current: Records, mrn: string, tag: Value)
  {
    tag.Str? && mrn in current && tag.s in current[mrn]
  }

  /** One tag of a component: a recorded tag sets the password reference
      and compares against the record, and the tag's state is merged into
      `state`. */
  function TagStateStep(fields: map<string, Value>, mrn: string, mrv: Value, tag: Value, current: Records): Outcome
  {
    if !tag.Str? then Outcome(fields, Some(TypeError))
    else
      var known := Known(current, mrn, tag);
      if known && "mrsn" !in fields then Outcome(fields, Some(KeyError))
      else if known && !fields["mrsn"].Str? then Outcome(fields, Some(AttributeError))
      else
        var withPassword := if known then fields["password" := Str(PasswordTemplate(fields["mrsn"].s))] else fields;
        match StateHelper(mrv, tag.s, if known then current[mrn] else map[])
        case Threw(e) => Outcome(withPassword, Some(e))
        case Done(state) =>
          if "state" !in withPassword then Outcome(withPassword["state" := Dict(state)], None)
          else if withPassword["state"].Dict? then Outcome(withPassword["state" := Dict(withPassword["state"].entries + state)], None)
          else Outcome(withPassword, Some(AttributeError))
  }

  /** The tags in turn, until one raises. */
  function TagsStateSpec(fields: map<string, Value>, mrn: string, mrv: Value, tags: seq<Value>, current: Records): Outcome
    decreases |tags|
  {
    if |tags| == 0 then Outcome(fields, None)
    else
      var o := TagStateStep(fields, mrn, mrv, tags[0], current);
      if o.raised.Some? then o else TagsStateSpec(o.fields, mrn, mrv, tags[1..], current)
  }

  /** One component: without `mrv` it is skipped; otherwise it is stored,
      and its `mrt` tags are visited. */
  function ComponentSpec(fields: map<string, Value>, mrn: string, current: Records): Outcome
  {
    if "mrv" !in fields then Outcome(fields, Some(KeyError))
    else if "mrt" !in fields then Outcome(fields, Some(KeyError))
    else
      match TagList(fields["mrt"])
      case Threw(e) => Outcome(fields, Some(e))
      case Done(tags) => TagsStateSpec(fields, mrn, fields["mrv"], tags, current)
  }

  /** One tag changes only `password` and `state`; `password` only when
      the tag's state is recorded, and `state` keeps the tags it had. */
  lemma TagStateStepKeeps(fields: map<string, Value>, mrn: string, mrv: Value, tag: Value, current: Records)
    ensures var f := TagStateStep(fields, mrn, mrv, tag, current).fields;
      forall k :: k != "password" && k != "state" ==> (k in f <==> k in fields) && (k in f ==> f[k] == fields[k])
    ensures var f := TagStateStep(fields, mrn, mrv, tag, current).fields;
      !Known(current, mrn, tag) ==> ("password" in f <==> "password" in fields) && ("password" in f ==> f["password"] == fields["password"])
    ensures var o := TagStateStep(fields, mrn, mrv, tag, current);
      o.raised.None? ==>
        (tag.Str? && "state" in o.fields && o.fields["state"].Dict? && tag.s in o.fields["state"].entries
         && ("state" in fields ==> fields["state"].Dict? && fields["state"].entries.Keys <= o.fields["state"].entries.Keys))
    ensures var o := TagStateStep(fields, mrn, mrv, tag, current);
      o.raised.None? && Known(current, mrn, tag) ==>
        ("mrsn" in fields && fields["mrsn"].Str? && "password" in o.fields
         && o.fields["password"] == Str(PasswordTemplate(fields["mrsn"].s)))
  {
    var o := TagStateStep(fields, mrn, mrv, tag, current);
    if o.raised.None? {
      var known := Known(current, mrn, tag);
      var state := StateHelper(mrv, tag.s, if known then current[mrn] else map[]).value;
      assert tag.s in state;
    }
  }

  /** Only `password` and `state` change. */
  lemma {:induction false} TagsStateKeeps(fields: map<string, Value>, mrn: string, mrv: Value, tags: seq<Value>, current: Records, k: string)
    requires k != "password" && k != "state"
    ensures var f := TagsStateSpec(fields, mrn, mrv, tags, current).fields;
      (k in f <==> k in fields) && (k in f ==> f[k] == fields[k])
    decreases |tags|
  {
    if |tags| > 0 {
      var o := TagStateStep(fields, mrn, mrv, tags[0], current);
      TagStateStepKeeps(fields, mrn, mrv, tags[0], current);
      if o.raised.None? {
        TagsStateKeeps(o.fields, mrn, mrv, tags[1..], current, k);
      }
    }
  }

  /** The password reference is set only for a tag whose state is
      recorded. */
  lemma {:induction false} PasswordOnlyWhenKnown(fields: map<string, Value>, mrn: string, mrv: Value, tags: seq<Value>, current: Records)
    requires forall i :: 0 <= i < |tags| ==> !Known(current, mrn, tags[i])
    ensures var f := TagsStateSpec(fields, mrn, mrv, tags, current).fields;
      ("password" in f <==> "password" in fields) && ("password" in f ==> f["password"] == fields["password"])
    decreases |tags|
  {
    if |tags| > 0 {
      var o := TagStateStep(fields, mrn, mrv, tags[0], current);
      TagStateStepKeeps(fields, mrn, mrv, tags[0], current);
      assert !Known(current, mrn, tags[0]);
      if o.raised.None? {
        forall i | 0 <= i < |tags[1..]|
          ensures !Known(current, mrn, tags[1..][i])
        {
          assert tags[1..][i] == tags[i + 1];
        }
        PasswordOnlyWhenKnown(o.fields, mrn, mrv, tags[1..], current);
      }
    }
  }

  /** When a component's tags all go through, a recorded tag leaves the
      password reference of its service in place. */
  lemma {:induction false} PasswordWhenKnown(fields: map<string, Value>, mrn: string, mrv: Value, tags: seq<Value>, current: Records, i: nat)
    requires i < |tags| && Known(current, mrn, tags[i])
    requires TagsStateSpec(fields, mrn, mrv, tags, current).raised.None?
    ensures "mrsn" in fields && fields["mrsn"].Str?
    ensures var f := TagsStateSpec(fields, mrn, mrv, tags, current).fields;
      "password" in f && f["password"] == Str(PasswordTemplate(fields["mrsn"].s))
    decreases |tags|
  {
    var o := TagStateStep(fields, mrn, mrv, tags[0], current);
    TagStateStepKeeps(fields, mrn, mrv, tags[0], current);
    TagsStateKeeps(o.fields, mrn, mrv, tags[1..], current, "mrsn");
    if i == 0 {
      if exists j :: 0 <= j < |tags[1..]| && Known(current, mrn, tags[1..][j]) {
        var j :| 0 <= j < |tags[1..]| && Known(current, mrn, tags[1..][j]);
        PasswordWhenKnown(o.fields, mrn, mrv, tags[1..], current, j);
      } else {
        PasswordOnlyWhenKnown(o.fields, mrn, mrv, tags[1..], current);
      }
    } else {
      assert tags[1..][i - 1] == tags[i];
      PasswordWhenKnown(o.fields, mrn, mrv, tags[1..], current, i - 1);
    }
  }

  /** When a component's tags all go through, `state` holds a state for
      every one of them. */
  lemma {:induction false} StateCoversTags(fields: map<string, Value>, mrn: string, mrv: Value, tags: seq<Value>, current: Records)
    requires TagsStateSpec(fields, mrn, mrv, tags, current).raised.None? && |tags| > 0
    ensures var f := TagsStateSpec(fields, mrn, mrv, tags, current).fields;
      "state" in f && f["state"].Dict?
      && forall i :: 0 <= i < |tags| ==> tags[i].Str? && tags[i].s in f["state"].entries
    decreases |tags|
  {
    var o := TagStateStep(fields, mrn, mrv, tags[0], current);
    TagStateStepKeeps(fields, mrn, mrv, tags[0], current);
    var f := TagsStateSpec(fields, mrn, mrv, tags, current).fields;
    if |tags| == 1 {
      assert f == o.fields;
    } else {
      StateCoversTags(o.fields, mrn, mrv, tags[1..], current);
      StateKeepsTags(o.fields, mrn, mrv, tags[1..], current, tags[0].s);
      forall i | 1 <= i < |tags|
        ensures tags[i].Str? && tags[i].s in f["state"].entries
      {
        assert tags[1..][i - 1] == tags[i];
      }
    }
  }

  /** A tag with a state keeps one while later tags go through. */
  lemma {:induction false} StateKeepsTags(fields: map<string, Value>, mrn: string, mrv: Value, tags: seq<Value>, current: Records, t: string)
    requires "state" in fields && fields["state"].Dict? && t in fields["state"].entries
    requires TagsStateSpec(fields, mrn, mrv, tags, current).raised.None?
    ensures var f := TagsStateSpec(fields, mrn, mrv, tags, current).fields;
      "state" in f && f["state"].Dict? && t in f["state"].entries
    decreases |tags|
  {
    if |tags| > 0 {
      var o := TagStateStep(fields, mrn, mrv, tags[0], current);
      TagStateStepKeeps(fields, mrn, mrv, tags[0], current);
      StateKeepsTags(o.fields, mrn, mrv, tags[1..], current, t);
    }
  }

  /** The body of the tag loop of `create_state`: one tag of a component;
      `raised` tells whether it stopped the loop. */
  method ApplyTag(comp: Component, mrn: string, mrv: Value, tag: Value, current: Records) returns (raised: bool)
    modifies comp
    ensures comp.fields == TagStateStep(old(comp.fields), mrn, mrv, tag, current).fields
    ensures raised <==> TagStateStep(old(comp.fields), mrn, mrv, tag, current).raised.Some?
  {
    if !tag.Str? {
      return true;
    }
    var known := mrn in current && tag.s in current[mrn];
    var recorded: map<string, Value> := map[];
    if known {
      if "mrsn" !in comp.fields || !comp.fields["mrsn"].Str? {
        return true;
      }
      comp.fields := comp.fields["password" := Str(PasswordTemplate(comp.fields["mrsn"].s))];
      recorded := current[mrn];
    }
    var state := StateHelper(mrv, tag.s, recorded);
    if state.Threw? {
      return true;
    }
    if "state" in comp.fields {
      if !comp.fields["state"].Dict? {
        return true;
      }
      comp.fields := comp.fields["state" := Dict(comp.fields["state"].entries + state.value)];
    } else {
      comp.fields := comp.fields["state" := Dict(state.value)];
    }
    return false;
  }

  /** The tag loop of `create_state` over one component. */
  method ApplyTags(comp: Component, mrn: string, mrv: Value, tags: seq<Value>, current: Records)
    modifies comp
    ensures comp.fields == TagsStateSpec(old(comp.fields), mrn, mrv, tags, current).fields
  {
    var j := 0;
    while j < |tags|
      invariant 0 <= j <= |tags|
      invariant TagsStateSpec(old(comp.fields), mrn, mrv, tags, current)
        == TagsStateSpec(comp.fields, mrn, mrv, tags[j..], current)
    {
      assert tags[j..][0] == tags[j] && tags[j..][1..] == tags[j + 1..];
      ghost var before := comp.fields;
      var raised := ApplyTag(comp, mrn, mrv, tags[j], current);
      if raised {
        assert TagsStateSpec(before, mrn, mrv, tags[j..], current) == TagStateStep(before, mrn, mrv, tags[j], current);
        break;
      }
      assert TagsStateSpec(before, mrn, mrv, tags[j..], current) == TagsStateSpec(comp.fields, mrn, mrv, tags[j + 1..], current);
      j := j + 1;
    }
  }

  /** The body of the component loop of `create_state`: `stored` tells
      whether the component is returned. The tags are visited after it is
      stored, so a failure there leaves it stored. */
  method ComponentState(comp: Component, mrn: string, current: Records) returns (stored: bool)
    modifies comp
    ensures comp.fields == ComponentSpec(old(comp.fields), mrn, current).fields
    ensures stored <==> "mrv" in old(comp.fields)
  {
    if "mrv" !in comp.fields {
      return false;
    }
    var mrv := comp.fields["mrv"];
    stored := true;
    if "mrt" in comp.fields {
      var tags := TagList(comp.fields["mrt"]);
      if tags.Done? {
        ApplyTags(comp, mrn, mrv, tags.value, current);
      }
    }
  }

  /** `StateCreator.create_state`: every component with an `mrv` is
      returned by reference, and its dictionary is updated in place. */
  method CreateState(components: seq<(string, Component)>, current: Records) returns (states: map<string, Component>)
    requires forall i, j :: 0 <= i < j < |components| ==> components[i].0 != components[j].0 && components[i].1 != components[j].1
    modifies set i | 0 <= i < |components| :: components[i].1
    ensures forall i :: 0 <= i < |components| ==>
      components[i].1.fields == ComponentSpec(old(components[i].1.fields), components[i].0, current).fields
    ensures forall i :: 0 <= i < |components| ==>
      (components[i].0 in states <==> "mrv" in old(components[i].1.fields))
    ensures forall i :: 0 <= i < |components| && components[i].0 in states ==> states[components[i].0] == components[i].1
    ensures forall k :: k in states ==> exists i :: 0 <= i < |components| && components[i].0 == k
  {
    states := map[];
    var i := 0;
    while i < |components|
      invariant 0 <= i <= |components|
      invariant forall j :: 0 <= j < i ==>
        components[j].1.fields == ComponentSpec(old(components[j].1.fields), components[j].0, current).fields
      invariant forall j :: i <= j < |components| ==> components[j].1.fields == old(components[j].1.fields)
      invariant forall j :: 0 <= j < i ==> (components[j].0 in states <==> "mrv" in old(components[j].1.fields))
      invariant forall j :: 0 <= j < i && components[j].0 in states ==> states[components[j].0] == components[j].1
      invariant forall k :: k in states ==> exists j :: 0 <= j < i && components[j].0 == k
    {
      var mrn, comp := components[i].0, components[i].1;
      assert forall j :: 0 <= j < |components| && j != i ==> components[j].1 != comp;
      var stored := ComponentState(comp, mrn, current);
      if stored {
        states := states[mrn := comp];
      }
      i := i + 1;
    }
  }

  // ---------------------------------------------------------------------
  // Rotating the saved states (state_management_components.py:312-317)

  /** The log folder: the creation time of each file in it. */
  class LogFolder {
    var files: map<string, int>

    constructor (files: map<string, int>)
      ensures this.files == files
    {
      this.files := files;
    }
  }

  /** A file name the pattern `<prefix>_*.json` matches. */
  predicate Matches(name: string, prefix: string)
  {
    |name| >= |prefix| + 6 && HasPrefix(name, prefix + "_") && HasSuffix(name, ".json")
  }

  /** The creation time of a file of the folder. */
  function Ctime(ctime: map<string, int>, name: string): int
  {
    if name in ctime then ctime[name] else 0
  }

  /** Names whose creation times are in non-decreasing order. */
  predicate ByCtime(names: seq<string>, ctime: map<string, int>)
  {
    forall i, j :: 0 <= i < j < |names| ==> Ctime(ctime, names[i]) <= Ctime(ctime, names[j])
  }

  /** Places a name after every name not created later than it. */
  function InsertByCtime(sorted: seq<string>, x: string, ctime: map<string, int>): (r: seq<string>)
    ensures multiset(r) == multiset(sorted) + multiset{x}
    decreases |sorted|
  {
    if |sorted| == 0 then [x]
    else
      var init, last := sorted[..|sorted| - 1], sorted[|sorted| - 1];
      assert sorted == init + [last];
      if Ctime(ctime, last) <= Ctime(ctime, x) then sorted + [x]
      else InsertByCtime(init, x, ctime) + [last]
  }

  /** Inserting into names in creation order keeps them in order. */
  lemma {:induction false} InsertKeepsOrder(sorted: seq<string>, x: string, ctime: map<string, int>)
    requires ByCtime(sorted, ctime)
    ensures ByCtime(InsertByCtime(sorted, x, ctime), ctime)
    decreases |sorted|
  {
    if |sorted| > 0 {
      var init, last := sorted[..|sorted| - 1], sorted[|sorted| - 1];
      if Ctime(ctime, last) > Ctime(ctime, x) {
        var front := InsertByCtime(init, x, ctime);
        InsertKeepsOrder(init, x, ctime);
        var r := front + [last];
        assert InsertByCtime(sorted, x, ctime) == r;
        forall i | 0 <= i < |front|
          ensures Ctime(ctime, front[i]) <= Ctime(ctime, last)
        {
          assert front[i] in multiset(front);
          if front[i] != x {
            assert front[i] in multiset(init);
            var k :| 0 <= k < |init| && init[k] == front[i];
            assert sorted[k] == init[k];
          }
        }
        forall i, j | 0 <= i < j < |r|
          ensures Ctime(ctime, r[i]) <= Ctime(ctime, r[j])
        {
          if j < |front| {
            assert r[i] == front[i] && r[j] == front[j];
          } else {
            assert r[i] == front[i];
          }
        }
      } else {
        var r := sorted + [x];
        forall i, j | 0 <= i < j < |r|
          ensures Ctime(ctime, r[i]) <= Ctime(ctime, r[j])
        {
          if j == |sorted| && i < |sorted| - 1 {
            assert Ctime(ctime, sorted[i]) <= Ctime(ctime, sorted[|sorted| - 1]);
          }
        }
      }
    }
  }

  /** `sorted(files, key=os.path.getctime)`: a stable sort by creation
      time, which keeps the listing's order among equal times. */
  function SortByCtime(names: seq<string>, ctime: map<string, int>): (r: seq<string>)
    ensures multiset(r) == multiset(names)
    decreases |names|
  {
    if |names| == 0 then []
    else
      assert names == names[..|names| - 1] + [names[|names| - 1]];
      InsertByCtime(SortByCtime(names[..|names| - 1], ctime), names[|names| - 1], ctime)
  }

  /** The sort puts the names in creation order. */
  lemma {:induction false} SortOrders(names: seq<string>, ctime: map<string, int>)
    ensures ByCtime(SortByCtime(names, ctime), ctime)
    decreases |names|
  {
    if |names| > 0 {
      SortOrders(names[..|names| - 1], ctime);
      InsertKeepsOrder(SortByCtime(names[..|names| - 1], ctime), names[|names| - 1], ctime);
    }
  }

  /** The files removed: the oldest until fewer than `maxFiles` remain;
      every one when `maxFiles` is not positive. */
  function Removed(sorted: seq<string>, maxFiles: int): (r: seq<string>)
  {
    if maxFiles <= 0 then sorted
    else if |sorted| >= maxFiles then sorted[..|sorted| - maxFiles + 1]
    else []
  }

  /** The listed files that remain. */
  function Survivors(sorted: seq<string>, maxFiles: int): (r: seq<string>)
  {
    sorted[|Removed(sorted, maxFiles)|..]
  }

  /** With a positive bound, the newest `maxFiles - 1` files remain, or
      all of them if there are fewer; with no positive bound, none
      remain. */
  lemma KeepsCount(listing: seq<string>, ctime: map<string, int>, maxFiles: int)
    ensures |Survivors(SortByCtime(listing, ctime), maxFiles)|
      == if maxFiles <= 0 then 0 else if |listing| < maxFiles then |listing| else maxFiles - 1
  {
    var sorted := SortByCtime(listing, ctime);
    assert |sorted| == |multiset(sorted)| == |multiset(listing)| == |listing|;
  }

  /** The removed and the remaining files together are the listing. */
  lemma KeepsRest(listing: seq<string>, ctime: map<string, int>, maxFiles: int)
    ensures var sorted := SortByCtime(listing, ctime);
      multiset(Removed(sorted, maxFiles)) + multiset(Survivors(sorted, maxFiles)) == multiset(listing)
  {
    var sorted := SortByCtime(listing, ctime);
    assert sorted == Removed(sorted, maxFiles) + Survivors(sorted, maxFiles);
  }

  /** No removed file is newer than a remaining one. */
  lemma KeepsNewest(listing: seq<string>, ctime: map<string, int>, maxFiles: int)
    ensures var removed, kept := Removed(SortByCtime(listing, ctime), maxFiles), Survivors(SortByCtime(listing, ctime), maxFiles);
      forall i, j :: 0 <= i < |removed| && 0 <= j < |kept| ==> Ctime(ctime, removed[i]) <= Ctime(ctime, kept[j])
  {
    var sorted := SortByCtime(listing, ctime);
    SortOrders(listing, ctime);
    var removed, kept := Removed(sorted, maxFiles), Survivors(sorted, maxFiles);
    forall i, j | 0 <= i < |removed| && 0 <= j < |kept|
      ensures Ctime(ctime, removed[i]) <= Ctime(ctime, kept[j])
    {
      assert removed[i] == sorted[i] && kept[j] == sorted[|removed| + j];
    }
  }

  /** The removed files are a prefix of the sorted listing, leaving fewer
      than the bound when it is positive. */
  lemma RemovedPrefix(sorted: seq<string>, maxFiles: int)
    ensures Removed(sorted, maxFiles) == sorted[..|Removed(sorted, maxFiles)|]
    ensures maxFiles > 0 ==>
      (|sorted| - |Removed(sorted, maxFiles)| == if |sorted| >= maxFiles then maxFiles - 1 else |sorted|)
  {
  }

  /** Removing the next file of the listing extends the removed prefix. */
  lemma RemoveNext(m: map<string, int>, before: seq<string>, next: string)
    ensures (m - (set n | n in before)) - {next} == m - (set n | n in before + [next])
  {
  }

  /** `manage_files`: removes the oldest matching files until fewer than
      `maxFiles` remain. `listing` is the order in which the folder lists
      the matching files. With no positive bound it removes every one and
      then fails popping from the empty list. */
  method ManageFiles(folder: LogFolder, prefix: string, maxFiles: int, listing: seq<string>) returns (raised: Option<Raise>)
    requires NoDuplicates(listing)
    requires forall n :: n in listing <==> n in folder.files && Matches(n, prefix)
    modifies folder
    ensures var sorted := SortByCtime(listing, old(folder.files));
      folder.files == old(folder.files) - (set n | n in Removed(sorted, maxFiles))
    ensures raised == if maxFiles <= 0 then Some(IndexError) else None
  {
    var files := SortByCtime(listing, folder.files);
    ghost var sorted := files;
    ghost var removed := Removed(sorted, maxFiles);
    RemovedPrefix(sorted, maxFiles);
    ghost var k := 0;
    while |files| >= maxFiles
      invariant 0 <= k <= |sorted| && files == sorted[k..]
      invariant folder.files == old(folder.files) - (set n | n in sorted[..k])
      invariant maxFiles > 0 ==> k <= |removed|
      decreases |files|
    {
      if |files| == 0 {
        assert sorted[..k] == sorted == removed;
        return Some(IndexError);
      }
      assert sorted[..k + 1] == sorted[..k] + [files[0]];
      RemoveNext(old(folder.files), sorted[..k], files[0]);
      folder.files := folder.files - {files[0]};
      files := files[1..];
      k := k + 1;
    }
    assert sorted[..k] == removed;
    return None;
  }
}
