/**
 * The key/value configuration store behind `config:get`, `config:set`,
 * `config:list`, `config:validate` and `config:rotate` (config.go): where
 * the configuration directory is, and how values.yaml and vault.yaml are
 * read, updated and listed. YAML itself is a parser and an encoder the
 * environment supplies.
 */
module Config {
  import opened Common
  import opened Paths
  import opened FileTree

  /** A configuration value: a string, or any other YAML value kept as
      its text. */
  datatype Value = Str(s: string) | Structured(yaml: string)

  /** A parsed file: None is an empty or null document, after which the
      Go map is still nil. */
  type Document = Option<map<string, Value>>

  /** The YAML parser and encoder, and the failures of `MkdirAll` and of
      the write beyond the tree's own. */
  datatype World = World(parse: seq<bv8> -> Result<Document>,
                         encode: map<string, Value> -> Result<seq<bv8>>,
                         mkdirFault: Option<Error>, writeFault: Option<Error>)

  /** The encoder's output parses back to what was encoded. */
  ghost predicate RoundTrips(w: World)
  {
    forall m :: w.encode(m).Ok? ==> w.parse(w.encode(m).value) == Ok(Some(m))
  }

  /** A location: its segments and the text the code builds for it. */
  datatype Location = Location(path: Path, name: string)

  function InstConfig(platform: string): Location
  {
    Location(Under(["inst"], platform) + ["config"], JoinPath(JoinPath("inst", platform), "config"))
  }

  const SrcConfig := Location(["src", "platform", "config"], "src/platform/config")

  const DirMode := 0x1ED   // 0755
  const FileMode := 0x1A4  // 0644

  /**
   * `resolveConfigDir` (the same in all three commands): the platform's
   * directory when a platform is named and it exists, otherwise the
   * source tree's when that exists, otherwise an error.
   */
  function ResolveConfigDir(t: Tree, platform: string): (r: Result<Location>)
    ensures r.Ok? <==> (platform != "" && Present(t, InstConfig(platform).path)) || Present(t, SrcConfig.path)
    ensures platform != "" && Present(t, InstConfig(platform).path) ==> r == Ok(InstConfig(platform))
    ensures !(platform != "" && Present(t, InstConfig(platform).path)) && Present(t, SrcConfig.path)
            ==> r == Ok(SrcConfig)
    ensures r.Err? ==> r.error == Fail("config directory not found")
  {
    if platform != "" && Present(t, InstConfig(platform).path) then Ok(InstConfig(platform))
    else if Present(t, SrcConfig.path) then Ok(SrcConfig)
    else Err(Fail("config directory not found"))
  }

  function FileName(vault: bool): string
  {
    if vault then "vault.yaml" else "values.yaml"
  }

  function FileIn(dir: Location, vault: bool): Location
  {
    Location(dir.path + [FileName(vault)], JoinPath(dir.name, FileName(vault)))
  }

  // ---------------------------------------------------------------------
  // config:get

  /** `cfgGet.Execute`: the value of `key` in the chosen file, or why
      there is none. */
  function GetSpec(t: Tree, platform: string, vault: bool, key: string, w: World): Result<Value>
  {
    match ResolveConfigDir(t, platform)
    case Err(e) => Err(e)
    case Ok(dir) =>
      var f := FileIn(dir, vault);
      if StatNotExist(t, f.path) then Err(Fail("config file not found: " + f.name))
      else match ReadFile(t, f.path)
        case Err(e) => Err(Wrap("failed to read config", e))
        case Ok(data) =>
          match w.parse(data)
          case Err(e) => Err(Wrap("failed to parse config", e))
          case Ok(doc) =>
            if doc.Some? && key in doc.value then Ok(doc.value[key])
            else Err(Fail("key " + Quote(key) + " not found"))
  }

  // ---------------------------------------------------------------------
  // config:set

  /** The crash of assigning to a nil Go map. */
  const NilMapPanic := Fail("assignment to entry in nil map")

  /** Setting `key` in a parsed document, an empty document counting as
      an empty map: the key gets the string, every other key is kept. */
  function Assign(doc: Document, key: string, value: string): (m: map<string, Value>)
    ensures key in m && m[key] == Str(value)
    ensures forall k :: k != key ==> (k in m <==> doc.Some? && k in doc.value)
    ensures forall k :: k != key && k in m ==> m[k] == doc.value[k]
  {
    (if doc.Some? then doc.value else map[])[key := Str(value)]
  }

  /** The assignment as the code performs it: on an empty document the map
      is nil and the assignment crashes. */
  function WrittenAssign(doc: Document, key: string, value: string): (r: Result<map<string, Value>>)
    ensures r.Err? <==> doc.None?
    ensures r.Ok? ==> r.value == Assign(doc, key, value)
  {
    if doc.None? then Err(NilMapPanic) else Ok(doc.value[key := Str(value)])
  }

  datatype SetOptions = SetOptions(key: string, value: string, vault: bool, platform: string)

  /** Where `config:set` writes: the resolved directory, or the one it
      creates when resolution fails. */
  function SetDir(t: Tree, platform: string): Location
  {
    var resolved := ResolveConfigDir(t, platform);
    if resolved.Ok? then resolved.value
    else if platform != "" then InstConfig(platform)
    else SrcConfig
  }

  /** The document `config:set` starts from: the file's parse, or an empty
      map when the file cannot be read. */
  function Existing(t: Tree, f: Path, w: World): Result<Document>
  {
    match ReadFile(t, f)
    case Ok(data) => w.parse(data)
    case Err(_) => Ok(Some(map[]))
  }

  /** `cfgSet.Execute` after the directory is there: read, assign, encode
      and write. */
  function UpdateSpec(t: Tree, f: Path, o: SetOptions, w: World, asWritten: bool): (Tree, Option<Error>)
  {
    match Existing(t, f, w)
    case Err(e) => (t, Some(Wrap("failed to parse existing config", e)))
    case Ok(doc) =>
      var updated := if asWritten then WrittenAssign(doc, o.key, o.value) else Ok(Assign(doc, o.key, o.value));
      match updated
      case Err(e) => (t, Some(e))
      case Ok(m) =>
        match w.encode(m)
        case Err(e) => (t, Some(Wrap("failed to marshal config", e)))
        case Ok(data) =>
          var written := if w.writeFault.Some? then Err(w.writeFault.value) else WriteFile(t, f, FileMode, data);
          match written
          case Err(e) => (t, Some(Wrap("failed to write config", e)))
          case Ok(t2) => (t2, None)
  }

  /** `cfgSet.Execute` (config.go:93-136), with the assignment as written
      or corrected. */
  function SetCore(t: Tree, o: SetOptions, w: World, asWritten: bool): (Tree, Option<Error>)
  {
    var dir := SetDir(t, o.platform);
    var made := if ResolveConfigDir(t, o.platform).Ok? then Ok(t)
                else if w.mkdirFault.Some? then Err(w.mkdirFault.value)
                else MkdirAll(t, dir.path, DirMode);
    match made
    case Err(e) => (t, Some(Wrap("failed to create config directory", e)))
    case Ok(t1) => UpdateSpec(t1, FileIn(dir, o.vault).path, o, w, asWritten)
  }

  /** `config:set` with an empty document counting as an empty map. */
  function SetSpec(t: Tree, o: SetOptions, w: World): (Tree, Option<Error>)
  {
    SetCore(t, o, w, false)
  }

  /** `config:set` as written. */
  function WrittenSetSpec(t: Tree, o: SetOptions, w: World): (Tree, Option<Error>)
  {
    SetCore(t, o, w, true)
  }

  // ---------------------------------------------------------------------
  // config:list

  /** A key is listed when no component is given or it starts with the
      component. */
  predicate Selects(component: string, key: string)
  {
    component == "" || HasPrefix(key, component)
  }

  const VaultTag := " (vault)"

  function Tag(key: string): string
  {
    key + VaultTag
  }

  lemma TagInjective()
    ensures forall a, b {:trigger Tag(a), Tag(b)} :: Tag(a) == Tag(b) ==> a == b
  {
    forall a, b | Tag(a) == Tag(b)
      ensures a == b
    {
      assert |a| == |b|;
      assert Tag(a)[..|a|] == a && Tag(b)[..|b|] == b;
    }
  }

  /** The selected entries of a document. */
  function Chosen(doc: Document, component: string): map<string, Value>
  {
    if doc.None? then map[] else map k | k in doc.value && Selects(component, k) :: doc.value[k]
  }

  /** The entries of a map under their tagged names. */
  function Tagged(m: map<string, Value>): map<string, Value>
  {
    TagInjective();
    map k | k in m :: Tag(k) := m[k]
  }

  /** A file as `config:list` reads it: unreadable or unparseable files
      contribute nothing. */
  function Loaded(t: Tree, f: Path, w: World): Document
  {
    match ReadFile(t, f)
    case Err(_) => None
    case Ok(data) => if w.parse(data).Ok? then w.parse(data).value else None
  }

  datatype ListOptions = ListOptions(component: string, vault: bool, platform: string)

  /** What `config:list` shows: a notice when there is no directory or no
      value, otherwise the values. */
  datatype Listing = NoConfiguration | NoValues | Values(entries: map<string, Value>)

  /** The selected values, then the selected vault entries under tagged
      names, which win a clash. */
  function Collected(values: Document, vault: Document, o: ListOptions): map<string, Value>
  {
    Chosen(values, o.component) + (if o.vault then Tagged(Chosen(vault, o.component)) else map[])
  }

  /** `cfgList.Execute` (config.go:167-227). */
  function ListSpec(t: Tree, o: ListOptions, w: World): Listing
  {
    match ResolveConfigDir(t, o.platform)
    case Err(_) => NoConfiguration
    case Ok(dir) =>
      var result := Collected(Loaded(t, FileIn(dir, false).path, w), Loaded(t, FileIn(dir, true).path, w), o);
      if |result| == 0 then NoValues else Values(result)
  }

  // ---------------------------------------------------------------------
  // Properties

  /** Listing shows exactly the selected values, and with the vault flag
      the selected vault entries under tagged names, the vault winning. */
  lemma CollectedKeys(values: Document, vault: Document, o: ListOptions, k: string)
    ensures var m := Collected(values, vault, o);
      var fromVault := o.vault && HasSuffix(k, VaultTag) && vault.Some?
        && k[..|k| - |VaultTag|] in vault.value && Selects(o.component, k[..|k| - |VaultTag|]);
      && (k in m <==> (values.Some? && k in values.value && Selects(o.component, k)) || fromVault)
      && (fromVault ==> m[k] == vault.value[k[..|k| - |VaultTag|]])
      && (k in m && !fromVault ==> m[k] == values.value[k])
  {
    if o.vault && HasSuffix(k, VaultTag) {
      var base := k[..|k| - |VaultTag|];
      assert Tag(base) == k;
    }
    TagInjective();
  }

  /** Resolution depends only on whether the two directories exist. */
  lemma ResolveSame(t: Tree, t': Tree, platform: string)
    requires Present(t, InstConfig(platform).path) == Present(t', InstConfig(platform).path)
    requires Present(t, SrcConfig.path) == Present(t', SrcConfig.path)
    ensures ResolveConfigDir(t, platform) == ResolveConfigDir(t', platform)
  {
  }

  /** After the directory `SetDir` names exists, resolution picks it. */
  lemma ResolvesToSetDir(t: Tree, t1: Tree, platform: string)
    requires forall q :: q in t ==> q in t1
    requires ResolveConfigDir(t, platform).Ok? ==> t1 == t
    requires Present(t1, SetDir(t, platform).path)
    requires ResolveConfigDir(t, platform).Err? ==> forall q :: q in t1 && q !in t ==> q <= SetDir(t, platform).path
    ensures ResolveConfigDir(t1, platform) == Ok(SetDir(t, platform))
  {
    if ResolveConfigDir(t, platform).Err? && platform == "" {
      assert !Present(t1, InstConfig(platform).path) || platform == "";
    }
  }

  /** A file's path ends in a file name, so writing it never creates
      either configuration directory. */
  lemma WriteKeepsDirs(t: Tree, dir: Location, vault: bool, platform: string, data: seq<bv8>)
    requires WriteFile(t, FileIn(dir, vault).path, FileMode, data).Ok?
    ensures var t2 := WriteFile(t, FileIn(dir, vault).path, FileMode, data).value;
      && Present(t2, InstConfig(platform).path) == Present(t, InstConfig(platform).path)
      && Present(t2, SrcConfig.path) == Present(t, SrcConfig.path)
  {
    var f := FileIn(dir, vault).path;
    var i := InstConfig(platform).path;
    assert f[|f| - 1] != "config" && i[|i| - 1] == "config" && SrcConfig.path[2] == "config";
  }

  /** The update of `config:set`, when it succeeds, leaves the file holding
      the encoded assignment and changes nothing else. */
  lemma UpdateWrites(t: Tree, f: Path, o: SetOptions, w: World)
    requires UpdateSpec(t, f, o, w, false).1.None?
    ensures Existing(t, f, w).Ok?
    ensures var m := Assign(Existing(t, f, w).value, o.key, o.value);
      && w.encode(m).Ok? && w.writeFault.None?
      && UpdateSpec(t, f, o, w, false).0 == WriteFile(t, f, FileMode, w.encode(m).value).value
  {
  }

  /**
   * `config:set` followed by `config:get` of the same key in the same
   * file gives the value set, whether or not the directory had to be
   * created first.
   */
  lemma SetThenGet(t: Tree, o: SetOptions, w: World)
    requires RoundTrips(w) && SetSpec(t, o, w).1.None?
    ensures GetSpec(SetSpec(t, o, w).0, o.platform, o.vault, o.key, w) == Ok(Str(o.value))
  {
    var dir := SetDir(t, o.platform);
    var t1 := if ResolveConfigDir(t, o.platform).Ok? then t else MkdirAll(t, dir.path, DirMode).value;
    var f := FileIn(dir, o.vault);
    UpdateWrites(t1, f.path, o, w);
    var m := Assign(Existing(t1, f.path, w).value, o.key, o.value);
    var data := w.encode(m).value;
    var t2 := WriteFile(t1, f.path, FileMode, data).value;
    assert SetSpec(t, o, w).0 == t2;
    assert ResolveConfigDir(t2, o.platform) == Ok(dir) by {
      ResolvesToSetDir(t, t1, o.platform);
      WriteKeepsDirs(t1, dir, o.vault, o.platform, data);
      ResolveSame(t1, t2, o.platform);
    }
    GetReadsWritten(t2, dir, o, w, data, m);
  }

  /** `config:get` in a tree whose resolved file holds an encoded map
      finds the map's value for the key. */
  lemma GetReadsWritten(t: Tree, dir: Location, o: SetOptions, w: World, data: seq<bv8>, m: map<string, Value>)
    requires RoundTrips(w) && ResolveConfigDir(t, o.platform) == Ok(dir)
    requires ReadFile(t, FileIn(dir, o.vault).path) == Ok(data)
    requires w.encode(m) == Ok(data) && o.key in m
    ensures GetSpec(t, o.platform, o.vault, o.key, w) == Ok(m[o.key])
  {
    assert w.parse(data) == Ok(Some(m));
  }

  /**
   * `config:set` keeps every other key of the file: a key that
   * `config:get` found before is found with the same value afterwards.
   */
  lemma SetKeepsOthers(t: Tree, o: SetOptions, w: World, key: string)
    requires RoundTrips(w) && SetSpec(t, o, w).1.None?
    requires key != o.key && GetSpec(t, o.platform, o.vault, key, w).Ok?
    ensures GetSpec(SetSpec(t, o, w).0, o.platform, o.vault, key, w) == GetSpec(t, o.platform, o.vault, key, w)
  {
    var dir := SetDir(t, o.platform);
    var f := FileIn(dir, o.vault);
    UpdateWrites(t, f.path, o, w);
    var m := Assign(Existing(t, f.path, w).value, o.key, o.value);
    var data := w.encode(m).value;
    var t2 := WriteFile(t, f.path, FileMode, data).value;
    assert SetSpec(t, o, w).0 == t2;
    WriteKeepsDirs(t, dir, o.vault, o.platform, data);
    ResolveSame(t, t2, o.platform);
    assert ReadFile(t2, f.path) == Ok(data);
  }

  /** `config:set` creates a directory only when resolution failed; when
      it succeeded, the file is the only node added or changed. */
  lemma SetCreatesDirOnlyWhenUnresolved(t: Tree, o: SetOptions, w: World)
    requires ResolveConfigDir(t, o.platform).Ok?
    ensures var t' := SetSpec(t, o, w).0;
      forall q :: q != FileIn(ResolveConfigDir(t, o.platform).value, o.vault).path ==>
        (q in t' <==> q in t) && (q in t ==> t'[q] == t[q])
  {
  }

  /**
   * As written, `config:set` on an existing file that parses to an empty
   * document crashes instead of writing the key; with the empty document
   * read as an empty map it does not.
   */
  lemma WrittenSetCrashesOnEmptyFile(t: Tree, o: SetOptions, w: World)
    requires ResolveConfigDir(t, o.platform).Ok?
    requires var f := FileIn(ResolveConfigDir(t, o.platform).value, o.vault).path;
      f in t && t[f].File? && w.parse(t[f].data) == Ok(None)
    ensures WrittenSetSpec(t, o, w) == (t, Some(NilMapPanic))
    ensures SetSpec(t, o, w).1 != Some(NilMapPanic)
  {
  }

  // ---------------------------------------------------------------------
  // The commands as they run

  /** The selected entries of `doc` outside `rest`: what a loop over the
      keys has gathered once `rest` is left. */
  function Gathered(doc: map<string, Value>, rest: set<string>, component: string): map<string, Value>
  {
    map k | k in doc && k !in rest && Selects(component, k) :: doc[k]
  }

  lemma GatheredStep(doc: map<string, Value>, rest: set<string>, component: string, k: string)
    requires k in rest && k in doc
    ensures Gathered(doc, rest - {k}, component)
         == if Selects(component, k) then Gathered(doc, rest, component)[k := doc[k]] else Gathered(doc, rest, component)
    ensures k !in Gathered(doc, rest, component)
  {
  }

  lemma TaggedStep(done: map<string, Value>, k: string, v: Value)
    ensures Tagged(done[k := v]) == Tagged(done)[Tag(k) := v]
  {
    TagInjective();
  }

  lemma UnionUpdate(a: map<string, Value>, b: map<string, Value>, key: string, v: Value)
    ensures a + b[key := v] == (a + b)[key := v]
  {
  }

  /** The selection loop over a document's entries. */
  method ChooseEntries(doc: map<string, Value>, component: string) returns (result: map<string, Value>)
    ensures result == Chosen(Some(doc), component)
  {
    result := map[];
    var rest := doc.Keys;
    while rest != {}
      invariant rest <= doc.Keys
      invariant result == Gathered(doc, rest, component)
      decreases |rest|
    {
      var k :| k in rest;
      GatheredStep(doc, rest, component, k);
      if component == "" || HasPrefix(k, component) {
        result := result[k := doc[k]];
      }
      rest := rest - {k};
    }
  }

  /** The vault loop: each selected entry added under its tagged name. */
  method AddVaultEntries(result0: map<string, Value>, doc: map<string, Value>, component: string)
    returns (result: map<string, Value>)
    ensures result == result0 + Tagged(Chosen(Some(doc), component))
  {
    result := result0;
    var rest := doc.Keys;
    while rest != {}
      invariant rest <= doc.Keys
      invariant result == result0 + Tagged(Gathered(doc, rest, component))
      decreases |rest|
    {
      var k :| k in rest;
      GatheredStep(doc, rest, component, k);
      ghost var done := Gathered(doc, rest, component);
      if component == "" || HasPrefix(k, component) {
        TaggedStep(done, k, doc[k]);
        UnionUpdate(result0, Tagged(done), Tag(k), doc[k]);
        result := result[Tag(k) := doc[k]];
      }
      rest := rest - {k};
    }
    assert Gathered(doc, {}, component) == Chosen(Some(doc), component);
  }

  /** The working directory's tree as the configuration commands see and
      change it. */
  class ConfigTree {
    var tree: Tree

    constructor (t: Tree)
      ensures tree == t
    {
      tree := t;
    }

    /** `cfgList.Execute`: it reads, and changes nothing. */
    method List(o: ListOptions, w: World) returns (listing: Listing)
      ensures listing == ListSpec(tree, o, w)
    {
      var resolved := ResolveConfigDir(tree, o.platform);
      if resolved.Err? {
        return NoConfiguration;
      }
      var dir := resolved.value;
      var result := map[];
      var values := Loaded(tree, FileIn(dir, false).path, w);
      if values.Some? {
        result := ChooseEntries(values.value, o.component);
      }
      assert result == Chosen(values, o.component);
      ghost var vaultDoc := Loaded(tree, FileIn(dir, true).path, w);
      if o.vault {
        var vault := Loaded(tree, FileIn(dir, true).path, w);
        if vault.Some? {
          result := AddVaultEntries(result, vault.value, o.component);
        } else {
          assert Tagged(Chosen(vault, o.component)) == map[];
        }
      }
      assert result == Collected(values, vaultDoc, o);
      if |result| == 0 {
        return NoValues;
      }
      return Values(result);
    }

    /** `cfgSet.Execute` (config.go:93-136). */
    method Set(o: SetOptions, w: World) returns (err: Option<Error>)
      modifies this
      ensures (tree, err) == SetSpec(old(tree), o, w)
    {
      var resolved := ResolveConfigDir(tree, o.platform);
      var dir := SetDir(tree, o.platform);
      if resolved.Err? {
        var made := if w.mkdirFault.Some? then Err(w.mkdirFault.value) else MkdirAll(tree, dir.path, DirMode);
        if made.Err? {
          return Some(Wrap("failed to create config directory", made.error));
        }
        tree := made.value;
      }
      var f := FileIn(dir, o.vault).path;
      var existing := Existing(tree, f, w);
      if existing.Err? {
        return Some(Wrap("failed to parse existing config", existing.error));
      }
      var m := Assign(existing.value, o.key, o.value);
      var data := w.encode(m);
      if data.Err? {
        return Some(Wrap("failed to marshal config", data.error));
      }
      var written := if w.writeFault.Some? then Err(w.writeFault.value) else WriteFile(tree, f, FileMode, data.value);
      if written.Err? {
        return Some(Wrap("failed to write config", written.error));
      }
      tree := written.value;
      err := None;
    }

    /** `cfgValidate.Execute`: schema validation is not implemented; it
        always succeeds and changes nothing. */
    method Validate() returns (err: Option<Error>)
      ensures err.None?
    {
      err := None;
    }

    /** `cfgRotate.Execute`: without confirmation it only warns; with it,
        rotation is not implemented. Either way it succeeds and changes
        nothing. */
    method Rotate(yesIAmSure: bool) returns (err: Option<Error>, confirmed: bool)
      ensures err.None? && confirmed == yesIAmSure
    {
      return None, yesIAmSure;
    }
  }
}
