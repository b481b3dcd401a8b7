/**
 * The `platform_components` vars plugin of the prepare action
 * (modules/platform_components/platform_components.py). Every role of the
 * platform playbook, and every role it depends on or includes, becomes a
 * resource: a record of the attributes its kind's class declares, derived
 * from the role's name, its path, the group path it was found under and its
 * `meta/plasma.yaml`. The records are then linked back (`requiredby`) and
 * exported, with the list of names and of namespaces, to the `platform`
 * group. The playbook, the roles and their metadata are what Ansible and
 * YAML loading give the plugin, and come in as values.
 */
module PlatformComponents {
  import opened Common
  import opened Values
  import MachineFilters

  // ---------------------------------------------------------------------
  // Kinds (platform_components.py:108-150)

  /** The kinds of resource; `infrastructure`, which has a class but no
      directory, is never read from a path. */
  datatype Kind = Application | Service | Flow | Executor | Skill | Helper
                | Builder | Library | Entity | Software | Function

  /** A kind's name, as stored in `mrk`. */
  function Name(k: Kind): string
  {
    match k
    case Application => "application" case Service => "service" case Flow => "flow"
    case Executor => "executor" case Skill => "skill" case Helper => "helper"
    case Builder => "builder" case Library => "library" case Entity => "entity"
    case Software => "software" case Function => "function"
  }

  /** A kind's directory name, which is also its attribute for a list of
      required resources of the kind. */
  function Plural(k: Kind): string
  {
    match k
    case Application => "applications" case Service => "services" case Flow => "flows"
    case Executor => "executors" case Skill => "skills" case Helper => "helpers"
    case Builder => "builders" case Library => "libraries" case Entity => "entities"
    case Software => "softwares" case Function => "functions"
  }

  /** The scheme of a kind's locator `mrl`. */
  function Scheme(k: Kind): string
  {
    match k
    case Application => "app" case Service => "svc" case Flow => "flow"
    case Executor => "executor" case Skill => "skill" case Helper => "hp"
    case Builder => "build" case Library => "lib" case Entity => "ent"
    case Software => "soft" case Function => "function"
  }

  /** `resource_has_image` (platform_components.py:350-359). */
  predicate HasImage(k: Kind)
  {
    !(k.Application? || k.Helper? || k.Builder?)
  }

  /** `kind_singular` (platform_components.py:108-120): the kind a
      directory name stands for. */
  function KindOfDir(dir: string): (r: Option<Kind>)
    ensures r.Some? ==> dir == Plural(r.value)
  {
    if dir == "applications" then Some(Application) else if dir == "services" then Some(Service)
    else if dir == "flows" then Some(Flow) else if dir == "executors" then Some(Executor)
    else if dir == "skills" then Some(Skill) else if dir == "helpers" then Some(Helper)
    else if dir == "builders" then Some(Builder) else if dir == "libraries" then Some(Library)
    else if dir == "entities" then Some(Entity) else if dir == "softwares" then Some(Software)
    else if dir == "functions" then Some(Function) else None
  }

  /** `kind_plural` read the other way (platform_components.py:121): the
      kind a stored `mrk` names. */
  function KindNamed(s: string): (r: Option<Kind>)
    ensures r.Some? ==> s == Name(r.value)
  {
    if s == "application" then Some(Application) else if s == "service" then Some(Service)
    else if s == "flow" then Some(Flow) else if s == "executor" then Some(Executor)
    else if s == "skill" then Some(Skill) else if s == "helper" then Some(Helper)
    else if s == "builder" then Some(Builder) else if s == "library" then Some(Library)
    else if s == "entity" then Some(Entity) else if s == "software" then Some(Software)
    else if s == "function" then Some(Function) else None
  }

  /** Every kind is found back from its directory name and from its name,
      so neither table has two kinds under one name. */
  lemma KindTables(k: Kind)
    ensures KindOfDir(Plural(k)) == Some(k) && KindNamed(Name(k)) == Some(k)
  {
  }

  lemma KindsInjective()
    ensures forall a, b :: Plural(a) == Plural(b) ==> a == b
    ensures forall a, b :: Name(a) == Name(b) ==> a == b
  {
    forall a, b | Plural(a) == Plural(b) || Name(a) == Name(b)
      ensures a == b
    {
      KindTables(a);
      KindTables(b);
    }
  }

  /** Two kinds never share a name, a plural, or a name with a plural. */
  lemma KindsDistinct(a: Kind, b: Kind)
    requires a != b
    ensures Plural(a) != Plural(b) && Name(a) != Name(b) && Name(a) != Plural(b) && Plural(a) != Name(b)
  {
    KindTables(a);
    KindTables(b);
    KindWords(a);
    KindWords(b);
  }

  /** The attributes the plugin reads back from every resource, which no
      group of required resources overwrites. */
  predicate Reserved(x: string)
  {
    x == "mrns" || x == "mrn" || x == "mrv" || x == "mrt" || x == "state" || x == "mrk"
  }

  /** The attributes named after kinds are none of the reserved ones, a
      name never ends in `s` where a plural always does, and a scheme
      holds neither `/` nor `:`. */
  lemma KindWords(k: Kind)
    ensures !Reserved(Name(k)) && !Reserved(Plural(k))
    ensures |Plural(k)| > 0 && Plural(k)[|Plural(k)| - 1] == 's'
    ensures |Name(k)| > 0 && Name(k)[|Name(k)| - 1] != 's'
    ensures '/' !in Scheme(k) && ':' !in Scheme(k)
  {
  }

  // ---------------------------------------------------------------------
  // Names and addresses (platform_components.py:201-259, 419-420)

  /** `normalize_name`: `-` becomes `_`, then `.` becomes `__`. */
  function NormalizeName(name: string): string
  {
    Replace(Replace(name, "-", "_"), ".", "__")
  }

  /** A normalized name holds neither `-` nor `.`, and a name without them
      is its own normal form. */
  lemma NormalizeNameMeaning(name: string)
    ensures '-' !in NormalizeName(name) && '.' !in NormalizeName(name)
    ensures '-' !in name && '.' !in name ==> NormalizeName(name) == name
  {
    var dashed := Replace(name, "-", "_");
    ReplaceCharGone(name, '-', '_');
    ReplaceCharSources(dashed, '.', "__");
    ContainsChar(name, '-');
    ContainsChar(name, '.');
    if '-' !in name && '.' !in name {
      ReplaceAbsent(name, "-", "_");
      ReplaceAbsent(name, ".", "__");
    }
  }

  /** Two names that differ only in `-` against `_` are the same resource. */
  lemma NormalizeNameMerges()
    ensures NormalizeName("a-b") == NormalizeName("a_b") == "a_b"
  {
    ReplaceCharAt("a-b", '-', '_');
    var dashed := Replace("a-b", "-", "_");
    assert dashed == "a_b" by {
      assert |dashed| == 3 && dashed[0] == 'a' && dashed[1] == '_' && dashed[2] == 'b';
    }
    NormalizeNameMeaning("a_b");
    ContainsChar("a_b", '.');
    ReplaceAbsent("a_b", ".", "__");
  }

  /** `mrns`: the first dotted part of the role's name. */
  function Namespace(name: string): (r: string)
    ensures '.' !in r && HasPrefix(name, r)
    ensures r == name || (|r| < |name| && name[|r|] == '.')
  {
    SplitCharFirst(name, '.');
    if '.' !in name then SplitNone(name, "."); Split(name, ".")[0]
    else Split(name, ".")[0]
  }

  /** `mrsn`: the last dotted part of the role's name, `_` written `-`. */
  function ShortName(name: string): (r: string)
    ensures '.' !in r && '_' !in r && |r| <= |name|
    ensures |r| == |name| || name[|name| - |r| - 1] == '.'
    ensures forall i :: 0 <= i < |r| ==>
      r[i] == if name[|name| - |r| + i] == '_' then '-' else name[|name| - |r| + i]
  {
    var parts := Split(name, ".");
    var last := parts[|parts| - 1];
    SplitCharLast(name, '.');
    ReplaceCharAt(last, '_', '-');
    Replace(last, "_", "-")
  }

  /** `machine_mrsn`: the short name with `-` written `_`. */
  function MachineShortName(mrsn: string): string
  {
    Replace(mrsn, "-", "_")
  }

  /** `resource_kind_from_role_path`: `path.split('/')[-3]` looked up in
      the singular table; fewer than three parts raise `IndexError`, an
      unknown directory `KeyError`. */
  function KindOf(path: string): Attempt<Kind>
  {
    var parts := Split(path, "/");
    if |parts| < 3 then Threw(IndexError)
    else match KindOfDir(parts[|parts| - 3])
      case Some(k) => Done(k)
      case None => Threw(KeyError)
  }

  /** A role at `<prefix>/<kinds>/roles/<name>` has the kind its directory
      names. */
  lemma KindOfRolePath(prefix: string, dir: string, name: string)
    requires '/' !in dir && '/' !in name
    ensures KindOf(prefix + "/" + dir + "/roles/" + name) ==
      if KindOfDir(dir).Some? then Done(KindOfDir(dir).value) else Threw(KeyError)
  {
    var path := prefix + "/" + dir + "/roles/" + name;
    assert path == (prefix + "/" + dir) + "/" + "roles" + "/" + name;
    SplitSuffix((prefix + "/" + dir) + "/" + "roles", '/', name);
    SplitSuffix(prefix + "/" + dir, '/', "roles");
    SplitSuffix(prefix, '/', dir);
    var parts := Split(path, "/");
    assert parts == Split(prefix, "/") + [dir] + ["roles"] + [name];
    assert parts[|parts| - 3] == dir;
  }

  /** `mrl`: the kind's scheme, `://`, the group path and the short name. */
  function Locator(kind: Kind, groupPath: string, mrsn: string): string
  {
    Scheme(kind) + "://" + groupPath + "/" + mrsn
  }

  /** `mrc`: the group path with `/` written `.`, then the short name. */
  function Address(groupPath: string, mrsn: string): string
  {
    Replace(groupPath, "/", ".") + "." + mrsn
  }

  /** The locator's `/`-separated parts are the scheme and colon, an empty
      part, the group path's parts and the short name. */
  lemma LocatorParts(kind: Kind, groupPath: string, mrsn: string)
    requires '/' !in mrsn
    ensures Split(Locator(kind, groupPath, mrsn), "/") == [Scheme(kind) + ":", ""] + Split(groupPath, "/") + [mrsn]
  {
    var scheme := Scheme(kind);
    var tail := groupPath + "/" + mrsn;
    KindWords(kind);
    assert '/' !in scheme + ":";
    assert Locator(kind, groupPath, mrsn) == (scheme + ":") + "/" + ("" + "/" + tail);
    SplitCut(scheme + ":", "/", "" + "/" + tail);
    SplitCut("", "/", tail);
    SplitSuffix(groupPath, '/', mrsn);
  }

  /** The address's dotted parts are the group path's parts and the short
      name, as in the locator. */
  lemma AddressParts(groupPath: string, mrsn: string)
    requires '.' !in mrsn && '.' !in groupPath
    ensures Split(Address(groupPath, mrsn), ".") == Split(groupPath, "/") + [mrsn]
  {
    SplitSuffix(Replace(groupPath, "/", "."), '.', mrsn);
    SplitReplaceChar(groupPath, '/', '.');
  }

  /** `nodeselector`: the first part of the group path, then `: "true"`. */
  function Nodeselector(groupPath: string): string
  {
    Split(groupPath, "/")[0] + ": \"true\""
  }

  /** The selector filters read back the group path's first part as the
      key and `"true"` as the value. */
  lemma NodeselectorReadBack(groupPath: string)
    requires ':' !in groupPath
    ensures MachineFilters.NodeselectorKey(Nodeselector(groupPath)) == Split(groupPath, "/")[0]
    ensures MachineFilters.NodeselectorValue(Nodeselector(groupPath)) == Done("\"true\"")
  {
    var head := Split(groupPath, "/")[0];
    assert ':' !in head by {
      SplitCharFirst(groupPath, '/');
      assert forall i :: 0 <= i < |head| ==> head[i] == groupPath[i];
    }
    var value := "\"true\"";
    assert ':' !in value;
    assert Nodeselector(groupPath) == head + ": " + value by {
      assert (": " + value)[2..] == value;
      assert Nodeselector(groupPath) == head + (": " + value);
    }
    MachineFilters.NodeselectorSplit(head, value);
  }

  /** The extension of a file path: what follows the last `.` of its last
      `/` part. */
  function Extension(file: string): string
  {
    var parts := Split(file, "/");
    var dotted := Split(parts[|parts| - 1], ".");
    dotted[|dotted| - 1]
  }

  /** A function's language from its first file's extension. */
  function Language(ext: string): (r: string)
    ensures ext == "go" <==> r == "golang"
    ensures ext == "scala" <==> r == "scala"
    ensures ext != "go" && ext != "scala" <==> r == ""
  {
    if ext == "go" then "golang" else if ext == "scala" then "scala" else ""
  }

  // ---------------------------------------------------------------------
  // State and images (platform_components.py:333-359)

  /** The state every tag starts in. */
  const DefaultState: Value :=
    Dict(map["mrv" := Str(""), "exists" := Bool(false), "fresh" := Bool(false), "build" := Bool(true)])

  /** `init_state`: the default state under each tag. */
  function InitState(tags: seq<string>): map<string, Value>
  {
    map t | t in tags :: DefaultState
  }

  /** Read through the state filters, a fresh resource's tags do not exist
      and need a build; other tags have no state, and reading whether they
      exist raises. */
  lemma InitialStateReads(fields: map<string, Value>, tags: seq<string>, tag: string)
    requires "state" in fields && fields["state"] == Dict(InitState(tags))
    ensures tag in tags ==> MachineFilters.Exists(fields, tag) == Done(Bool(false))
    ensures tag in tags ==> MachineFilters.Build(fields, tag) == Done(Bool(true))
    ensures tag !in tags ==> MachineFilters.StateOf(fields, tag) == Done(Nil)
    ensures tag !in tags ==> MachineFilters.Exists(fields, tag) == Threw(TypeError)
  {
  }

  const ImageHost := "images.foundation.svc.{{ machine_platform_name }}/"

  /** An image's repository path: `__` written `/`, then `_` written `-`. */
  function ImagePath(mrn: string): string
  {
    Replace(Replace(mrn, "__", "/"), "_", "-")
  }

  /** `images_by_tags`: for a kind with images, one reference per tag,
      `<host>/<path>:<mrv>_<tag>`; none otherwise. */
  function ImagesByTags(kind: Kind, mrn: string, mrv: string, tags: seq<string>): (images: map<string, Value>)
    ensures HasImage(kind) ==> images.Keys == set t | t in tags
    ensures !HasImage(kind) ==> images == map[]
  {
    if HasImage(kind) then
      map t | t in tags :: Str(ImageHost + ImagePath(mrn) + ":" + mrv + "_" + t)
    else map[]
  }

  /** The registry host names no port. */
  lemma ImageHostHasNoPort()
    ensures ':' !in ImageHost
  {
    assert ImageHost == "images.foundation.svc." + "{{ machine_platform_name }}/";
  }

  /** The image filters read a tag's reference back as the repository
      address and `<mrv>_<tag>`. */
  lemma ImageReadBack(kind: Kind, mrn: string, mrv: string, tags: seq<string>, tag: string)
    requires HasImage(kind) && tag in tags && ':' !in mrn && ':' !in mrv && ':' !in tag
    ensures ImagesByTags(kind, mrn, mrv, tags)[tag].Str?
    ensures MachineFilters.ImageUri(ImagesByTags(kind, mrn, mrv, tags)[tag].s) == ImageHost + ImagePath(mrn)
    ensures MachineFilters.ImageTag(ImagesByTags(kind, mrn, mrv, tags)[tag].s) == mrv + "_" + tag
  {
    var address := ImageHost + ImagePath(mrn);
    ReplaceSources(mrn, "__", "/");
    ReplaceSources(Replace(mrn, "__", "/"), "_", "-");
    ImageHostHasNoPort();
    assert ':' !in address;
    assert ':' !in mrv + "_" + tag;
    var image := ImageHost + ImagePath(mrn) + ":" + mrv + "_" + tag;
    assert image == address + ":" + (mrv + "_" + tag);
    SplitCut(address, ":", mrv + "_" + tag);
    SplitNone(mrv + "_" + tag, ":");
    assert Split(image, ":")[..1] == [address];
  }

  // ---------------------------------------------------------------------
  // Roles and their records

  /** The `plasma` object of a role's `meta/plasma.yaml`; every field is
      absent when the file or the object is missing. */
  datatype Meta = Meta(
    author: Option<Value>, description: Option<Value>, labels: Option<Value>,
    version: Option<string>, scope: Option<Value>, tags: Option<seq<string>>,
    stage: Option<Value>)

  const NoMeta := Meta(None, None, None, None, None, None, None)

  /**
   * A role as Ansible loads it: its name, its path and that path relative
   * to the working directory, its metadata, the files under its `files/`
   * directory, and its direct and included dependencies, in that order.
   */
  datatype Role = Role(name: string, path: string, relPath: string, meta: Meta,
                       files: seq<string>, deps: seq<Role>)

  function Version(m: Meta): string
  {
    if m.version.Some? then m.version.value else "unknown"
  }

  function Tags(m: Meta): seq<string>
  {
    if m.tags.Some? then m.tags.value else ["default"]
  }

  // ---------------------------------------------------------------------
  // Setting attributes (platform_components.py:36-38, 213-295)

  /** `setattr_if_has_type_hint` for each name and value in turn: a name
      the class does not declare is skipped, and a later assignment to a
      name overrides an earlier one. */
  function SetAttrs(obj: map<string, Value>, declared: set<string>, pairs: seq<(string, Value)>): map<string, Value>
    decreases |pairs|
  {
    if |pairs| == 0 then obj
    else SetAttrs(if pairs[0].0 in declared then obj[pairs[0].0 := pairs[0].1] else obj, declared, pairs[1..])
  }

  /** Two runs of assignments are one run over both. */
  lemma {:induction false} SetAttrsAppend(obj: map<string, Value>, declared: set<string>, p: seq<(string, Value)>, q: seq<(string, Value)>)
    ensures SetAttrs(obj, declared, p + q) == SetAttrs(SetAttrs(obj, declared, p), declared, q)
    decreases |p|
  {
    if |p| > 0 {
      assert (p + q)[1..] == p[1..] + q;
      SetAttrsAppend(if p[0].0 in declared then obj[p[0].0 := p[0].1] else obj, declared, p[1..], q);
    } else {
      assert p + q == q;
    }
  }

  /** Assignments to other names leave an attribute as it was. */
  lemma {:induction false} SetAttrsUnset(obj: map<string, Value>, declared: set<string>, pairs: seq<(string, Value)>, x: string)
    requires Avoids(pairs, x)
    ensures x in SetAttrs(obj, declared, pairs) <==> x in obj
    ensures x in obj ==> SetAttrs(obj, declared, pairs)[x] == obj[x]
    decreases |pairs|
  {
    if |pairs| > 0 {
      assert pairs[0].0 != x;
      SetAttrsUnset(if pairs[0].0 in declared then obj[pairs[0].0 := pairs[0].1] else obj, declared, pairs[1..], x);
    }
  }

  /** A declared attribute holds the value of the last assignment to it. */
  lemma {:induction false} SetAttrsLast(obj: map<string, Value>, declared: set<string>, pairs: seq<(string, Value)>, i: nat)
    requires i < |pairs| && pairs[i].0 in declared
    requires forall j :: i < j < |pairs| ==> pairs[j].0 != pairs[i].0
    ensures pairs[i].0 in SetAttrs(obj, declared, pairs) && SetAttrs(obj, declared, pairs)[pairs[i].0] == pairs[i].1
    decreases |pairs|
  {
    var next := if pairs[0].0 in declared then obj[pairs[0].0 := pairs[0].1] else obj;
    if i == 0 {
      SetAttrsUnset(next, declared, pairs[1..], pairs[0].0);
    } else {
      SetAttrsLast(next, declared, pairs[1..], i - 1);
    }
  }

  /** Only declared attributes are ever set. */
  lemma {:induction false} SetAttrsDeclared(obj: map<string, Value>, declared: set<string>, pairs: seq<(string, Value)>, x: string)
    requires x !in declared
    ensures x in SetAttrs(obj, declared, pairs) <==> x in obj
    decreases |pairs|
  {
    if |pairs| > 0 {
      SetAttrsDeclared(if pairs[0].0 in declared then obj[pairs[0].0 := pairs[0].1] else obj, declared, pairs[1..], x);
    }
  }

  /**
   * What reading the metadata and the files raises, if anything
   * (platform_components.py:227-228, 272): the read of `author`, then of
   * `description`, raises `KeyError` when the metadata lack them, and the
   * first file of a function without files raises `IndexError`.
   */
  function Missing(role: Role, kind: Kind): (r: Option<Raise>)
    ensures r.Some? <==> (role.meta.author.None? || role.meta.description.None? ||
                          (kind == Function && |role.files| == 0))
    ensures r.Some? ==> r.value == if role.meta.author.None? || role.meta.description.None? then KeyError else IndexError
  {
    if role.meta.author.None? || role.meta.description.None? then Some(KeyError)
    else if kind == Function && |role.files| == 0 then Some(IndexError)
    else None
  }

  /** The names, addresses and descriptions set first
      (platform_components.py:211-235). */
  function NamePairs(role: Role): seq<(string, Value)>
    requires role.meta.author.Some? && role.meta.description.Some?
  {
    var mrsn := ShortName(role.name);
    var machine := MachineShortName(mrsn);
    [("mrns", Str(Namespace(role.name))), ("mrn", Str(NormalizeName(role.name))),
     ("mrsn", Str(mrsn)), ("name", Str(NormalizeName(role.name))),
     ("public_uri", Str(mrsn + ".{{ machine_domain_name }}.{{ machine_domain_ext }}")),
     ("schema", Str(role.path + "/files/" + machine + ".proto")),
     ("author", role.meta.author.value), ("description", role.meta.description.value),
     ("password", Str("{{ " + machine + "_service_plain_password|default(\"\") }}")),
     ("relpath", Str(Replace(role.relPath, "ansible_collections/", ""))),
     ("path", Str(role.path))]
  }

  /** The labels, when the metadata have them (platform_components.py:
      233-234). */
  function LabelPairs(m: Meta): seq<(string, Value)>
  {
    if m.labels.Some? then [("labels", m.labels.value)] else []
  }

  /** The version, scope, kind, locators, tags and the initial state
      (platform_components.py:236-267, 333-339). */
  function KindPairs(role: Role, groupPath: string, kind: Kind): seq<(string, Value)>
  {
    var m := role.meta;
    var mrsn := ShortName(role.name);
    [("mrv", Str(Version(m))), ("version", Str(Version(m))),
     ("mrs", if m.scope.Some? then m.scope.value else Str("global")),
     ("mrk", Str(Name(kind))),
     ("mrl", Str(Locator(kind, groupPath, mrsn))),
     ("mrc", Str(Address(groupPath, mrsn))),
     ("nodeselector", Str(Nodeselector(groupPath))),
     ("mrt", List(Strs(Tags(m)))),
     ("state", Dict(InitState(Tags(m))))]
  }

  /** A library's languages, its tags, and a function's language, read
      from its first file (platform_components.py:269-278). */
  function LanguagePairs(role: Role, kind: Kind): seq<(string, Value)>
    requires kind == Function ==> |role.files| > 0
  {
    var m := role.meta;
    (if kind == Library then [("languages", if m.tags.Some? then List(Strs(m.tags.value)) else Dict(map[]))] else [])
    + (if kind == Function then [("language", Str(Language(Extension(role.files[0]))))] else [])
  }

  /** The attributes `add_resource` sets before it turns to the
      dependencies (platform_components.py:207-278), in order. */
  function OwnPairs(role: Role, groupPath: string, kind: Kind): seq<(string, Value)>
    requires Missing(role, kind).None?
  {
    NamePairs(role) + LabelPairs(role.meta) + KindPairs(role, groupPath, kind) + LanguagePairs(role, kind)
  }

  /** The normalized names of a role's dependencies: its `requires`. */
  function Requirements(role: Role): (r: seq<string>)
    ensures |r| == |role.deps| && forall i :: 0 <= i < |r| ==> r[i] == NormalizeName(role.deps[i].name)
  {
    seq(|role.deps|, i requires 0 <= i < |role.deps| => NormalizeName(role.deps[i].name))
  }

  /** A record of the given kind: its `mrk` names the kind, and it has a
      name `mrn`. */
  predicate Stored(rec: map<string, Value>, kind: Kind)
  {
    "mrk" in rec && rec["mrk"] == Str(Name(kind)) && "mrn" in rec
  }

  /**
   * A resource object as the plugin keeps it: what its attributes are
   * computed from (its role, the group path it was added under, its kind,
   * which is its class, and its required names grouped by kind with the
   * kinds in the order met), its `requires`, and the `requiredby` the
   * dependency pass fills in. `Attrs` gives the attributes themselves.
   */
  datatype Resource = Resource(role: Role, groupPath: string, kind: Kind, groups: map<Kind, seq<Value>>,
                               met: seq<Kind>, requirements: seq<string>, requiredBy: seq<string>)

  /** A resource's `mrn`: its role's normalized name. */
  function Mrn(r: Resource): Value
  {
    Str(NormalizeName(r.role.name))
  }

  /** The names are stored: looking each up does not raise. */
  predicate Resolvable(names: seq<string>, resources: map<string, Resource>)
  {
    forall n :: n in names ==> n in resources
  }

  /**
   * The names of the required resources grouped by their kinds, each group
   * in list order (platform_components.py:286-291). The plugin keys the
   * groups by the `mrk` string, which names exactly one kind.
   */
  function KindGroups(names: seq<string>, resources: map<string, Resource>): map<Kind, seq<Value>>
    requires Resolvable(names, resources)
    decreases |names|
  {
    if |names| == 0 then map[]
    else
      var init := names[..|names| - 1];
      var last := names[|names| - 1];
      assert last in names && forall n :: n in init ==> n in names;
      var g := KindGroups(init, resources);
      var kind := resources[last].kind;
      g[kind := (if kind in g then g[kind] else []) + [Mrn(resources[last])]]
  }

  /** The names of the required resources of one kind, in list order. */
  function OfKind(names: seq<string>, resources: map<string, Resource>, kind: Kind): seq<Value>
    requires Resolvable(names, resources)
    decreases |names|
  {
    if |names| == 0 then []
    else
      var init := names[..|names| - 1];
      var last := names[|names| - 1];
      assert last in names && forall n :: n in init ==> n in names;
      OfKind(init, resources, kind) + if resources[last].kind == kind then [Mrn(resources[last])] else []
  }

  /** The kinds of the names, in list order: the order the plugin first
      meets each group in. */
  function KindsMet(names: seq<string>, resources: map<string, Resource>): (r: seq<Kind>)
    requires forall n :: n in names ==> n in resources
    ensures |r| == |names| && forall i :: 0 <= i < |names| ==> r[i] == resources[names[i]].kind
  {
    seq(|names|, i requires 0 <= i < |names| => resources[names[i]].kind)
  }

  /** Grouping in one pass gives each kind exactly the names filtering by
      that kind gives, and a group for the kinds that have names. */
  lemma {:induction false} KindGroupsMeaning(names: seq<string>, resources: map<string, Resource>, kind: Kind)
    requires Resolvable(names, resources)
    ensures kind in KindGroups(names, resources) <==> |OfKind(names, resources, kind)| > 0
    ensures kind in KindGroups(names, resources) ==> KindGroups(names, resources)[kind] == OfKind(names, resources, kind)
    decreases |names|
  {
    if |names| > 0 {
      var init := names[..|names| - 1];
      assert names[|names| - 1] in names && forall n :: n in init ==> n in names;
      KindGroupsMeaning(init, resources, kind);
    }
  }

  /** A kind has a group exactly when it is met. */
  lemma {:induction false} KindsMetGrouped(names: seq<string>, resources: map<string, Resource>, kind: Kind)
    requires Resolvable(names, resources)
    ensures kind in KindGroups(names, resources) <==> kind in KindsMet(names, resources)
    decreases |names|
  {
    if |names| > 0 {
      var init := names[..|names| - 1];
      assert names[|names| - 1] in names && forall n :: n in init ==> n in names;
      KindsMetGrouped(init, resources, kind);
      assert KindsMet(names, resources) == KindsMet(init, resources) + [resources[names[|names| - 1]].kind];
    }
  }

  /** The grouping and the kinds met read only the resources of the
      names. */
  lemma {:induction false} GroupsFrame(names: seq<string>, a: map<string, Resource>, b: map<string, Resource>)
    requires Resolvable(names, a)
    requires forall n :: n in names ==> n in b && b[n] == a[n]
    ensures Resolvable(names, b)
    ensures KindGroups(names, a) == KindGroups(names, b)
    ensures KindsMet(names, a) == KindsMet(names, b)
    decreases |names|
  {
    if |names| > 0 {
      var init := names[..|names| - 1];
      assert names[|names| - 1] in names && forall n :: n in init ==> n in names;
      GroupsFrame(init, a, b);
    }
  }

  /** The attributes the groups set (platform_components.py:292-295),
      walking the kinds `ks` in the order the plugin met them: each group
      under the kind's plural, and its first name under the kind itself. */
  function GroupPairs(groups: map<Kind, seq<Value>>, ks: seq<Kind>): seq<(string, Value)>
    decreases |ks|
  {
    if |ks| == 0 then []
    else
      var k := ks[|ks| - 1];
      GroupPairs(groups, ks[..|ks| - 1])
      + if k !in groups then [] else GroupOf(k, groups[k])
  }

  /** The attributes one group sets: the names under the kind's plural,
      and the first of them under the kind. */
  function GroupOf(k: Kind, names: seq<Value>): seq<(string, Value)>
  {
    [(Plural(k), List(names))] + if |names| == 0 then [] else [(Name(k), names[0])]
  }

  /** A group leaves alone the attributes of any other kind. */
  lemma GroupOfAvoids(k: Kind, names: seq<Value>, kind: Kind)
    requires k != kind
    ensures Avoids(GroupOf(k, names), Plural(kind)) && Avoids(GroupOf(k, names), Name(kind))
  {
    KindsDistinct(k, kind);
  }

  /** The groups set only attributes named after kinds, none of them one
      the plugin reads back. */
  lemma {:induction false} GroupPairsKeys(groups: map<Kind, seq<Value>>, ks: seq<Kind>)
    ensures forall i :: 0 <= i < |GroupPairs(groups, ks)| ==> !Reserved(GroupPairs(groups, ks)[i].0)
    decreases |ks|
  {
    if |ks| > 0 {
      var k := ks[|ks| - 1];
      KindWords(k);
      GroupPairsKeys(groups, ks[..|ks| - 1]);
    }
  }

  /** Every group walked is found under its kind's plural, and its first
      name under the kind, when the class declares them; the attributes
      are distinct, so the order of the walk does not matter. */
  lemma {:induction false} GroupPairsMeaning(obj: map<string, Value>, declared: set<string>,
                                             groups: map<Kind, seq<Value>>, ks: seq<Kind>, kind: Kind)
    requires kind in groups && kind in ks
    ensures var set_ := SetAttrs(obj, declared, GroupPairs(groups, ks));
      Plural(kind) in declared ==> Plural(kind) in set_ && set_[Plural(kind)] == List(groups[kind])
    ensures var set_ := SetAttrs(obj, declared, GroupPairs(groups, ks));
      |groups[kind]| > 0 && Name(kind) in declared ==> Name(kind) in set_ && set_[Name(kind)] == groups[kind][0]
    decreases |ks|
  {
    var k := ks[|ks| - 1];
    var init := ks[..|ks| - 1];
    var last := if k !in groups then [] else GroupOf(k, groups[k]);
    SetAttrsAppend(obj, declared, GroupPairs(groups, init), last);
    var before := SetAttrs(obj, declared, GroupPairs(groups, init));
    if k == kind {
      KindWords(k);
      if Plural(kind) in declared {
        SetAttrsLast(before, declared, last, 0);
      }
      if |groups[kind]| > 0 && Name(kind) in declared {
        SetAttrsLast(before, declared, last, 1);
      }
    } else {
      assert kind in init by {
        assert ks == init + [k];
      }
      GroupPairsMeaning(obj, declared, groups, init, kind);
      if k in groups {
        GroupOfAvoids(k, groups[k], kind);
      }
      SetAttrsUnset(before, declared, last, Plural(kind));
      SetAttrsUnset(before, declared, last, Name(kind));
    }
  }

  /** The attributes set after the dependencies (platform_components.py:
      277-290): `requires`, the images, the groups, and the stage. */
  function LinkedPairs(role: Role, kind: Kind, groups: map<Kind, seq<Value>>, ks: seq<Kind>): seq<(string, Value)>
  {
    var m := role.meta;
    [("requires", List(Strs(Requirements(role)))),
     ("mri", Dict(ImagesByTags(kind, NormalizeName(role.name), Version(m), Tags(m))))]
    + GroupPairs(groups, ks)
    + (if m.stage.Some? then [("stage", m.stage.value)] else [])
  }

  /** The record `add_resource` stores: the attributes it sets, in order,
      on an object of the kind's class. */
  function Entry(role: Role, groupPath: string, kind: Kind, declared: set<string>,
                 groups: map<Kind, seq<Value>>, ks: seq<Kind>): map<string, Value>
    requires Missing(role, kind).None?
  {
    SetAttrs(map[], declared, OwnPairs(role, groupPath, kind) + LinkedPairs(role, kind, groups, ks))
  }

  /** No pair sets the attribute. */
  predicate Avoids(pairs: seq<(string, Value)>, x: string)
  {
    forall i :: 0 <= i < |pairs| ==> pairs[i].0 != x
  }

  /** The names set first hold the namespace and the name, and the labels
      leave them alone. */
  lemma NameIdentity(role: Role, declared: set<string>)
    requires role.meta.author.Some? && role.meta.description.Some?
    ensures var e := SetAttrs(map[], declared, NamePairs(role) + LabelPairs(role.meta));
      ("mrns" in declared ==> "mrns" in e && e["mrns"] == Str(Namespace(role.name)))
      && ("mrn" in declared ==> "mrn" in e && e["mrn"] == Str(NormalizeName(role.name)))
  {
    SetAttrsAppend(map[], declared, NamePairs(role), LabelPairs(role.meta));
    var named := SetAttrs(map[], declared, NamePairs(role));
    if "mrns" in declared {
      SetAttrsLast(map[], declared, NamePairs(role), 0);
    }
    if "mrn" in declared {
      SetAttrsLast(map[], declared, NamePairs(role), 1);
    }
    SetAttrsUnset(named, declared, LabelPairs(role.meta), "mrns");
    SetAttrsUnset(named, declared, LabelPairs(role.meta), "mrn");
  }

  /** The kind's attributes set the version, kind, tags and initial state,
      and leave the namespace and the name alone. */
  lemma KindIdentity(obj: map<string, Value>, role: Role, groupPath: string, kind: Kind, declared: set<string>)
    ensures var e := SetAttrs(obj, declared, KindPairs(role, groupPath, kind));
      ("mrns" in e <==> "mrns" in obj) && ("mrns" in obj ==> e["mrns"] == obj["mrns"])
      && ("mrn" in e <==> "mrn" in obj) && ("mrn" in obj ==> e["mrn"] == obj["mrn"])
      && ("mrv" in declared ==> "mrv" in e && e["mrv"] == Str(Version(role.meta)))
      && ("mrk" in declared ==> "mrk" in e && e["mrk"] == Str(Name(kind)))
      && ("mrt" in declared ==> "mrt" in e && e["mrt"] == List(Strs(Tags(role.meta))))
      && ("state" in declared ==> "state" in e && e["state"] == Dict(InitState(Tags(role.meta))))
  {
    var kinds := KindPairs(role, groupPath, kind);
    if "mrv" in declared {
      SetAttrsLast(obj, declared, kinds, 0);
    }
    if "mrk" in declared {
      SetAttrsLast(obj, declared, kinds, 3);
    }
    if "mrt" in declared {
      SetAttrsLast(obj, declared, kinds, 7);
    }
    if "state" in declared {
      SetAttrsLast(obj, declared, kinds, 8);
    }
    KindPairsAvoidName(role, groupPath, kind);
    SetAttrsUnset(obj, declared, kinds, "mrns");
    SetAttrsUnset(obj, declared, kinds, "mrn");
  }

  /** The kind's attributes never name the namespace or the name. */
  lemma KindPairsAvoidName(role: Role, groupPath: string, kind: Kind)
    ensures Avoids(KindPairs(role, groupPath, kind), "mrns")
    ensures Avoids(KindPairs(role, groupPath, kind), "mrn")
  {
    var kinds := KindPairs(role, groupPath, kind);
    forall i | 0 <= i < |kinds|
      ensures kinds[i].0 != "mrns" && kinds[i].0 != "mrn"
    {
      assert |"mrns"| == 4 && "mrn"[2] == 'n';
    }
  }

  /** What is set after the kind's attributes never touches what the
      plugin reads back. */
  lemma TailAvoids(role: Role, kind: Kind, groups: map<Kind, seq<Value>>, ks: seq<Kind>, x: string)
    requires kind == Function ==> |role.files| > 0
    requires Reserved(x)
    ensures Avoids(LanguagePairs(role, kind), x) && Avoids(LinkedPairs(role, kind, groups, ks), x)
  {
    var linked := LinkedPairs(role, kind, groups, ks);
    GroupPairsKeys(groups, ks);
    forall i | 2 <= i < 2 + |GroupPairs(groups, ks)|
      ensures linked[i].0 != x
    {
      assert linked[i] == GroupPairs(groups, ks)[i - 2];
    }
  }

  /** Whatever the class declares of what the plugin reads back holds the
      namespace, name, version, tags, initial state and kind. */
  lemma EntryIdentity(role: Role, groupPath: string, kind: Kind, declared: set<string>,
                      groups: map<Kind, seq<Value>>, ks: seq<Kind>)
    requires Missing(role, kind).None?
    ensures var e := Entry(role, groupPath, kind, declared, groups, ks);
      ("mrns" in declared ==> "mrns" in e && e["mrns"] == Str(Namespace(role.name)))
      && ("mrn" in declared ==> "mrn" in e && e["mrn"] == Str(NormalizeName(role.name)))
      && ("mrv" in declared ==> "mrv" in e && e["mrv"] == Str(Version(role.meta)))
      && ("mrt" in declared ==> "mrt" in e && e["mrt"] == List(Strs(Tags(role.meta))))
      && ("state" in declared ==> "state" in e && e["state"] == Dict(InitState(Tags(role.meta))))
      && ("mrk" in declared ==> "mrk" in e && e["mrk"] == Str(Name(kind)))
  {
    var e := Entry(role, groupPath, kind, declared, groups, ks);
    var head := NamePairs(role) + LabelPairs(role.meta);
    var kinds := KindPairs(role, groupPath, kind);
    var headed := SetAttrs(map[], declared, head);
    var kinded := SetAttrs(headed, declared, kinds);
    EntryKeepsReserved(role, groupPath, kind, declared, groups, ks);
    NameIdentity(role, declared);
    KindIdentity(headed, role, groupPath, kind, declared);
  }

  /** What the plugin reads back is fixed once the kind's attributes are
      set: the languages and the linked attributes never touch it. */
  lemma EntryKeepsReserved(role: Role, groupPath: string, kind: Kind, declared: set<string>,
                           groups: map<Kind, seq<Value>>, ks: seq<Kind>)
    requires Missing(role, kind).None?
    ensures var e := Entry(role, groupPath, kind, declared, groups, ks);
      var kinded := SetAttrs(SetAttrs(map[], declared, NamePairs(role) + LabelPairs(role.meta)), declared,
                             KindPairs(role, groupPath, kind));
      forall x :: Reserved(x) ==> (x in e <==> x in kinded) && (x in kinded ==> e[x] == kinded[x])
  {
    var head := NamePairs(role) + LabelPairs(role.meta);
    var kinds := KindPairs(role, groupPath, kind);
    var languages := LanguagePairs(role, kind);
    var linked := LinkedPairs(role, kind, groups, ks);
    SetAttrsAppend(map[], declared, head + kinds + languages, linked);
    SetAttrsAppend(map[], declared, head + kinds, languages);
    SetAttrsAppend(map[], declared, head, kinds);
    var headed := SetAttrs(map[], declared, head);
    var kinded := SetAttrs(headed, declared, kinds);
    var own := SetAttrs(kinded, declared, languages);
    forall x | Reserved(x)
      ensures (x in SetAttrs(own, declared, linked) <==> x in kinded)
        && (x in kinded ==> SetAttrs(own, declared, linked)[x] == kinded[x])
    {
      TailAvoids(role, kind, groups, ks, x);
      SetAttrsUnset(kinded, declared, languages, x);
      SetAttrsUnset(own, declared, linked, x);
    }
  }

  /** The fields the plugin reads back from every resource, which every
      kind's class declares. */
  const BaseFields: set<string> := {"mrns", "mrn", "mrk", "mrt", "mrv"}

  predicate Declares(declared: map<Kind, set<string>>)
  {
    forall k: Kind :: k in declared && BaseFields <= declared[k]
  }

  /** The attributes of a stored resource object: the record
      `add_resource` built for it, whose `mrk` names its kind and whose
      `mrn` is the one the grouping reads. */
  function Attrs(declared: map<Kind, set<string>>, r: Resource): (a: map<string, Value>)
    requires Declares(declared) && Missing(r.role, r.kind).None?
    ensures Stored(a, r.kind) && a["mrn"] == Mrn(r)
  {
    EntryIdentity(r.role, r.groupPath, r.kind, declared[r.kind], r.groups, r.met);
    Entry(r.role, r.groupPath, r.kind, declared[r.kind], r.groups, r.met)
  }

  // ---------------------------------------------------------------------
  // Dependants (platform_components.py:194-199)

  /** What `x`, which lists `needs`, appends to `d`'s `requiredby`: itself,
      once for every time `needs` lists `d`. */
  function Listings(x: string, needs: seq<string>, d: string): seq<string>
    decreases |needs|
  {
    if |needs| == 0 then []
    else Listings(x, needs[..|needs| - 1], d) + if needs[|needs| - 1] == d then [x] else []
  }

  /** `x` appears in its listings once per time `needs` lists `d`, and
      nothing else does. */
  lemma {:induction false} ListingsMeaning(x: string, needs: seq<string>, d: string)
    ensures |Listings(x, needs, d)| == multiset(needs)[d]
    ensures forall y :: y in Listings(x, needs, d) ==> y == x
    decreases |needs|
  {
    if |needs| > 0 {
      ListingsMeaning(x, needs[..|needs| - 1], d);
      assert needs == needs[..|needs| - 1] + [needs[|needs| - 1]];
    }
  }

  /** The names appended to `d`'s `requiredby` when the resources are
      walked in `names` order. */
  function RequiredBy(names: seq<string>, resources: map<string, Resource>, d: string): seq<string>
    requires forall n :: n in names ==> n in resources
    decreases |names|
  {
    if |names| == 0 then []
    else
      var init := names[..|names| - 1];
      assert forall n :: n in init ==> n in names;
      var last := names[|names| - 1];
      RequiredBy(init, resources, d) + Listings(last, resources[last].requirements, d)
  }

  /** Walking one more name appends its listings of `d`. */
  lemma RequiredByNext(names: seq<string>, resources: map<string, Resource>, i: nat, d: string)
    requires forall n :: n in names ==> n in resources
    requires i < |names|
    ensures RequiredBy(names[..i + 1], resources, d)
      == RequiredBy(names[..i], resources, d) + Listings(names[i], resources[names[i]].requirements, d)
  {
    assert names[..i + 1][..i] == names[..i];
  }

  /** A name is among `d`'s dependants iff it is walked and requires `d`. */
  lemma {:induction false} RequiredByMeaning(names: seq<string>, resources: map<string, Resource>, d: string, x: string)
    requires forall n :: n in names ==> n in resources
    ensures x in RequiredBy(names, resources, d) <==> x in names && d in resources[x].requirements
    decreases |names|
  {
    if |names| > 0 {
      var init := names[..|names| - 1];
      assert forall n :: n in init ==> n in names;
      var last := names[|names| - 1];
      RequiredByMeaning(init, resources, d, x);
      assert names == init + [last];
      var needs := resources[last].requirements;
      var listed := Listings(last, needs, d);
      ListingsMeaning(last, needs, d);
      assert x in listed <==> x == last && d in needs by {
        if x == last && d in needs {
          assert d in multiset(needs);
          assert listed[0] in listed;
        }
      }
    }
  }

  /** A resource walked once is among the dependants of `d` as often as
      it lists `d`. */
  lemma {:induction false} RequiredByCount(names: seq<string>, resources: map<string, Resource>, d: string, x: string)
    requires forall n :: n in names ==> n in resources
    requires NoDuplicates(names) && x in names
    ensures multiset(RequiredBy(names, resources, d))[x] == multiset(resources[x].requirements)[d]
    decreases |names|
  {
    var init := names[..|names| - 1];
    assert forall n :: n in init ==> n in names;
    var last := names[|names| - 1];
    assert names == init + [last];
    var listed := Listings(last, resources[last].requirements, d);
    ListingsMeaning(last, resources[last].requirements, d);
    NoDuplicatesInit(names);
    if x == last {
      RequiredByMeaning(init, resources, d, x);
      AllSame(listed, x);
    } else {
      RequiredByCount(init, resources, d, x);
      assert x !in listed;
    }
  }

  lemma {:induction false} AllSame(s: seq<string>, x: string)
    requires forall y :: y in s ==> y == x
    ensures multiset(s)[x] == |s|
    decreases |s|
  {
    if |s| > 0 {
      var init := s[..|s| - 1];
      assert forall y :: y in init ==> y in s;
      AllSame(init, x);
      assert s == init + [s[|s| - 1]];
      assert s[|s| - 1] in s;
    }
  }

  // ---------------------------------------------------------------------
  // Included roles (platform_components.py:370-383)

  /** A line `^\s*include_role:.*` matches. */
  predicate IncludeLine(line: string)
  {
    HasPrefix(TrimLeft(line), "include_role:")
  }

  /** The role name read from the line after a match. */
  function IncludedName(line: string): string
  {
    TrimSpace(Replace(line, "name:", ""))
  }

  /** The name on the line after each matching line, in file order. */
  function NamesAfterIncludes(lines: seq<string>): seq<string>
    decreases |lines|
  {
    if |lines| < 2 then []
    else
      NamesAfterIncludes(lines[..|lines| - 1])
      + if IncludeLine(lines[|lines| - 2]) then [IncludedName(lines[|lines| - 1])] else []
  }

  /** The name after line `i` is `x`, and line `i` matched. */
  predicate IncludesAt(lines: seq<string>, i: int, x: string)
  {
    0 <= i < |lines| - 1 && IncludeLine(lines[i]) && IncludedName(lines[i + 1]) == x
  }

  lemma {:induction false} NamesAfterIncludesMembers(lines: seq<string>, x: string)
    ensures x in NamesAfterIncludes(lines) <==> exists i :: IncludesAt(lines, i, x)
    decreases |lines|
  {
    if |lines| >= 2 {
      var init := lines[..|lines| - 1];
      NamesAfterIncludesMembers(init, x);
      forall i | IncludesAt(init, i, x)
        ensures IncludesAt(lines, i, x)
      {
        assert lines[i] == init[i] && lines[i + 1] == init[i + 1];
      }
      forall i | IncludesAt(lines, i, x) && i < |lines| - 2
        ensures IncludesAt(init, i, x)
      {
        assert lines[i] == init[i] && lines[i + 1] == init[i + 1];
      }
      if IncludesAt(lines, |lines| - 2, x) {
        assert x in NamesAfterIncludes(lines);
      }
    }
  }

  /** One more line adds the name on it when the line before matched. */
  lemma NamesAfterIncludesStep(lines: seq<string>, i: nat)
    requires i < |lines|
    ensures NamesAfterIncludes(lines[..i + 1]) == NamesAfterIncludes(lines[..i])
      + if i >= 1 && IncludeLine(lines[i - 1]) then [IncludedName(lines[i])] else []
  {
    if i >= 1 {
      var upto := lines[..i + 1];
      assert upto[..|upto| - 1] == lines[..i];
      assert upto[|upto| - 2] == lines[i - 1] && upto[|upto| - 1] == lines[i];
    }
  }

  /** `findIncludes` over the lines of one file (platform_components.py:
      370-383): the name after every `include_role:` line, each once, in
      the order first met. */
  method FindIncludes(lines: seq<string>) returns (res: seq<string>)
    ensures res == AddAll([], NamesAfterIncludes(lines))
  {
    res := [];
    var found := false;
    var i := 0;
    while i < |lines|
      invariant 0 <= i <= |lines|
      invariant res == AddAll([], NamesAfterIncludes(lines[..i]))
      invariant found == (i > 0 && IncludeLine(lines[i - 1]))
    {
      var line := lines[i];
      NamesAfterIncludesStep(lines, i);
      if found {
        found := false;
        var name := IncludedName(line);
        ghost var names := NamesAfterIncludes(lines[..i]);
        assert (names + [name])[..|names|] == names;
        assert AddAll([], names + [name]) == AppendNew(res, name);
        if name !in res {
          res := res + [name];
        }
      }
      else {
        assert NamesAfterIncludes(lines[..i + 1]) == NamesAfterIncludes(lines[..i]);
      }
      if IncludeLine(line) {
        found := true;
      }
      i := i + 1;
    }
    assert lines[..i] == lines;
  }

  /** The names found are those on a line right after a matching line,
      without repeats. */
  lemma IncludesMeaning(lines: seq<string>, x: string)
    ensures NoDuplicates(AddAll([], NamesAfterIncludes(lines)))
    ensures x in AddAll([], NamesAfterIncludes(lines)) <==> exists i :: IncludesAt(lines, i, x)
  {
    AddAllNoDuplicates([], NamesAfterIncludes(lines));
    AddAllMembers([], NamesAfterIncludes(lines));
    NamesAfterIncludesMembers(lines, x);
  }

  // ---------------------------------------------------------------------
  // The plugin as it runs

  /** A play of the platform playbook: its name and its roles. */
  datatype Play = Play(name: string, roles: seq<Role>)

  /** An inventory entity the plugin is asked about. */
  datatype Entity = Group(name: string) | Host(name: string)

  /** The variables go to the `platform` group and its dotted subgroups. */
  predicate ForPlatform(entities: seq<Entity>)
  {
    |entities| > 0 && entities[0].Group? &&
    (entities[0].name == "platform" || HasPrefix(entities[0].name, "platform."))
  }

  /**
   * The plugin's bookkeeping: the resource objects by normalized name,
   * the names in the order they were first stored (the order of
   * `self.resources`), and `resource_namespaces`.
   */
  datatype Store = Store(resources: map<string, Resource>, order: seq<string>, namespaces: seq<string>)

  /** Every resource's role has the metadata and files its attributes are
      read from. */
  predicate Typed(s: Store)
  {
    forall k :: k in s.resources ==> Missing(s.resources[k].role, s.resources[k].kind).None?
  }

  /** Every name a resource requires is stored. */
  predicate Closed(s: Store)
  {
    forall k, d :: k in s.resources && d in s.resources[k].requirements ==> d in s.resources
  }

  /** Every stored name listed once, in the order of first storing, and
      every namespace once. */
  ghost predicate Listed(s: Store)
  {
    NoDuplicates(s.order) && NoDuplicates(s.namespaces)
    && forall k :: k in s.resources <==> k in s.order
  }

  /** The bookkeeping the plugin keeps: the classes declare the fields
      read back, and the resources are typed, closed and listed. */
  ghost predicate Consistent(declared: map<Kind, set<string>>, s: Store)
  {
    Declares(declared) && Typed(s) && Closed(s) && Listed(s)
  }

  /** No resource has dependants yet. */
  predicate Unlinked(s: Store)
  {
    forall k :: k in s.resources ==> s.resources[k].requiredBy == []
  }

  /** What was stored stays stored unchanged, and the lists only grow. */
  predicate Grows(a: Store, b: Store)
  {
    (forall k :: k in a.resources ==> k in b.resources && b.resources[k] == a.resources[k])
    && |a.order| <= |b.order| && b.order[..|a.order|] == a.order
    && |a.namespaces| <= |b.namespaces| && b.namespaces[..|a.namespaces|] == a.namespaces
  }

  lemma GrowsTransitive(a: Store, b: Store, c: Store)
    requires Grows(a, b) && Grows(b, c)
    ensures Grows(a, c)
  {
    assert c.order[..|a.order|] == c.order[..|b.order|][..|a.order|];
    assert c.namespaces[..|a.namespaces|] == c.namespaces[..|b.namespaces|][..|a.namespaces|];
  }

  /** The resource stored under `key`, and the name listed unless it
      already is. */
  function Put(s: Store, key: string, r: Resource): (t: Store)
    ensures t.namespaces == s.namespaces
  {
    Store(s.resources[key := r], AppendNew(s.order, key), s.namespaces)
  }

  /** Storing a resource with no dependants yet, whose role is complete and
      whose required names are stored, keeps the bookkeeping consistent,
      with no dependants, and keeps what was stored before `s` grew into
      `t` when the name is new to `s`. */
  lemma PutKeeps(declared: map<Kind, set<string>>, s: Store, t: Store, key: string, r: Resource)
    requires Consistent(declared, t) && Unlinked(t) && Grows(s, t) && key !in s.resources
    requires Missing(r.role, r.kind).None? && r.requiredBy == []
    requires forall d :: d in r.requirements ==> d in t.resources
    ensures var u := Put(t, key, r);
      Consistent(declared, u) && Unlinked(u) && Grows(s, u) && key in u.resources
  {
    var u := Put(t, key, r);
    assert u.order[..|t.order|] == t.order;
    assert u.order[..|s.order|] == t.order[..|s.order|];
  }

  /** Filling in the dependants of resources that had none keeps the
      bookkeeping consistent, and each resource's dependants are then those
      the walk in stored order finds. */
  lemma LinkedConsistent(declared: map<Kind, set<string>>, s: Store, t: Store)
    requires Consistent(declared, s) && Unlinked(s) && t.order == s.order && t.namespaces == s.namespaces
    requires t.resources.Keys == s.resources.Keys
    requires forall d :: d in s.resources ==>
      t.resources[d] == s.resources[d].(requiredBy := s.resources[d].requiredBy + RequiredBy(s.order, s.resources, d))
    ensures Consistent(declared, t)
    ensures forall d :: d in s.resources ==> t.resources[d] == s.resources[d].(requiredBy := RequiredBy(s.order, s.resources, d))
  {
    forall d | d in s.resources
      ensures t.resources[d] == s.resources[d].(requiredBy := RequiredBy(s.order, s.resources, d))
    {
      assert s.resources[d].requiredBy == [];
    }
  }

  /** The record stored for a role added afresh: its attributes, its kind
      and its `requires`, with the groups of required names read from
      the records of those names. */
  ghost predicate Recorded(declared: map<Kind, set<string>>, s: Store, role: Role, groupPath: string, kind: Kind)
  {
    var key := NormalizeName(role.name);
    var needs := Requirements(role);
    Declares(declared) && Missing(role, kind).None?
    && key in s.resources && s.resources[key].kind == kind && s.resources[key].requirements == needs
    && Resolvable(needs, s.resources)
    && (key !in needs ==>
          s.resources[key] == Resource(role, groupPath, kind, KindGroups(needs, s.resources),
                                       KindsMet(needs, s.resources), needs, []))
  }

  // ---------------------------------------------------------------------
  // add_resource and build_resources on the bookkeeping

  /** How a call ends: normally, or with the exception it raised. */
  datatype Status = Completed | Raised(error: Raise)

  /** What a call does to the bookkeeping, with what it returns. */
  datatype Step = Step(result: Status, store: Store)

  /** The group path a role's dependencies are added under: the role's own
      path extended by its short name, an executor's own path. */
  function Below(role: Role, groupPath: string, kind: Kind): string
  {
    if kind != Executor then groupPath + "/" + ShortName(role.name) else groupPath
  }

  /** `add_resource(role, group_path)` (platform_components.py:201-331): a
      name already stored changes nothing. */
  function AddSpec(declared: map<Kind, set<string>>, s: Store, role: Role, groupPath: string): Step
    requires Declares(declared)
    decreases role, 3, 0
  {
    if NormalizeName(role.name) in s.resources then Step(Completed, s)
    else NewSpec(declared, s, role, groupPath)
  }

  /** `add_resource` for a name not yet stored (platform_components.py:
      206-331): the kind read from the path, the namespace registered, the
      attributes set, and the role registered. */
  function NewSpec(declared: map<Kind, set<string>>, s: Store, role: Role, groupPath: string): Step
    requires Declares(declared)
    decreases role, 2, 0
  {
    match KindOf(role.path)
    case Threw(e) => Step(Raised(e), s)
    case Done(kind) =>
      var named := s.(namespaces := AppendNew(s.namespaces, Namespace(role.name)));
      match Missing(role, kind)
      case Some(e) => Step(Raised(e), named)
      case None => RegisterSpec(declared, named, role, groupPath, kind)
  }

  /**
   * The rest of `add_resource` once the attributes are set
   * (platform_components.py:280-295, 331): the dependencies added, then the
   * record stored with its `requires`, `mri` and the required names
   * grouped by kind. Looking up a required name that is not stored raises
   * `KeyError`.
   */
  function RegisterSpec(declared: map<Kind, set<string>>, s: Store, role: Role, groupPath: string, kind: Kind): Step
    requires Declares(declared) && Missing(role, kind).None?
    decreases role, 1, 0
  {
    var deps := DepsSpec(declared, s, role, 0, Below(role, groupPath, kind));
    var t := deps.store;
    var needs := Requirements(role);
    if deps.result.Raised? then deps
    else if !Resolvable(needs, t.resources) then Step(Raised(KeyError), t)
    else
      var r := Resource(role, groupPath, kind, KindGroups(needs, t.resources), KindsMet(needs, t.resources), needs, []);
      Step(Completed, Put(t, NormalizeName(role.name), r))
  }

  /** `add_resource` for the dependencies of a role from the `i`-th on
      (platform_components.py:280-282); the first exception ends the loop. */
  function DepsSpec(declared: map<Kind, set<string>>, s: Store, role: Role, i: nat, groupPath: string): Step
    requires Declares(declared) && i <= |role.deps|
    decreases role, 0, |role.deps| - i
  {
    if i == |role.deps| then Step(Completed, s)
    else
      var first := AddSpec(declared, s, role.deps[i], groupPath);
      if first.result.Raised? then first else DepsSpec(declared, first.store, role, i + 1, groupPath)
  }

  /** The roles of a play from the `j`-th on, added under the play's name
      (platform_components.py:189-192). */
  function RolesSpec(declared: map<Kind, set<string>>, s: Store, play: Play, j: nat): Step
    requires Declares(declared) && j <= |play.roles|
    decreases |play.roles| - j
  {
    if j == |play.roles| then Step(Completed, s)
    else
      var first := AddSpec(declared, s, play.roles[j], play.name);
      if first.result.Raised? then first else RolesSpec(declared, first.store, play, j + 1)
  }

  /** `build_resources` over the plays from the `i`-th on
      (platform_components.py:183-192). */
  function BuildSpec(declared: map<Kind, set<string>>, s: Store, plays: seq<Play>, i: nat): Step
    requires Declares(declared) && i <= |plays|
    decreases |plays| - i
  {
    if i == |plays| then Step(Completed, s)
    else
      var first := RolesSpec(declared, s, plays[i], 0);
      if first.result.Raised? then first else BuildSpec(declared, first.store, plays, i + 1)
  }

  /** Registering a role that does not raise records it. */
  lemma RegisterRecords(declared: map<Kind, set<string>>, s: Store, role: Role, groupPath: string, kind: Kind)
    requires Declares(declared) && Missing(role, kind).None?
    ensures var t := RegisterSpec(declared, s, role, groupPath, kind);
      t.result.Completed? ==> Recorded(declared, t.store, role, groupPath, kind)
  {
    var deps := DepsSpec(declared, s, role, 0, Below(role, groupPath, kind));
    var needs := Requirements(role);
    var key := NormalizeName(role.name);
    if deps.result.Completed? && Resolvable(needs, deps.store.resources) {
      var r := Resource(role, groupPath, kind, KindGroups(needs, deps.store.resources), KindsMet(needs, deps.store.resources), needs, []);
      var t := Put(deps.store, key, r);
      if key !in needs {
        GroupsFrame(needs, deps.store.resources, t.resources);
      }
    }
  }

  /** Registering a namespace keeps the bookkeeping consistent and
      extends it. */
  lemma NamedKeeps(declared: map<Kind, set<string>>, s: Store, ns: string)
    requires Consistent(declared, s) && Unlinked(s)
    ensures var t := s.(namespaces := AppendNew(s.namespaces, ns));
      Consistent(declared, t) && Unlinked(t) && Grows(s, t)
  {
    var t := s.(namespaces := AppendNew(s.namespaces, ns));
    assert t.namespaces[..|s.namespaces|] == s.namespaces;
  }

  /**
   * `add_resource` keeps the bookkeeping consistent, with no dependants
   * yet, only extends it, and stores the role's name unless it raises.
   */
  lemma {:induction false} AddKeeps(declared: map<Kind, set<string>>, s: Store, role: Role, groupPath: string)
    requires Consistent(declared, s) && Unlinked(s)
    ensures var t := AddSpec(declared, s, role, groupPath);
      Consistent(declared, t.store) && Unlinked(t.store) && Grows(s, t.store)
      && (t.result.Completed? ==> NormalizeName(role.name) in t.store.resources)
    ensures NormalizeName(role.name) in s.resources ==> AddSpec(declared, s, role, groupPath) == Step(Completed, s)
    decreases role, 3, 0
  {
    if NormalizeName(role.name) !in s.resources {
      NewKeeps(declared, s, role, groupPath);
    } else {
      assert s.order[..|s.order|] == s.order && s.namespaces[..|s.namespaces|] == s.namespaces;
    }
  }

  lemma {:induction false} NewKeeps(declared: map<Kind, set<string>>, s: Store, role: Role, groupPath: string)
    requires Consistent(declared, s) && Unlinked(s) && NormalizeName(role.name) !in s.resources
    ensures var t := NewSpec(declared, s, role, groupPath);
      Consistent(declared, t.store) && Unlinked(t.store) && Grows(s, t.store)
      && (t.result.Completed? ==> NormalizeName(role.name) in t.store.resources)
    decreases role, 2, 0
  {
    if KindOf(role.path).Done? {
      var kind := KindOf(role.path).value;
      var named := s.(namespaces := AppendNew(s.namespaces, Namespace(role.name)));
      NamedKeeps(declared, s, Namespace(role.name));
      if Missing(role, kind).None? {
        RegisterKeeps(declared, named, role, groupPath, kind);
        GrowsTransitive(s, named, RegisterSpec(declared, named, role, groupPath, kind).store);
      }
    } else {
      assert s.order[..|s.order|] == s.order && s.namespaces[..|s.namespaces|] == s.namespaces;
    }
  }

  /**
   * Registering a role keeps the bookkeeping consistent and only extends
   * it, and raises only what adding the dependencies raised: every
   * required name is stored by then.
   */
  lemma {:induction false} RegisterKeeps(declared: map<Kind, set<string>>, s: Store, role: Role, groupPath: string, kind: Kind)
    requires Consistent(declared, s) && Unlinked(s)
    requires Missing(role, kind).None? && NormalizeName(role.name) !in s.resources
    ensures var t := RegisterSpec(declared, s, role, groupPath, kind);
      Consistent(declared, t.store) && Unlinked(t.store) && Grows(s, t.store)
      && t.result == DepsSpec(declared, s, role, 0, Below(role, groupPath, kind)).result
      && (t.result.Completed? ==> NormalizeName(role.name) in t.store.resources)
    decreases role, 1, 0
  {
    var deps := DepsSpec(declared, s, role, 0, Below(role, groupPath, kind));
    DepsKeeps(declared, s, role, 0, Below(role, groupPath, kind));
    var needs := Requirements(role);
    if deps.result.Completed? {
      assert Resolvable(needs, deps.store.resources);
      var r := Resource(role, groupPath, kind, KindGroups(needs, deps.store.resources), KindsMet(needs, deps.store.resources), needs, []);
      PutKeeps(declared, s, deps.store, NormalizeName(role.name), r);
    }
  }


  /** Adding the dependencies from the `i`-th on keeps the bookkeeping
      consistent, only extends it, and stores each of them unless one
      raises. */
  lemma {:induction false} DepsKeeps(declared: map<Kind, set<string>>, s: Store, role: Role, i: nat, groupPath: string)
    requires Consistent(declared, s) && Unlinked(s) && i <= |role.deps|
    ensures var t := DepsSpec(declared, s, role, i, groupPath);
      Consistent(declared, t.store) && Unlinked(t.store) && Grows(s, t.store)
      && (t.result.Completed? ==> forall j :: i <= j < |role.deps| ==> NormalizeName(role.deps[j].name) in t.store.resources)
    decreases role, 0, |role.deps| - i
  {
    if i < |role.deps| {
      var first := AddSpec(declared, s, role.deps[i], groupPath);
      AddKeeps(declared, s, role.deps[i], groupPath);
      if first.result.Completed? {
        var rest := DepsSpec(declared, first.store, role, i + 1, groupPath);
        DepsKeeps(declared, first.store, role, i + 1, groupPath);
        GrowsTransitive(s, first.store, rest.store);
        forall j | i <= j < |role.deps| && rest.result.Completed?
          ensures NormalizeName(role.deps[j].name) in rest.store.resources
        {
          if j == i {
            assert NormalizeName(role.deps[j].name) in first.store.resources;
          }
        }
      }
    }
  }

  /** Adding the roles of a play keeps the bookkeeping consistent, only
      extends it, and stores each role unless one raises. */
  lemma {:induction false} RolesKeeps(declared: map<Kind, set<string>>, s: Store, play: Play, j: nat)
    requires Consistent(declared, s) && Unlinked(s) && j <= |play.roles|
    ensures var t := RolesSpec(declared, s, play, j);
      Consistent(declared, t.store) && Unlinked(t.store) && Grows(s, t.store)
      && (t.result.Completed? ==> forall k :: j <= k < |play.roles| ==> NormalizeName(play.roles[k].name) in t.store.resources)
    decreases |play.roles| - j
  {
    if j < |play.roles| {
      var first := AddSpec(declared, s, play.roles[j], play.name);
      AddKeeps(declared, s, play.roles[j], play.name);
      if first.result.Completed? {
        var rest := RolesSpec(declared, first.store, play, j + 1);
        RolesKeeps(declared, first.store, play, j + 1);
        GrowsTransitive(s, first.store, rest.store);
        forall k | j <= k < |play.roles| && rest.result.Completed?
          ensures NormalizeName(play.roles[k].name) in rest.store.resources
        {
          if k == j {
            assert NormalizeName(play.roles[k].name) in first.store.resources;
          }
        }
      }
    }
  }

  /** Building the resources keeps the bookkeeping consistent, only
      extends it, and stores every role of every play unless one
      raises. */
  lemma {:induction false} BuildKeeps(declared: map<Kind, set<string>>, s: Store, plays: seq<Play>, i: nat)
    requires Consistent(declared, s) && Unlinked(s) && i <= |plays|
    ensures var t := BuildSpec(declared, s, plays, i);
      Consistent(declared, t.store) && Unlinked(t.store) && Grows(s, t.store)
      && (t.result.Completed? ==> forall p, role :: p in plays[i..] && role in p.roles ==> NormalizeName(role.name) in t.store.resources)
    decreases |plays| - i
  {
    if i < |plays| {
      var first := RolesSpec(declared, s, plays[i], 0);
      RolesKeeps(declared, s, plays[i], 0);
      if first.result.Completed? {
        var rest := BuildSpec(declared, first.store, plays, i + 1);
        BuildKeeps(declared, first.store, plays, i + 1);
        GrowsTransitive(s, first.store, rest.store);
        forall p, role | p in plays[i..] && role in p.roles && rest.result.Completed?
          ensures NormalizeName(role.name) in rest.store.resources
        {
          if p == plays[i] {
            var k :| 0 <= k < |p.roles| && p.roles[k] == role;
            assert NormalizeName(role.name) in first.store.resources;
          } else {
            assert p in plays[i + 1..];
          }
        }
      }
    }
  }

  /** One resource as `normalize_resources` exports it
      (platform_components.py:168-175): its attributes with its
      `requiredby`. */
  function Exported(declared: map<Kind, set<string>>, r: Resource): Value
    requires Declares(declared) && Missing(r.role, r.kind).None?
  {
    Dict(Attrs(declared, r)["requiredby" := List(Strs(r.requiredBy))])
  }

  /** An exported resource holds its attributes and its dependants. */
  lemma ExportedMeaning(declared: map<Kind, set<string>>, r: Resource)
    requires Declares(declared) && Missing(r.role, r.kind).None?
    ensures var v := Exported(declared, r);
      v.Dict? && (forall x :: x in v.entries <==> x in Attrs(declared, r) || x == "requiredby")
      && v.entries["requiredby"] == List(Strs(r.requiredBy))
      && forall x :: x in Attrs(declared, r) && x != "requiredby" ==> v.entries[x] == Attrs(declared, r)[x]
  {
  }

  /** The named resources exported, walked in order. */
  function ExportOf(declared: map<Kind, set<string>>, s: Store, names: seq<string>): (v: map<string, Value>)
    requires Declares(declared) && Typed(s) && forall n :: n in names ==> n in s.resources
    ensures forall k :: k in v <==> k in names
    decreases |names|
  {
    if |names| == 0 then map[]
    else
      var last := names[|names| - 1];
      assert last in names && forall n :: n in names[..|names| - 1] ==> n in names;
      ExportOf(declared, s, names[..|names| - 1])[last := Exported(declared, s.resources[last])]
  }

  /** Each name walked is exported as its resource. */
  lemma {:induction false} ExportOfAt(declared: map<Kind, set<string>>, s: Store, names: seq<string>, k: string)
    requires Declares(declared) && Typed(s) && forall n :: n in names ==> n in s.resources
    requires k in names
    ensures ExportOf(declared, s, names)[k] == Exported(declared, s.resources[k])
    decreases |names|
  {
    var init := names[..|names| - 1];
    assert forall n :: n in init ==> n in names;
    if k != names[|names| - 1] {
      assert k in init by {
        assert names == init + [names[|names| - 1]];
      }
      ExportOfAt(declared, s, init, k);
    }
  }

  /** The list of the stored names and the list of the namespaces, put
      beside the resources under their own keys (platform_components.py:
      155-156). */
  function WithLists(v: map<string, Value>, s: Store): (w: map<string, Value>)
    ensures forall k :: k in w <==> k in v || k == "machine_resources" || k == "machine_resource_namespaces"
    ensures w["machine_resources"] == List(Strs(s.order))
    ensures w["machine_resource_namespaces"] == List(Strs(s.namespaces))
    ensures forall k :: k in v && k != "machine_resources" && k != "machine_resource_namespaces" ==> w[k] == v[k]
  {
    v["machine_resources" := List(Strs(s.order))]["machine_resource_namespaces" := List(Strs(s.namespaces))]
  }

  /** `normalize_resources` after `populate` (platform_components.py:
      155-158, 167-182): the resources in the order stored, then the list
      of their names and the namespaces. */
  function Export(declared: map<Kind, set<string>>, s: Store): (v: map<string, Value>)
    requires Declares(declared) && Typed(s) && forall k :: k in s.order ==> k in s.resources
  {
    WithLists(ExportOf(declared, s, s.order), s)
  }

  /** Every stored name that is not one of the two list keys is exported
      as its resource. */
  lemma ExportResource(declared: map<Kind, set<string>>, s: Store, k: string)
    requires Declares(declared) && Typed(s) && forall k :: k in s.order ==> k in s.resources
    requires k in s.order && k != "machine_resources" && k != "machine_resource_namespaces"
    ensures Export(declared, s)[k] == Exported(declared, s.resources[k])
  {
    ExportOfAt(declared, s, s.order, k);
  }

  /** What `get_vars` returns: the variables, or the exception `populate`
      raised wrapped in a `RuntimeError`. */
  datatype Vars = Vars(vars: map<string, Value>) | RuntimeError(cause: Raise)

  class Components {
    /** The fields each kind's class declares (`get_type_hints`). */
    const declared: map<Kind, set<string>>
    /** `self.resources`, in the order names were first stored, with each
        resource's kind, `requires` and `requiredby`, and
        `self.resource_namespaces`. */
    var store: Store
    /** Whether `populate` has stored the lists of names and namespaces
        beside the resources. */
    var listed: bool
    /** `normalized_resources`. */
    var exported: map<string, Value>

    ghost predicate Valid()
      reads this
    {
      Consistent(declared, store) && (!listed ==> Unlinked(store))
    }

    /** `VarsModule.__init__` (platform_components.py:94-150). */
    constructor (declared: map<Kind, set<string>>)
      requires Declares(declared)
      ensures Valid() && this.declared == declared
      ensures store == Store(map[], [], []) && !listed && exported == map[]
    {
      this.declared := declared;
      store := Store(map[], [], []);
      listed := false;
      exported := map[];
    }

    /** The names grouped by kind, as the loop over `requires` builds them
        (platform_components.py:286-291). */
    method GroupByKind(names: seq<string>) returns (groups: map<Kind, seq<Value>>)
      requires Resolvable(names, store.resources)
      ensures groups == KindGroups(names, store.resources)
    {
      var resources := store.resources;
      groups := map[];
      var i := 0;
      while i < |names|
        invariant 0 <= i <= |names|
        invariant groups == KindGroups(names[..i], resources)
      {
        assert names[..i + 1][..i] == names[..i];
        assert names[i] in names;
        var require := resources[names[i]];
        if require.kind !in groups {
          groups := groups[require.kind := []];
        }
        groups := groups[require.kind := groups[require.kind] + [Mrn(require)]];
        i := i + 1;
      }
      assert names[..i] == names;
    }

    /** `add_resource(role, group_path)` (platform_components.py:201-331). */
    method AddResource(role: Role, groupPath: string) returns (r: Status)
      requires Declares(declared)
      modifies this
      ensures Step(r, store) == AddSpec(declared, old(store), role, groupPath)
      ensures listed == old(listed) && exported == old(exported)
      decreases role, 3, 0
    {
      if NormalizeName(role.name) in store.resources {
        return Completed;
      }
      var kind := KindOf(role.path);
      if kind.Threw? {
        return Raised(kind.error);
      }
      var mrns := Namespace(role.name);
      if mrns !in store.namespaces {
        store := store.(namespaces := store.namespaces + [mrns]);
      }
      var missing := Missing(role, kind.value);
      if missing.Some? {
        return Raised(missing.value);
      }
      r := Register(role, groupPath, kind.value);
    }

    /** The dependencies added, then the record stored
        (platform_components.py:280-295, 331). */
    method Register(role: Role, groupPath: string, kind: Kind) returns (r: Status)
      requires Declares(declared) && Missing(role, kind).None?
      modifies this
      ensures Step(r, store) == RegisterSpec(declared, old(store), role, groupPath, kind)
      ensures listed == old(listed) && exported == old(exported)
      decreases role, 1, 0
    {
      ghost var deps := DepsSpec(declared, store, role, 0, Below(role, groupPath, kind));
      r := AddDependencies(role, Below(role, groupPath, kind));
      if r.Raised? {
        return;
      }
      assert store == deps.store;
      var needs := Requirements(role);
      if !Resolvable(needs, store.resources) {
        return Raised(KeyError);
      }
      var groups := GroupByKind(needs);
      store := Put(store, NormalizeName(role.name), Resource(role, groupPath, kind, groups, KindsMet(needs, store.resources), needs, []));
      r := Completed;
    }

    /** `add_resource` for each direct and included dependency of a role in
        turn (platform_components.py:280-282); the first exception ends
        the loop. */
    method AddDependencies(role: Role, groupPath: string) returns (r: Status)
      requires Declares(declared)
      modifies this
      ensures Step(r, store) == DepsSpec(declared, old(store), role, 0, groupPath)
      ensures listed == old(listed) && exported == old(exported)
      decreases role, 0, |role.deps|
    {
      var i := 0;
      while i < |role.deps|
        invariant 0 <= i <= |role.deps|
        invariant DepsSpec(declared, old(store), role, 0, groupPath) == DepsSpec(declared, store, role, i, groupPath)
        invariant listed == old(listed) && exported == old(exported)
      {
        r := AddResource(role.deps[i], groupPath);
        if r.Raised? {
          return;
        }
        i := i + 1;
      }
      r := Completed;
    }

    /**
     * `process_resources_dependencies` (platform_components.py:194-199):
     * every resource, in the order stored, is appended to the `requiredby`
     * of each resource it requires, once per listing. Every required name
     * is stored, so the lookup never raises.
     */
    method ProcessDependencies()
      requires forall k :: k in store.order ==> k in store.resources
      requires forall k, d :: k in store.resources && d in store.resources[k].requirements ==> d in store.resources
      modifies this
      ensures store.order == old(store.order) && store.namespaces == old(store.namespaces)
      ensures listed == old(listed) && exported == old(exported)
      ensures store.resources.Keys == old(store.resources).Keys
      ensures forall d :: d in store.resources ==>
        store.resources[d] == old(store.resources)[d].(requiredBy := old(store.resources)[d].requiredBy
                                                        + RequiredBy(old(store.order), old(store.resources), d))
    {
      var names := store.order;
      ghost var start := store.resources;
      var i := 0;
      while i < |names|
        invariant 0 <= i <= |names|
        invariant store.order == old(store.order) && store.namespaces == old(store.namespaces)
        invariant listed == old(listed) && exported == old(exported)
        invariant store.resources.Keys == start.Keys
        invariant forall d :: d in store.resources ==>
          store.resources[d] == start[d].(requiredBy := start[d].requiredBy
                                                          + RequiredBy(names[..i], start, d))
      {
        var name := names[i];
        ghost var before := store.resources;
        assert before[name].requirements == start[name].requirements;
        AppendDependant(name, store.resources[name].requirements);
        forall d | d in store.resources
          ensures store.resources[d] == start[d].(requiredBy := start[d].requiredBy + RequiredBy(names[..i + 1], start, d))
        {
          var first := start[d].requiredBy;
          var walked := RequiredBy(names[..i], start, d);
          var listed := Listings(name, start[name].requirements, d);
          RequiredByNext(names, start, i, d);
          assert before[d].requiredBy == first + walked;
          AppendAssoc(first, walked, listed);
        }
        i := i + 1;
      }
      assert names[..i] == names;
    }

    /** `name` appended to the `requiredby` of each name it requires, once
        per listing (platform_components.py:197-199). */
    method AppendDependant(name: string, needs: seq<string>)
      requires forall d :: d in needs ==> d in store.resources
      modifies this
      ensures store.order == old(store.order) && store.namespaces == old(store.namespaces)
      ensures listed == old(listed) && exported == old(exported)
      ensures store.resources.Keys == old(store.resources).Keys
      ensures forall d :: d in store.resources ==>
        store.resources[d] == old(store.resources)[d].(requiredBy := old(store.resources)[d].requiredBy + Listings(name, needs, d))
    {
      var resources := store.resources;
      var j := 0;
      while j < |needs|
        invariant 0 <= j <= |needs|
        invariant resources.Keys == old(store.resources).Keys
        invariant forall d :: d in resources ==>
          resources[d] == old(store.resources)[d].(requiredBy := old(store.resources)[d].requiredBy + Listings(name, needs[..j], d))
      {
        var d := needs[j];
        assert needs[..j + 1][..j] == needs[..j];
        resources := resources[d := resources[d].(requiredBy := resources[d].requiredBy + [name])];
        j := j + 1;
      }
      assert needs[..j] == needs;
      store := store.(resources := resources);
    }

    /** `build_resources` over the plays of the platform playbook
        (platform_components.py:183-192): each play's roles added under its
        name, the first exception ending the walk. */
    method BuildResources(plays: seq<Play>) returns (r: Status)
      requires Declares(declared)
      modifies this
      ensures Step(r, store) == BuildSpec(declared, old(store), plays, 0)
      ensures listed == old(listed) && exported == old(exported)
    {
      var i := 0;
      while i < |plays|
        invariant 0 <= i <= |plays|
        invariant BuildSpec(declared, old(store), plays, 0) == BuildSpec(declared, store, plays, i)
        invariant listed == old(listed) && exported == old(exported)
      {
        r := AddRoles(plays[i]);
        if r.Raised? {
          return;
        }
        i := i + 1;
      }
      r := Completed;
    }

    /** The roles of one play added in turn under the play's name
        (platform_components.py:189-192). */
    method AddRoles(play: Play) returns (r: Status)
      requires Declares(declared)
      modifies this
      ensures Step(r, store) == RolesSpec(declared, old(store), play, 0)
      ensures listed == old(listed) && exported == old(exported)
    {
      var j := 0;
      while j < |play.roles|
        invariant 0 <= j <= |play.roles|
        invariant RolesSpec(declared, old(store), play, 0) == RolesSpec(declared, store, play, j)
        invariant listed == old(listed) && exported == old(exported)
      {
        r := AddResource(play.roles[j], play.name);
        if r.Raised? {
          return;
        }
        j := j + 1;
      }
      r := Completed;
    }

    /** `populate` (platform_components.py:177-181): the resources built,
        their dependants linked, and the lists of names and namespaces
        stored beside them. */
    method Populate(plays: seq<Play>) returns (r: Status)
      requires Valid() && !listed
      modifies this
      ensures Valid() && exported == old(exported) && listed == r.Completed?
      ensures r == BuildSpec(declared, old(store), plays, 0).result
      ensures r.Raised? ==> store == BuildSpec(declared, old(store), plays, 0).store
      ensures r.Completed? ==> forall p, role :: p in plays && role in p.roles ==> NormalizeName(role.name) in store.resources
      ensures r.Completed? ==> var built := BuildSpec(declared, old(store), plays, 0).store;
        store.order == built.order && store.namespaces == built.namespaces && store.resources.Keys == built.resources.Keys
        && forall d :: d in built.resources ==>
          store.resources[d] == built.resources[d].(requiredBy := RequiredBy(built.order, built.resources, d))
    {
      ghost var start := store;
      r := BuildResources(plays);
      BuildKeeps(declared, start, plays, 0);
      assert plays[0..] == plays;
      if r.Raised? {
        return;
      }
      ghost var built := store;
      ProcessDependencies();
      LinkedConsistent(declared, built, store);
      listed := true;
    }

    /** `normalize_resources`, and the copy of its result under
        `platform_components` (platform_components.py:158-159, 168-175). */
    method Normalize()
      requires Valid()
      modifies this
      ensures store == old(store) && listed == old(listed)
      ensures exported == Export(declared, store)["platform_components" := Dict(Export(declared, store))]
    {
      var normalized := Export(declared, store);
      exported := normalized["platform_components" := Dict(normalized)];
    }

    /**
     * `get_vars` (platform_components.py:152-166): the resources are
     * populated and exported on the first call that finds none stored;
     * the export, and a copy of it under `platform_components`, goes to
     * the `platform` group and its subgroups, and nothing to any other
     * entity. An exception while populating is wrapped.
     */
    method GetVars(plays: seq<Play>, entities: seq<Entity>) returns (r: Vars)
      requires Valid()
      modifies this
      ensures Valid()
      ensures (old(listed) || |old(store.resources)| > 0) ==>
        store == old(store) && listed == old(listed) && exported == old(exported)
      ensures r.RuntimeError? <==> (!old(listed) && |old(store.resources)| == 0 && !listed)
      ensures (!old(listed) && |old(store.resources)| == 0 && listed) ==>
        exported == Export(declared, store)["platform_components" := Dict(Export(declared, store))]
      ensures r.RuntimeError? ==> BuildSpec(declared, old(store), plays, 0).result == Raised(r.cause)
      ensures (!old(listed) && |old(store.resources)| == 0 && listed) ==>
        var built := BuildSpec(declared, old(store), plays, 0).store;
        store.order == built.order && store.namespaces == built.namespaces && store.resources.Keys == built.resources.Keys
        && (forall d :: d in built.resources ==>
              store.resources[d] == built.resources[d].(requiredBy := RequiredBy(built.order, built.resources, d)))
        && (forall p, role :: p in plays && role in p.roles ==> NormalizeName(role.name) in store.resources)
      ensures r.Vars? ==> r.vars == if ForPlatform(entities) then exported else map[]
    {
      if !listed && |store.resources| == 0 {
        var populated := Populate(plays);
        if populated.Raised? {
          return RuntimeError(populated.error);
        }
        Normalize();
      }
      if ForPlatform(entities) {
        return Vars(exported);
      }
      return Vars(map[]);
    }
  }
}
