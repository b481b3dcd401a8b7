/**
 * The toolbox configuration reader of the prepare action
 * (actions/config/module.py): a YAML document loaded once, and
 * `get_value(kind, name, key)`, which looks `kind`, then `name`, then the
 * dotted `key` up in it. Python's `in`, indexing and `.get` are those of the
 * Values module, each with the exception it raises.
 */
module ConfigLookup {
  import opened Common
  import opened Values

  /** What `get_value` does: return a value, with the error line it printed
      when it printed one, or raise. */
  datatype Outcome = Returned(value: Value, printed: Option<string>) | Raised(error: Raise)

  /** The configuration file: absent, or present with the document it holds
      (an empty file holds `Nil`). */
  datatype Source = NotFound | Loaded(doc: Value)

  // ---------------------------------------------------------------------
  // get_value

  function NoKind(kind: string): string
  {
    "Error: no " + Quote(kind) + " found in config"
  }

  function NoName(kind: string, name: string): string
  {
    "Error: no " + Quote(name) + " found in " + Quote(kind) + " config"
  }

  function NoKey(kind: string, name: string, key: string): string
  {
    "Error: no " + Quote(key) + " found in " + Quote(kind + "." + name) + " config"
  }

  /** The loop over the key's components as written: `.get` on whatever
      the previous step returned, None included. */
  function WrittenWalk(value: Value, components: seq<string>): Attempt<Value>
    decreases |components|
  {
    if |components| == 0 then Done(value)
    else match Get(value, components[0])
      case Threw(e) => Threw(e)
      case Done(next) => WrittenWalk(next, components[1..])
  }

  /** The loop as evidently intended: a missing component ends the walk
      with None, to be reported like a missing last component. */
  function Walk(value: Value, components: seq<string>): Attempt<Value>
    decreases |components|
  {
    if |components| == 0 || value.Nil? then Done(value)
    else match Get(value, components[0])
      case Threw(e) => Threw(e)
      case Done(next) => Walk(next, components[1..])
  }

  /** The checks on `kind` and `name` (module.py:20-28), then the walk over
      the key's components with `walk` (module.py:29-33). */
  function LookupWith(doc: Value, kind: string, name: string, key: string, asWritten: bool): Outcome
  {
    match In(kind, doc)
    case Threw(e) => Raised(e)
    case Done(false) => Returned(Nil, Some(NoKind(kind)))
    case Done(true) =>
      match Subscript(doc, kind)
      case Threw(e) => Raised(e)
      case Done(section) =>
        match In(name, section)
        case Threw(e) => Raised(e)
        case Done(false) => Returned(Nil, Some(NoName(kind, name)))
        case Done(true) =>
          match Get(section, name)
          case Threw(e) => Raised(e)
          case Done(start) =>
            var components := Split(key, ".");
            match (if asWritten then WrittenWalk(start, components) else Walk(start, components))
            case Threw(e) => Raised(e)
            case Done(value) => Returned(value, if value.Nil? then Some(NoKey(kind, name, key)) else None)
  }

  /** `get_value` as written. */
  function WrittenLookup(doc: Value, kind: string, name: string, key: string): Outcome
  {
    LookupWith(doc, kind, name, key, true)
  }

  /** `get_value` with a missing intermediate component reported. */
  function Lookup(doc: Value, kind: string, name: string, key: string): Outcome
  {
    LookupWith(doc, kind, name, key, false)
  }

  /** `Config.__init__`: a missing file is an empty dict. */
  function Load(file: Source): (doc: Value)
    ensures file.NotFound? ==> doc == Dict(map[])
    ensures file.Loaded? ==> doc == file.doc
  {
    match file
    case NotFound => Dict(map[])
    case Loaded(d) => d
  }

  // ---------------------------------------------------------------------
  // Properties

  /** The document that holds `x` under the given path and nothing else. */
  function Nest(path: seq<string>, x: Value): (d: Value)
    ensures |path| > 0 ==> d.Dict?
    decreases |path|
  {
    if |path| == 0 then x else Dict(map[path[0] := Nest(path[1..], x)])
  }

  /** Walking a nested document along its own path finds what it holds,
      in either reading. */
  lemma {:induction false} WalkNest(path: seq<string>, x: Value)
    ensures WrittenWalk(Nest(path, x), path) == Done(x)
    ensures Walk(Nest(path, x), path) == Done(x)
    decreases |path|
  {
    if |path| > 0 {
      WalkNest(path[1..], x);
    }
  }

  /**
   * A value stored at `kind`, `name` and the components of `key` is what
   * `get_value` returns, silently unless it is null.
   */
  lemma NestedRoundTrip(kind: string, name: string, key: string, x: Value)
    ensures var doc := Nest([kind, name] + Split(key, "."), x);
      Lookup(doc, kind, name, key) == Returned(x, if x.Nil? then Some(NoKey(kind, name, key)) else None)
  {
    var components := Split(key, ".");
    var path := [kind, name] + components;
    assert path[1..] == [name] + components;
    assert path[1..][1..] == components;
    WalkNest(components, x);
  }

  /** The correction only changes lookups that raised: whenever the code as
      written returns, the corrected lookup returns the same. */
  lemma {:induction false} WalksAgree(value: Value, components: seq<string>)
    requires WrittenWalk(value, components).Done?
    ensures Walk(value, components) == WrittenWalk(value, components)
    decreases |components|
  {
    if |components| > 0 && !value.Nil? {
      WalksAgree(Get(value, components[0]).value, components[1..]);
    }
  }

  lemma CorrectionOnlyRemovesRaises(doc: Value, kind: string, name: string, key: string)
    requires !WrittenLookup(doc, kind, name, key).Raised?
    ensures Lookup(doc, kind, name, key) == WrittenLookup(doc, kind, name, key)
  {
    if In(kind, doc) == Done(true) && In(name, doc.entries[kind]) == Done(true) {
      var section := doc.entries[kind];
      if section.Dict? {
        WalksAgree(Get(section, name).value, Split(key, "."));
      }
    }
  }

  /**
   * A walk that reaches a dict without the next component: the
   * corrected walk ends with None; the walk as written calls `.get` on that
   * None when a component follows, and raises.
   */
  lemma {:induction false} WalkNestMissing(path: seq<string>, rest: seq<string>, m: map<string, Value>)
    requires |rest| >= 1 && rest[0] !in m
    ensures Walk(Nest(path, Dict(m)), path + rest) == Done(Nil)
    ensures |rest| >= 2 ==> WrittenWalk(Nest(path, Dict(m)), path + rest) == Threw(AttributeError)
    decreases |path|
  {
    if |path| > 0 {
      assert (path + rest)[1..] == path[1..] + rest;
      WalkNestMissing(path[1..], rest, m);
    } else {
      assert path + rest == rest;
      if |rest| >= 2 {
        assert WrittenWalk(Nil, rest[1..]) == Threw(AttributeError);
      }
    }
  }

  /**
   * A component of the key missing from the document: the corrected lookup
   * reports the key and returns None, whereas the code as written raises
   * `AttributeError` unless the missing component is the last one.
   */
  lemma MissingComponentReported(kind: string, name: string, key: string, i: nat, m: map<string, Value>)
    requires i < |Split(key, ".")| && Split(key, ".")[i] !in m
    ensures var doc := Nest([kind, name] + Split(key, ".")[..i], Dict(m));
      Lookup(doc, kind, name, key) == Returned(Nil, Some(NoKey(kind, name, key)))
    ensures var doc := Nest([kind, name] + Split(key, ".")[..i], Dict(m));
      i + 1 < |Split(key, ".")| ==> WrittenLookup(doc, kind, name, key) == Raised(AttributeError)
  {
    var components := Split(key, ".");
    var path := [kind, name] + components[..i];
    assert path[1..] == [name] + components[..i];
    assert path[1..][1..] == components[..i];
    assert components == components[..i] + components[i..];
    WalkNestMissing(components[..i], components[i..], m);
  }

  /** The smallest input that shows the difference: `get_value("k", "n",
      "a.b")` on `{k: {n: {}}}`. */
  lemma WrittenMissingIntermediateRaises()
    ensures WrittenLookup(Nest(["k", "n"], Dict(map[])), "k", "n", "a.b") == Raised(AttributeError)
    ensures Lookup(Nest(["k", "n"], Dict(map[])), "k", "n", "a.b") == Returned(Nil, Some(NoKey("k", "n", "a.b")))
  {
    var b := Split("b", ".");
    assert !HasPrefix("b", ".") && "b"[1..] == [];
    assert b == [['b'] + Split([], ".")[0]] + Split([], ".")[1..];
    assert Split([], ".") == [""] && ['b'] + "" == "b";
    assert b == ["b"];
    var dotB := Split(".b", ".");
    assert HasPrefix(".b", ".") && ".b"[1..] == "b";
    assert dotB == [""] + b;
    var ab := Split("a.b", ".");
    assert !HasPrefix("a.b", ".") && "a.b"[1..] == ".b";
    assert ab == [['a'] + dotB[0]] + dotB[1..];
    assert ['a'] + "" == "a";
    assert ab == ["a", "b"];
    MissingComponentReported("k", "n", "a.b", 0, map[]);
    assert Split("a.b", ".")[..0] == [];
    assert [] + ["k", "n"] == ["k", "n"];
  }

  /** The file missing altogether: every lookup reports the kind missing. */
  lemma MissingFileReportsKind(kind: string, name: string, key: string)
    ensures WrittenLookup(Load(NotFound), kind, name, key) == Returned(Nil, Some(NoKind(kind)))
    ensures Lookup(Load(NotFound), kind, name, key) == Returned(Nil, Some(NoKind(kind)))
  {
  }

  /** An empty file loads as null, and `in` on null raises. */
  lemma EmptyFileRaises(kind: string, name: string, key: string)
    ensures WrittenLookup(Load(Loaded(Nil)), kind, name, key) == Raised(TypeError)
    ensures Lookup(Load(Loaded(Nil)), kind, name, key) == Raised(TypeError)
  {
  }

  // ---------------------------------------------------------------------
  // The reader as it runs

  class Config {
    const config: Value

    /** `Config.__init__` (module.py:7-17). */
    constructor (file: Source)
      ensures config == Load(file)
    {
      match file
      case NotFound =>
        config := Dict(map[]);
      case Loaded(d) =>
        config := d;
    }

    /** `get_value` (module.py:19-33), with the walk stopping at a missing
        component. */
    method GetValue(kind: string, name: string, key: string) returns (r: Outcome)
      ensures r == Lookup(config, kind, name, key)
    {
      var hasKind := In(kind, config);
      if hasKind.Threw? {
        return Raised(hasKind.error);
      }
      if !hasKind.value {
        return Returned(Nil, Some(NoKind(kind)));
      }
      var section := Subscript(config, kind);
      if section.Threw? {
        return Raised(section.error);
      }
      var hasName := In(name, section.value);
      if hasName.Threw? {
        return Raised(hasName.error);
      }
      if !hasName.value {
        return Returned(Nil, Some(NoName(kind, name)));
      }
      var start := Get(section.value, name);
      if start.Threw? {
        return Raised(start.error);
      }
      var val := start.value;
      var components := Split(key, ".");
      var i := 0;
      while i < |components| && !val.Nil?
        invariant 0 <= i <= |components|
        invariant Walk(start.value, components) == Walk(val, components[i..])
      {
        assert components[i..][1..] == components[i + 1..];
        var next := Get(val, components[i]);
        if next.Threw? {
          return Raised(next.error);
        }
        val := next.value;
        i := i + 1;
      }
      if val.Nil? {
        r := Returned(val, Some(NoKey(kind, name, key)));
      } else {
        r := Returned(val, None);
      }
    }
  }
}
