/**
 * The Jinja filters of the prepare action
 * (modules/machine_filters/machine_filters.py): de-duplicating lists,
 * merging nested dicts, recording and reading a resource's per-tag build
 * state, looking dependencies up in the host variables, and splitting
 * image references and names.
 */
module MachineFilters {
  import opened Common
  import opened Values

  // ---------------------------------------------------------------------
  // unique

  /** `unique` (machine_filters.py:147-152): every item kept at its first
      occurrence. */
  method Unique<T(==,!new)>(items: seq<T>) returns (u: seq<T>)
    ensures u == AddAll([], items)
  {
    u := [];
    var i := 0;
    while i < |items|
      invariant 0 <= i <= |items|
      invariant u == AddAll([], items[..i])
    {
      assert items[..i + 1][..i] == items[..i];
      if items[i] !in u {
        u := u + [items[i]];
      }
      i := i + 1;
    }
    assert items[..i] == items;
  }

  /** What `unique` returns holds no repeats and the same items as its
      input. */
  lemma UniqueMembers<T(!new)>(items: seq<T>)
    ensures NoDuplicates(AddAll([], items))
    ensures forall y :: y in AddAll([], items) <==> y in items
  {
    AddAllNoDuplicates([], items);
    AddAllMembers([], items);
  }

  /** A list without repeats comes back unchanged. */
  lemma {:induction false} UniqueOfDistinct<T(!new)>(items: seq<T>)
    requires NoDuplicates(items)
    ensures AddAll([], items) == items
    decreases |items|
  {
    if |items| > 0 {
      var init, last := items[..|items| - 1], items[|items| - 1];
      NoDuplicatesInit(items);
      UniqueOfDistinct(init);
      assert AddAll([], items) == AppendNew(init, last) == init + [last];
      assert items == init + [last];
    }
  }

  /** `unique` is idempotent. */
  lemma UniqueIdempotent<T(!new)>(items: seq<T>)
    ensures AddAll([], AddAll([], items)) == AddAll([], items)
  {
    AddAllNoDuplicates([], items);
    UniqueOfDistinct(AddAll([], items));
  }

  /** `unique` keeps the items in the order of their first occurrences. */
  lemma {:induction false} UniqueOrder<T(!new)>(items: seq<T>)
    ensures forall i, j :: 0 <= i < j < |AddAll([], items)| ==>
      AddAll([], items)[i] in items && AddAll([], items)[j] in items &&
      FirstIndex(items, AddAll([], items)[i]) < FirstIndex(items, AddAll([], items)[j])
    decreases |items|
  {
    var u := AddAll([], items);
    AddAllMembers([], items);
    if |items| > 0 {
      var init := items[..|items| - 1];
      var x := items[|items| - 1];
      var v := AddAll([], init);
      UniqueOrder(init);
      AddAllMembers([], init);
      assert items == init + [x];
      forall i, j | 0 <= i < j < |u|
        ensures FirstIndex(items, u[i]) < FirstIndex(items, u[j])
      {
        FirstIndexAppend(init, x, u[i]);
        FirstIndexAppend(init, x, u[j]);
        if x !in v && j == |v| {
          assert u[i] == v[i] && v[i] in init;
        } else {
          assert u[i] == v[i] && u[j] == v[j];
        }
      }
    }
  }

  // ---------------------------------------------------------------------
  // merge_dicts

  /** A list de-duplicated as `unique` does it; any other value as it is. */
  function Dedup(v: Value): (r: Value)
    ensures r.List? <==> v.List?
    ensures !v.List? ==> r == v
  {
    if v.List? then List(AddAll([], v.items)) else v
  }

  /** Values under a key both dicts have that `merge_dicts` can combine: a
      dict on the right needs a dict on the left, which merges in turn, and
      a list on the right a list on the left. */
  predicate KeyMergeable(l: Value, r: Value)
    decreases r, 1
  {
    (r.Dict? ==> l.Dict? && Mergeable(l.entries, r.entries)) &&
    (r.List? ==> l.List?)
  }

  predicate Mergeable(left: map<string, Value>, right: map<string, Value>)
    decreases Dict(right), 0
  {
    forall k :: k in left && k in right ==> KeyMergeable(left[k], right[k])
  }

  /** The merged value under a key both dicts have. */
  function MergeShared(l: Value, r: Value): Value
    requires KeyMergeable(l, r)
    decreases r, 2
  {
    if r.Dict? then Dict(Merge(l.entries, r.entries))
    else if r.List? then List(AddAll([], r.items + l.items))
    else r
  }

  /** The merged value under one key of either dict. */
  function MergedAt(left: map<string, Value>, right: map<string, Value>, k: string): Value
    requires k in left || k in right
    requires k in left && k in right ==> KeyMergeable(left[k], right[k])
    decreases Dict(right), 0
  {
    if k in left && k in right then MergeShared(left[k], right[k])
    else Dedup((left + right)[k])
  }

  /** `merge_dicts(left, right)` when it does not raise. */
  function Merge(left: map<string, Value>, right: map<string, Value>): (m: map<string, Value>)
    requires Mergeable(left, right)
    ensures m.Keys == left.Keys + right.Keys
    decreases Dict(right), 1
  {
    map k | k in left.Keys + right.Keys :: MergedAt(left, right, k)
  }

  /**
   * `merge_dicts` (machine_filters.py:132-144): the keys of both, the right
   * value winning except that dicts under a shared key merge recursively,
   * lists under a shared key become `unique(right + left)`, and a list under
   * one side only is de-duplicated. A dict or list on the right facing
   * anything else on the left raises `TypeError`.
   */
  method MergeDicts(left: map<string, Value>, right: map<string, Value>) returns (r: Attempt<map<string, Value>>)
    ensures Mergeable(left, right) ==> r == Done(Merge(left, right))
    ensures !Mergeable(left, right) ==> r == Threw(TypeError)
    decreases Dict(right)
  {
    var dicts := left + right;
    var keys := dicts.Keys;
    while keys != {}
      invariant keys <= dicts.Keys == left.Keys + right.Keys
      invariant forall k :: k in dicts && k !in keys && k in left && k in right ==> KeyMergeable(left[k], right[k])
      invariant forall k :: k in dicts ==>
        dicts[k] == if k in keys then (left + right)[k] else MergedAt(left, right, k)
      decreases keys
    {
      var key :| key in keys;
      var value := dicts[key];
      if key in left && key in right {
        if value.Dict? {
          if !left[key].Dict? {
            assert !KeyMergeable(left[key], right[key]);
            return Threw(TypeError);
          }
          var sub := MergeDicts(left[key].entries, value.entries);
          if sub.Threw? {
            assert !KeyMergeable(left[key], right[key]);
            return sub;
          }
          dicts := dicts[key := Dict(sub.value)];
        } else if value.List? {
          if !left[key].List? {
            assert !KeyMergeable(left[key], right[key]);
            return Threw(TypeError);
          }
          var u := Unique(value.items + left[key].items);
          dicts := dicts[key := List(u)];
        } else {
          dicts := dicts[key := right[key]];
        }
      } else if value.List? {
        var u := Unique(value.items);
        dicts := dicts[key := List(u)];
      }
      keys := keys - {key};
    }
    assert dicts == Merge(left, right);
    r := Done(dicts);
  }

  /** Merging in values that are neither dicts nor lists cannot raise, and
      the right side wins wherever it has the key. */
  lemma MergeScalars(left: map<string, Value>, right: map<string, Value>)
    requires forall k :: k in right ==> !right[k].Dict? && !right[k].List?
    ensures Mergeable(left, right)
    ensures forall k :: k in right ==> Merge(left, right)[k] == right[k]
    ensures forall k :: k in left && k !in right ==> Merge(left, right)[k] == Dedup(left[k])
  {
    forall k | k in right
      ensures Merge(left, right)[k] == right[k]
    {
      assert Merge(left, right)[k] == MergedAt(left, right, k);
      if k in left {
        assert MergeShared(left[k], right[k]) == right[k];
      } else {
        assert (left + right)[k] == right[k];
      }
    }
  }

  /** A list under a key both sides have merges into the items of both,
      each once. */
  lemma MergeLists(left: map<string, Value>, right: map<string, Value>, k: string)
    requires Mergeable(left, right) && k in left && k in right && right[k].List? && left[k].List?
    ensures Merge(left, right)[k].List? &&
      NoDuplicates(Merge(left, right)[k].items) &&
      forall y :: y in Merge(left, right)[k].items <==> y in right[k].items || y in left[k].items
  {
    var both := right[k].items + left[k].items;
    UniqueMembers(both);
    assert Merge(left, right)[k] == MergedAt(left, right, k) == List(AddAll([], both));
  }

  // ---------------------------------------------------------------------
  // machine_state and the filters reading it

  /** A registered `current_version` result: None or an empty result, or
      a non-empty one with its `skipped` flag and its `stdout` text when it
      has them. */
  datatype CurrentVersion = NoResult | Registered(skipped: Option<Value>, stdout: Option<string>)

  /** The version recorded from a result: None if the Ansible task was skipped,
      has no output or printed nothing, its output otherwise
      (machine_filters.py:31-36). */
  function VersionOf(skipped: Option<Value>, stdout: Option<string>): (v: Value)
    ensures v.Nil? || (v.Str? && v.s != "")
    ensures skipped.Some? && Truthy(skipped.value) ==> v == Nil
    ensures stdout.None? ==> v == Nil
    ensures (skipped.None? || !Truthy(skipped.value)) && stdout.Some? && stdout.value != "" ==>
      v == Str(stdout.value)
  {
    if skipped.Some? && Truthy(skipped.value) then Nil
    else
      var out := if stdout.Some? then stdout.value else "";
      if out == "" then Nil else Str(out)
  }

  /** The state recorded for one tag. */
  function StateEntry(version: Value, mrv: Value): Value
  {
    Dict(map["mrv" := version, "exists" := Bool(version != Nil),
             "fresh" := Bool(version == mrv), "build" := Bool(version != mrv)])
  }

  /**
   * What `machine_state` with a current version does (machine_filters.py:
   * 30-42): a missing `state` becomes `{}` first, so it stays even when
   * the read of `mrv` then raises; the tag's entry is merged into the state
   * and the resource is returned.
   */
  function Record(fields: map<string, Value>, tag: string, currentVersion: CurrentVersion): (map<string, Value>, Attempt<Value>)
    requires currentVersion.Registered?
  {
    var withState := if "state" in fields then fields else fields["state" := Dict(map[])];
    if "mrv" !in withState then (withState, Threw(KeyError))
    else
      var update := map[tag := StateEntry(VersionOf(currentVersion.skipped, currentVersion.stdout), withState["mrv"])];
      var st := withState["state"];
      if !st.Dict? || !Mergeable(st.entries, update) then (withState, Threw(TypeError))
      else
        var updated := withState["state" := Dict(Merge(st.entries, update))];
        (updated, Done(Dict(updated)))
  }

  /** `machine_state` without a current version (machine_filters.py:43-48):
      None without a state or without the tag in it. */
  function StateOf(fields: map<string, Value>, tag: string): Attempt<Value>
  {
    if "state" !in fields then Done(Nil) else Field(fields["state"], tag)
  }

  /** `machine_exists` (machine_filters.py:51-55). */
  function Exists(fields: map<string, Value>, tag: string): Attempt<Value>
  {
    match StateOf(fields, tag)
    case Threw(e) => Threw(e)
    case Done(st) => Field(st, "exists")
  }

  /** `machine_build` (machine_filters.py:58-62). */
  function Build(fields: map<string, Value>, tag: string): Attempt<Value>
  {
    match StateOf(fields, tag)
    case Threw(e) => Threw(e)
    case Done(st) => Field(st, "build")
  }

  /** `not machine_state(resource, tag)[key]`. */
  function NotState(fields: map<string, Value>, tag: string, key: string): Attempt<bool>
  {
    match StateOf(fields, tag)
    case Threw(e) => Threw(e)
    case Done(st) =>
      match Subscript(st, key)
      case Threw(e) => Threw(e)
      case Done(v) => Done(!Truthy(v))
  }

  /** `machine_built` (machine_filters.py:65-69): for the `current`
      deployment neither to build nor fresh, for none or `any` not to build,
      and None for any other deployment. */
  function Built(fields: map<string, Value>, tag: string, deployment: Value): Attempt<Value>
  {
    if deployment == Str("current") then
      match NotState(fields, tag, "build")
      case Threw(e) => Threw(e)
      case Done(notBuild) =>
        if !notBuild then Done(Bool(false))
        else match NotState(fields, tag, "fresh")
          case Threw(e) => Threw(e)
          case Done(notFresh) => Done(Bool(notFresh))
    else if deployment == Nil || deployment == Str("any") then
      match NotState(fields, tag, "build")
      case Threw(e) => Threw(e)
      case Done(notBuild) => Done(Bool(notBuild))
    else Done(Nil)
  }

  /**
   * Once `machine_state` has recorded a version for a tag, the filters read
   * it back: the tag exists iff a version was found, is to be built iff the
   * version differs from the resource's `mrv`, and is built for any
   * deployment iff it does not. Since `build` and `fresh` are each other's
   * negation, `built` for the `current` deployment is always false. The
   * other tags keep their state, with lists de-duplicated.
   */
  lemma RecordReadBack(fields: map<string, Value>, tag: string, currentVersion: CurrentVersion,
                       after: map<string, Value>, result: Attempt<Value>)
    requires currentVersion.Registered?
    requires (after, result) == Record(fields, tag, currentVersion) && result.Done?
    ensures "mrv" in fields && "state" in after && after["state"].Dict?
    ensures var v := VersionOf(currentVersion.skipped, currentVersion.stdout);
      Exists(after, tag) == Done(Bool(v != Nil)) &&
      Build(after, tag) == Done(Bool(v != fields["mrv"])) &&
      Built(after, tag, Nil) == Done(Bool(v == fields["mrv"])) &&
      Built(after, tag, Str("current")) == Done(Bool(false))
    ensures "state" in fields && fields["state"].Dict? ==>
      forall t :: t in fields["state"].entries && t != tag ==>
        t in after["state"].entries && after["state"].entries[t] == Dedup(fields["state"].entries[t])
  {
    var withState := if "state" in fields then fields else fields["state" := Dict(map[])];
    var v := VersionOf(currentVersion.skipped, currentVersion.stdout);
    var entry := StateEntry(v, withState["mrv"]);
    var st := withState["state"].entries;
    var merged := Merge(st, map[tag := entry]);
    assert after["state"] == Dict(merged);
    assert withState["mrv"] == fields["mrv"];
    MergedEntry(st, tag, entry);
    ReadEntry(after, tag, merged, v, fields["mrv"]);
    if "state" in fields && fields["state"].Dict? {
      forall t | t in st && t != tag
        ensures t in merged && merged[t] == Dedup(st[t])
      {
        assert merged[t] == MergedAt(st, map[tag := entry], t);
      }
    }
  }

  /** Merging a dict of scalars in under one key leaves a dict there that
      holds each of those scalars. */
  lemma MergedEntry(st: map<string, Value>, tag: string, entry: Value)
    requires entry.Dict? && Mergeable(st, map[tag := entry])
    requires forall k :: k in entry.entries ==> !entry.entries[k].Dict? && !entry.entries[k].List?
    ensures tag in Merge(st, map[tag := entry]) && Merge(st, map[tag := entry])[tag].Dict?
    ensures forall k :: k in entry.entries ==>
      k in Merge(st, map[tag := entry])[tag].entries && Merge(st, map[tag := entry])[tag].entries[k] == entry.entries[k]
  {
    var m := Merge(st, map[tag := entry]);
    assert m[tag] == MergedAt(st, map[tag := entry], tag);
    if tag in st {
      assert KeyMergeable(st[tag], entry);
      MergeScalars(st[tag].entries, entry.entries);
      assert m[tag] == Dict(Merge(st[tag].entries, entry.entries));
    } else {
      assert (st + map[tag := entry])[tag] == entry;
    }
  }

  /** The filters read a tag's state entry field by field. */
  lemma ReadEntry(after: map<string, Value>, tag: string, m: map<string, Value>, v: Value, mrv: Value)
    requires "state" in after && after["state"] == Dict(m) && tag in m && m[tag].Dict?
    requires forall k :: k in StateEntry(v, mrv).entries ==>
      k in m[tag].entries && m[tag].entries[k] == StateEntry(v, mrv).entries[k]
    ensures Exists(after, tag) == Done(Bool(v != Nil))
    ensures Build(after, tag) == Done(Bool(v != mrv))
    ensures Built(after, tag, Nil) == Done(Bool(v == mrv))
    ensures Built(after, tag, Str("current")) == Done(Bool(false))
  {
    var e := m[tag];
    assert "exists" in StateEntry(v, mrv).entries && "build" in StateEntry(v, mrv).entries;
    assert "fresh" in StateEntry(v, mrv).entries;
    assert StateOf(after, tag) == Done(e);
    assert NotState(after, tag, "build") == Done(!(v != mrv));
    assert NotState(after, tag, "fresh") == Done(!(v == mrv));
  }

  /** Without a recorded state, `machine_state` returns None and the
      `exists`, `build` and `built` filters raise `TypeError` on it. */
  lemma NoStateRaises(fields: map<string, Value>, tag: string)
    requires "state" !in fields
    ensures StateOf(fields, tag) == Done(Nil)
    ensures Exists(fields, tag) == Threw(TypeError) && Build(fields, tag) == Threw(TypeError)
    ensures Built(fields, tag, Nil) == Threw(TypeError)
  {
  }

  /** A resource whose fields the filters update in place. */
  class Resource {
    var fields: map<string, Value>

    constructor (fields: map<string, Value>)
      ensures this.fields == fields
    {
      this.fields := fields;
    }

    /**
     * `machine_state(resource, tag, current_version)`
     * (machine_filters.py:28-48).
     */
    method State(tag: string, currentVersion: CurrentVersion) returns (r: Attempt<Value>)
      modifies this
      ensures currentVersion.Registered? ==> (fields, r) == Record(old(fields), tag, currentVersion)
      ensures currentVersion.NoResult? ==> fields == old(fields) && r == StateOf(old(fields), tag)
    {
      if currentVersion.NoResult? {
        if "state" !in fields {
          return Done(Nil);
        }
        return Field(fields["state"], tag);
      }
      var version: Value;
      if currentVersion.skipped.Some? && Truthy(currentVersion.skipped.value) {
        version := Nil;
      } else {
        var out := if currentVersion.stdout.Some? then currentVersion.stdout.value else "";
        version := if out == "" then Nil else Str(out);
      }
      if "state" !in fields {
        fields := fields["state" := Dict(map[])];
      }
      if "mrv" !in fields {
        return Threw(KeyError);
      }
      var update := map[tag := StateEntry(version, fields["mrv"])];
      var st := fields["state"];
      if !st.Dict? {
        return Threw(TypeError);
      }
      var merged := MergeDicts(st.entries, update);
      if merged.Threw? {
        return Threw(merged.error);
      }
      fields := fields["state" := Dict(merged.value)];
      r := Done(Dict(fields));
    }
  }

  // ---------------------------------------------------------------------
  // Dependency lookups

  /** One listed dependency: the entry for its name, `-` mapped to `_`, in
      the first host's variables, and that entry's kind `mrk`. Without any
      host, `list(hostvars)[0]` raises. */
  function Resolve(name: string, hostvars: seq<map<string, Value>>): Attempt<(Value, Value)>
  {
    if |hostvars| == 0 then Threw(IndexError)
    else match Subscript(Dict(hostvars[0]), Replace(name, "-", "_"))
      case Threw(e) => Threw(e)
      case Done(dep) =>
        match Subscript(dep, "mrk")
        case Threw(e) => Threw(e)
        case Done(mrk) => Done((dep, mrk))
  }

  /** A dependency entry of the given kind. */
  predicate OfKind(dep: Value, kind: string)
  {
    dep.Dict? && "mrk" in dep.entries && dep.entries["mrk"] == Str(kind)
  }

  /** The dependencies of the given kind among the listed names, in list
      order; the first name that does not resolve raises. */
  function Lookup(names: seq<string>, hostvars: seq<map<string, Value>>, kind: string): Attempt<seq<Value>>
    decreases |names|
  {
    if |names| == 0 then Done([])
    else match Lookup(names[..|names| - 1], hostvars, kind)
      case Threw(e) => Threw(e)
      case Done(found) =>
        match Resolve(names[|names| - 1], hostvars)
        case Threw(e) => Threw(e)
        case Done(pair) => Done(found + if pair.1 == Str(kind) then [pair.0] else [])
  }

  /** An exception on a prefix of the list is the lookup's exception. */
  lemma {:induction false} LookupThrowsOn(names: seq<string>, hostvars: seq<map<string, Value>>, kind: string, i: nat)
    requires i <= |names| && Lookup(names[..i], hostvars, kind).Threw?
    ensures Lookup(names, hostvars, kind) == Lookup(names[..i], hostvars, kind)
    decreases |names| - i
  {
    if i < |names| {
      var next := names[..i + 1];
      assert next[..i] == names[..i];
      LookupThrowsOn(names, hostvars, kind, i + 1);
    } else {
      assert names[..i] == names;
    }
  }

  /**
   * `machine_requires_lookup` (machine_filters.py:72-79) over
   * `resource['requires']`, and `machine_requiredby_lookup`
   * (machine_filters.py:110-117) over `resource['requiredby']`.
   */
  method DependenciesOfKind(names: seq<string>, hostvars: seq<map<string, Value>>, kind: string) returns (r: Attempt<seq<Value>>)
    ensures r == Lookup(names, hostvars, kind)
  {
    var resources: seq<Value> := [];
    var i := 0;
    while i < |names|
      invariant 0 <= i <= |names|
      invariant Lookup(names[..i], hostvars, kind) == Done(resources)
    {
      assert names[..i + 1][..i] == names[..i];
      var resolved := Resolve(names[i], hostvars);
      if resolved.Threw? {
        LookupThrowsOn(names, hostvars, kind, i + 1);
        return Threw(resolved.error);
      }
      assert Lookup(names[..i + 1], hostvars, kind) ==
        Done(resources + if resolved.value.1 == Str(kind) then [resolved.value.0] else []);
      if resolved.value.1 == Str(kind) {
        resources := resources + [resolved.value.0];
      } else {
        assert resources + [] == resources;
      }
      i := i + 1;
    }
    assert names[..i] == names;
    r := Done(resources);
  }

  /** The lookup succeeds iff every listed name resolves; it then returns
      only dependencies of the kind, and every listed dependency of the
      kind. */
  lemma {:induction false} LookupMeaning(names: seq<string>, hostvars: seq<map<string, Value>>, kind: string)
    ensures Lookup(names, hostvars, kind).Done? <==> forall i :: 0 <= i < |names| ==> Resolve(names[i], hostvars).Done?
    ensures Lookup(names, hostvars, kind).Done? ==>
      var found := Lookup(names, hostvars, kind).value;
      |found| <= |names| &&
      (forall x :: x in found ==> OfKind(x, kind)) &&
      (forall i :: 0 <= i < |names| && OfKind(Resolve(names[i], hostvars).value.0, kind) ==>
         Resolve(names[i], hostvars).value.0 in found)
    decreases |names|
  {
    if |names| > 0 {
      var init := names[..|names| - 1];
      LookupMeaning(init, hostvars, kind);
      assert forall i :: 0 <= i < |init| ==> init[i] == names[i];
      var last := Resolve(names[|names| - 1], hostvars);
      if Lookup(names, hostvars, kind).Done? {
        var found := Lookup(names, hostvars, kind).value;
        forall i | 0 <= i < |names| && OfKind(Resolve(names[i], hostvars).value.0, kind)
          ensures Resolve(names[i], hostvars).value.0 in found
        {
          if i < |init| {
            assert Resolve(init[i], hostvars).value.0 in Lookup(init, hostvars, kind).value;
          }
        }
      }
    }
  }

  /** `machine_requires_one` (machine_filters.py:82-86), behind
      `requires_skill` and `requires_function`: the first dependency of the
      kind, or None. */
  function RequiresOne(names: seq<string>, hostvars: seq<map<string, Value>>, kind: string): (r: Attempt<Value>)
    ensures r.Threw? <==> Lookup(names, hostvars, kind).Threw?
    ensures r.Done? ==> (r.value == Nil <==> |Lookup(names, hostvars, kind).value| == 0)
    ensures r.Done? && r.value != Nil ==> OfKind(r.value, kind) && r.value == Lookup(names, hostvars, kind).value[0]
  {
    LookupMeaning(names, hostvars, kind);
    match Lookup(names, hostvars, kind)
    case Threw(e) => Threw(e)
    case Done(found) =>
      if |found| > 0 then
        assert found[0] in found;
        Done(found[0])
      else Done(Nil)
  }

  // ---------------------------------------------------------------------
  // Plain resource fields

  /** `machine_stage` (machine_filters.py:124-125): the resource's `stage`
      entry; a resource without one raises KeyError. */
  function Stage(fields: map<string, Value>): (r: Attempt<Value>)
    ensures "stage" in fields ==> r == Done(fields["stage"])
    ensures "stage" !in fields ==> r == Threw(KeyError)
  {
    Subscript(Dict(fields), "stage")
  }

  /** `machine_mrsn` (machine_filters.py:128-129): the resource's `mrsn`
      entry; a resource without one raises KeyError. */
  function Mrsn(fields: map<string, Value>): (r: Attempt<Value>)
    ensures "mrsn" in fields ==> r == Done(fields["mrsn"])
    ensures "mrsn" !in fields ==> r == Threw(KeyError)
  {
    Subscript(Dict(fields), "mrsn")
  }

  // ---------------------------------------------------------------------
  // Names and image references

  /** `machine_machine_name` (machine_filters.py:155-156): the short name
      with every `-` deleted. */
  function MachineName(mrsn: string): (r: string)
    ensures r == Omit(mrsn, '-')
    ensures '-' !in r && multiset(r) == multiset(mrsn)['-' := 0]
  {
    DeleteChar(mrsn, '-');
    Replace(mrsn, "-", "")
  }

  /** `machine_library_path` (machine_filters.py:159-160): every `-` of the
      short name turned into `/`, all else kept in place. */
  function LibraryPath(mrsn: string): (r: string)
    ensures |r| == |mrsn|
    ensures forall i :: 0 <= i < |mrsn| ==> r[i] == if mrsn[i] == '-' then '/' else mrsn[i]
  {
    ReplaceCharAt(mrsn, '-', '/');
    Replace(mrsn, "-", "/")
  }

  /** `machine_image_uri` (machine_filters.py:163-164). */
  function ImageUri(mri: string): string
  {
    var parts := Split(mri, ":");
    Join(parts[..|parts| - 1], ":")
  }

  /** `machine_image_tag` (machine_filters.py:167-181). */
  function ImageTag(mri: string): string
  {
    var parts := Split(mri, ":");
    parts[|parts| - 1]
  }

  /** The tag is what follows the last `:`, the address everything before
      it, and the two give the reference back; without a `:` the whole
      reference is the tag. */
  lemma ImageRoundTrip(mri: string)
    ensures ':' !in ImageTag(mri)
    ensures ':' in mri ==> ImageUri(mri) + ":" + ImageTag(mri) == mri
    ensures ':' !in mri ==> ImageUri(mri) == "" && ImageTag(mri) == mri
  {
    var parts := Split(mri, ":");
    var n := |parts|;
    SplitCharPieces(mri, ':');
    SplitCharFirst(mri, ':');
    JoinSplit(mri, ":");
    if n > 1 {
      JoinAppend(parts[..n - 1], parts[n - 1], ":");
      assert parts[..n - 1] + [parts[n - 1]] == parts;
    }
  }

  /** `machine_image_path` (machine_filters.py:184-185). */
  function ImagePath(mri: string): string
  {
    var segments := Split(mri, "/");
    Split(Join(segments[1..], "/"), ":")[0]
  }

  /** The image path is what follows the first `/`, up to the first `:`
      after it; without a `/` it is empty. */
  lemma ImagePathMeaning(mri: string)
    ensures '/' !in mri ==> ImagePath(mri) == ""
    ensures '/' in mri ==>
      var head := Split(mri, "/")[0];
      |head| < |mri| &&
      var rest := mri[|head| + 1..];
      HasPrefix(rest, ImagePath(mri)) && ':' !in ImagePath(mri) &&
      (|ImagePath(mri)| < |rest| ==> rest[|ImagePath(mri)|] == ':')
  {
    SplitCharFirst(mri, '/');
    var rest := Join(Split(mri, "/")[1..], "/");
    SplitCharFirst(rest, ':');
    if '/' !in mri {
      assert Split(mri, "/")[1..] == [];
      SplitNone("", ":");
    } else if ':' !in rest {
      JoinSplit(rest, ":");
      assert Split(rest, ":") == [Split(rest, ":")[0]];
    }
  }

  /** `machine_cluster_dns_name` (machine_filters.py:188-189), with the
      platform name read from the platform's variables passed in. */
  function ClusterDnsName(mrsn: string, mrns: string, platform: string, serviceExt: string): string
  {
    (if serviceExt == "" then mrsn else mrsn + "-" + serviceExt) + "." + mrns + ".svc." + platform
  }

  /** Names without dots make a four-label DNS name: the service, its
      namespace, `svc`, and the platform. */
  lemma ClusterDnsNameLabels(mrsn: string, mrns: string, platform: string, serviceExt: string)
    requires '.' !in mrsn && '.' !in mrns && '.' !in platform && '.' !in serviceExt
    ensures var service := if serviceExt == "" then mrsn else mrsn + "-" + serviceExt;
      Split(ClusterDnsName(mrsn, mrns, platform, serviceExt), ".") == [service, mrns, "svc", platform]
  {
    var service := if serviceExt == "" then mrsn else mrsn + "-" + serviceExt;
    assert '.' !in service;
    var name := ClusterDnsName(mrsn, mrns, platform, serviceExt);
    assert name == service + "." + (mrns + "." + ("svc" + "." + platform));
    SplitCut(service, ".", mrns + "." + ("svc" + "." + platform));
    SplitCut(mrns, ".", "svc" + "." + platform);
    SplitCut("svc", ".", platform);
    SplitNone(platform, ".");
  }

  /** `machine_nodeselector_key` (machine_filters.py:303-304). */
  function NodeselectorKey(nodeselector: string): string
  {
    Split(nodeselector, ": ")[0]
  }

  /** `machine_nodeselector_value` (machine_filters.py:306-307): raises
      without a `: `. */
  function NodeselectorValue(nodeselector: string): Attempt<string>
  {
    var parts := Split(nodeselector, ": ");
    if |parts| < 2 then Threw(IndexError) else Done(parts[1])
  }

  /** A selector written as key, `: `, value splits back into the two. */
  lemma NodeselectorSplit(key: string, value: string)
    requires ':' !in key && ':' !in value
    ensures NodeselectorKey(key + ": " + value) == key
    ensures NodeselectorValue(key + ": " + value) == Done(value)
  {
    SplitCut(key, ": ", value);
    SplitNone(value, ": ");
  }

  /** A selector without `: ` has no value. */
  lemma NodeselectorMissing(s: string)
    requires ':' !in s
    ensures NodeselectorKey(s) == s && NodeselectorValue(s) == Threw(IndexError)
  {
    SplitNone(s, ": ");
  }

  // ---------------------------------------------------------------------
  // Kind filters

  /**
   * `machine_resource`, `machine_application` and the other kind filters
   * (machine_filters.py:192-297): the entries whose key is a declared field
   * of the kind's class, values unchanged. The declared fields come from
   * classes outside this model and are passed in.
   */
  function DeclaredFields(obj: map<string, Value>, declared: set<string>): (d: map<string, Value>)
    ensures d.Keys == obj.Keys * declared
    ensures forall k :: k in d ==> d[k] == obj[k]
  {
    map k | k in obj && k in declared :: obj[k]
  }

  /** Filtering twice keeps the fields both kinds declare; filtering again
      by the same kind changes nothing. */
  lemma DeclaredFieldsCompose(obj: map<string, Value>, a: set<string>, b: set<string>)
    ensures DeclaredFields(DeclaredFields(obj, a), b) == DeclaredFields(obj, a * b)
    ensures DeclaredFields(DeclaredFields(obj, a), a) == DeclaredFields(obj, a)
  {
    assert DeclaredFields(DeclaredFields(obj, a), b).Keys == DeclaredFields(obj, a * b).Keys;
  }
}
