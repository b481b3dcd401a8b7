/**
 * The `auto_tags` callback plugin (modules/auto_tags/auto_tags.py): when a
 * playbook starts, every play is tagged with the dotted prefixes of its
 * name ("a.b.c" gives "a", "a.b" and "a.b.c"), and every role of a play with
 * its own name, each tag appended only if it is not already there.
 */
module AutoTags {
  import opened Common

  // ---------------------------------------------------------------------
  // Specification

  /** The first part, the first two parts joined by a dot, and so on up
      to all of them. */
  function JoinedPrefixes(parts: seq<string>): (r: seq<string>)
    ensures |r| == |parts|
  {
    seq(|parts|, i requires 0 <= i < |parts| => Join(parts[..i + 1], "."))
  }

  /** The tags derived from a play's name. */
  function PlayTags(name: string): seq<string>
  {
    JoinedPrefixes(Split(name, "."))
  }

  /** A play's tags once the callback has run over it. */
  function TagPlay(tags: seq<string>, name: string): seq<string>
  {
    AddAll(tags, PlayTags(name))
  }

  // ---------------------------------------------------------------------
  // What the derived tags are

  /** The tag the loop builds from the previous one and the next part is
      the next joined prefix. */
  lemma JoinedPrefixesStep(parts: seq<string>, i: nat)
    requires i < |parts|
    ensures JoinedPrefixes(parts[..i + 1]) ==
      JoinedPrefixes(parts[..i]) + [(if i == 0 then "" else Join(parts[..i], ".") + ".") + parts[i]]
  {
    var longer := JoinedPrefixes(parts[..i + 1]);
    var shorter := JoinedPrefixes(parts[..i]);
    var tag := (if i == 0 then "" else Join(parts[..i], ".") + ".") + parts[i];
    assert Join(parts[..i + 1], ".") == tag by {
      if i == 0 {
        assert parts[..1] == [parts[0]];
      } else {
        JoinAppend(parts[..i], parts[i], ".");
        assert parts[..i + 1] == parts[..i] + [parts[i]];
      }
    }
    assert longer[i] == tag by {
      assert parts[..i + 1][..i + 1] == parts[..i + 1];
    }
    forall k | 0 <= k < i
      ensures longer[k] == shorter[k]
    {
      assert parts[..i + 1][..k + 1] == parts[..i][..k + 1];
    }
    assert longer == shorter + [tag];
  }

  /** The first k parts joined are a prefix of all the parts joined. */
  lemma {:induction false} JoinPrefix(parts: seq<string>, k: nat)
    requires 1 <= k <= |parts|
    ensures HasPrefix(Join(parts, "."), Join(parts[..k], "."))
    decreases |parts|
  {
    if k == |parts| {
      assert parts[..k] == parts;
    } else {
      var init := parts[..|parts| - 1];
      JoinPrefix(init, k);
      assert init[..k] == parts[..k];
      JoinAppend(init, parts[|parts| - 1], ".");
      assert parts == init + [parts[|parts| - 1]];
    }
  }

  /** The i-th joined prefix is the first i + 1 parts joined. */
  lemma JoinedPrefixAt(parts: seq<string>, i: nat)
    requires i < |parts|
    ensures JoinedPrefixes(parts)[i] == Join(parts[..i + 1], ".")
  {
  }

  /** Every joined prefix is a prefix of all the parts joined, and the
      last is all of them. */
  lemma JoinedPrefixesArePrefixes(parts: seq<string>)
    requires |parts| >= 1
    ensures forall i :: 0 <= i < |parts| ==> HasPrefix(Join(parts, "."), JoinedPrefixes(parts)[i])
    ensures JoinedPrefixes(parts)[|parts| - 1] == Join(parts, ".")
  {
    EachJoinedPrefixIsPrefix(parts);
    JoinedPrefixLast(parts);
    JoinAll(parts);
  }

  /** Every joined prefix is a prefix of all the parts joined. */
  lemma EachJoinedPrefixIsPrefix(parts: seq<string>)
    ensures forall i :: 0 <= i < |parts| ==> HasPrefix(Join(parts, "."), JoinedPrefixes(parts)[i])
  {
    forall i | 0 <= i < |parts|
      ensures HasPrefix(Join(parts, "."), JoinedPrefixes(parts)[i])
    {
      JoinPrefix(parts, i + 1);
      JoinedPrefixAt(parts, i);
    }
  }

  /** The last joined prefix takes every part. */
  lemma JoinedPrefixLast(parts: seq<string>)
    requires |parts| >= 1
    ensures JoinedPrefixes(parts)[|parts| - 1] == Join(parts[..|parts|], ".")
  {
    JoinedPrefixAt(parts, |parts| - 1);
  }

  /** Taking every part joins all of them. */
  lemma JoinAll(parts: seq<string>)
    ensures Join(parts[..|parts|], ".") == Join(parts, ".")
  {
    assert parts[..|parts|] == parts;
  }

  /**
   * One tag per dotted part of the name; each is the name up to the end of
   * one of its parts, so a prefix of the name, and the last is the whole
   * name.
   */
  lemma PlayTagsMeaning(name: string)
    ensures |PlayTags(name)| == |Split(name, ".")|
    ensures forall i :: 0 <= i < |PlayTags(name)| ==> HasPrefix(name, PlayTags(name)[i])
    ensures PlayTags(name)[|PlayTags(name)| - 1] == name
  {
    var parts := Split(name, ".");
    JoinedPrefixesArePrefixes(parts);
    JoinSplit(name, ".");
  }

  /** Running the callback over a play a second time changes nothing. */
  lemma TagPlayIdempotent(tags: seq<string>, name: string)
    ensures TagPlay(TagPlay(tags, name), name) == TagPlay(tags, name)
  {
    AddAllMembers(tags, PlayTags(name));
    AddAllPresent(TagPlay(tags, name), PlayTags(name));
  }

  // ---------------------------------------------------------------------
  // Roles

  /** A role of a play: its name and its tags. */
  datatype Role = Role(name: string, tags: seq<string>)

  /** A role once the callback has run over it: its own name among its tags. */
  function TagRole(r: Role): (t: Role)
    ensures t.name == r.name && r.name in t.tags
    ensures r.name in r.tags ==> t == r
    ensures r.name !in r.tags ==> t.tags == r.tags + [r.name]
  {
    r.(tags := AppendNew(r.tags, r.name))
  }

  /** Every role of a list tagged, in place. */
  function TagRoles(roles: seq<Role>): (r: seq<Role>)
    ensures |r| == |roles|
    ensures forall i :: 0 <= i < |roles| ==> r[i] == TagRole(roles[i])
  {
    seq(|roles|, i requires 0 <= i < |roles| => TagRole(roles[i]))
  }

  /** Tagging the roles a second time changes nothing. */
  lemma TagRolesIdempotent(roles: seq<Role>)
    ensures TagRoles(TagRoles(roles)) == TagRoles(roles)
  {
  }

  // ---------------------------------------------------------------------
  // The callback as it runs

  class Play {
    const name: string
    var tags: seq<string>
    var roles: seq<Role>

    constructor (name: string, tags: seq<string>, roles: seq<Role>)
      ensures this.name == name && this.tags == tags && this.roles == roles
    {
      this.name := name;
      this.tags := tags;
      this.roles := roles;
    }

    /** The dotted prefixes of the name, each appended if absent
        (auto_tags.py:14-19). */
    method TagName()
      modifies this
      ensures tags == TagPlay(old(tags), name) && roles == old(roles)
    {
      var parts := Split(name, ".");
      var playTags: seq<string> := [];
      var i := 0;
      while i < |parts|
        invariant 0 <= i <= |parts|
        invariant playTags == JoinedPrefixes(parts[..i])
        invariant tags == AddAll(old(tags), playTags) && roles == old(roles)
      {
        var tag := (if |playTags| == 0 then "" else playTags[|playTags| - 1] + ".") + parts[i];
        JoinedPrefixesStep(parts, i);
        assert i > 0 ==> parts[..i][..i] == parts[..i];
        playTags := playTags + [tag];
        if tag !in tags {
          tags := tags + [tag];
        }
        i := i + 1;
      }
      assert parts[..i] == parts;
    }

    /** Each role's own name appended to its tags if absent
        (auto_tags.py:20-23). */
    method TagRoleNames()
      modifies this
      ensures roles == TagRoles(old(roles)) && tags == old(tags)
    {
      var j := 0;
      while j < |roles|
        invariant 0 <= j <= |roles| && |roles| == |old(roles)| && tags == old(tags)
        invariant forall k :: 0 <= k < |roles| ==>
          roles[k] == if k < j then TagRole(old(roles)[k]) else old(roles)[k]
      {
        var role := roles[j];
        if role.name !in role.tags {
          roles := roles[j := role.(tags := role.tags + [role.name])];
        }
        j := j + 1;
      }
    }
  }

  /**
   * `v2_playbook_on_start` (auto_tags.py:12-23). A play listed more than
   * once ends up as if tagged once.
   */
  method OnStart(plays: seq<Play>)
    modifies set p | p in plays
    ensures forall p :: p in plays ==> p.tags == TagPlay(old(p.tags), p.name)
    ensures forall p :: p in plays ==> p.roles == TagRoles(old(p.roles))
  {
    var i := 0;
    while i < |plays|
      invariant 0 <= i <= |plays|
      invariant forall p :: p in plays[..i] ==>
        p.tags == TagPlay(old(p.tags), p.name) && p.roles == TagRoles(old(p.roles))
      invariant forall p :: p in plays && p !in plays[..i] ==> p.tags == old(p.tags) && p.roles == old(p.roles)
    {
      var play := plays[i];
      if play in plays[..i] {
        ghost var before := old(play.tags);
        assert play.tags == TagPlay(before, play.name);
        TagPlayIdempotent(before, play.name);
        TagRolesIdempotent(old(play.roles));
      }
      play.TagName();
      play.TagRoleNames();
      assert plays[..i + 1] == plays[..i] + [play];
      i := i + 1;
    }
    assert plays[..i] == plays;
  }
}
