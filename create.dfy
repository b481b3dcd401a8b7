/**
 * `platform:create` (actions/create/create.go and its twin create.go, whose
 * lines sit two to three further down): the guard against an existing
 * platform, the scaffold it writes under `inst/{name}`, the per-provider
 * API defaults, the DNS step, the printed next steps, and `confirmDestroy`
 * (create.go only).
 */
module Create {
  import opened Common
  import opened Paths
  import opened FileTree
  import opened Schema

  datatype Options = Options(name: string, metalProvider: string, dnsProvider: string,
                             domain: string, skipDNS: bool)

  const DirMode := 0x1ED   // 0755
  const FileMode := 0x1A4  // 0644

  /** `inst/{name}` as segments, and the nodes directory and the two files
      below it; "nodes", "platform.yaml" and ".gitkeep" are plain names,
      which joining only appends. */
  function InstDir(name: string): Path
  {
    Under(["inst"], name)
  }

  function NodesDir(name: string): Path
  {
    InstDir(name) + ["nodes"]
  }

  function PlatformFile(name: string): Path
  {
    InstDir(name) + ["platform.yaml"]
  }

  function GitkeepFile(name: string): Path
  {
    NodesDir(name) + [".gitkeep"]
  }

  /** The API defaults for the metal provider: scaleway gets its endpoint
      and a token template, hetzner and ovh a token template, every other
      provider nothing. */
  function ProviderAPI(metalProvider: string): (api: APIConfig)
    ensures api.token != "" <==> metalProvider in {"scaleway", "hetzner", "ovh"}
    ensures api.token != "" ==> api.token == "{{ .keyring." + metalProvider + "_api_token }}"
    ensures api.uri != "" <==> metalProvider == "scaleway"
  {
    match metalProvider
    case "scaleway" =>
      assert "{{ .keyring.scaleway_api_token }}" == "{{ .keyring." + metalProvider + "_api_token }}";
      APIConfig("https://api.online.net/api/v1/", "{{ .keyring.scaleway_api_token }}")
    case "hetzner" =>
      assert "{{ .keyring.hetzner_api_token }}" == "{{ .keyring." + metalProvider + "_api_token }}";
      APIConfig("", "{{ .keyring.hetzner_api_token }}")
    case "ovh" =>
      assert "{{ .keyring.ovh_api_token }}" == "{{ .keyring." + metalProvider + "_api_token }}";
      APIConfig("", "{{ .keyring.ovh_api_token }}")
    case _ => NoAPI
  }

  /** The platform written to platform.yaml: a new platform with the
      provider's API defaults. */
  function ScaffoldPlatform(o: Options): (p: Platform)
    ensures p.infrastructure == Infrastructure(o.metalProvider, ProviderAPI(o.metalProvider))
    ensures p.(infrastructure := NewPlatform(o.name, o.metalProvider, o.dnsProvider, o.domain).infrastructure)
         == NewPlatform(o.name, o.metalProvider, o.dnsProvider, o.domain)
  {
    var p := NewPlatform(o.name, o.metalProvider, o.dnsProvider, o.domain);
    p.(infrastructure := p.infrastructure.(api := ProviderAPI(o.metalProvider)))
  }

  // ---------------------------------------------------------------------
  // Next steps

  datatype Action = MetalLogin(provider: string) | DnsLogin(provider: string) | Provision(platform: string)
                  | AddNode(platform: string) | WriteNodeFiles(dir: string) | Deploy(platform: string)

  /** A printed step: its number and what it asks for. */
  datatype Step = Step(number: nat, action: Action)

  /** A separate DNS login is suggested when both providers are real and
      they differ. */
  predicate NeedsDnsLogin(o: Options)
  {
    o.metalProvider != "manual" && o.dnsProvider != "manual" && o.dnsProvider != o.metalProvider
  }

  /** What the next steps ask for, in order. */
  function StepActions(o: Options): seq<Action>
  {
    (if o.metalProvider != "manual" then
       [MetalLogin(o.metalProvider)] + (if NeedsDnsLogin(o) then [DnsLogin(o.dnsProvider)] else []) + [Provision(o.name)]
     else [AddNode(o.name), WriteNodeFiles(JoinPath(JoinPath("inst", o.name), "nodes"))])
    + [Deploy(o.name)]
  }

  /** The steps as the code prints them: the deploy step is always
      numbered 3. */
  function WrittenNextSteps(o: Options): seq<Step>
  {
    (if o.metalProvider != "manual" then
       [Step(1, MetalLogin(o.metalProvider))]
       + (if NeedsDnsLogin(o) then [Step(2, DnsLogin(o.dnsProvider)), Step(3, Provision(o.name))]
          else [Step(2, Provision(o.name))])
     else [Step(1, AddNode(o.name)), Step(2, WriteNodeFiles(JoinPath(JoinPath("inst", o.name), "nodes")))])
    + [Step(3, Deploy(o.name))]
  }

  /** The steps numbered one after another. */
  function NextSteps(o: Options): (steps: seq<Step>)
    ensures |steps| == |StepActions(o)|
    ensures forall i :: 0 <= i < |steps| ==> steps[i] == Step(i + 1, StepActions(o)[i])
  {
    var actions := StepActions(o);
    seq(|actions|, i requires 0 <= i < |actions| => Step(i + 1, actions[i]))
  }

  /** The DNS-credentials step appears exactly when `NeedsDnsLogin`, and
      the deploy step always comes last. */
  lemma DnsLoginStep(o: Options)
    ensures (exists i :: 0 <= i < |NextSteps(o)| && NextSteps(o)[i].action.DnsLogin?) <==> NeedsDnsLogin(o)
    ensures NextSteps(o)[|NextSteps(o)| - 1].action == Deploy(o.name)
    ensures |NextSteps(o)| == if NeedsDnsLogin(o) then 4 else 3
  {
    var steps := NextSteps(o);
    if NeedsDnsLogin(o) {
      assert steps[1].action.DnsLogin?;
    }
  }

  /** As written, the steps carry the same actions as the corrected ones;
      the numbers differ exactly when the DNS login is suggested, where the
      last two steps are both numbered 3. */
  lemma WrittenStepsRepeatThree(o: Options)
    ensures |WrittenNextSteps(o)| == |NextSteps(o)|
    ensures forall i :: 0 <= i < |NextSteps(o)| ==> WrittenNextSteps(o)[i].action == NextSteps(o)[i].action
    ensures WrittenNextSteps(o) == NextSteps(o) <==> !NeedsDnsLogin(o)
    ensures NeedsDnsLogin(o) ==> WrittenNextSteps(o)[2].number == WrittenNextSteps(o)[3].number == 3
  {
    var w, s := WrittenNextSteps(o), NextSteps(o);
    if NeedsDnsLogin(o) {
      assert w[3] != s[3];
    } else {
      assert |w| == |s| == 3;
      assert w[0] == s[0] && w[1] == s[1] && w[2] == s[2];
    }
  }

  // ---------------------------------------------------------------------
  // The scaffold

  /**
   * What the environment answers: whether the stat fails for another
   * reason (permission, for one), a `MkdirAll` failure beyond the tree's
   * own, the YAML encoder, and failures of the two writes beyond the
   * tree's own.
   */
  datatype World = World(statDenied: bool, mkdirFault: Option<Error>,
                         encode: Platform -> Result<seq<bv8>>,
                         platformWriteFault: Option<Error>, gitkeepWriteFault: Option<Error>)

  /** The tree afterwards, the error, whether DNS was configured, and the
      steps printed. */
  datatype Outcome = Outcome(tree: Tree, err: Option<Error>, dnsAttempted: bool, steps: seq<Step>)

  function AlreadyExists(name: string): Error
  {
    Fail("platform " + Quote(name) + " already exists at " + JoinPath("inst", name))
  }

  /** Writing platform.yaml (holding `p`) and .gitkeep once the
      directories exist. */
  function FilesSpec(t: Tree, name: string, p: Platform, w: World): (Tree, Option<Error>)
  {
    match w.encode(p)
    case Err(e) => (t, Some(Wrap("failed to marshal platform.yaml", e)))
    case Ok(data) =>
      var written := if w.platformWriteFault.Some? then Err(w.platformWriteFault.value)
                     else WriteFile(t, PlatformFile(name), FileMode, data);
      match written
      case Err(e) => (t, Some(Wrap("failed to write platform.yaml", e)))
      case Ok(t1) =>
        var kept := if w.gitkeepWriteFault.Some? then Err(w.gitkeepWriteFault.value)
                    else WriteFile(t1, GitkeepFile(name), FileMode, []);
        match kept
        case Err(e) => (t1, Some(Wrap("failed to write .gitkeep", e)))
        case Ok(t2) => (t2, None)
  }

  /** The scaffold of platform `name` holding `p`: the guard, the
      directories and the two files. */
  function BuildSpec(t: Tree, name: string, p: Platform, w: World): (Tree, Option<Error>)
  {
    if w.statDenied || !StatNotExist(t, InstDir(name)) then (t, Some(AlreadyExists(name)))
    else
      var made := if w.mkdirFault.Some? then Err(w.mkdirFault.value) else MkdirAll(t, NodesDir(name), DirMode);
      match made
      case Err(e) => (t, Some(Wrap("failed to create nodes directory", e)))
      case Ok(t1) => FilesSpec(t1, name, p, w)
  }

  /** `Execute` (actions/create/create.go:38-129). The DNS configuration
      always succeeds, so it shows only as the flag. */
  function CreateSpec(t: Tree, o: Options, w: World): Outcome
  {
    var (t', err) := BuildSpec(t, o.name, ScaffoldPlatform(o), w);
    if err.Some? then Outcome(t', err, false, [])
    else Outcome(t', None, !o.skipDNS && o.dnsProvider != "manual", NextSteps(o))
  }

  // ---------------------------------------------------------------------
  // Properties

  /** Anything at `inst/{name}`, or a stat that fails for another reason,
      stops creation before anything is written. */
  lemma ExistingUntouched(t: Tree, o: Options, w: World)
    requires w.statDenied || Present(t, InstDir(o.name))
    ensures CreateSpec(t, o, w) == Outcome(t, Some(AlreadyExists(o.name)), false, [])
  {
  }

  /** `MkdirAll` succeeds where nothing on the way is anything but a
      directory. */
  lemma {:induction false} MkdirAllSucceeds(t: Tree, p: Path, mode: nat)
    requires forall k :: 0 < k <= |p| && p[..k] in t ==> t[p[..k]].Dir?
    ensures MkdirAll(t, p, mode).Ok?
    decreases |p|
  {
    if |p| > 0 {
      var up := p[..|p| - 1];
      forall k | 0 < k <= |up| && up[..k] in t
        ensures t[up[..k]].Dir?
      {
        assert up[..k] == p[..k];
      }
      MkdirAllSucceeds(t, up, mode);
      assert p[..|p|] == p;
    }
  }

  /** Nothing below an absent node exists in a well-formed tree. */
  lemma {:induction false} AbsentBelow(t: Tree, p: Path, q: Path)
    requires WellFormed(t) && !Present(t, p) && p <= q
    ensures q !in t
    decreases |q|
  {
    if |q| > |p| {
      var up := Parent(q);
      assert up[..|p|] == p;
      AbsentBelow(t, p, up);
      assert up != [] by {
        assert |p| == 0 ==> p == [];
      }
    } else {
      assert |p| == |q| && q[..|q|] == q;
      assert p == q;
    }
  }

  /** Where `inst/{name}` does not exist, `MkdirAll` of the nodes directory
      succeeds and leaves room for both files. */
  lemma FreshDirs(t: Tree, name: string)
    requires WellFormed(t) && StatNotExist(t, InstDir(name))
    ensures MkdirAll(t, NodesDir(name), DirMode).Ok?
    ensures var t1 := MkdirAll(t, NodesDir(name), DirMode).value;
      && (forall q :: q in t ==> q in t1 && t1[q] == t[q])
      && IsDir(t1, InstDir(name)) && IsDir(t1, NodesDir(name))
      && PlatformFile(name) !in t1 && GitkeepFile(name) !in t1
  {
    var inst, nodes := InstDir(name), NodesDir(name);
    assert inst[..|inst|] == inst;
    MkdirAllSucceeds(t, inst, DirMode);
    AbsentBelow(t, inst, nodes);
    assert nodes[..|nodes| - 1] == inst;
    var t1 := MkdirAll(t, nodes, DirMode).value;
    assert t1 == MkdirAll(t, inst, DirMode).value[nodes := Dir(DirMode)];
    var pf, gk := PlatformFile(name), GitkeepFile(name);
    AbsentBelow(t, inst, pf);
    AbsentBelow(t, inst, gk);
  }

  /** With the directories in place, the files are written unless the
      environment refuses, and then hold the encoding and nothing. */
  lemma FreshFiles(t1: Tree, name: string, p: Platform, w: World)
    requires IsDir(t1, InstDir(name)) && IsDir(t1, NodesDir(name))
    requires PlatformFile(name) !in t1 && GitkeepFile(name) !in t1
    ensures var (t2, err) := FilesSpec(t1, name, p, w);
      err.None? <==> w.encode(p).Ok? && w.platformWriteFault.None? && w.gitkeepWriteFault.None?
    ensures var (t2, err) := FilesSpec(t1, name, p, w);
      err.None? ==>
        && t2 == t1[PlatformFile(name) := File(FileMode, w.encode(p).value)][GitkeepFile(name) := File(FileMode, [])]
  {
    var pf, gk := PlatformFile(name), GitkeepFile(name);
    assert Parent(pf) == InstDir(name) && Parent(gk) == NodesDir(name);
    assert pf != gk by {
      assert |pf| < |gk|;
    }
  }

  /**
   * On a well-formed tree where `inst/{name}` does not exist, creation
   * fails only through the environment (a failing `MkdirAll`, encoder or
   * write), never through the tree itself; on success the scaffold holds
   * the platform's encoding and an empty .gitkeep, the nodes directory
   * exists, and every node that was there before is unchanged.
   */
  lemma FreshScaffold(t: Tree, o: Options, w: World)
    requires WellFormed(t) && !w.statDenied && StatNotExist(t, InstDir(o.name))
    ensures var r := CreateSpec(t, o, w);
      r.err.None? <==> w.mkdirFault.None? && w.encode(ScaffoldPlatform(o)).Ok?
                       && w.platformWriteFault.None? && w.gitkeepWriteFault.None?
    ensures var r := CreateSpec(t, o, w);
      r.err.None? ==>
        && r.tree[PlatformFile(o.name)] == File(FileMode, w.encode(ScaffoldPlatform(o)).value)
        && r.tree[GitkeepFile(o.name)] == File(FileMode, [])
        && IsDir(r.tree, NodesDir(o.name))
        && forall q :: q in t ==> q in r.tree && r.tree[q] == t[q]
  {
    FreshDirs(t, o.name);
    var t1 := MkdirAll(t, NodesDir(o.name), DirMode).value;
    FreshFiles(t1, o.name, ScaffoldPlatform(o), w);
    assert GitkeepFile(o.name) != NodesDir(o.name) && PlatformFile(o.name) != NodesDir(o.name);
  }

  /** Skipping DNS, or a manual DNS provider, changes neither the error
      nor the files: the DNS step cannot fail creation. */
  lemma DnsNeverFails(t: Tree, o: Options, w: World)
    ensures var r := CreateSpec(t, o, w);
      var r' := CreateSpec(t, o.(skipDNS := !o.skipDNS), w);
      r.err == r'.err && r.tree == r'.tree
    ensures CreateSpec(t, o, w).dnsAttempted <==>
      CreateSpec(t, o, w).err.None? && !o.skipDNS && o.dnsProvider != "manual"
  {
    var o' := o.(skipDNS := !o.skipDNS);
    assert o'.name == o.name && ScaffoldPlatform(o') == ScaffoldPlatform(o);
  }

  // ---------------------------------------------------------------------
  // The action as it runs

  /** The working directory's tree as `Execute` changes it. */
  class Scaffold {
    var tree: Tree

    constructor (t: Tree)
      ensures tree == t
    {
      tree := t;
    }

    /** The two writes of the scaffold's files. */
    method WriteFiles(name: string, p: Platform, w: World) returns (err: Option<Error>)
      modifies this
      ensures (tree, err) == FilesSpec(old(tree), name, p, w)
    {
      var encoded := w.encode(p);
      if encoded.Err? {
        return Some(Wrap("failed to marshal platform.yaml", encoded.error));
      }
      var written := if w.platformWriteFault.Some? then Err(w.platformWriteFault.value)
                     else WriteFile(tree, PlatformFile(name), FileMode, encoded.value);
      if written.Err? {
        return Some(Wrap("failed to write platform.yaml", written.error));
      }
      tree := written.value;
      var kept := if w.gitkeepWriteFault.Some? then Err(w.gitkeepWriteFault.value)
                  else WriteFile(tree, GitkeepFile(name), FileMode, []);
      if kept.Err? {
        return Some(Wrap("failed to write .gitkeep", kept.error));
      }
      tree := kept.value;
      err := None;
    }

    /** `Execute` (actions/create/create.go:38-129). */
    method Execute(o: Options, w: World) returns (err: Option<Error>, dnsAttempted: bool, steps: seq<Step>)
      modifies this
      ensures Outcome(tree, err, dnsAttempted, steps) == CreateSpec(old(tree), o, w)
    {
      dnsAttempted, steps := false, [];
      var instDir := InstDir(o.name);
      if w.statDenied || !StatNotExist(tree, instDir) {
        return Some(AlreadyExists(o.name)), false, [];
      }
      var made := if w.mkdirFault.Some? then Err(w.mkdirFault.value) else MkdirAll(tree, NodesDir(o.name), DirMode);
      if made.Err? {
        return Some(Wrap("failed to create nodes directory", made.error)), false, [];
      }
      tree := made.value;
      err := WriteFiles(o.name, ScaffoldPlatform(o), w);
      if err.Some? {
        return;
      }
      if !o.skipDNS && o.dnsProvider != "manual" {
        dnsAttempted := true;
      }
      steps := NextSteps(o);
    }
  }

  // ---------------------------------------------------------------------
  // Confirmation (create.go)

  /**
   * `confirmDestroy`: the line read from the terminal (an error when the
   * read fails, including input that ends before a newline) confirms
   * exactly when, trimmed of surrounding blanks, it is the resource name.
   */
  function ConfirmDestroy(line: Result<string>, resourceName: string): (r: Result<bool>)
    ensures r.Err? <==> line.Err?
    ensures r.Err? ==> r.error == Wrap("failed to read input", line.error)
  {
    match line
    case Err(e) => Err(Wrap("failed to read input", e))
    case Ok(input) => Ok(TrimSpace(input) == resourceName)
  }

  /** Typing the name and pressing return confirms, blanks around it
      allowed; a name with blanks at its ends can never be confirmed. */
  lemma ConfirmTypedName(name: string, pad: string)
    requires forall i :: 0 <= i < |pad| ==> IsSpace(pad[i])
    requires |name| > 0 && !IsSpace(name[0]) && !IsSpace(name[|name| - 1])
    ensures ConfirmDestroy(Ok(pad + name + pad + "\n"), name) == Ok(true)
    ensures forall line :: ConfirmDestroy(Ok(line), pad + name + " ") == Ok(false)
  {
    var tail := pad + "\n";
    var rest := name + tail;
    assert pad + name + pad + "\n" == pad + rest;
    assert TrimSpace(pad + rest) == name by {
      TrimLeftPad(pad, rest);
      TrimRightPad(name, tail);
    }
    forall line
      ensures ConfirmDestroy(Ok(line), pad + name + " ") == Ok(false)
    {
      var typed := pad + name + " ";
      assert IsSpace(typed[|typed| - 1]);
    }
  }

  lemma {:induction false} TrimLeftPad(pad: string, s: string)
    requires forall i :: 0 <= i < |pad| ==> IsSpace(pad[i])
    requires |s| > 0 && !IsSpace(s[0])
    ensures TrimLeft(pad + s) == s
    decreases |pad|
  {
    if |pad| > 0 {
      assert (pad + s)[1..] == pad[1..] + s;
      TrimLeftPad(pad[1..], s);
    }
  }

  lemma {:induction false} TrimRightPad(s: string, pad: string)
    requires forall i :: 0 <= i < |pad| ==> IsSpace(pad[i])
    requires |s| > 0 && !IsSpace(s[|s| - 1])
    ensures TrimRight(s + pad) == s
    decreases |pad|
  {
    if |pad| > 0 {
      assert (s + pad)[..|s + pad| - 1] == s + pad[..|pad| - 1];
      TrimRightPad(s, pad[..|pad| - 1]);
    } else {
      assert s + pad == s;
    }
  }
}
