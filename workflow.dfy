/**
 * The `platform:up` workflow (actions/up/up.go) and its older twin
 * `platform:ship` (ship.go): commit, bump, then either the local chain of
 * sub-actions or the CI chain (push, credentials, OAuth, pipeline, manual
 * job). Git, the sub-action manager, the keyring prompt and the CI API are
 * oracles fixed in `Oracles`; every call the workflow makes is recorded as
 * a `Step`, so ordering and halting are statements about the trace.
 */
module Workflow {
  import opened Common
  import opened Credentials

  /** A value passed to a sub-action: a string or a boolean flag. */
  datatype Param = Text(s: string) | Flag(b: bool)

  /** The input handed to a sub-action: its arguments, its options, and the
      persistent flags filed under the manager's persistent group. */
  datatype Input = Input(args: map<string, Param>, opts: map<string, Param>,
                         group: string, flags: map<string, Param>)

  /** How a registered sub-action behaves when validated, given its input,
      and executed. */
  datatype Behaviour = Behaviour(validate: Option<Error>, setInput: Option<Error>,
                                 execute: Option<Error>)

  /** The action manager: registered actions and the persistent group name. */
  datatype Registry = Registry(actions: map<string, Behaviour>, persistentGroup: string)

  datatype Job = Job(name: string, id: int)

  /** Every external call the workflow makes, with the data it passes. */
  datatype Step =
    | Commit | PushBranch | PushCommits
    | Lookup(id: string) | Validate(id: string, input: Input) | SetInput(id: string)
    | Decorate(id: string) | Execute(id: string)
    | GetCredentials(url: string)
    | OAuth(domain: string, username: string, password: string)
    | SaveKeyring
    | BranchName | RepoName | ProjectId(repo: string)
    | TriggerPipeline(project: int, branch: string, environment: string, tags: string, debug: bool)
    | ListJobs(project: int, pipeline: int)
    | TriggerJob(project: int, job: int, pipeline: int)

  /** The outcomes of everything outside the workflow. */
  datatype Oracles = Oracles(
    registry: Registry,
    commit: Option<Error>, pushBranch: Option<Error>, pushCommits: Option<Error>,
    tty: Result<(string, string)>,
    oauth: Result<string>, branch: Result<string>, repo: Result<string>,
    project: Result<int>, pipeline: Result<int>, jobs: Result<seq<Job>>,
    trigger: Option<Error>,
    targetJob: string)

  /** The command-line options shared by both workflows (`ship` has no
      `img`; the deprecated `ci` flag only prints a notice). */
  datatype Options = Options(
    img: string, last: bool, skipBump: bool, skipPrepare: bool, local: bool,
    clean: bool, cleanPrepare: bool, debug: bool, conflictsVerbosity: bool,
    gitlabDomain: string, persistent: map<string, Param>)

  /** `platform:up` and the older `platform:ship` differ in the image
      shortcut and in the names of the compose and prepare actions. */
  datatype Flavor = Up | Ship

  function ComposeAction(f: Flavor): string
  {
    if f == Up then "model:compose" else "package:compose"
  }

  function PrepareAction(f: Flavor): string
  {
    if f == Up then "model:prepare" else "platform:prepare"
  }

  const EmptyDomainText := "gitlab-domain is empty: pass it as option or local config"

  /** The steps taken and the error returned, if any. */
  datatype Outcome = Outcome(steps: seq<Step>, err: Option<Error>)

  /** A whole run: its steps, its error and the keyring afterwards. */
  datatype Report = Report(steps: seq<Step>, err: Option<Error>, keys: KeyState)

  /** The sub-actions a trace invoked, in order. */
  function Invoked(steps: seq<Step>): seq<string>
  {
    if |steps| == 0 then []
    else (if steps[0].Lookup? then [steps[0].id] else []) + Invoked(steps[1..])
  }

  lemma {:induction false} InvokedAppend(a: seq<Step>, b: seq<Step>)
    ensures Invoked(a + b) == Invoked(a) + Invoked(b)
    decreases |a|
  {
    if |a| > 0 {
      assert (a + b)[0] == a[0];
      assert (a + b)[1..] == a[1..] + b;
      InvokedAppend(a[1..], b);
    } else {
      assert a + b == b;
    }
  }

  /** Whether invoking the action fails somewhere. */
  predicate Fails(reg: Registry, id: string)
  {
    id !in reg.actions || reg.actions[id].validate.Some?
    || reg.actions[id].setInput.Some? || reg.actions[id].execute.Some?
  }

  /**
   * `executeAction` (actions/up/up.go:252-280, ship.go:229-257): look the
   * action up, build its input with the persistent flags in the persistent
   * group, validate, set the input, decorate and execute; the first failure
   * is wrapped with the action id and ends the sequence.
   */
  function ActionSpec(reg: Registry, id: string, args: map<string, Param>,
                      opts: map<string, Param>, persistent: map<string, Param>): Outcome
  {
    if id !in reg.actions then Outcome([Lookup(id)], Some(Fail("action " + Quote(id) + " was not found")))
    else
      var b := reg.actions[id];
      var input := Input(args, opts, reg.persistentGroup, persistent);
      if b.validate.Some? then
        Outcome([Lookup(id), Validate(id, input)],
                Some(Wrap("failed to validate input for action " + Quote(id), b.validate.value)))
      else if b.setInput.Some? then
        Outcome([Lookup(id), Validate(id, input), SetInput(id)],
                Some(Wrap("failed to set input for action " + Quote(id), b.setInput.value)))
      else
        Outcome([Lookup(id), Validate(id, input), SetInput(id), Decorate(id), Execute(id)],
                if b.execute.Some? then Some(Wrap("error executing action " + Quote(id), b.execute.value))
                else None)
  }

  /** The order and error rules of `executeAction`. */
  lemma ActionContract(reg: Registry, id: string, args: map<string, Param>,
                       opts: map<string, Param>, persistent: map<string, Param>)
    ensures var o := ActionSpec(reg, id, args, opts, persistent);
      && |o.steps| >= 1 && o.steps[0] == Lookup(id)
      // It fails exactly when the action is unknown or one of its calls fails.
      && (o.err.Some? <==> Fails(reg, id))
      && (id !in reg.actions ==>
            o.steps == [Lookup(id)] && o.err == Some(Fail("action " + Quote(id) + " was not found")))
      && (id in reg.actions ==>
            |o.steps| >= 2 && o.steps[1] == Validate(id, Input(args, opts, reg.persistentGroup, persistent)))
      // Each later call happens only when every earlier one succeeded.
      && (SetInput(id) in o.steps <==> id in reg.actions && reg.actions[id].validate.None?)
      && (Execute(id) in o.steps <==>
            id in reg.actions && reg.actions[id].validate.None? && reg.actions[id].setInput.None?)
      // A failure of a found action names the action in its context.
      && (o.err.Some? && id in reg.actions ==>
            o.err.value.Wrap? && HasSuffix(o.err.value.context, Quote(id)))
  {
  }

  lemma InvokedAction(reg: Registry, id: string, args: map<string, Param>,
                      opts: map<string, Param>, persistent: map<string, Param>)
    ensures Invoked(ActionSpec(reg, id, args, opts, persistent).steps) == [id]
  {
    var s := ActionSpec(reg, id, args, opts, persistent).steps;
    assert |s| >= 1 && s[0] == Lookup(id);
    assert forall i :: 1 <= i < |s| ==> !s[i].Lookup?;
    InvokedNone(s[1..]);
    assert s == [s[0]] + s[1..];
    InvokedAppend([s[0]], s[1..]);
  }

  lemma {:induction false} InvokedNone(s: seq<Step>)
    requires forall i :: 0 <= i < |s| ==> !s[i].Lookup?
    ensures Invoked(s) == []
    decreases |s|
  {
    if |s| > 0 {
      InvokedNone(s[1..]);
    }
  }

  // ---------------------------------------------------------------------
  // The stages and the plans

  /** The sub-action calls the workflows make, one constructor per call
      site: the image deploy of the shortcut, the bump, and the four calls
      of the local chain. */
  datatype Stage = ImageDeploy | Bump | Compose | Prepare | Sync | Deploy

  /** What a run depends on: the flavour, the world outside, the
      positional arguments and the options. */
  datatype Ctx = Ctx(flavor: Flavor, w: Oracles, environment: string, tags: string, o: Options)

  /** The action a stage calls. */
  function ActionOf(f: Flavor, s: Stage): string
  {
    match s
    case ImageDeploy => "platform:deploy"
    case Bump => "component:bump"
    case Compose => ComposeAction(f)
    case Prepare => PrepareAction(f)
    case Sync => "component:sync"
    case Deploy => "platform:deploy"
  }

  /** The context a stage's failure is wrapped with. */
  function StageText(s: Stage): string
  {
    match s
    case ImageDeploy => "deploy error"
    case Bump => "bump error"
    case Compose => "compose error"
    case Prepare => "prepare error"
    case Sync => "sync error"
    case Deploy => "deploy error"
  }

  /** The arguments a stage passes: only the deploys take any. */
  function ArgsOf(c: Ctx, s: Stage): map<string, Param>
  {
    if s == ImageDeploy || s == Deploy then
      map["environment" := Text(c.environment), "tags" := Text(c.tags)]
    else map[]
  }

  /** The options a stage passes. */
  function OptsOf(c: Ctx, s: Stage): map<string, Param>
  {
    match s
    case ImageDeploy => map["img" := Text(c.o.img), "debug" := Flag(c.o.debug)]
    case Bump => map["last" := Flag(c.o.last)]
    case Compose =>
      map["skip-not-versioned" := Flag(true), "conflicts-verbosity" := Flag(c.o.conflictsVerbosity),
          "clean" := Flag(c.o.clean)]
    case Prepare => map["clean" := Flag(c.o.cleanPrepare)]
    case Sync => map[]
    case Deploy => map["debug" := Flag(c.o.debug)]
  }

  /** One stage: its action run, a failure wrapped with the stage's text. */
  function Single(c: Ctx, s: Stage): Outcome
  {
    var a := ActionSpec(c.w.registry, ActionOf(c.flavor, s), ArgsOf(c, s), OptsOf(c, s), c.o.persistent);
    if a.err.Some? then Outcome(a.steps, Some(Wrap(StageText(s), a.err.value))) else a
  }

  /** `x` then, if it succeeded, `y`. */
  function Then(x: Outcome, y: Outcome): Outcome
  {
    if x.err.Some? then x else Outcome(x.steps + y.steps, y.err)
  }

  lemma ThenAssoc(x: Outcome, y: Outcome, z: Outcome)
    ensures Then(Then(x, y), z) == Then(x, Then(y, z))
  {
    if x.err.None? && y.err.None? {
      assert (x.steps + y.steps) + z.steps == x.steps + (y.steps + z.steps);
    }
  }

  /** Stages run one after the other; the first failure ends the chain. */
  function RunChain(c: Ctx, plan: seq<Stage>): Outcome
    decreases |plan|
  {
    if |plan| == 0 then Outcome([], None)
    else Then(Single(c, plan[0]), RunChain(c, plan[1..]))
  }

  /** The actions a plan calls, in order. */
  function Actions(f: Flavor, plan: seq<Stage>): seq<string>
  {
    if |plan| == 0 then [] else [ActionOf(f, plan[0])] + Actions(f, plan[1..])
  }

  /** Whether a stage fails. */
  predicate StageFails(c: Ctx, s: Stage)
  {
    Fails(c.w.registry, ActionOf(c.flavor, s))
  }

  /** The index of the first stage that fails, or the length of the plan. */
  function FirstFailing(c: Ctx, plan: seq<Stage>): (k: nat)
    ensures k <= |plan|
    ensures forall i :: 0 <= i < k ==> !StageFails(c, plan[i])
    ensures k < |plan| ==> StageFails(c, plan[k])
  {
    if |plan| == 0 then 0
    else if StageFails(c, plan[0]) then 0
    else 1 + FirstFailing(c, plan[1..])
  }

  /** What a single stage does, in terms of the chain vocabulary. */
  lemma SingleContract(c: Ctx, s: Stage)
    ensures var r := Single(c, s);
      var a := ActionSpec(c.w.registry, ActionOf(c.flavor, s), ArgsOf(c, s), OptsOf(c, s), c.o.persistent);
      && Invoked(r.steps) == [ActionOf(c.flavor, s)]
      && (r.err.Some? <==> StageFails(c, s))
      && (r.err.Some? ==> r.err == Some(Wrap(StageText(s), a.err.value)))
  {
    var id := ActionOf(c.flavor, s);
    InvokedAction(c.w.registry, id, ArgsOf(c, s), OptsOf(c, s), c.o.persistent);
    ActionContract(c.w.registry, id, ArgsOf(c, s), OptsOf(c, s), c.o.persistent);
  }

  /**
   * A chain invokes its stages' actions in plan order up to and including
   * the first failing one, and no further; that failure is returned wrapped
   * with its stage's text, and a chain without failures succeeds.
   */
  lemma {:induction false} ChainHalts(c: Ctx, plan: seq<Stage>)
    ensures var r := RunChain(c, plan);
      var k := FirstFailing(c, plan);
      && (k < |plan| ==>
            && Invoked(r.steps) == Actions(c.flavor, plan[..k + 1])
            && r.err == Single(c, plan[k]).err && r.err.Some?
            && r.err.value.Wrap? && r.err.value.context == StageText(plan[k]))
      && (k == |plan| ==> Invoked(r.steps) == Actions(c.flavor, plan) && r.err.None?)
    decreases |plan|
  {
    if |plan| > 0 {
      var s, rest := plan[0], plan[1..];
      SingleContract(c, s);
      if !StageFails(c, s) {
        ChainHalts(c, rest);
        InvokedAppend(Single(c, s).steps, RunChain(c, rest).steps);
        var k := FirstFailing(c, plan);
        if k < |plan| {
          assert plan[..k + 1][1..] == rest[..k];
        }
      } else {
        assert plan[..1][1..] == [];
      }
    }
  }

  /** Running two plans in sequence is running their concatenation. */
  lemma {:induction false} ChainAppend(c: Ctx, a: seq<Stage>, b: seq<Stage>)
    ensures RunChain(c, a + b) == Then(RunChain(c, a), RunChain(c, b))
    decreases |a|
  {
    if |a| == 0 {
      assert a + b == b;
      var y := RunChain(c, b);
      assert [] + y.steps == y.steps;
    } else {
      assert (a + b)[0] == a[0];
      assert (a + b)[1..] == a[1..] + b;
      ChainAppend(c, a[1..], b);
      ThenAssoc(Single(c, a[0]), RunChain(c, a[1..]), RunChain(c, b));
    }
  }

  lemma ChainOne(c: Ctx, s: Stage)
    ensures RunChain(c, [s]) == Single(c, s)
  {
    assert [s][1..] == [];
    assert Single(c, s).steps + [] == Single(c, s).steps;
  }

  /** The bump, skipped with `skipBump`. */
  function BumpPlan(o: Options): seq<Stage>
  {
    if o.skipBump then [] else [Bump]
  }

  /** The prepare stage of the local chain, skipped with `skipPrepare`. */
  function PreparePlan(o: Options): seq<Stage>
  {
    if o.skipPrepare then [] else [Prepare]
  }

  /** The local chain: compose, prepare unless skipped, sync, deploy. */
  function LocalPlan(o: Options): seq<Stage>
  {
    [Compose] + PreparePlan(o) + [Sync, Deploy]
  }

  /** The local chain split where the workflow's code splits it. */
  lemma LocalSplit(c: Ctx)
    ensures RunChain(c, LocalPlan(c.o))
         == Then(RunChain(c, [Compose] + PreparePlan(c.o)), RunChain(c, [Sync, Deploy]))
  {
    ChainAppend(c, [Compose] + PreparePlan(c.o), [Sync, Deploy]);
  }

  lemma {:induction false} ActionsAppend(f: Flavor, a: seq<Stage>, b: seq<Stage>)
    ensures Actions(f, a + b) == Actions(f, a) + Actions(f, b)
    decreases |a|
  {
    if |a| == 0 {
      assert a + b == b;
    } else {
      assert (a + b)[0] == a[0];
      assert (a + b)[1..] == a[1..] + b;
      ActionsAppend(f, a[1..], b);
    }
  }

  /** The actions of the local chain, by flavour. */
  lemma LocalActions(f: Flavor, o: Options)
    ensures Actions(f, LocalPlan(o))
         == [ComposeAction(f)] + (if o.skipPrepare then [] else [PrepareAction(f)])
            + ["component:sync", "platform:deploy"]
  {
    ActionsAppend(f, [Compose] + PreparePlan(o), [Sync, Deploy]);
    ActionsAppend(f, [Compose], PreparePlan(o));
  }

  /**
   * The local path (actions/up/up.go:117-157, ship.go:94-134): compose,
   * prepare unless skipped, sync and deploy are invoked in that order up to
   * the first failing one; its failure is returned tagged with its stage and
   * nothing after it is invoked; without failure the whole chain runs.
   */
  lemma LocalOrder(c: Ctx)
    ensures var plan := LocalPlan(c.o);
      var r := RunChain(c, plan);
      var k := FirstFailing(c, plan);
      && Actions(c.flavor, plan)
         == [ComposeAction(c.flavor)] + (if c.o.skipPrepare then [] else [PrepareAction(c.flavor)])
            + ["component:sync", "platform:deploy"]
      && (k < |plan| ==>
            && Invoked(r.steps) == Actions(c.flavor, plan[..k + 1])
            && r.err.Some? && r.err.value.Wrap? && r.err.value.context == StageText(plan[k]))
      && (k == |plan| ==> Invoked(r.steps) == Actions(c.flavor, plan) && r.err.None?)
  {
    LocalActions(c.flavor, c.o);
    ChainHalts(c, LocalPlan(c.o));
  }

  // ---------------------------------------------------------------------
  // The CI chain

  /** The first job with the given name, if any. */
  function FirstMatch(jobs: seq<Job>, name: string): (r: Option<nat>)
    ensures r.Some? ==>
      && r.value < |jobs| && jobs[r.value].name == name
      && forall j :: 0 <= j < r.value ==> jobs[j].name != name
    ensures r.None? ==> forall j :: 0 <= j < |jobs| ==> jobs[j].name != name
  {
    if |jobs| == 0 then None
    else if jobs[0].name == name then Some(0)
    else match FirstMatch(jobs[1..], name)
      case None => None
      case Some(i) => Some(i + 1)
  }

  /** The job id the scan settles on; 0 (Go's zero value) when none. */
  function TargetId(jobs: seq<Job>, name: string): int
  {
    match FirstMatch(jobs, name)
    case None => 0
    case Some(i) => jobs[i].id
  }

  /**
   * The scan of actions/up/up.go:232-238 and ship.go:209-215: the id of the
   * first job, in list order, named `name`, or 0.
   */
  method FindTargetJob(jobs: seq<Job>, name: string) returns (id: int)
    ensures (exists i :: 0 <= i < |jobs| && jobs[i].name == name
               && (forall j :: 0 <= j < i ==> jobs[j].name != name) && id == jobs[i].id)
         || ((forall j :: 0 <= j < |jobs| ==> jobs[j].name != name) && id == 0)
    ensures id == TargetId(jobs, name)
  {
    id := 0;
    var i := 0;
    while i < |jobs|
      invariant 0 <= i <= |jobs|
      invariant forall j :: 0 <= j < i ==> jobs[j].name != name
      invariant id == 0
    {
      if jobs[i].name == name {
        id := jobs[i].id;
        assert FirstMatch(jobs, name) == Some(i) by { FirstMatchIs(jobs, name, i); }
        return;
      }
      i := i + 1;
    }
  }

  lemma {:induction false} FirstMatchIs(jobs: seq<Job>, name: string, i: nat)
    requires i < |jobs| && jobs[i].name == name
    requires forall j :: 0 <= j < i ==> jobs[j].name != name
    ensures FirstMatch(jobs, name) == Some(i)
    decreases i
  {
    if i > 0 {
      FirstMatchIs(jobs[1..], name, i - 1);
    }
  }

  /** The CI API calls after the credentials are settled
      (actions/up/up.go:201-247, ship.go:178-224). */
  function ApiSpec(c: Ctx): Outcome
  {
    var w := c.w;
    if w.branch.Err? then Outcome([BranchName], Some(Wrap("failed to get branch name", w.branch.error)))
    else if w.repo.Err? then
      Outcome([BranchName, RepoName], Some(Wrap("failed to get repo name", w.repo.error)))
    else
      var s := [BranchName, RepoName, ProjectId(w.repo.value)];
      if w.project.Err? then
        Outcome(s, Some(Wrap("failed to get ID of project " + Quote(w.repo.value), w.project.error)))
      else
        var s := s + [TriggerPipeline(w.project.value, w.branch.value, c.environment, c.tags, c.o.debug)];
        if w.pipeline.Err? then Outcome(s, Some(Wrap("failed to trigger pipeline", w.pipeline.error)))
        else
          var s := s + [ListJobs(w.project.value, w.pipeline.value)];
          if w.jobs.Err? then Outcome(s, Some(Wrap("failed to retrieve jobs in pipeline", w.jobs.error)))
          else
            var id := TargetId(w.jobs.value, w.targetJob);
            if id == 0 then Outcome(s, Some(Fail("no " + w.targetJob + " job found in pipeline")))
            else
              var s := s + [TriggerJob(w.project.value, id, w.pipeline.value)];
              Outcome(s, if w.trigger.Some? then Some(Wrap("failed to trigger manual job", w.trigger.value)) else None)
  }

  /** The CI chain after the pushes (actions/up/up.go:168-248,
      ship.go:145-225). The workflow starts with an empty username and
      password, so a keyring miss always prompts. */
  function TokenSpec(c: Ctx, ks: KeyState): Report
  {
    var domain := c.o.gitlabDomain;
    var r := ResolveSpec(ks, domain, "", "", c.w.tty);
    if r.err.Some? then Report([GetCredentials(domain)], r.err, r.keys)
    else
      var s := [GetCredentials(domain), OAuth(domain, r.item.username, r.item.password)];
      if c.w.oauth.Err? then Report(s, Some(Wrap("failed to get OAuth token", c.w.oauth.error)), r.keys)
      else
        var s := if r.save then s + [SaveKeyring] else s;
        var keys := if r.save then SaveSpec(r.keys).1 else r.keys;
        var api := ApiSpec(c);
        Report(s + api.steps, api.err, keys)
  }

  /** The CI chain (actions/up/up.go:158-248, ship.go:135-225): push, then
      credentials, token and the API calls when a GitLab domain is set. */
  function CISpec(c: Ctx, ks: KeyState): Report
  {
    if c.w.pushBranch.Some? then Report([PushBranch], c.w.pushBranch, ks)
    else if c.w.pushCommits.Some? then Report([PushBranch, PushCommits], c.w.pushCommits, ks)
    else if c.o.gitlabDomain == "" then Report([PushBranch, PushCommits], Some(Fail(EmptyDomainText)), ks)
    else
      var t := TokenSpec(c, ks);
      Report([PushBranch, PushCommits] + t.steps, t.err, t.keys)
  }

  /** A whole run of `platform:up` (flavour `Up`) or `platform:ship`: the
      image shortcut (up only), else the commit and the build. */
  function RunSpec(c: Ctx, ks: KeyState): Report
  {
    if c.flavor == Up && c.o.img != "" then
      var r := Single(c, ImageDeploy);
      Report(r.steps, r.err, ks)
    else if c.w.commit.Some? then Report([Commit], Some(Wrap("commit error", c.w.commit.value)), ks)
    else
      var b := BuildSpec(c, ks);
      Report([Commit] + b.steps, b.err, b.keys)
  }

  /** What follows a successful commit: the bump unless skipped, then the
      local chain or the CI chain. */
  function BuildSpec(c: Ctx, ks: KeyState): Report
  {
    var b := RunChain(c, BumpPlan(c.o));
    if b.err.Some? then Report(b.steps, b.err, ks)
    else if c.o.local then
      var l := RunChain(c, LocalPlan(c.o));
      Report(b.steps + l.steps, l.err, ks)
    else
      var ci := CISpec(c, ks);
      Report(b.steps + ci.steps, ci.err, ci.keys)
  }

  /** Whether a trace holds no call of the given kind. */
  predicate NoCommit(steps: seq<Step>)
  {
    forall i :: 0 <= i < |steps| ==> !steps[i].Commit?
  }

  /** The steps of one sub-action call are all about that action. */
  lemma ActionSteps(reg: Registry, id: string, args: map<string, Param>,
                    opts: map<string, Param>, persistent: map<string, Param>)
    ensures var s := ActionSpec(reg, id, args, opts, persistent).steps;
      forall i :: 0 <= i < |s| ==>
        (s[i].Lookup? || s[i].Validate? || s[i].SetInput? || s[i].Decorate? || s[i].Execute?)
        && s[i].id == id
  {
  }

  /**
   * The image shortcut of `platform:up` (actions/up/up.go:72-86): with an
   * image set, only `platform:deploy` is invoked, with the environment and
   * tags as arguments and the image and debug flag as options; nothing is
   * committed, the keyring is untouched, and a failure is a "deploy error".
   */
  lemma ImageShortcut(c: Ctx, ks: KeyState)
    requires c.flavor == Up && c.o.img != ""
    ensures var r := RunSpec(c, ks);
      && Invoked(r.steps) == ["platform:deploy"]
      && NoCommit(r.steps)
      && r.keys == ks
      && ("platform:deploy" in c.w.registry.actions ==>
            r.steps[1] == Validate("platform:deploy",
              Input(map["environment" := Text(c.environment), "tags" := Text(c.tags)],
                    map["img" := Text(c.o.img), "debug" := Flag(c.o.debug)],
                    c.w.registry.persistentGroup, c.o.persistent)))
      && (r.err.Some? ==> r.err.value.Wrap? && r.err.value.context == "deploy error")
  {
    SingleContract(c, ImageDeploy);
    ActionContract(c.w.registry, "platform:deploy", ArgsOf(c, ImageDeploy), OptsOf(c, ImageDeploy), c.o.persistent);
    ActionSteps(c.w.registry, "platform:deploy", ArgsOf(c, ImageDeploy), OptsOf(c, ImageDeploy), c.o.persistent);
  }

  /**
   * Outside the image shortcut (and always for `platform:ship`, ship.go:60-78)
   * the commit comes first; its failure ends the run with a "commit error"
   * before any sub-action.
   */
  lemma CommitFirst(c: Ctx, ks: KeyState)
    requires c.flavor == Ship || c.o.img == ""
    ensures var r := RunSpec(c, ks);
      && |r.steps| >= 1 && r.steps[0] == Commit
      && (c.w.commit.Some? ==>
            r.steps == [Commit] && r.keys == ks
            && r.err == Some(Wrap("commit error", c.w.commit.value)))
  {
  }

  /**
   * After the commit, `component:bump` is invoked first exactly when the
   * bump is not skipped, and its failure ends the run before either build
   * path, tagged "bump error" (actions/up/up.go:103-114, ship.go:80-91).
   */
  lemma BumpFirst(c: Ctx, ks: KeyState)
    ensures var r := BuildSpec(c, ks);
      var b := RunChain(c, BumpPlan(c.o));
      && Invoked(b.steps) == (if c.o.skipBump then [] else ["component:bump"])
      && b.steps <= r.steps
      && (b.err.Some? ==>
            r.steps == b.steps && r.keys == ks
            && r.err.Some? && r.err.value.Wrap? && r.err.value.context == "bump error")
  {
    if !c.o.skipBump {
      ChainOne(c, Bump);
      SingleContract(c, Bump);
    }
  }

  /** Every CI run starts with the branch push, then the commit push. */
  lemma PushesFirst(c: Ctx, ks: KeyState)
    ensures var r := CISpec(c, ks);
      && |r.steps| >= 1 && r.steps[0] == PushBranch
      && (c.w.pushBranch.None? ==> |r.steps| >= 2 && r.steps[1] == PushCommits)
  {
  }

  /**
   * An empty GitLab domain, checked after both pushes, ends the CI chain
   * without touching the keyring or calling the CI API
   * (actions/up/up.go:162-174, ship.go:139-151).
   */
  lemma EmptyDomain(c: Ctx, ks: KeyState)
    requires c.w.pushBranch.None? && c.w.pushCommits.None? && c.o.gitlabDomain == ""
    ensures var r := CISpec(c, ks);
      r == Report([PushBranch, PushCommits], Some(Fail(EmptyDomainText)), ks)
  {
  }

  /**
   * The keyring is saved only for newly entered credentials and only once
   * the OAuth token was obtained; the save step sits right after the OAuth
   * call (actions/up/up.go:186-199, ship.go:163-176).
   */
  lemma SaveAfterToken(c: Ctx, ks: KeyState)
    ensures var r := TokenSpec(c, ks);
      var res := ResolveSpec(ks, c.o.gitlabDomain, "", "", c.w.tty);
      && (SaveKeyring in r.steps <==>
            res.err.None? && res.save && c.w.oauth.Ok?)
      && (SaveKeyring in r.steps ==>
            |r.steps| >= 3 && r.steps[1].OAuth? && r.steps[2] == SaveKeyring)
      && (r.keys.stored != ks.stored ==> SaveKeyring in r.steps)
  {
    var res := ResolveSpec(ks, c.o.gitlabDomain, "", "", c.w.tty);
    ResolveTable(ks, c.o.gitlabDomain, "", "", c.w.tty);
    ApiNoSave(c);
    var api := ApiSpec(c);
    if res.err.None? && c.w.oauth.Ok? {
      var s := [GetCredentials(c.o.gitlabDomain), OAuth(c.o.gitlabDomain, res.item.username, res.item.password)];
      if res.save {
        assert TokenSpec(c, ks).steps == s + [SaveKeyring] + api.steps;
        assert (s + [SaveKeyring] + api.steps)[2] == SaveKeyring;
      } else {
        assert TokenSpec(c, ks).steps == s + api.steps;
        assert SaveKeyring !in s;
      }
    }
  }

  /** The API calls never touch the keyring. */
  lemma ApiNoSave(c: Ctx)
    ensures SaveKeyring !in ApiSpec(c).steps
  {
  }

  /**
   * A failure to save the keyring is only logged: whatever the save does,
   * the steps taken and the error returned are the same.
   */
  lemma SaveErrorIgnored(c: Ctx, ks: KeyState, e: Option<Error>)
    ensures TokenSpec(c, ks.(saveFault := e)).steps == TokenSpec(c, ks).steps
    ensures TokenSpec(c, ks.(saveFault := e)).err == TokenSpec(c, ks).err
  {
  }

  /**
   * The manual job is triggered only for the first job, in list order, that
   * carries the target name; without one the chain ends with "no … job
   * found in pipeline" and nothing is triggered
   * (actions/up/up.go:231-247, ship.go:208-224).
   */
  lemma TriggerOnlyFound(c: Ctx)
    requires c.w.branch.Ok? && c.w.repo.Ok? && c.w.project.Ok? && c.w.pipeline.Ok? && c.w.jobs.Ok?
    ensures var r := ApiSpec(c);
      var jobs := c.w.jobs.value;
      && (TargetId(jobs, c.w.targetJob) == 0 ==>
            r.err == Some(Fail("no " + c.w.targetJob + " job found in pipeline"))
            && forall i :: 0 <= i < |r.steps| ==> !r.steps[i].TriggerJob?)
      && (TargetId(jobs, c.w.targetJob) != 0 ==>
            exists i :: 0 <= i < |jobs| && jobs[i].name == c.w.targetJob
              && (forall j :: 0 <= j < i ==> jobs[j].name != c.w.targetJob)
              && r.steps[|r.steps| - 1] == TriggerJob(c.w.project.value, jobs[i].id, c.w.pipeline.value))
  {
    var jobs := c.w.jobs.value;
    if TargetId(jobs, c.w.targetJob) != 0 {
      var i := FirstMatch(jobs, c.w.targetJob).value;
      assert jobs[i].name == c.w.targetJob;
    }
  }

  // ---------------------------------------------------------------------
  // The imperative workflow

  /** Builds a sub-action's input, setting each persistent flag in the
      persistent group (actions/up/up.go:258-262, ship.go:235-239). */
  method NewInput(args: map<string, Param>, opts: map<string, Param>, group: string,
                  persistent: map<string, Param>) returns (input: Input)
    ensures input.args == args && input.opts == opts && input.group == group
    ensures input.flags.Keys == persistent.Keys
    ensures forall k :: k in persistent ==> input.flags[k] == persistent[k]
  {
    input := Input(args, opts, group, map[]);
    var todo := persistent.Keys;
    while todo != {}
      invariant todo <= persistent.Keys
      invariant input.args == args && input.opts == opts && input.group == group
      invariant input.flags.Keys == persistent.Keys - todo
      invariant forall k :: k in input.flags ==> input.flags[k] == persistent[k]
      decreases todo
    {
      var k :| k in todo;
      input := input.(flags := input.flags[k := persistent[k]]);
      todo := todo - {k};
    }
  }

  class Workflow {
    const flavor: Flavor
    const oracles: Oracles
    const keyring: Keyring
    /** Every external call made so far. */
    var trace: seq<Step>

    constructor (f: Flavor, w: Oracles, k: Keyring)
      ensures flavor == f && oracles == w && keyring == k && trace == []
    {
      flavor, oracles, keyring := f, w, k;
      trace := [];
    }

    method ExecuteAction(id: string, args: map<string, Param>, opts: map<string, Param>,
                         persistent: map<string, Param>) returns (err: Option<Error>)
      modifies this`trace
      ensures var a := ActionSpec(oracles.registry, id, args, opts, persistent);
        trace == old(trace) + a.steps && err == a.err
    {
      var reg := oracles.registry;
      trace := trace + [Lookup(id)];
      if id !in reg.actions {
        return Some(Fail("action " + Quote(id) + " was not found"));
      }
      var b := reg.actions[id];
      var input := NewInput(args, opts, reg.persistentGroup, persistent);
      assert input.flags == persistent;
      trace := trace + [Validate(id, input)];
      ghost var s := [Lookup(id), Validate(id, input)];
      assert trace == old(trace) + s;
      if b.validate.Some? {
        return Some(Wrap("failed to validate input for action " + Quote(id), b.validate.value));
      }
      trace := trace + [SetInput(id)];
      AppendAssoc(old(trace), s, [SetInput(id)]);
      s := s + [SetInput(id)];
      if b.setInput.Some? {
        return Some(Wrap("failed to set input for action " + Quote(id), b.setInput.value));
      }
      trace := trace + [Decorate(id), Execute(id)];
      AppendAssoc(old(trace), s, [Decorate(id), Execute(id)]);
      if b.execute.Some? {
        return Some(Wrap("error executing action " + Quote(id), b.execute.value));
      }
      return None;
    }

    /** The context of a run of this workflow. */
    function Context(environment: string, tags: string, o: Options): Ctx
    {
      Ctx(flavor, oracles, environment, tags, o)
    }

    /** One stage, as the workflow writes each sub-action call inline:
        `executeAction`, its failure wrapped with the stage's text. */
    method Invoke(s: Stage, environment: string, tags: string, o: Options) returns (err: Option<Error>)
      modifies this`trace
      ensures var r := Single(Context(environment, tags, o), s);
        trace == old(trace) + r.steps && err == r.err
    {
      var c := Context(environment, tags, o);
      err := ExecuteAction(ActionOf(flavor, s), ArgsOf(c, s), OptsOf(c, s), o.persistent);
      if err.Some? {
        err := Some(Wrap(StageText(s), err.value));
      }
    }

    /** `Up.Run` (actions/up/up.go:66-250) and `shipAction.run` (ship.go:60-227). */
    method Run(environment: string, tags: string, o: Options) returns (err: Option<Error>)
      modifies this`trace, keyring
      ensures var r := RunSpec(Context(environment, tags, o), old(keyring.state));
        trace == old(trace) + r.steps && err == r.err && keyring.state == r.keys
    {
      if flavor == Up && o.img != "" {
        err := Invoke(ImageDeploy, environment, tags, o);
        return;
      }
      trace := trace + [Commit];
      if oracles.commit.Some? {
        return Some(Wrap("commit error", oracles.commit.value));
      }
      ghost var ks := keyring.state;
      err := Build(environment, tags, o);
      AppendAssoc(old(trace), [Commit], BuildSpec(Context(environment, tags, o), ks).steps);
    }

    /** The bump, then the local or the CI chain
        (actions/up/up.go:103-248, ship.go:80-225). */
    method Build(environment: string, tags: string, o: Options) returns (err: Option<Error>)
      modifies this`trace, keyring
      ensures var r := BuildSpec(Context(environment, tags, o), old(keyring.state));
        trace == old(trace) + r.steps && err == r.err && keyring.state == r.keys
    {
      ghost var c, t0 := Context(environment, tags, o), trace;
      err := RunBump(environment, tags, o);
      if err.Some? {
        return;
      }
      ghost var b := RunChain(c, BumpPlan(o));
      if o.local {
        err := RunLocal(environment, tags, o);
        AppendAssoc(t0, b.steps, RunChain(c, LocalPlan(o)).steps);
      } else {
        ghost var ks := keyring.state;
        err := RunCI(environment, tags, o);
        AppendAssoc(t0, b.steps, CISpec(c, ks).steps);
      }
    }

    /** `component:bump` unless skipped (actions/up/up.go:103-114, ship.go:80-91). */
    method RunBump(environment: string, tags: string, o: Options) returns (err: Option<Error>)
      modifies this`trace
      ensures var r := RunChain(Context(environment, tags, o), BumpPlan(o));
        trace == old(trace) + r.steps && err == r.err
    {
      if !o.skipBump {
        ChainOne(Context(environment, tags, o), Bump);
        err := Invoke(Bump, environment, tags, o);
      } else {
        err := None;
      }
    }

    /** The local chain (actions/up/up.go:117-157, ship.go:94-134). */
    method RunLocal(environment: string, tags: string, o: Options) returns (err: Option<Error>)
      modifies this`trace
      ensures var r := RunChain(Context(environment, tags, o), LocalPlan(o));
        trace == old(trace) + r.steps && err == r.err
    {
      ghost var c := Context(environment, tags, o);
      LocalSplit(c);
      err := ComposeAndPrepare(environment, tags, o);
      if err.Some? {
        return;
      }
      err := SyncAndDeploy(environment, tags, o);
      AppendAssoc(old(trace), RunChain(c, [Compose] + PreparePlan(o)).steps, RunChain(c, [Sync, Deploy]).steps);
    }

    /** The first two stages of the local chain. */
    method ComposeAndPrepare(environment: string, tags: string, o: Options) returns (err: Option<Error>)
      modifies this`trace
      ensures var r := RunChain(Context(environment, tags, o), [Compose] + PreparePlan(o));
        trace == old(trace) + r.steps && err == r.err
    {
      ghost var c := Context(environment, tags, o);
      ChainAppend(c, [Compose], PreparePlan(o));
      ChainOne(c, Compose);
      err := Invoke(Compose, environment, tags, o);
      if err.Some? {
        return;
      }
      if !o.skipPrepare {
        ChainOne(c, Prepare);
        err := Invoke(Prepare, environment, tags, o);
      } else {
        assert trace == trace + [];
      }
    }

    /** The last two stages of the local chain. */
    method SyncAndDeploy(environment: string, tags: string, o: Options) returns (err: Option<Error>)
      modifies this`trace
      ensures var r := RunChain(Context(environment, tags, o), [Sync, Deploy]);
        trace == old(trace) + r.steps && err == r.err
    {
      ghost var c := Context(environment, tags, o);
      assert [Sync, Deploy] == [Sync] + [Deploy];
      ChainAppend(c, [Sync], [Deploy]);
      ChainOne(c, Sync);
      ChainOne(c, Deploy);
      err := Invoke(Sync, environment, tags, o);
      if err.Some? {
        return;
      }
      err := Invoke(Deploy, environment, tags, o);
    }

    /** The CI chain (actions/up/up.go:158-248, ship.go:135-225). */
    method RunCI(environment: string, tags: string, o: Options) returns (err: Option<Error>)
      modifies this`trace, keyring
      ensures var r := CISpec(Context(environment, tags, o), old(keyring.state));
        trace == old(trace) + r.steps && err == r.err && keyring.state == r.keys
    {
      trace := trace + [PushBranch];
      if oracles.pushBranch.Some? {
        return oracles.pushBranch;
      }
      trace := trace + [PushCommits];
      AppendAssoc(old(trace), [PushBranch], [PushCommits]);
      assert [PushBranch] + [PushCommits] == [PushBranch, PushCommits];
      if oracles.pushCommits.Some? {
        return oracles.pushCommits;
      }
      if o.gitlabDomain == "" {
        return Some(Fail(EmptyDomainText));
      }
      ghost var t, ks := trace, keyring.state;
      err := GetToken(environment, tags, o);
      AppendAssoc(old(trace), [PushBranch, PushCommits], TokenSpec(Context(environment, tags, o), ks).steps);
    }

    /** Credentials, OAuth token, deferred keyring save, then the API calls
        (actions/up/up.go:168-248, ship.go:145-225). */
    method GetToken(environment: string, tags: string, o: Options) returns (err: Option<Error>)
      modifies this`trace, keyring
      ensures var r := TokenSpec(Context(environment, tags, o), old(keyring.state));
        trace == old(trace) + r.steps && err == r.err && keyring.state == r.keys
    {
      var username, password := "", "";
      var domain := o.gitlabDomain;
      trace := trace + [GetCredentials(domain)];
      var item, save, e, _ := Resolve(keyring, domain, username, password, oracles.tty);
      if e.Some? {
        return e;
      }
      username, password := item.username, item.password;
      trace := trace + [OAuth(domain, username, password)];
      ghost var s := [GetCredentials(domain), OAuth(domain, username, password)];
      assert trace == old(trace) + s;
      if oracles.oauth.Err? {
        return Some(Wrap("failed to get OAuth token", oracles.oauth.error));
      }
      if save {
        trace := trace + [SaveKeyring];
        AppendAssoc(old(trace), s, [SaveKeyring]);
        s := s + [SaveKeyring];
        // A failure to save is only logged.
        var _ := keyring.Save();
      }
      err := CallApi(environment, tags, o);
      AppendAssoc(old(trace), s, ApiSpec(Context(environment, tags, o)).steps);
    }

    /** The CI API calls once the token is obtained. */
    method CallApi(environment: string, tags: string, o: Options) returns (err: Option<Error>)
      modifies this`trace
      ensures var r := ApiSpec(Context(environment, tags, o));
        trace == old(trace) + r.steps && err == r.err
    {
      var w := oracles;
      trace := trace + [BranchName];
      if w.branch.Err? {
        return Some(Wrap("failed to get branch name", w.branch.error));
      }
      trace := trace + [RepoName];
      if w.repo.Err? {
        return Some(Wrap("failed to get repo name", w.repo.error));
      }
      var repoName := w.repo.value;
      trace := trace + [ProjectId(repoName)];
      ghost var s := [BranchName, RepoName, ProjectId(repoName)];
      assert trace == old(trace) + s;
      if w.project.Err? {
        return Some(Wrap("failed to get ID of project " + Quote(repoName), w.project.error));
      }
      var projectID := w.project.value;
      var trigger := TriggerPipeline(projectID, w.branch.value, environment, tags, o.debug);
      trace := trace + [trigger];
      AppendAssoc(old(trace), s, [trigger]);
      s := s + [trigger];
      if w.pipeline.Err? {
        return Some(Wrap("failed to trigger pipeline", w.pipeline.error));
      }
      var pipelineID := w.pipeline.value;
      trace := trace + [ListJobs(projectID, pipelineID)];
      AppendAssoc(old(trace), s, [ListJobs(projectID, pipelineID)]);
      s := s + [ListJobs(projectID, pipelineID)];
      if w.jobs.Err? {
        return Some(Wrap("failed to retrieve jobs in pipeline", w.jobs.error));
      }
      var targetJobID := FindTargetJob(w.jobs.value, w.targetJob);
      if targetJobID == 0 {
        return Some(Fail("no " + w.targetJob + " job found in pipeline"));
      }
      trace := trace + [TriggerJob(projectID, targetJobID, pipelineID)];
      AppendAssoc(old(trace), s, [TriggerJob(projectID, targetJobID, pipelineID)]);
      if w.trigger.Some? {
        return Some(Wrap("failed to trigger manual job", w.trigger.value));
      }
      return None;
    }
  }
}
