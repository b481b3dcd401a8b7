/**
 * The `platform:deploy` action (actions/deploy/deploy.go, and its twin
 * deploy.go with the same lines): unpack a Platform Image if one is given,
 * enter the working directory, check the inventory cache, and run
 * `ansible-playbook` with an askpass script that echoes the vault password
 * from the environment.
 */
module Deploy {
  import opened Common
  import opened Paths
  import opened FileTree
  import opened Tar

  /** The action's flags. */
  datatype Options = Options(environment: string, tags: string, img: string, debug: bool,
                             check: bool, password: string, logs: bool, prepareDir: string)

  /** How the `ansible-playbook` process ended. */
  datatype RunOutcome = Completed | Exited(code: int) | NotStarted(e: Error)

  /**
   * What the calls outside the model answer, fixed in advance: the working
   * directory lookup, the image file, emptying and creating `.deploy`, the
   * archive stream, `chdir`, the
   * inventory files (each configuration file that reads and parses, with its
   * `cache_path`), the paths `Stat` reports missing, the inherited
   * environment, the temporary file, the log file and the subprocess.
   */
  datatype World = World(
    getwdFault: Option<Error>,
    imageMissing: bool,
    removeFault: Option<Error>,
    mkdirFault: Option<Error>,
    openFault: Option<Error>,
    gzipFault: Option<Error>,
    stream: Stream,
    chdirFault: Option<Error>,
    inventories: map<string, string>,
    missing: set<string>,
    environ: seq<string>,
    tempName: string,
    createFault: Option<Error>,
    writeFault: Option<Error>,
    chmodFault: Option<Error>,
    logFault: Option<Error>,
    run: RunOutcome)

  /** A temporary file: its mode and text. */
  datatype Script = Script(mode: nat, text: string)

  /** One start of `ansible-playbook`: the directory it runs in, its
      arguments and environment, the askpass file as it is then, and whether
      output is copied to `deploy.log`. */
  datatype Invocation = Invocation(dir: string, args: seq<string>, env: seq<string>,
                                   askpass: Script, logged: bool)

  /** What the action changes: the tree below the original directory, the
      current directory, the temporary files and the processes started. */
  datatype Host = Host(fs: Tree, cwd: string, temp: map<string, Script>, runs: seq<Invocation>)

  const ExtractedName := ".deploy"
  const Extracted: Path := [".deploy"]
  const ExtractedMode: nat := 0x1ED
  const CreatedMode: nat := 0x180
  const ScriptMode: nat := 0x1C0
  const ScriptText := "#!/bin/sh\necho \"$PLASMA_VAULT_PASS\"\n"
  const NoWorkDirText := "no working directory specified (use --prepare-dir or --img)"
  const ConfigDefault := "ANSIBLE_CONFIG=./ansible.cfg"
  const CacheFile := "ansible-online_net.cache"

  // ---------------------------------------------------------------------
  // Specification functions

  /** A relative image path is taken from the original directory. */
  function ImagePath(originalDir: string, img: string): string
  {
    if IsAbs(img) then img else JoinPath(originalDir, img)
  }

  /** The directory `chdir(dir)` enters from `cwd`. */
  function ChdirTarget(cwd: string, dir: string): string
  {
    if IsAbs(dir) then Clean(dir) else JoinPath(cwd, dir)
  }

  /** `extractImage`: check the image, empty and recreate `.deploy`, open the
      stream, then unpack it. */
  function ExtractImageSpec(fs: Tree, originalDir: string, img: string, w: World): (Tree, Option<Error>)
  {
    if w.imageMissing then (fs, Some(Fail("platform image not found: " + ImagePath(originalDir, img))))
    else if w.removeFault.Some? then (fs, Some(Wrap("failed to clean extraction directory", w.removeFault.value)))
    else
      var cleared := RemoveAll(fs, Extracted);
      if w.mkdirFault.Some? then (cleared, Some(Wrap("failed to create extraction directory", w.mkdirFault.value)))
      else
        var made := cleared[Extracted := Dir(ExtractedMode)];
        if w.openFault.Some? then (made, Some(Wrap("failed to open platform image", w.openFault.value)))
        else if w.gzipFault.Some? then (made, Some(Wrap("failed to create gzip reader", w.gzipFault.value)))
        else ExtractStream(made, Extracted, w.stream)
  }

  function ConfigPath(environment: string): string
  {
    "library/inventories/platform_nodes/configuration/" + environment + ".yaml"
  }

  /** `cacheExists`: the per-environment configuration reads and parses, and
      `Stat` does not report its cache file missing. */
  predicate CacheExists(environment: string, w: World)
  {
    ConfigPath(environment) in w.inventories &&
    JoinPath(w.inventories[ConfigPath(environment)], CacheFile) !in w.missing
  }

  /** `buildAnsibleArgs`. */
  function AnsibleArgs(o: Options): (r: seq<string>)
    ensures |r| == 5 + (if o.debug then 1 else 0) + (if o.check then 1 else 0)
    ensures r[0] == "platform/platform.yaml" && r[1] == "--tags" && r[2] == o.tags
    ensures r[3] == "--extra-vars" && r[4] == "machine_target_config=" + o.environment
    ensures o.debug ==> r[5] == "-vvv"
    ensures o.check ==> r[|r| - 1] == "--check"
  {
    ["platform/platform.yaml", "--tags", o.tags, "--extra-vars", "machine_target_config=" + o.environment]
    + (if o.debug then ["-vvv"] else [])
    + (if o.check then ["--check"] else [])
  }

  /** `os.Getenv`: the value of the first entry for `key`, or empty. */
  function Getenv(environ: seq<string>, key: string): (r: string)
    ensures r != "" ==> exists i :: 0 <= i < |environ| && environ[i] == key + "=" + r
    decreases |environ|
  {
    if |environ| == 0 then ""
    else if HasPrefix(environ[0], key + "=") then
      assert environ[0] == key + "=" + environ[0][|key| + 1..];
      environ[0][|key| + 1..]
    else
      var r := Getenv(environ[1..], key);
      assert r != "" ==> forall i :: 1 <= i < |environ| ==> environ[i] == environ[1..][i - 1];
      r
  }

  predicate HasConfig(environ: seq<string>)
  {
    exists i :: 0 <= i < |environ| && HasPrefix(environ[i], "ANSIBLE_CONFIG=")
  }

  /** One `key=value` attribute added to the map; a text without `=` is
      dropped. */
  function AddAttr(m: map<string, string>, attr: string): map<string, string>
  {
    match SplitOnce(attr, "=")
    case None => m
    case Some((k, v)) => m[k := v]
  }

  /** The attributes parsed in order, later ones overriding earlier ones. */
  function ParseAttrs(items: seq<string>): map<string, string>
  {
    if |items| == 0 then map[] else AddAttr(ParseAttrs(items[..|items| - 1]), items[|items| - 1])
  }

  /** The attribute map after `env` is overridden. */
  function AttrMap(environ: seq<string>, environment: string): map<string, string>
  {
    var attrs := Getenv(environ, "OTEL_RESOURCE_ATTRIBUTES");
    (if attrs != "" then ParseAttrs(Split(attrs, ",")) else map[])["env" := environment]
  }

  /** `keys` lists the keys of `m` once each, in some order: the order a map
      iteration visits them. */
  predicate KeyOrder(keys: seq<string>, m: map<string, string>)
  {
    NoDuplicates(keys) && (forall k :: k in keys ==> k in m) && (forall k :: k in m ==> k in keys)
  }

  function AttrTexts(keys: seq<string>, m: map<string, string>): (r: seq<string>)
    requires forall k :: k in keys ==> k in m
    ensures |r| == |keys| && forall i :: 0 <= i < |keys| ==> r[i] == keys[i] + "=" + m[keys[i]]
  {
    if |keys| == 0 then [] else AttrTexts(keys[..|keys| - 1], m) + [keys[|keys| - 1] + "=" + m[keys[|keys| - 1]]]
  }

  /** `buildEnvironment`, with the attributes rejoined in the order `keys`. */
  function EnvSpec(environ: seq<string>, environment: string, keys: seq<string>): seq<string>
    requires KeyOrder(keys, AttrMap(environ, environment))
  {
    var env := if HasConfig(environ) then environ else environ + [ConfigDefault];
    if Getenv(environ, "OTEL_EXPORTER_OTLP_ENDPOINT") == "" then env
    else env + ["OTEL_RESOURCE_ATTRIBUTES=" + Join(AttrTexts(keys, AttrMap(environ, environment)), ","),
                "OTEL_EXPORTER_OTLP_TIMEOUT=30000",
                "OTEL_EXPORTER_OTLP_COMPRESSION=gzip"]
  }

  /** `createAskpassScript`: the temporary files afterwards and the script's
      name or the error; a half-made script is removed. */
  function AskpassSpec(temp: map<string, Script>, w: World): (map<string, Script>, Result<string>)
  {
    if w.createFault.Some? then (temp, Err(Wrap("failed to create askpass script", w.createFault.value)))
    else if w.writeFault.Some? then (temp - {w.tempName}, Err(Wrap("failed to write askpass script", w.writeFault.value)))
    else if w.chmodFault.Some? then (temp - {w.tempName}, Err(Wrap("failed to chmod askpass script", w.chmodFault.value)))
    else (temp[w.tempName := Script(ScriptMode, ScriptText)], Ok(w.tempName))
  }

  /** The child's environment: the built one, then the askpass entries. */
  function RunEnv(env: seq<string>, script: string, password: string): seq<string>
  {
    env + ["SSH_ASKPASS=" + script, "SSH_ASKPASS_REQUIRE=force",
           "ANSIBLE_VAULT_PASSWORD_FILE=" + script, "PLASMA_VAULT_PASS=" + password]
  }

  /** The error mapping of `runAnsiblePlaybook`. */
  function RunError(r: RunOutcome): Option<Error>
  {
    match r
    case Completed => None
    case Exited(code) => Some(Fail("ansible-playbook failed with exit code " + IntToString(code)))
    case NotStarted(e) => Some(Wrap("failed to run ansible-playbook", e))
  }

  /** `runAnsiblePlaybook`, started in `dir` with the askpass file `script`. */
  function RunSpec(h: Host, args: seq<string>, env: seq<string>, script: string, o: Options, w: World): (Host, Option<Error>)
    requires script in h.temp
  {
    if o.logs && w.logFault.Some? then (h, Some(Wrap("failed to create log file", w.logFault.value)))
    else
      var call := Invocation(h.cwd, args, RunEnv(env, script, o.password), h.temp[script], o.logs);
      (h.(runs := h.runs + [call]), RunError(w.run))
  }

  /** From the cache check to the end, inside the working directory; the
      askpass script is removed after the run. */
  function InDirSpec(h: Host, o: Options, w: World, env: seq<string>): (Host, Option<Error>)
  {
    if !CacheExists(o.environment, w) then (h, None)
    else
      var (temp1, made) := AskpassSpec(h.temp, w);
      if made.Err? then (h.(temp := temp1), Some(made.error))
      else
        var (h2, err) := RunSpec(h.(temp := temp1), AnsibleArgs(o), env, made.value, o, w);
        (h2.(temp := h2.temp - {made.value}), err)
  }

  /** From the choice of the working directory to the end; the original
      directory is entered again once the working directory was. */
  function WorkSpec(h: Host, workDir: string, o: Options, w: World, env: seq<string>): (Host, Option<Error>)
  {
    if workDir == "" then (h, Some(Fail(NoWorkDirText)))
    else if w.chdirFault.Some? then
      (h, Some(Wrap("failed to change to prepare directory " + workDir, w.chdirFault.value)))
    else
      var (h2, err) := InDirSpec(h.(cwd := ChdirTarget(h.cwd, workDir)), o, w, env);
      (h2.(cwd := h.cwd), err)
  }

  /** `Execute`, with `env` the environment `buildEnvironment` made. After a successful extraction `.deploy` is removed at the end. */
  function ExecuteSpec(h: Host, o: Options, w: World, env: seq<string>): (Host, Option<Error>)
  {
    if w.getwdFault.Some? then (h, Some(Wrap("failed to get current directory", w.getwdFault.value)))
    else if o.img == "" then WorkSpec(h, o.prepareDir, o, w, env)
    else
      var (fs1, err) := ExtractImageSpec(h.fs, h.cwd, o.img, w);
      if err.Some? then (h.(fs := fs1), err)
      else
        var (h2, err2) := WorkSpec(h.(fs := fs1), ExtractedName, o, w, env);
        (h2.(fs := RemoveAll(h2.fs, Extracted), cwd := h.cwd), err2)
  }

  // ---------------------------------------------------------------------
  // Properties of the specification

  /** The inherited entries are kept, in order; the default configuration
      entry is added exactly when none is inherited; the telemetry entries
      come last, and only with an endpoint. */
  lemma EnvShape(environ: seq<string>, environment: string, keys: seq<string>)
    requires KeyOrder(keys, AttrMap(environ, environment))
    ensures var env := EnvSpec(environ, environment, keys);
      var extra := env[|environ|..];
      && environ <= env
      && (ConfigDefault in extra <==> !HasConfig(environ))
      && (Getenv(environ, "OTEL_EXPORTER_OTLP_ENDPOINT") == "" ==> |extra| <= 1)
      && (Getenv(environ, "OTEL_EXPORTER_OTLP_ENDPOINT") != "" ==>
            |extra| >= 3 && extra[|extra| - 2..] == ["OTEL_EXPORTER_OTLP_TIMEOUT=30000", "OTEL_EXPORTER_OTLP_COMPRESSION=gzip"])
  {
    var env := EnvSpec(environ, environment, keys);
    var base := if HasConfig(environ) then environ else environ + [ConfigDefault];
    assert base[|environ|..] == if HasConfig(environ) then [] else [ConfigDefault];
    if Getenv(environ, "OTEL_EXPORTER_OTLP_ENDPOINT") != "" {
      var tail := ["OTEL_RESOURCE_ATTRIBUTES=" + Join(AttrTexts(keys, AttrMap(environ, environment)), ","),
                   "OTEL_EXPORTER_OTLP_TIMEOUT=30000", "OTEL_EXPORTER_OTLP_COMPRESSION=gzip"];
      assert env == base + tail;
      assert env[|environ|..] == base[|environ|..] + tail;
      assert ConfigDefault[0] == 'A' && tail[0][0] == 'O' && tail[1][0] == 'O' && tail[2][0] == 'O';
    }
  }

  /** An attribute's value is the one from its last occurrence. */
  lemma {:induction false} ParseAttrsLastWins(items: seq<string>, i: nat, k: string, v: string)
    requires i < |items| && SplitOnce(items[i], "=") == Some((k, v))
    requires forall j :: i < j < |items| ==> !Declares(items[j], k)
    ensures k in ParseAttrs(items) && ParseAttrs(items)[k] == v
    decreases |items|
  {
    var init := items[..|items| - 1];
    if i < |items| - 1 {
      assert init[i] == items[i];
      ParseAttrsLastWins(init, i, k, v);
    }
  }

  /** `item` is a `key=value` text for the key `k`. */
  predicate Declares(item: string, k: string)
  {
    SplitOnce(item, "=").Some? && SplitOnce(item, "=").value.0 == k
  }

  /** The keys are exactly those of the texts that hold a `=`. */
  lemma {:induction false} ParseAttrsKeys(items: seq<string>, k: string)
    ensures k in ParseAttrs(items) <==> exists i :: 0 <= i < |items| && Declares(items[i], k)
    decreases |items|
  {
    if |items| > 0 {
      var init := items[..|items| - 1];
      var last := items[|items| - 1];
      ParseAttrsKeys(init, k);
      assert ParseAttrs(items) == AddAttr(ParseAttrs(init), last);
      assert k in ParseAttrs(items) <==> k in ParseAttrs(init) || Declares(last, k);
      if k in ParseAttrs(init) {
        var i :| 0 <= i < |init| && Declares(init[i], k);
        assert items[i] == init[i];
      }
      if exists i :: 0 <= i < |items| && Declares(items[i], k) {
        var i :| 0 <= i < |items| && Declares(items[i], k);
        if i < |init| {
          assert init[i] == items[i];
        }
      }
    }
  }

  /** The rejoined attributes always carry `env=` with the deployment
      target, and keep every other attribute with its parsed value. */
  lemma EnvAttribute(environ: seq<string>, environment: string, keys: seq<string>)
    requires KeyOrder(keys, AttrMap(environ, environment))
    ensures "env=" + environment in AttrTexts(keys, AttrMap(environ, environment))
    ensures var attrs := Getenv(environ, "OTEL_RESOURCE_ATTRIBUTES");
      forall k :: k != "env" && attrs != "" && k in ParseAttrs(Split(attrs, ",")) ==>
        k + "=" + ParseAttrs(Split(attrs, ","))[k] in AttrTexts(keys, AttrMap(environ, environment))
  {
    var m := AttrMap(environ, environment);
    var texts := AttrTexts(keys, m);
    var i := FirstIndex(keys, "env");
    assert texts[i] == "env=" + environment;
    var attrs := Getenv(environ, "OTEL_RESOURCE_ATTRIBUTES");
    forall k | k != "env" && attrs != "" && k in ParseAttrs(Split(attrs, ","))
      ensures k + "=" + ParseAttrs(Split(attrs, ","))[k] in texts
    {
      var j := FirstIndex(keys, k);
      assert texts[j] == k + "=" + m[k];
    }
  }

  /** The current directory is the original one at the end, whatever happens. */
  lemma CwdRestored(h: Host, o: Options, w: World, env: seq<string>)
    ensures ExecuteSpec(h, o, w, env).0.cwd == h.cwd
  {
  }

  /** With neither an image nor a prepare directory nothing happens at all. */
  lemma NoWorkDir(h: Host, o: Options, w: World, env: seq<string>)
    requires w.getwdFault.None? && o.img == "" && o.prepareDir == ""
    ensures ExecuteSpec(h, o, w, env) == (h, Some(Fail(NoWorkDirText)))
  {
  }

  /** Without the inventory cache there is no askpass script and no run. */
  lemma CacheGate(h: Host, o: Options, w: World, env: seq<string>)
    requires !CacheExists(o.environment, w)
    ensures ExecuteSpec(h, o, w, env).0.runs == h.runs
    ensures ExecuteSpec(h, o, w, env).0.temp == h.temp
    ensures w.getwdFault.None? && o.img == "" && o.prepareDir != "" && w.chdirFault.None? ==>
      ExecuteSpec(h, o, w, env).1.None?
  {
  }

  /** What the action does with the temporary files and the processes,
      given the directory a run would start in. */
  predicate RunFacts(h: Host, r: Host, dir: string, o: Options, w: World, env: seq<string>)
  {
    && r.temp == h.temp
    && h.runs <= r.runs && |r.runs| <= |h.runs| + 1
    && (|r.runs| > |h.runs| ==>
          var run := r.runs[|h.runs|];
          && CacheExists(o.environment, w)
          && run.dir == dir
          && run.args == AnsibleArgs(o)
          && run.env == RunEnv(env, w.tempName, o.password)
          && run.askpass == Script(ScriptMode, ScriptText))
  }

  lemma InDirRun(h: Host, o: Options, w: World, env: seq<string>)
    requires w.tempName !in h.temp
    ensures RunFacts(h, InDirSpec(h, o, w, env).0, h.cwd, o, w, env)
  {
    if CacheExists(o.environment, w) {
      var (temp1, made) := AskpassSpec(h.temp, w);
      if made.Ok? {
        assert temp1 - {w.tempName} == h.temp;
      }
    }
  }

  lemma WorkRun(h: Host, workDir: string, o: Options, w: World, env: seq<string>)
    requires w.tempName !in h.temp
    ensures RunFacts(h, WorkSpec(h, workDir, o, w, env).0, ChdirTarget(h.cwd, workDir), o, w, env)
  {
    if workDir != "" && w.chdirFault.None? {
      InDirRun(h.(cwd := ChdirTarget(h.cwd, workDir)), o, w, env);
    }
  }

  /**
   * At most one run, and when there is one: after the cache check, in the
   * working directory (the extracted image over the prepare directory),
   * with the exact arguments, the built environment followed by the askpass
   * entries, and the askpass script as written: the fixed text, mode 0700.
   * The script is gone at the end, however the action ends.
   */
  lemma RunAndAskpass(h: Host, o: Options, w: World, env: seq<string>)
    requires w.tempName !in h.temp
    ensures RunFacts(h, ExecuteSpec(h, o, w, env).0,
                     ChdirTarget(h.cwd, if o.img != "" then ExtractedName else o.prepareDir), o, w, env)
  {
    if w.getwdFault.None? {
      if o.img == "" {
        WorkRun(h, o.prepareDir, o, w, env);
      } else {
        var (fs1, err) := ExtractImageSpec(h.fs, h.cwd, o.img, w);
        if err.None? {
          WorkRun(h.(fs := fs1), ExtractedName, o, w, env);
        }
      }
    }
  }

  /** Two outcomes that differ at most in what the processes were given. */
  predicate SameButRuns(a: (Host, Option<Error>), b: (Host, Option<Error>))
  {
    a.0.fs == b.0.fs && a.0.temp == b.0.temp && a.0.cwd == b.0.cwd && a.1 == b.1 && |a.0.runs| == |b.0.runs|
  }

  lemma InDirPassword(h: Host, o: Options, w: World, env: seq<string>, p: string)
    ensures SameButRuns(InDirSpec(h, o, w, env), InDirSpec(h, o.(password := p), w, env))
  {
    if CacheExists(o.environment, w) {
      var (temp1, made) := AskpassSpec(h.temp, w);
      if made.Ok? {
        RunPassword(h.(temp := temp1), AnsibleArgs(o), env, made.value, o, w, p);
      }
    }
  }

  lemma RunPassword(h: Host, args: seq<string>, env: seq<string>, script: string, o: Options, w: World, p: string)
    requires script in h.temp
    ensures var a := RunSpec(h, args, env, script, o, w);
      var b := RunSpec(h, args, env, script, o.(password := p), w);
      a.0.(runs := []) == b.0.(runs := []) && a.1 == b.1 && |a.0.runs| == |b.0.runs|
  {
  }

  /** The password reaches nothing but the child's environment: two runs that
      differ only in the password leave the same files, the same temporary
      files and the same error. */
  lemma WorkPassword(h: Host, workDir: string, o: Options, w: World, env: seq<string>, p: string)
    ensures SameButRuns(WorkSpec(h, workDir, o, w, env), WorkSpec(h, workDir, o.(password := p), w, env))
  {
    if workDir != "" && w.chdirFault.None? {
      InDirPassword(h.(cwd := ChdirTarget(h.cwd, workDir)), o, w, env, p);
    }
  }

  lemma PasswordOnlyInEnvironment(h: Host, o: Options, w: World, env: seq<string>, p: string)
    ensures SameButRuns(ExecuteSpec(h, o, w, env), ExecuteSpec(h, o.(password := p), w, env))
  {
    if w.getwdFault.None? {
      if o.img == "" {
        WorkPassword(h, o.prepareDir, o, w, env, p);
      } else {
        var (fs1, err) := ExtractImageSpec(h.fs, h.cwd, o.img, w);
        if err.None? {
          WorkPassword(h.(fs := fs1), ExtractedName, o, w, env, p);
        }
      }
    }
  }

  /** After a successful extraction `.deploy` is removed at the end; after a
      failed one (once `.deploy` exists) it is left behind. */
  lemma ExtractedCleanup(h: Host, o: Options, w: World, env: seq<string>)
    requires w.getwdFault.None? && o.img != ""
    ensures ExtractImageSpec(h.fs, h.cwd, o.img, w).1.None? ==>
      forall q :: q in ExecuteSpec(h, o, w, env).0.fs ==> !(Extracted <= q)
    ensures (ExtractImageSpec(h.fs, h.cwd, o.img, w).1.Some? && !w.imageMissing &&
             w.removeFault.None? && w.mkdirFault.None?) ==>
      Extracted in ExecuteSpec(h, o, w, env).0.fs && ExecuteSpec(h, o, w, env).0.fs[Extracted] == Dir(ExtractedMode)
  {
    var (fs1, err) := ExtractImageSpec(h.fs, h.cwd, o.img, w);
    if err.Some? && !w.imageMissing && w.removeFault.None? && w.mkdirFault.None? {
      var made := RemoveAll(h.fs, Extracted)[Extracted := Dir(ExtractedMode)];
      if w.openFault.None? && w.gzipFault.None? {
        ExtractPlaces(made, Extracted, w.stream.entries);
      }
    }
  }

  /** A successful extraction puts every entry of the image in place below
      `.deploy`. */
  lemma ExtractImagePlaces(fs: Tree, originalDir: string, img: string, w: World)
    requires ExtractImageSpec(fs, originalDir, img, w).1.None?
    ensures var t := ExtractImageSpec(fs, originalDir, img, w).0;
      && Extracted in t && t[Extracted] == Dir(ExtractedMode)
      && forall i :: 0 <= i < |w.stream.entries| ==> Placed(t, Extracted, w.stream.entries[i])
  {
    var made := RemoveAll(fs, Extracted)[Extracted := Dir(ExtractedMode)];
    ExtractPlaces(made, Extracted, w.stream.entries);
  }

  // ---------------------------------------------------------------------
  // The action

  /** Some visiting order of the keys of a map. */
  ghost function SomeOrder(m: map<string, string>): (keys: seq<string>)
    ensures KeyOrder(keys, m)
    decreases |m.Keys|
  {
    if |m.Keys| == 0 then []
    else
      var k :| k in m.Keys;
      var rest := SomeOrder(m - {k});
      rest + [k]
  }

  /** `buildAnsibleArgs`. */
  method BuildAnsibleArgs(o: Options) returns (args: seq<string>)
    ensures args == AnsibleArgs(o)
  {
    args := ["platform/platform.yaml", "--tags", o.tags, "--extra-vars", "machine_target_config=" + o.environment];
    if o.debug {
      args := args + ["-vvv"];
    }
    if o.check {
      args := args + ["--check"];
    }
  }

  /** The scan of `buildEnvironment` for an inherited `ANSIBLE_CONFIG=`. */
  method ScanForConfig(env: seq<string>) returns (found: bool)
    ensures found == HasConfig(env)
  {
    found := false;
    var i := 0;
    while i < |env|
      invariant 0 <= i <= |env|
      invariant !found ==> forall j :: 0 <= j < i ==> !HasPrefix(env[j], "ANSIBLE_CONFIG=")
      invariant found ==> HasConfig(env)
    {
      if HasPrefix(env[i], "ANSIBLE_CONFIG=") {
        found := true;
        break;
      }
      i := i + 1;
    }
  }

  /** The parse of `OTEL_RESOURCE_ATTRIBUTES` into a map. */
  method ParseAttributes(items: seq<string>) returns (m: map<string, string>)
    ensures m == ParseAttrs(items)
  {
    m := map[];
    var n := 0;
    while n < |items|
      invariant 0 <= n <= |items|
      invariant m == ParseAttrs(items[..n])
    {
      assert items[..n + 1][..n] == items[..n];
      m := AddAttr(m, items[n]);
      n := n + 1;
    }
    assert items[..n] == items;
  }

  /** The iteration over the attribute map, which visits the keys in an
      order the language leaves open; `keys` is the order it took. */
  method RejoinAttributes(m: map<string, string>) returns (attrs: seq<string>, ghost keys: seq<string>)
    ensures KeyOrder(keys, m)
    ensures attrs == AttrTexts(keys, m)
  {
    attrs := [];
    keys := [];
    var left := m.Keys;
    while left != {}
      invariant left <= m.Keys
      invariant forall k :: k in keys ==> k in m && k !in left
      invariant forall k :: k in m ==> k in keys || k in left
      invariant NoDuplicates(keys)
      invariant attrs == AttrTexts(keys, m)
      decreases |left|
    {
      var k :| k in left;
      attrs := attrs + [k + "=" + m[k]];
      keys := keys + [k];
      left := left - {k};
    }
  }

  /** `buildEnvironment`. */
  method BuildEnvironment(environ: seq<string>, environment: string)
    returns (env: seq<string>, ghost keys: seq<string>)
    ensures KeyOrder(keys, AttrMap(environ, environment))
    ensures env == EnvSpec(environ, environment, keys)
  {
    env := environ;
    var hasConfig := ScanForConfig(env);
    if !hasConfig {
      env := env + [ConfigDefault];
    }
    keys := SomeOrder(AttrMap(environ, environment));
    var endpoint := Getenv(environ, "OTEL_EXPORTER_OTLP_ENDPOINT");
    if endpoint != "" {
      var attrs := Getenv(environ, "OTEL_RESOURCE_ATTRIBUTES");
      var m: map<string, string> := map[];
      if attrs != "" {
        m := ParseAttributes(Split(attrs, ","));
      }
      m := m["env" := environment];
      var newAttrs;
      newAttrs, keys := RejoinAttributes(m);
      env := env + ["OTEL_RESOURCE_ATTRIBUTES=" + Join(newAttrs, ","),
                    "OTEL_EXPORTER_OTLP_TIMEOUT=30000",
                    "OTEL_EXPORTER_OTLP_COMPRESSION=gzip"];
    }
  }

  class DeployAction {
    const o: Options
    const w: World
    var fs: Tree
    var cwd: string
    var temp: map<string, Script>
    var runs: seq<Invocation>
    var originalDir: string
    var extractedDir: string

    function State(): Host
      reads this
    {
      Host(fs, cwd, temp, runs)
    }

    constructor (o: Options, w: World, fs: Tree, cwd: string, temp: map<string, Script>)
      ensures this.o == o && this.w == w
      ensures State() == Host(fs, cwd, temp, [])
      ensures originalDir == "" && extractedDir == ""
    {
      this.o := o;
      this.w := w;
      this.fs := fs;
      this.cwd := cwd;
      this.temp := temp;
      this.runs := [];
      this.originalDir := "";
      this.extractedDir := "";
    }

    /** `extractImage`, with the loop over the archive's entries. */
    method ExtractImage() returns (err: Option<Error>)
      modifies this
      ensures (fs, err) == ExtractImageSpec(old(fs), originalDir, o.img, w)
      ensures State() == old(State()).(fs := fs) && originalDir == old(originalDir)
      ensures extractedDir == if w.imageMissing then old(extractedDir) else ExtractedName
    {
      if w.imageMissing {
        return Some(Fail("platform image not found: " + ImagePath(originalDir, o.img)));
      }
      extractedDir := ExtractedName;
      if w.removeFault.Some? {
        return Some(Wrap("failed to clean extraction directory", w.removeFault.value));
      }
      fs := RemoveAll(fs, Extracted);
      if w.mkdirFault.Some? {
        return Some(Wrap("failed to create extraction directory", w.mkdirFault.value));
      }
      // `.deploy` was just removed, so MkdirAll creates it afresh.
      fs := fs[Extracted := Dir(ExtractedMode)];
      var made := fs;
      if w.openFault.Some? {
        return Some(Wrap("failed to open platform image", w.openFault.value));
      }
      if w.gzipFault.Some? {
        return Some(Wrap("failed to create gzip reader", w.gzipFault.value));
      }
      var entries := w.stream.entries;
      var t := fs;
      var i := 0;
      while i < |entries|
        invariant 0 <= i <= |entries|
        invariant ExtractSpec(made, Extracted, entries) == ExtractSpec(t, Extracted, entries[i..])
      {
        var e := entries[i];
        var target := Target(Extracted, e);
        var step: Option<Error> := None;
        match e.kind {
          case Directory =>
            var r := MkdirAll(t, target, e.mode);
            if r.Err? {
              step := Some(Wrap("failed to create directory", r.error));
            } else {
              t := r.value;
            }
          case Regular =>
            var r := MkdirAll(t, Parent(target), ParentMode);
            if r.Err? {
              step := Some(Wrap("failed to create parent directory", r.error));
            } else {
              t := r.value;
              var f := WriteFile(t, target, e.mode, e.data);
              if f.Err? {
                step := Some(Wrap("failed to create file", f.error));
              } else {
                t := f.value;
                if e.fault.Some? {
                  step := Some(Wrap("failed to write file", e.fault.value));
                }
              }
            }
          case SymbolicLink =>
            var r := MakeSymlink(t, e.linkname, target);
            if r.Err? {
              step := Some(Wrap("failed to create symlink", r.error));
            } else {
              t := r.value;
            }
          case OtherKind(_) =>
        }
        if step.Some? {
          fs := t;
          return step;
        }
        assert entries[i..][1..] == entries[i + 1..];
        i := i + 1;
      }
      fs := t;
      if w.stream.tail.Some? {
        return Some(Wrap("failed to read tar", w.stream.tail.value));
      }
      return None;
    }

    /** `cleanup`: back to the original directory, then the extraction
        directory (a single segment, `.deploy`) removed. */
    method Cleanup()
      modifies this
      ensures State() == old(State()).(
        fs := if extractedDir != "" then RemoveAll(old(fs), [extractedDir]) else old(fs),
        cwd := if extractedDir != "" then originalDir else old(cwd))
      ensures originalDir == old(originalDir) && extractedDir == old(extractedDir)
    {
      if extractedDir != "" {
        cwd := originalDir;
        fs := RemoveAll(fs, [extractedDir]);
      }
    }

    /** `createAskpassScript`: create, write, make executable; undo on failure. */
    method CreateAskpassScript() returns (r: Result<string>)
      modifies this
      ensures (temp, r) == AskpassSpec(old(temp), w)
      ensures fs == old(fs) && cwd == old(cwd) && runs == old(runs)
      ensures originalDir == old(originalDir) && extractedDir == old(extractedDir)
    {
      if w.createFault.Some? {
        return Err(Wrap("failed to create askpass script", w.createFault.value));
      }
      var name := w.tempName;
      temp := temp[name := Script(CreatedMode, "")];
      if w.writeFault.Some? {
        assert temp - {name} == old(temp) - {name};
        temp := temp - {name};
        return Err(Wrap("failed to write askpass script", w.writeFault.value));
      }
      temp := temp[name := Script(CreatedMode, ScriptText)];
      if w.chmodFault.Some? {
        assert temp - {name} == old(temp) - {name};
        temp := temp - {name};
        return Err(Wrap("failed to chmod askpass script", w.chmodFault.value));
      }
      assert temp[name := Script(ScriptMode, ScriptText)] == old(temp)[name := Script(ScriptMode, ScriptText)];
      temp := temp[name := Script(ScriptMode, ScriptText)];
      return Ok(name);
    }

    /** `runAnsiblePlaybook`. */
    method RunAnsiblePlaybook(args: seq<string>, env: seq<string>, script: string) returns (err: Option<Error>)
      requires script in temp
      modifies this
      ensures (State(), err) == RunSpec(old(State()), args, env, script, o, w)
      ensures originalDir == old(originalDir) && extractedDir == old(extractedDir)
    {
      var childEnv := env + ["SSH_ASKPASS=" + script, "SSH_ASKPASS_REQUIRE=force",
                             "ANSIBLE_VAULT_PASSWORD_FILE=" + script, "PLASMA_VAULT_PASS=" + o.password];
      if o.logs && w.logFault.Some? {
        return Some(Wrap("failed to create log file", w.logFault.value));
      }
      runs := runs + [Invocation(cwd, args, childEnv, temp[script], o.logs)];
      match w.run {
        case Completed => err := None;
        case Exited(code) => err := Some(Fail("ansible-playbook failed with exit code " + IntToString(code)));
        case NotStarted(e) => err := Some(Wrap("failed to run ansible-playbook", e));
      }
    }

    /** From the cache check on, inside the working directory. */
    method DeployInWorkDir() returns (err: Option<Error>, ghost keys: seq<string>)
      modifies this
      ensures KeyOrder(keys, AttrMap(w.environ, o.environment))
      ensures (State(), err) == InDirSpec(old(State()), o, w, EnvSpec(w.environ, o.environment, keys))
      ensures originalDir == old(originalDir) && extractedDir == old(extractedDir)
    {
      if !CacheExists(o.environment, w) {
        return None, SomeOrder(AttrMap(w.environ, o.environment));
      }
      var args := BuildAnsibleArgs(o);
      var env;
      env, keys := BuildEnvironment(w.environ, o.environment);
      err := AskpassAndRun(args, env);
    }

    /** The askpass script, the run, and the removal of the script. */
    method AskpassAndRun(args: seq<string>, env: seq<string>) returns (err: Option<Error>)
      modifies this
      ensures var (temp1, made) := AskpassSpec(old(temp), w);
        if made.Err? then State() == old(State()).(temp := temp1) && err == Some(made.error)
        else
          var (h2, e) := RunSpec(old(State()).(temp := temp1), args, env, made.value, o, w);
          State() == h2.(temp := h2.temp - {made.value}) && err == e
      ensures originalDir == old(originalDir) && extractedDir == old(extractedDir)
    {
      var made := CreateAskpassScript();
      if made.Err? {
        return Some(made.error);
      }
      err := RunAnsiblePlaybook(args, env, made.value);
      temp := temp - {made.value};
    }

    /** From the choice of the working directory on: enter it, deploy, and
        enter the original directory again. */
    method EnterAndDeploy(workDir: string) returns (err: Option<Error>, ghost keys: seq<string>)
      modifies this
      ensures KeyOrder(keys, AttrMap(w.environ, o.environment))
      ensures (State(), err) == WorkSpec(old(State()), workDir, o, w, EnvSpec(w.environ, o.environment, keys))
      ensures originalDir == old(originalDir) && extractedDir == old(extractedDir)
    {
      keys := SomeOrder(AttrMap(w.environ, o.environment));
      if workDir == "" {
        return Some(Fail(NoWorkDirText)), keys;
      }
      if w.chdirFault.Some? {
        return Some(Wrap("failed to change to prepare directory " + workDir, w.chdirFault.value)), keys;
      }
      var back := cwd;
      cwd := ChdirTarget(cwd, workDir);
      err, keys := DeployInWorkDir();
      cwd := back;
    }

    /** `Execute`. */
    method Execute() returns (err: Option<Error>, ghost keys: seq<string>)
      requires extractedDir == ""
      modifies this
      ensures KeyOrder(keys, AttrMap(w.environ, o.environment))
      ensures (State(), err) == ExecuteSpec(old(State()), o, w, EnvSpec(w.environ, o.environment, keys))
    {
      keys := SomeOrder(AttrMap(w.environ, o.environment));
      if w.getwdFault.Some? {
        return Some(Wrap("failed to get current directory", w.getwdFault.value)), keys;
      }
      originalDir := cwd;
      var cleanup := false;
      if o.img != "" {
        var e := ExtractImage();
        if e.Some? {
          return e, keys;
        }
        cleanup := true;
      }
      var workDir := o.prepareDir;
      if extractedDir != "" {
        workDir := extractedDir;
      }
      err, keys := EnterAndDeploy(workDir);
      if cleanup {
        Cleanup();
      }
    }
  }
}
