/**
 * The Python deployment action that `platform:deploy` replaced
 * (action.deploy/action.py): the rewrite of `OTEL_RESOURCE_ATTRIBUTES`
 * with the deployment target as `env`, the inventory-cache gate, the
 * `ansible-playbook` argument list, the askpass script that echoes the
 * vault password, the rewrite of the runner's `ssh-add` command so that it
 * reads the passphrase from that script, and `str2bool`. The runner, the
 * environment helper and the YAML reader are oracles in `World`.
 */
module AnsibleBuild {
  import opened Common
  import Deploy

  const LogFile := "./deploy.log"
  const AskpassKey := "askpass.sh"
  const HostsFile := "ansible-online_net.cache"
  const Endpoint := "OTEL_EXPORTER_OTLP_ENDPOINT"
  const ResourceAttributes := "OTEL_RESOURCE_ATTRIBUTES"

  // ---------------------------------------------------------------------
  // OTEL resource attributes

  /** A Python dict of strings: its keys in insertion order and its
      entries. */
  datatype Attrs = Attrs(keys: seq<string>, values: map<string, string>)

  /** The keys list every entry once. */
  predicate Valid(d: Attrs)
  {
    Deploy.KeyOrder(d.keys, d.values)
  }

  /** `d[k] = v`: a new key goes last, an existing one keeps its place. */
  function Put(d: Attrs, k: string, v: string): (r: Attrs)
    ensures Valid(d) ==> Valid(r)
    ensures r.values == d.values[k := v]
  {
    Attrs(if k in d.values then d.keys else d.keys + [k], d.values[k := v])
  }

  /** The loop over the comma-separated items: those holding `=` are cut
      at the first one and stored. */
  function Collect(items: seq<string>): Attrs
    decreases |items|
  {
    if |items| == 0 then Attrs([], map[])
    else
      var d := Collect(items[..|items| - 1]);
      match SplitOnce(items[|items| - 1], "=")
      case None => d
      case Some((k, v)) => Put(d, k, v)
  }

  /** The attributes already in the environment, parsed. */
  function Existing(environ: map<string, string>): Attrs
  {
    var existing := if ResourceAttributes in environ then environ[ResourceAttributes] else "";
    if existing != "" then Collect(Split(existing, ",")) else Attrs([], map[])
  }

  /** `key=value` texts in key order, joined by commas. */
  function Render(d: Attrs): string
    requires Valid(d)
  {
    Join(Deploy.AttrTexts(d.keys, d.values), ",")
  }

  /** `_setup_otel_env` (action.py:35-52) on the process environment. */
  function OtelSpec(environ: map<string, string>, environment: string): map<string, string>
  {
    if Endpoint !in environ || environ[Endpoint] == "" then environ
    else
      CollectValid(Split(if ResourceAttributes in environ then environ[ResourceAttributes] else "", ","));
      environ[ResourceAttributes := Render(Put(Existing(environ), "env", environment))]
  }

  /** Every key collected is listed once, in the order of first appearance. */
  lemma {:induction false} CollectValid(items: seq<string>)
    ensures Valid(Collect(items))
    decreases |items|
  {
    if |items| > 0 {
      CollectValid(items[..|items| - 1]);
    }
  }

  /** The values agree with those the Go `buildEnvironment` parses: the
      last item for a key wins. */
  lemma {:induction false} CollectAgreesWithGo(items: seq<string>)
    ensures Collect(items).values == Deploy.ParseAttrs(items)
    decreases |items|
  {
    if |items| > 0 {
      CollectAgreesWithGo(items[..|items| - 1]);
    }
  }

  /** Reading one more item leaves the keys in place and at most adds the
      item's key, new, at the end: insertion order. */
  lemma CollectAppends(items: seq<string>, item: string)
    ensures var before := Collect(items); var after := Collect(items + [item]);
      after.keys == before.keys ||
      (SplitOnce(item, "=").Some? && SplitOnce(item, "=").value.0 !in before.values &&
       after.keys == before.keys + [SplitOnce(item, "=").value.0])
  {
    assert (items + [item])[..|items|] == items;
  }

  /**
   * The rewrite is skipped without an endpoint. Otherwise the attributes
   * are those already set, with the Go parser's values and in first
   * appearance order, and `env` holds the deployment target, in its old
   * place if it had one and last otherwise.
   */
  lemma OtelRewrite(environ: map<string, string>, environment: string)
    ensures Endpoint !in environ || environ[Endpoint] == "" ==> OtelSpec(environ, environment) == environ
    ensures Endpoint in environ && environ[Endpoint] != "" ==>
      var before := Existing(environ);
      var after := Put(before, "env", environment);
      Valid(after) &&
      OtelSpec(environ, environment) == environ[ResourceAttributes := Render(after)] &&
      after.values == before.values["env" := environment] &&
      after.keys == (if "env" in before.values then before.keys else before.keys + ["env"])
    ensures var existing := if ResourceAttributes in environ then environ[ResourceAttributes] else "";
      existing != "" ==> Existing(environ).values == Deploy.ParseAttrs(Split(existing, ","))
  {
    var existing := if ResourceAttributes in environ then environ[ResourceAttributes] else "";
    if Endpoint in environ && environ[Endpoint] != "" {
      OtelRewritten(environ, environment);
    }
    CollectAgreesWithGo(Split(existing, ","));
  }

  /** With an endpoint, the attributes are rewritten with `env` set. */
  lemma OtelRewritten(environ: map<string, string>, environment: string)
    requires Endpoint in environ && environ[Endpoint] != ""
    ensures var before := Existing(environ);
      var after := Put(before, "env", environment);
      Valid(after) &&
      OtelSpec(environ, environment) == environ[ResourceAttributes := Render(after)] &&
      after.values == before.values["env" := environment] &&
      after.keys == (if "env" in before.values then before.keys else before.keys + ["env"])
  {
    var before := Existing(environ);
    assert Valid(before) by {
      var existing := if ResourceAttributes in environ then environ[ResourceAttributes] else "";
      CollectValid(Split(existing, ","));
    }
    var after := Put(before, "env", environment);
    assert after.keys == (if "env" in before.values then before.keys else before.keys + ["env"]);
    assert OtelSpec(environ, environment) == environ[ResourceAttributes := Render(after)];
  }

  // ---------------------------------------------------------------------
  // The command line and the askpass rewrite

  /** The `ansible-playbook` arguments (action.py:72-76). */
  function CommandLine(tags: string, extraVars: string, debug: bool, check: bool): (r: seq<string>)
    ensures |r| == 5 + (if debug then 1 else 0) + (if check then 1 else 0)
    ensures r[..5] == ["platform/platform.yaml", "--tags", tags, "--extra-vars", extraVars]
    ensures debug <==> |r| > 5 && r[5] == "-vvv"
    ensures check <==> |r| > 5 && r[|r| - 1] == "--check"
  {
    ["platform/platform.yaml", "--tags", tags, "--extra-vars", extraVars]
    + (if debug then ["-vvv"] else [])
    + (if check then ["--check"] else [])
  }

  const Pattern := "EXIT && ssh-add"

  /** What each `ssh-add` of the runner's command becomes. */
  function AskpassCommand(script: string): string
  {
    "EXIT && SSH_ASKPASS_REQUIRE=force SSH_ASKPASS='" + script + "' ssh-add"
  }

  /** The rewrite of the runner's main command (action.py:108-117). */
  function Rewrite(command: string, script: string): string
  {
    if Contains(command, Pattern) then Replace(command, Pattern, AskpassCommand(script)) else command
  }

  /** A text that occurs is replaced: its replacement occurs afterwards. */
  lemma {:induction false} ReplacePresent(s: string, pat: string, rep: string)
    requires |pat| > 0 && Contains(s, pat)
    ensures Contains(Replace(s, pat, rep), rep)
    decreases |s|
  {
    if |s| < |pat| {
      var i := ContainsWitness(s, pat);
      assert false;
    } else if s[..|pat|] == pat {
      ContainsAt(Replace(s, pat, rep), rep, 0);
    } else {
      ReplacePresent(s[1..], pat, rep);
      var i := ContainsWitness(Replace(s[1..], pat, rep), rep);
      var r := Replace(s, pat, rep);
      assert r == [s[0]] + Replace(s[1..], pat, rep);
      assert r[i + 1..i + 1 + |rep|] == rep;
      ContainsAt(r, rep, i + 1);
    }
  }

  /**
   * The rewrite is a plain replacement of every occurrence: the guard only
   * decides whether a failure is printed. Without an occurrence the command
   * is unchanged; with one the askpass prefix appears in it.
   */
  lemma RewriteReplacesAll(command: string, script: string)
    ensures Rewrite(command, script) == Replace(command, Pattern, AskpassCommand(script))
    ensures !Contains(command, Pattern) ==> Rewrite(command, script) == command
    ensures Contains(command, Pattern) ==> Contains(Rewrite(command, script), AskpassCommand(script))
  {
    if Contains(command, Pattern) {
      ReplacePresent(command, Pattern, AskpassCommand(script));
    } else {
      ReplaceAbsent(command, Pattern, AskpassCommand(script));
    }
  }

  // ---------------------------------------------------------------------
  // Files

  /** A regular file: its mode bits and its text. */
  datatype FileEntry = FileEntry(mode: bv32, text: string)

  /** `stat.S_IEXEC`, the owner-execute bit. */
  const OwnerExecBit: bv32 := 0x40

  /** `st_mode | stat.S_IEXEC`: the owner-execute bit set, every other bit
      as it was. */
  function OwnerExec(mode: bv32): (r: bv32)
    ensures r & OwnerExecBit == OwnerExecBit
    ensures r & !OwnerExecBit == mode & !OwnerExecBit
  {
    mode | OwnerExecBit
  }

  /** The script's text: the password itself, quoted, on an `echo` line. */
  function AskpassText(password: string): string
  {
    "#!/bin/sh\n" + "echo \"" + password + "\"\n"
  }

  /** `open(path, 'w')`: the text replaced, the mode kept, or `createMode`
      for a new file. */
  function WriteText(files: map<string, FileEntry>, path: string, text: string, createMode: bv32): map<string, FileEntry>
  {
    files[path := FileEntry(if path in files then files[path].mode else createMode, text)]
  }

  /** `create_askpass_script` (action.py:54-61). */
  function AskpassSpec(files: map<string, FileEntry>, path: string, password: string, createMode: bv32): (r: map<string, FileEntry>)
    ensures path in r && r[path].text == AskpassText(password)
    ensures r[path].mode == OwnerExec(if path in files then files[path].mode else createMode)
    ensures forall p :: p != path ==> (p in r <==> p in files) && (p in files ==> r[p] == files[p])
  {
    var written := WriteText(files, path, AskpassText(password), createMode);
    written[path := written[path].(mode := OwnerExec(written[path].mode))]
  }

  /** `open(LOG_FILE, 'a+')` and the three writes. */
  function AppendLog(files: map<string, FileEntry>, text: string, createMode: bv32): map<string, FileEntry>
  {
    if LogFile in files then files[LogFile := files[LogFile].(text := files[LogFile].text + text)]
    else files[LogFile := FileEntry(createMode, text)]
  }

  /** `os.path.join(a, b)` for a relative `b`. */
  function PathJoin(a: string, b: string): string
  {
    if a == "" || HasSuffix(a, "/") then a + b else a + "/" + b
  }

  /** The inventory configuration that names the cache directory. */
  function ConfigPath(target: string): string
  {
    "library/inventories/platform_nodes/configuration/" + target + ".yaml"
  }

  // ---------------------------------------------------------------------
  // exec

  /**
   * What the environment answers: the cache path read from a configuration
   * file (None when opening, parsing or indexing it raises), the extra
   * variables, whether the SSH key could be read, the command the runner
   * builds from the arguments, its artifact directory, the vault password,
   * the mode a new file gets, and the run's output and exit code.
   */
  datatype World = World(
    cachePath: string -> Option<string>,
    extraVars: string,
    sshKeyOk: bool,
    command: seq<string> -> seq<string>,
    artifactDir: string,
    vaultPass: string,
    createMode: bv32,
    stdout: string,
    stderr: string,
    rc: int)

  /** How `exec` ends: `return 0`, `sys.exit(code)`, or the `IndexError`
      of a runner command shorter than four words. */
  datatype Exit = Returned(code: int) | Exited(code: int) | IndexError

  /** A run of the runner: the arguments and the command it ran. */
  datatype Invocation = Invocation(args: seq<string>, command: seq<string>)

  datatype Options = Options(target: string, tags: string, debug: bool, check: bool, logs: bool)

  /** The files and runs after `exec`, and how it ends (action.py:63-129). */
  function ExecSpec(files: map<string, FileEntry>, runs: seq<Invocation>, o: Options, w: World)
    : (map<string, FileEntry>, seq<Invocation>, Exit)
  {
    var cachePath := w.cachePath(ConfigPath(o.target));
    if cachePath.None? then (files, runs, Exited(1))
    else if PathJoin(cachePath.value, HostsFile) !in files then (files, runs, Returned(0))
    else if !w.sshKeyOk then (files, runs, Exited(1))
    else
      var args := CommandLine(o.tags, w.extraVars, o.debug, o.check);
      var script := w.artifactDir + "/" + AskpassKey;
      var files1 := AskpassSpec(files, script, w.vaultPass, w.createMode);
      var command := w.command(args);
      if |command| < 4 then (files1, runs, IndexError)
      else
        var run := Invocation(args, command[3 := Rewrite(command[3], script)]);
        var info := "Building " + o.tags + "...";
        var files2 := if o.logs then AppendLog(files1, info + "\n" + w.stdout + w.stderr, w.createMode) else files1;
        (files2, runs + [run], Exited(w.rc))
  }

  /**
   * Without the inventory cache nothing runs and nothing is written: an
   * unreadable configuration exits 1, a missing cache file returns 0.
   */
  lemma CacheGate(files: map<string, FileEntry>, runs: seq<Invocation>, o: Options, w: World)
    ensures w.cachePath(ConfigPath(o.target)).None? ==> ExecSpec(files, runs, o, w) == (files, runs, Exited(1))
    ensures var c := w.cachePath(ConfigPath(o.target));
      c.Some? && PathJoin(c.value, HostsFile) !in files ==> ExecSpec(files, runs, o, w) == (files, runs, Returned(0))
  {
  }

  /**
   * A run happens at most once, only past the cache gate, with the built
   * arguments and the runner's command whose `ssh-add` reads the script;
   * the script then holds the password and is executable by its owner, and
   * the exit code is the run's.
   */
  lemma RunOnce(files: map<string, FileEntry>, runs: seq<Invocation>, o: Options, w: World,
                files': map<string, FileEntry>, runs': seq<Invocation>, exit: Exit)
    requires (files', runs', exit) == ExecSpec(files, runs, o, w)
    ensures runs' == runs || (|runs'| == |runs| + 1 && runs'[..|runs|] == runs && exit == Exited(w.rc))
    ensures runs' != runs ==>
      var c := w.cachePath(ConfigPath(o.target));
      c.Some? && PathJoin(c.value, HostsFile) in files && w.sshKeyOk
    ensures runs' != runs ==>
      var script := w.artifactDir + "/" + AskpassKey;
      var args := CommandLine(o.tags, w.extraVars, o.debug, o.check);
      runs'[|runs|] == Invocation(args, w.command(args)[3 := Replace(w.command(args)[3], Pattern, AskpassCommand(script))]) &&
      script in files' && Contains(files'[script].text, w.vaultPass) && files'[script].mode & OwnerExecBit == OwnerExecBit
  {
    if runs' != runs {
      var script := w.artifactDir + "/" + AskpassKey;
      var args := CommandLine(o.tags, w.extraVars, o.debug, o.check);
      RewriteReplacesAll(w.command(args)[3], script);
      PasswordInScript(w.vaultPass);
      assert script[|script| - 1] != LogFile[|LogFile| - 1];
    }
  }

  /** The password appears literally in the script. */
  lemma PasswordInScript(password: string)
    ensures Contains(AskpassText(password), password)
  {
    var text := AskpassText(password);
    assert text[16..16 + |password|] == password;
    ContainsAt(text, password, 16);
  }

  // ---------------------------------------------------------------------
  // str2bool

  /** `str2bool` (action.py:147-148). */
  function Str2Bool(v: string): bool
  {
    Lower(v) in ["true", "1"]
  }

  /** True exactly for "1" and for "true" in any letter case. */
  lemma Str2BoolCases(v: string)
    ensures Str2Bool(v) <==> v == "1" || Lower(v) == "true"
  {
    if Lower(v) == "1" {
      assert v[0] == '1';
      assert v == "1";
    }
  }

  // ---------------------------------------------------------------------
  // The action as it runs

  class BuildAction {
    const target: string
    const tags: string
    const debug: bool
    const check: bool
    const logs: bool
    /** The process environment, the files and the runs so far. */
    var environ: map<string, string>
    var files: map<string, FileEntry>
    var runs: seq<Invocation>

    /** `__init__` (action.py:17-25), from the process environment and
        file system it starts in; `_init_env` is not part of this model. */
    constructor (environment: string, tags: string, debug: bool, check: bool, logs: bool,
                 environ: map<string, string>, files: map<string, FileEntry>)
      ensures this.target == environment && this.tags == tags && this.debug == debug
      ensures this.check == check && this.logs == logs
      ensures this.environ == OtelSpec(environ, environment) && this.files == files && this.runs == []
    {
      this.target := environment;
      this.tags := tags;
      this.debug := debug;
      this.check := check;
      this.logs := logs;
      this.environ := environ;
      this.files := files;
      this.runs := [];
      new;
      SetupOtel(environment);
    }

    /** `_setup_otel_env` (action.py:35-52). */
    method SetupOtel(environment: string)
      modifies this
      ensures environ == OtelSpec(old(environ), environment)
      ensures files == old(files) && runs == old(runs)
    {
      if Endpoint !in environ || environ[Endpoint] == "" {
        return;
      }
      var existing := if ResourceAttributes in environ then environ[ResourceAttributes] else "";
      var attrs := Attrs([], map[]);
      if existing != "" {
        var items := Split(existing, ",");
        var i := 0;
        while i < |items|
          invariant 0 <= i <= |items|
          invariant attrs == Collect(items[..i])
        {
          assert items[..i + 1][..i] == items[..i];
          // `'=' in attr` holds exactly when the cut at the first `=` exists.
          var cut := SplitOnce(items[i], "=");
          if cut.Some? {
            attrs := Put(attrs, cut.value.0, cut.value.1);
          }
          i := i + 1;
        }
        assert items[..i] == items;
      }
      CollectValid(Split(existing, ","));
      attrs := Put(attrs, "env", environment);
      environ := environ[ResourceAttributes := Render(attrs)];
    }

    /** `create_askpass_script` (action.py:54-61). */
    method CreateAskpassScript(path: string, password: string, createMode: bv32)
      modifies this
      ensures files == AskpassSpec(old(files), path, password, createMode)
      ensures environ == old(environ) && runs == old(runs)
    {
      files := WriteText(files, path, AskpassText(password), createMode);
      var st := files[path].mode;
      files := files[path := files[path].(mode := OwnerExec(st))];
    }

    /** `exec` (action.py:63-129). */
    method Exec(w: World) returns (exit: Exit)
      modifies this
      ensures (files, runs, exit) == ExecSpec(old(files), old(runs), Options(target, tags, debug, check, logs), w)
      ensures environ == old(environ)
    {
      var info := "Building " + tags + "...";
      var cachePath := w.cachePath(ConfigPath(target));
      if cachePath.None? {
        return Exited(1);
      }
      if PathJoin(cachePath.value, HostsFile) !in files {
        return Returned(0);
      }
      var args := ["platform/platform.yaml", "--tags", tags, "--extra-vars", w.extraVars];
      if debug {
        args := args + ["-vvv"];
      }
      if check {
        args := args + ["--check"];
      }
      assert args == CommandLine(tags, w.extraVars, debug, check);
      if !w.sshKeyOk {
        return Exited(1);
      }
      var command := w.command(args);
      var script := w.artifactDir + "/" + AskpassKey;
      CreateAskpassScript(script, w.vaultPass, w.createMode);
      if |command| < 4 {
        return IndexError;
      }
      var mainCmd := command[3];
      if Contains(mainCmd, Pattern) {
        mainCmd := Replace(mainCmd, Pattern, AskpassCommand(script));
      }
      command := command[3 := mainCmd];
      runs := runs + [Invocation(args, command)];
      if logs {
        files := AppendLog(files, info + "\n" + w.stdout + w.stderr, w.createMode);
      }
      return Exited(w.rc);
    }
  }
}
