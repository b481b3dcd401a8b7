# plasmactl-platform, modelled in Dafny

This project models the platform tooling of plasmactl-platform. The tooling takes a platform from its source to a running deployment. The model covers two sides of it.

The Go actions of the `plasmactl` plugin:

- **Workflow** models `platform:up` (actions/up/up.go) and its older twin `platform:ship` (ship.go). The workflow commits, bumps, and then runs either the local chain of sub-actions or the CI chain. Each call it makes is recorded in a trace.
- **Credentials** models the keyring lookup that the workflows and publishing share.
- **Deploy** models `platform:deploy` (actions/deploy/deploy.go and its twin deploy.go). **Tar** models how its extraction loop applies tar entries. **FileTree** and **Paths** model the file system and the Go path functions these actions use.
- **Image** models building a Platform Image: the repository name and version, the source directory, and the walk that writes tar headers.
- **Publish** models uploading the packaged source.
- **Validate** models `platform:validate`.
- **Create** models `platform:create`, including `confirmDestroy`. **Schema** models the `Platform` record and `NewPlatform`.
- **Config** models the key/value store behind `config:*`.

The Python side, which runs under Ansible:

- **AnsibleBuild** models the deployment action that `platform:deploy` replaced (action.deploy/action.py).
- **PlatformNodes** models the `platform_nodes` inventory plugin.
- **PlatformComponents** models the `platform_components` vars plugin.
- **MachineFilters** models the Jinja filters.
- **StateManagement** models the state-management module.
- **AutoTags** models the `auto_tags` callback.
- **ConfigLookup** models the dotted-key reader of the config module.

**Common** and **Values** hold shared vocabulary: Go's `strings` operations, Python's `str` operations, and Python values with the exceptions their operators raise. Their members model language and library behaviour, not the repository, so they have no rows in the table below.

Stateful code is modelled as classes whose methods are proved against specification functions. Examples are the keyring, the deploy and image workspaces, the inventory plugin, the vars plugin and the state creator. Git, the CI API, sub-actions, subprocesses, DNS, HTTP, YAML and terminals are all external. Each one is an oracle value passed in as a parameter (usually a `World` or `Oracles` record), so a proof covers every answer it could give.

## Model

| member | source | states |
|---|---|---|
| Workflow.ActionContract | actions/up/up.go:252-280 | A sub-action call looks the action up first; an unknown id fails with "action … was not found" and nothing else happens; a found one is validated, given its input and executed, each step only after the previous one succeeded; the call fails exactly when the lookup or one of those steps fails, and a failure of a found action carries the action's quoted id as context |
| Workflow.InvokedAction | actions/up/up.go:252-280 | Whatever the outcome, one sub-action call looks up exactly the one action it was asked for |
| Workflow.ActionSteps | actions/up/up.go:252-280 | Every step of a sub-action call concerns that action's own id |
| Workflow.NewInput | actions/up/up.go:258-262 | The sub-action input keeps the given arguments and options and holds exactly the persistent flags, each under its own name, in the persistent group |
| Workflow.Workflow.ExecuteAction | actions/up/up.go:252-280 | The executed steps are appended to the trace and the returned error is the one the sub-action call specification gives |
| Workflow.ThenAssoc | actions/up/up.go:66-250 | Sequencing two stages with stop-at-first-error is associative, so a chain can be split anywhere |
| Workflow.FirstFailing | actions/up/up.go:117-157 | The index of the first stage of a plan that fails: every earlier stage succeeds and, when inside the plan, the stage there fails |
| Workflow.SingleContract | actions/up/up.go:117-157 | One stage invokes exactly its own action and fails exactly when that action fails, with the action's error wrapped in the stage's text |
| Workflow.ChainHalts | actions/up/up.go:117-157 | Running a plan invokes the actions of the stages up to and including the first failing one and returns that stage's wrapped error; without a failing stage every action is invoked and no error is returned |
| Workflow.ChainAppend | actions/up/up.go:117-157 | Running the concatenation of two plans is running the first and, unless it failed, the second |
| Workflow.ChainOne | actions/up/up.go:117-157 | A one-stage plan behaves exactly as its stage |
| Workflow.LocalSplit | actions/up/up.go:117-157 | The local chain is compose-and-prepare followed, unless that failed, by sync-and-deploy |
| Workflow.LocalActions | actions/up/up.go:117-157 | The local chain's actions are compose, prepare unless skipped, component:sync and platform:deploy, in that order |
| Workflow.LocalOrder | actions/up/up.go:117-157 | The local chain invokes compose, prepare unless skipped, sync and deploy in that order up to the first failing one, whose stage-tagged error is returned; without a failure all of them run |
| Workflow.FirstMatch | actions/up/up.go:232-238 | The position of the first job carrying the name, with no earlier job carrying it, or none when no job carries it |
| Workflow.FirstMatchIs | actions/up/up.go:232-238 | A job carrying the name with no earlier job carrying it is the one the search finds |
| Workflow.FindTargetJob | actions/up/up.go:232-238 | The loop returns the id of the first job, in list order, with the target name, or 0 when there is none |
| Workflow.ImageShortcut | actions/up/up.go:72-86 | With an image set, platform:up invokes only platform:deploy, with the environment and tags as arguments and the image and debug flag as options; nothing is committed, the keyring is untouched and a failure is a "deploy error" |
| Workflow.CommitFirst | ship.go:60-78 | Outside the image shortcut the commit comes first, and a commit failure ends the run with a "commit error" before any sub-action and without touching the keyring |
| Workflow.BumpFirst | actions/up/up.go:103-114 | component:bump is invoked first exactly when the bump is not skipped, and its failure ends the run, as a "bump error", before either build path |
| Workflow.BuildSpec | actions/up/up.go:103-248 | Specification of what follows a successful commit: the bump unless skipped, then the local chain or the CI chain (properties in BumpFirst and the chain lemmas) |
| Workflow.PushesFirst | actions/up/up.go:161-169 | The CI path pushes the branch first and, when that succeeds, the commits next |
| Workflow.EmptyDomain | actions/up/up.go:162-174 | An empty GitLab domain, checked after both pushes, ends the CI path with its error, before the keyring or the CI API is touched |
| Workflow.SaveAfterToken | actions/up/up.go:186-199 | The keyring is saved exactly when the credentials were newly entered and the OAuth token was obtained, right after the OAuth call, and the stored keyring changes only through that save |
| Workflow.ApiNoSave | actions/up/up.go:201-248 | The CI API calls never save the keyring |
| Workflow.SaveErrorIgnored | actions/up/up.go:192-199 | A failure to save the keyring changes neither the steps taken nor the error returned |
| Workflow.TriggerOnlyFound | actions/up/up.go:231-247 | The manual job triggered is the first job, in list order, with the target name; without one the run ends with "no … job found in pipeline" and nothing is triggered |
| Workflow.Workflow.constructor | actions/up/up.go:45-53 | A new workflow starts with an empty trace over the given oracles and keyring |
| Workflow.Workflow.Invoke | actions/up/up.go:117-157 | One stage appends its steps to the trace and returns its wrapped error, as the stage specification gives |
| Workflow.Workflow.Run | actions/up/up.go:66-250 | platform:up and platform:ship append exactly the specified steps to the trace, leave the keyring in the specified state and return the specified error (properties in the lemmas above) |
| Workflow.Workflow.Build | actions/up/up.go:103-248 | The bump, then the local or the CI chain, as specified |
| Workflow.Workflow.RunBump | actions/up/up.go:103-114 | component:bump unless skipped, as specified |
| Workflow.Workflow.RunLocal | actions/up/up.go:117-157 | The local chain, as specified (order and halting in LocalOrder) |
| Workflow.Workflow.ComposeAndPrepare | actions/up/up.go:117-140 | Compose, then prepare unless skipped, as specified |
| Workflow.Workflow.SyncAndDeploy | actions/up/up.go:141-157 | Sync, then deploy, as specified |
| Workflow.Workflow.RunCI | actions/up/up.go:158-248 | The CI chain, as specified (order in PushesFirst, EmptyDomain, SaveAfterToken, TriggerOnlyFound) |
| Workflow.Workflow.GetToken | actions/up/up.go:168-248 | Credentials, OAuth token, the deferred keyring save and the API calls, as specified |
| Workflow.Workflow.CallApi | actions/up/up.go:201-248 | The CI API calls up to the job trigger, as specified |
| Credentials.ResolveTable | actions/up/up.go:282-315 | Credential lookup never writes the keyring file itself; a stored item is returned as is, without a prompt; on a miss the terminal is asked only when the username or password is empty, and the new item is added under the URL and flagged for saving exactly when nothing failed; the empty-passphrase error passes through while any other keyring fault becomes the fixed "malformed or wrong passphrase" message |
| Credentials.Resolve | actions/up/up.go:282-315 | The method returns the item, save flag, error and prompt flag, and leaves the keyring in the state, that the resolution specification gives (properties in ResolveTable) |
| Credentials.Keyring.constructor | actions/up/up.go:45-53 | A keyring starts in the given state |
| Credentials.Keyring.GetForURL | actions/up/up.go:283 | A lookup by URL reports the stored item, a miss or the keyring's fault, and changes nothing |
| Credentials.Keyring.AddItem | actions/up/up.go:306 | Adding an item stores it under its URL unless the keyring is faulty |
| Credentials.AddSpec | actions/up/up.go:306 | Specification of AddItem: the item is filed under its URL unless the keyring library refuses |
| Credentials.Keyring.Save | actions/up/up.go:192-199 | Saving writes the in-memory items to the stored file unless saving fails |
| Paths.Base | image.go:32 | The base of a path without slashes is the path itself |
| Paths.Ext | actions/validate/validate.go:101 | The extension is empty or the dot-led, slash-free suffix of the path |
| Paths.NameRoundTrip | actions/deploy/deploy.go:149 | The name an archive gives a node names that node again when joined to the extraction directory |
| Paths.UnderStays | actions/deploy/deploy.go:149 | An entry name without ".." stays inside the directory it is joined to |
| Paths.UnderEscapes | actions/deploy/deploy.go:149 | Joining does not check for traversal: a name starting with two ".." segments names a node outside the directory's parent |
| Publish.URLAccessible | ship.go:294-308 | The probe succeeds exactly when a response arrives with a 2xx status; the caller's code is overwritten only by an arriving response |
| Publish.Domain | publish.go:30-36 | The internal repository is used exactly when the probe of it succeeds, otherwise the public one |
| Publish.MissingArtifactFirst | publish.go:47-55 | A missing artifact fails publishing with the keyring untouched and only the probe sent |
| Publish.AcceptedStatuses | publish.go:73-106 | With credentials resolved, publishing succeeds exactly when authentication answers 200 and the upload answers 200 or 201, and it sends the probe, the authenticated HEAD and the PUT to the artifact URL |
| Publish.SaveOnlyAfterUpload | publish.go:110-117 | The keyring changes only after an accepted upload of newly entered credentials, and a failing save is not reported |
| Publish.NamesDistinguishCommits | publish.go:25 | Artifacts of one repository have the same name exactly when their short hashes are equal |
| Publish.Publisher.constructor | publish.go:65 | A new publisher has sent nothing |
| Publish.Publisher.CheckURL | ship.go:294-308 | The probe is sent and its outcome is the one URLAccessible gives |
| Publish.Publisher.Transfer | publish.go:73-117 | Authentication and upload send, store and fail as the transfer specification gives |
| Publish.Publisher.Publish | publish.go:16-120 | publishArtifact returns the error, leaves the keyring and sends the requests the publishing specification gives |
| Schema.NewPlatform | pkg/schema/platform.go:103-118 | The new platform has the given name, metal provider, DNS provider and domain, the private network 192.168.0.0/16, an empty chassis map and every other field empty |
| Schema.NewPlatformDeterminedByArguments | pkg/schema/platform.go:103-118 | Two new platforms are equal exactly when they are built from the same arguments |
| FileTree.MkdirAll | actions/deploy/deploy.go:153 | Creating a directory path keeps every node, adds only its missing ancestors as directories and ends with the path a directory, or fails with "not a directory" |
| FileTree.WriteFile | actions/deploy/deploy.go:160-167 | Opening for writing succeeds exactly when the parent is a directory and the path is no directory or link, then only that file changes, getting the data and keeping an existing file's mode |
| FileTree.MakeSymlink | actions/deploy/deploy.go:170 | A link is created exactly when its parent is a directory and nothing is at the path, which then holds the link; an existing path fails with "file exists" |
| FileTree.ReadFile | actions/deploy/deploy.go:193 | Reading succeeds exactly on a regular file and returns its content |
| FileTree.RemoveAll | actions/deploy/deploy.go:116 | Removing a path removes it and everything under it and keeps everything else |
| Tar.StableTrans | actions/deploy/deploy.go:140-174 | Extending the tree is transitive |
| Tar.PlacedStable | actions/deploy/deploy.go:140-174 | An extracted entry stays in place as the tree is extended |
| Tar.ApplyStable | actions/deploy/deploy.go:149-173 | One entry extends the tree and, without error, leaves its directory, file or link in place; a write fault is an error only on regular files |
| Tar.ExtractPlaces | actions/deploy/deploy.go:140-174 | Extraction extends the tree, and without error every entry is in place at the end |
| Tar.SymlinkTargetsFresh | actions/deploy/deploy.go:169-172 | A successful extraction puts each link where nothing was before |
| Tar.NoLinkOverwrite | actions/deploy/deploy.go:169-172 | In a successful extraction no link shares its target path with an earlier directory, file or link |
| Tar.MkdirAllWellFormed | actions/deploy/deploy.go:153 | Creating directories keeps every node under a directory |
| Tar.ApplyWellFormed | actions/deploy/deploy.go:149-173 | Applying an entry keeps every node under a directory |
| Tar.WriteWellFormed | actions/deploy/deploy.go:160 | Writing a file keeps every node under a directory |
| Tar.ExtractWellFormed | actions/deploy/deploy.go:140-174 | Extraction keeps every node under a directory |
| Validate.NodeCount | actions/validate/validate.go:96-105 | The node count is at most the number of entries |
| Validate.FailsOnlyOnMissingFields | actions/validate/validate.go:58-122 | Validation of a parsed platform fails exactly when the name or the metal provider is missing, with "validation failed", and only those two report a failure |
| Validate.LookupsNeverFail | actions/validate/validate.go:82-94 | The DNS and mail lookups never change whether validation fails |
| Validate.LookupGates | actions/validate/validate.go:82-94 | The MX check is reported exactly when DNS checks are not skipped and a domain is set, and the SPF check exactly when mail checks are not skipped and a domain is set |
| Validate.GitkeepRedundant | actions/validate/validate.go:101 | An entry counts as a node exactly when it is a file with extension .yaml, so the .gitkeep test never decides |
| Validate.NodeCountAppend | actions/validate/validate.go:99-105 | The count over two lists of entries is the sum of their counts |
| Validate.NodeCountZero | actions/validate/validate.go:109-113 | No nodes are counted exactly when no entry is a node file |
| Validate.AnyRecord | actions/validate/validate.go:150-158 | The loop finds a record exactly when some TXT record carries the marker (as prefix, or anywhere for DKIM) |
| Validate.ValidateMailAuth | actions/validate/validate.go:148-190 | The mail checks report the SPF, DMARC and DKIM lines as specified and never set the error flag |
| Validate.CountNodes | actions/validate/validate.go:96-105 | The loop counts the node files of the directory |
| Validate.Execute | actions/validate/validate.go:35-123 | Validation returns the error and the report the validation specification gives |
| Validate.ValidateSpec | actions/validate/validate.go:35-123 | Specification of validation: the error and the report lines (properties in FailsOnlyOnMissingFields, LookupsNeverFail, LookupGates) |
| Deploy.AnsibleArgs | actions/deploy/deploy.go:219-235 | The playbook arguments are platform/platform.yaml, the tags and the target configuration as an extra variable, then -vvv exactly with debug and --check, last, exactly with check |
| Deploy.BuildAnsibleArgs | actions/deploy/deploy.go:219-235 | The method builds exactly the argument list above |
| Deploy.Getenv | actions/deploy/deploy.go:254-257 | A non-empty environment value comes from an entry "key=value" of the process environment |
| Deploy.ScanForConfig | actions/deploy/deploy.go:242-248 | The scan reports whether some inherited entry sets ANSIBLE_CONFIG |
| Deploy.ParseAttrsLastWins | actions/deploy/deploy.go:260-266 | Each attribute keeps the value of its last "key=value" occurrence |
| Deploy.ParseAttrsKeys | actions/deploy/deploy.go:260-266 | The parsed attribute keys are exactly those of the items holding "=" |
| Deploy.ParseAttributes | actions/deploy/deploy.go:260-266 | The loop builds exactly the parsed attribute map |
| Deploy.AttrTexts | actions/deploy/deploy.go:269-272 | One "key=value" text per key, in the order visited |
| Deploy.RejoinAttributes | actions/deploy/deploy.go:269-272 | The map is rejoined as "key=value" texts in some order that visits each key once |
| Deploy.SomeOrder | actions/deploy/deploy.go:270 | Every map has an order visiting each key exactly once |
| Deploy.EnvShape | actions/deploy/deploy.go:238-279 | The built environment extends the inherited one; ANSIBLE_CONFIG=./ansible.cfg is added exactly when none is inherited; without a telemetry endpoint nothing else is added, with one the OTLP timeout and gzip compression entries come last |
| Deploy.EnvAttribute | actions/deploy/deploy.go:256-273 | The rejoined resource attributes always carry env set to the deployment target and keep every other parsed attribute with its value |
| Deploy.BuildEnvironment | actions/deploy/deploy.go:238-279 | The method builds the environment the specification gives for the order in which the attribute map was visited |
| Deploy.EnvSpec | actions/deploy/deploy.go:238-279 | Specification of buildEnvironment for a given order of the attribute keys (properties in EnvShape and EnvAttribute) |
| Deploy.CwdRestored | actions/deploy/deploy.go:48-101 | Whatever happens, platform:deploy ends in the directory it started in |
| Deploy.NoWorkDir | actions/deploy/deploy.go:63-70 | With neither an image nor a prepare directory it fails with "no working directory specified" and changes nothing |
| Deploy.CacheGate | actions/deploy/deploy.go:78-82 | Without the inventory cache there is no askpass script and no playbook run, and a deployment from a prepare directory then succeeds |
| Deploy.InDirRun | actions/deploy/deploy.go:78-100 | From the cache check on, at most one run happens, as RunFacts describes, and the temporary files are as before |
| Deploy.WorkRun | actions/deploy/deploy.go:72-100 | Entering the working directory and deploying runs at most once, in that directory |
| Deploy.RunAndAskpass | actions/deploy/deploy.go:48-101 | At most one playbook run, only after the cache check, in the working directory (the extracted image over the prepare directory), with the exact arguments, the built environment followed by the askpass entries, and an askpass script that only echoes the password variable; the script is gone afterwards |
| Deploy.RunPassword | actions/deploy/deploy.go:308-316 | The vault password affects only the run's environment, not the files, the directory or the error |
| Deploy.InDirPassword | actions/deploy/deploy.go:78-100 | The vault password affects only the run's environment |
| Deploy.WorkPassword | actions/deploy/deploy.go:72-100 | The vault password affects only the run's environment |
| Deploy.PasswordOnlyInEnvironment | actions/deploy/deploy.go:283-316 | The vault password is never written to a file: a different password gives the same files, temporary files, directory and error |
| Deploy.ExtractedCleanup | actions/deploy/deploy.go:55-61 | After a successful extraction .deploy is removed at the end; after an extraction that failed once .deploy existed, it is left behind |
| Deploy.ExtractImagePlaces | actions/deploy/deploy.go:104-178 | A successful extraction leaves .deploy a directory holding every entry of the image in place |
| Deploy.DeployAction.constructor | actions/deploy/deploy.go:20-35 | A deploy action starts from the given host state with no original or extraction directory |
| Deploy.DeployAction.ExtractImage | actions/deploy/deploy.go:104-178 | The extraction loop leaves the files and returns the error as the extraction specification gives, setting the extraction directory once the image was found |
| Deploy.DeployAction.Cleanup | actions/deploy/deploy.go:181-187 | With an extraction directory set, the action returns to the original directory and removes that directory; otherwise nothing changes |
| Deploy.DeployAction.CreateAskpassScript | actions/deploy/deploy.go:283-305 | The script is created, written and made executable, and removed again when a step fails, as the askpass specification gives; nothing else changes |
| Deploy.DeployAction.RunAnsiblePlaybook | actions/deploy/deploy.go:308-347 | The playbook runs with the askpass entries and the password appended to the environment, as the run specification gives |
| Deploy.DeployAction.DeployInWorkDir | actions/deploy/deploy.go:78-100 | The steps from the cache check on, as specified |
| Deploy.DeployAction.AskpassAndRun | actions/deploy/deploy.go:92-100 | The askpass script is made, the playbook runs and the script is removed afterwards; a failure to make the script ends the deployment |
| Deploy.DeployAction.EnterAndDeploy | actions/deploy/deploy.go:63-100 | Enter the working directory, deploy, and return to the original directory, as specified |
| Deploy.DeployAction.Execute | actions/deploy/deploy.go:48-101 | platform:deploy leaves the host and returns the error the deployment specification gives (properties in CwdRestored, RunAndAskpass, PasswordOnlyInEnvironment, ExtractedCleanup) |
| Image.FirstTag | image.go:47-54 | The short name of the first tag, in iteration order, that points at HEAD, or empty when none does |
| Image.FindTag | image.go:47-54 | The scan, stopping at the first match, finds exactly that tag name |
| Image.GetRepoInfo | image.go:19-65 | The repository name and version are those the repository-information specification gives: the base of the first remote URL without .git, and the tag on HEAD or else the first seven characters of its hash |
| Image.RepoNameOfGitUrl | image.go:31-33 | A remote URL ending in "/name.git" names the repository "name" |
| Image.LastOfSlashed | image.go:32 | The base of a path is the slash-free run after its last slash |
| Image.SourceDir | image.go:80-97 | The image is taken from the prepare output when platform:prepare exists and from the compose output otherwise, and fails exactly when that directory is missing |
| Image.NodeEntries | image.go:147-184 | The corrected archive holds a single header per walked node, named by its slash-separated relative path |
| Image.WrittenArchive | image.go:147-184 | The archive as the walk writes it, two headers for each link, the first under its relative path and the second with the real target (properties in WrittenPrefix and WrittenLinkFails) |
| Image.Archive | image.go:147-184 | The corrected archive, one header per walked node in walk order (properties in RoundTripPrefix and RoundTrip) |
| Image.WrittenPrefix | image.go:135-187 | The archive as written for a prefix of the walk is a prefix of the archive for the whole walk |
| Image.WrittenLinkFails | image.go:173-184 | Any archive as written that holds a symbolic link fails to extract: the second header for the link names a path the first already made |
| Image.ExtractAppend | actions/deploy/deploy.go:140-174 | Extracting two header sequences one after the other is extracting the first and, unless it failed, the second |
| Image.PrefixCancel | actions/deploy/deploy.go:149 | Placing paths below .deploy keeps distinct paths distinct and strictly below it |
| Image.ExpectedKeeps | actions/deploy/deploy.go:140-174 | The expected result keeps every existing node and changes none outside .deploy |
| Image.ExpectedOnly | actions/deploy/deploy.go:140-174 | The expected result adds nothing but walked nodes below .deploy |
| Image.ExpectedHas | actions/deploy/deploy.go:140-174 | Every walked node is placed below .deploy exactly as it is in the source |
| Image.ApplyNode | actions/deploy/deploy.go:151-173 | Extracting one header of the corrected archive, where its parent already exists and it does not, places the node as it is in the source |
| Image.RoundTripStep | actions/deploy/deploy.go:140-174 | The next node of a walk prefix lands where the expected result says |
| Image.WalkPrefixInit | image.go:135 | A prefix of a walk in parent-first order is one too |
| Image.RoundTripPrefix | actions/deploy/deploy.go:140-174 | The corrected archive of a walk prefix extracts without error to the expected result |
| Image.RoundTrip | image.go:135-187 | An image built from a source tree and extracted by platform:deploy into an empty .deploy succeeds, places every source node below .deploy as it was (kind, content, link target, and the mode stored in its header, no umask applied), keeps everything that existed and adds nothing else |
| Image.WalkOutcome | image.go:135-191 | The walk, writing the corrected single header per link, fails exactly when some visited file or link cannot be read; otherwise it writes the whole corrected archive |
| Image.WalkFailed | image.go:135-191 | Once the walk fails, it ends with that failure and what was written before it |
| Image.DeliverSpec | image.go:193-223 | When delivery succeeds, the image path holds the temporary archive's content and the temporary archive is gone |
| Image.ArchiveDelivered | image.go:113-226 | A successful createArchive leaves the whole corrected archive of the walked tree (one header per link) at the image path, no temporary archive, both directories created, and every other file as it was |
| Image.Workspace.constructor | image.go:113 | A workspace starts with the given directories and files |
| Image.Workspace.CreateArchive | image.go:113-226 | The method leaves the directories and files, and returns the error, that the corrected archive specification (one header per link) gives |
| Image.Workspace.Walk | image.go:135-191 | The walk loop leaves the directories alone, stores the corrected walked archive (one header per link) as the temporary file and returns the walk's error |
| Image.Workspace.Deliver | image.go:193-223 | Closing, copying and removing leave the files as the delivery specification gives |
| Image.Workspace.CreateImage | image.go:69-111 | createImage leaves the directories and files, and returns the error, that the image specification built on the corrected archive gives |
| Create.ProviderAPI | actions/create/create.go:61-80 | A keyring token template is set exactly for scaleway, hetzner and ovh, naming the provider's API token, and an API URI only for scaleway; every other provider gets no API settings |
| Create.ScaffoldPlatform | actions/create/create.go:58-80 | The scaffolded platform is the new platform with the given name, providers and domain, differing only in the provider's API defaults |
| Create.NextSteps | actions/create/create.go:111-126 | The next-step hints are numbered consecutively from 1, in the order of the hint actions |
| Create.WrittenNextSteps | actions/create/create.go:111-126 | The hints as the code prints them, the deploy hint always numbered 3 (properties in WrittenStepsRepeatThree) |
| Create.DnsLoginStep | actions/create/create.go:114-126 | A DNS-credentials hint appears exactly when the metal provider is not manual and the DNS provider is neither manual nor the metal provider; there are then four hints, otherwise three, and the deploy hint is always last |
| Create.WrittenStepsRepeatThree | actions/create/create.go:116-126 | The hints as written have the same actions in the same order as the corrected ones and agree with them exactly when no DNS hint is printed; with it the last two hints are both numbered 3 |
| Create.ExistingUntouched | actions/create/create.go:43-46 | When anything exists at inst/{name}, or the stat fails for another reason, creation fails with "already exists" and writes nothing |
| Create.MkdirAllSucceeds | actions/create/create.go:53-56 | Creating the nodes directory succeeds where nothing on its path is a file |
| Create.FreshDirs | actions/create/create.go:53-56 | Where inst/{name} does not exist, creating the nodes directory succeeds, keeps every existing node, makes inst/{name} and its nodes directory directories and leaves platform.yaml and .gitkeep absent |
| Create.FreshFiles | actions/create/create.go:82-95 | With the directories in place, writing succeeds exactly when encoding and both writes succeed, and then platform.yaml holds the encoded platform and .gitkeep is empty, both with mode 0644 |
| Create.BuildSpec | actions/create/create.go:43-95 | Specification of the scaffold: the existence guard, the directories and the two files (properties in ExistingUntouched, FreshDirs, FreshFiles) |
| Create.CreateSpec | actions/create/create.go:38-129 | Specification of platform:create: scaffold, DNS attempt and corrected hints (properties in FreshScaffold, ExistingUntouched, DnsNeverFails) |
| Create.FreshScaffold | actions/create/create.go:38-129 | On a tree where inst/{name} does not exist, creation fails only through the environment, and on success platform.yaml holds the encoded scaffold, .gitkeep is empty, the nodes directory exists and every earlier node is unchanged |
| Create.DnsNeverFails | actions/create/create.go:99-109 | Skipping DNS changes neither the error nor the files, and DNS configuration is attempted exactly after a successful scaffold when it is not skipped and the DNS provider is not manual |
| Create.Scaffold.constructor | actions/create/create.go:14-25 | A scaffold starts as the given file tree |
| Create.Scaffold.WriteFiles | actions/create/create.go:82-95 | The two file writes leave the tree and return the error as the file-writing specification gives |
| Create.Scaffold.Execute | actions/create/create.go:38-129 | platform:create leaves the tree and returns the error, DNS attempt and hints that the creation specification gives, with the hints numbered consecutively as corrected (properties in FreshScaffold, ExistingUntouched, DnsNeverFails) |
| Create.ConfirmDestroy | create.go:152-169 | A failed read fails with "failed to read input"; otherwise the answer is whether the line, trimmed of surrounding blanks, is the resource name |
| Create.ConfirmTypedName | create.go:152-169 | Typing the name, with blanks around it, and pressing return confirms; a name ending in a blank can never be confirmed |
| Config.ResolveConfigDir | config.go:62-79 | The configuration directory is the platform's own when a platform is named and that directory exists, otherwise the source tree's when that exists, otherwise the "config directory not found" error |
| Config.ResolveSame | config.go:62-79 | Resolution depends only on whether the two candidate directories exist |
| Config.ResolvesToSetDir | config.go:93-104 | Once the directory config:set falls back to exists, resolution picks it |
| Config.WriteKeepsDirs | config.go:131-133 | Writing a configuration file never creates or removes either configuration directory |
| Config.Assign | config.go:113-122 | Setting a key in the loaded document, an empty document counting as an empty map, gives the key the string value and keeps every other key with its value |
| Config.WrittenAssign | config.go:113-122 | As written, the assignment fails exactly when the file parses to an empty document (a nil map); otherwise it is the assignment above |
| Config.UpdateWrites | config.go:113-135 | A successful config:set update leaves the file holding the encoded assignment, written with file mode 0644 |
| Config.SetThenGet | config.go:27-60 | config:set followed by config:get of the same key in the same file gives the value set, whether or not the directory had to be created first |
| Config.GetSpec | config.go:27-60 | Specification of config:get: the value of the key in the chosen file, or why there is none (properties in SetThenGet, SetKeepsOthers) |
| Config.SetSpec | config.go:93-136 | Specification of config:set with an empty document read as an empty map (properties in SetThenGet, SetKeepsOthers, SetCreatesDirOnlyWhenUnresolved) |
| Config.WrittenSetSpec | config.go:93-136 | Specification of config:set as written, with the nil-map assignment failing (property in WrittenSetCrashesOnEmptyFile) |
| Config.SetKeepsOthers | config.go:93-136 | config:set keeps every other key: a key config:get found before is found with the same value afterwards |
| Config.SetCreatesDirOnlyWhenUnresolved | config.go:93-104 | When resolution succeeds, config:set changes or adds no node but the target file |
| Config.WrittenSetCrashesOnEmptyFile | config.go:113-122 | As written, config:set on an existing file that parses to an empty document crashes before writing; read as an empty map, it does not |
| Config.TagInjective | config.go:197-199 | Tagging vault keys with " (vault)" maps different keys to different names |
| Config.CollectedKeys | config.go:167-205 | config:list shows exactly the values whose keys start with the component filter, and with the vault flag the filtered vault entries under tagged names, a vault entry winning a clash |
| Config.ChooseEntries | config.go:181-186 | The loop keeps exactly the entries the component filter selects |
| Config.AddVaultEntries | config.go:195-200 | The loop adds each selected vault entry under its tagged name to what was collected |
| Config.ConfigTree.constructor | config.go:93 | A configuration tree starts as the given file tree |
| Config.ConfigTree.List | config.go:167-228 | config:list reports "no configuration", "no values" or the collected values as the listing specification gives, and changes nothing |
| Config.ConfigTree.Set | config.go:93-136 | config:set leaves the tree and returns the error that the corrected set specification gives, an existing empty document counting as an empty map (properties in SetThenGet, SetKeepsOthers, SetCreatesDirOnlyWhenUnresolved) |
| Config.ConfigTree.Validate | config.go:257-267 | config:validate always succeeds and changes nothing |
| Config.ConfigTree.Rotate | config.go:282-299 | config:rotate succeeds and changes nothing, whether or not it was confirmed |
| AnsibleBuild.Put | action.deploy/action.py:44-50 | Assigning a key in the attribute dict keeps the keys listed once in insertion order and sets the value |
| AnsibleBuild.CollectValid | action.deploy/action.py:39-45 | The collected attributes list each key once, in the order of first appearance |
| AnsibleBuild.CollectAgreesWithGo | action.deploy/action.py:39-45 | The collected values are those the Go deploy action parses: the last item for a key wins |
| AnsibleBuild.CollectAppends | action.deploy/action.py:42-45 | Reading one more item keeps the keys in place and at most adds the item's new key at the end |
| AnsibleBuild.OtelRewrite | action.deploy/action.py:35-52 | Without a telemetry endpoint the environment is untouched; with one, OTEL_RESOURCE_ATTRIBUTES is rewritten to the existing attributes, in first-appearance order with the last value winning, and env set to the deployment target (kept in place when present, appended when not) |
| AnsibleBuild.OtelSpec | action.deploy/action.py:35-52 | Specification of _setup_otel_env on the process environment (properties in OtelRewrite) |
| AnsibleBuild.CommandLine | action.deploy/action.py:72-76 | The playbook arguments are platform/platform.yaml, the tags and the extra variables, then -vvv exactly with debug and --check, last, exactly with check |
| AnsibleBuild.ReplacePresent | action.deploy/action.py:111-113 | A text that occurs is replaced: its replacement occurs afterwards |
| AnsibleBuild.RewriteReplacesAll | action.deploy/action.py:108-117 | The command is rewritten by replacing every "EXIT && ssh-add" with the askpass form; without one it is unchanged, with one the askpass form appears |
| AnsibleBuild.OwnerExec | action.deploy/action.py:60-61 | Adding execute permission sets the owner-execute bit and keeps every other bit |
| AnsibleBuild.AskpassSpec | action.deploy/action.py:54-61 | The script file holds the shell line and the echo of the password, its mode gains the owner-execute bit, and no other file changes |
| AnsibleBuild.PasswordInScript | action.deploy/action.py:57-58 | The password appears literally in the script |
| AnsibleBuild.CacheGate | action.deploy/action.py:63-70 | An unreadable inventory configuration exits with 1, a missing cache file returns 0, and in both cases nothing runs and nothing is written |
| AnsibleBuild.RunOnce | action.deploy/action.py:63-129 | The playbook runs at most once, only past the cache gate and the SSH key check, with the built arguments and the runner's command whose ssh-add reads the askpass script; the script then holds the vault password and is executable, and the exit code is the run's |
| AnsibleBuild.ExecSpec | action.deploy/action.py:63-129 | Specification of exec: the files, the runs and the exit (properties in CacheGate and RunOnce) |
| AnsibleBuild.Str2BoolCases | action.deploy/action.py:147-148 | str2bool is true exactly for "1" and for "true" in any letter case |
| AnsibleBuild.BuildAction.constructor | action.deploy/action.py:17-25 | A build action holds its options, starts with no runs and has its telemetry environment already rewritten |
| AnsibleBuild.BuildAction.SetupOtel | action.deploy/action.py:35-52 | The method sets the environment that the telemetry rewrite specification gives and changes nothing else |
| AnsibleBuild.BuildAction.CreateAskpassScript | action.deploy/action.py:54-61 | The method writes the script as the askpass specification gives and changes nothing else |
| AnsibleBuild.BuildAction.Exec | action.deploy/action.py:63-129 | exec leaves the files, runs and exit as the execution specification gives (properties in CacheGate and RunOnce) |
| MachineFilters.Unique | action.prepare/files/library/modules/machine_filters/machine_filters.py:147-152 | The loop keeps every item at its first occurrence, in order |
| MachineFilters.UniqueMembers | action.prepare/files/library/modules/machine_filters/machine_filters.py:147-152 | unique returns no repeats and exactly the items of its input |
| MachineFilters.UniqueOfDistinct | action.prepare/files/library/modules/machine_filters/machine_filters.py:147-152 | A list without repeats comes back unchanged |
| MachineFilters.UniqueIdempotent | action.prepare/files/library/modules/machine_filters/machine_filters.py:147-152 | unique applied twice is unique applied once |
| MachineFilters.UniqueOrder | action.prepare/files/library/modules/machine_filters/machine_filters.py:147-152 | unique keeps the items in the order of their first occurrences |
| MachineFilters.Dedup | action.prepare/files/library/modules/machine_filters/machine_filters.py:140-141 | Only lists are de-duplicated; every other value is kept as it is |
| MachineFilters.Merge | action.prepare/files/library/modules/machine_filters/machine_filters.py:132-144 | A merge that does not raise has the keys of both sides |
| MachineFilters.MergeDicts | action.prepare/files/library/modules/machine_filters/machine_filters.py:132-144 | merge_dicts returns the merge exactly when no shared key pairs a dict with a non-dict or a list with a non-list, and raises TypeError otherwise |
| MachineFilters.MergeScalars | action.prepare/files/library/modules/machine_filters/machine_filters.py:132-144 | Merging in values that are neither dicts nor lists cannot raise; the right side wins wherever it has the key and the left side's values are kept, de-duplicated, elsewhere |
| MachineFilters.MergeLists | action.prepare/files/library/modules/machine_filters/machine_filters.py:138-141 | A list under a key both sides have merges into the items of both, each once |
| MachineFilters.VersionOf | action.prepare/files/library/modules/machine_filters/machine_filters.py:31-36 | The recorded version is None when the registered command was skipped or produced no output, and otherwise its non-empty output |
| MachineFilters.RecordReadBack | action.prepare/files/library/modules/machine_filters/machine_filters.py:28-69 | Once machine_state has recorded a version for a tag, the tag exists iff a version was found, is to be built iff the version differs from the resource's mrv, counts as built iff it equals it (never for the "current" deployment), and every other tag's state is kept |
| MachineFilters.NoStateRaises | action.prepare/files/library/modules/machine_filters/machine_filters.py:40-69 | Without a recorded state machine_state returns None, and machine_exists, machine_build and machine_built raise TypeError on it |
| MachineFilters.Resource.constructor | action.prepare/files/library/modules/machine_filters/machine_filters.py:28 | A resource holds the given fields |
| MachineFilters.Resource.State | action.prepare/files/library/modules/machine_filters/machine_filters.py:28-48 | With a registered command result machine_state records the version and returns as the recording specification gives; without one it changes nothing and returns the tag's state |
| MachineFilters.LookupThrowsOn | action.prepare/files/library/modules/machine_filters/machine_filters.py:72-79 | An exception while resolving a prefix of the names is the lookup's exception |
| MachineFilters.DependenciesOfKind | action.prepare/files/library/modules/machine_filters/machine_filters.py:72-79 | The loops of machine_requires_lookup and machine_requiredby_lookup return what the lookup specification gives |
| MachineFilters.LookupMeaning | action.prepare/files/library/modules/machine_filters/machine_filters.py:72-79 | The lookup succeeds exactly when every name resolves to a host, and then returns only resources of the kind and every resolved resource of the kind |
| MachineFilters.RequiresOne | action.prepare/files/library/modules/machine_filters/machine_filters.py:82-86 | machine_requires_one raises exactly when the lookup does, returns None exactly when no resource of the kind is found, and otherwise the first dependency of that kind the lookup finds |
| MachineFilters.Stage | action.prepare/files/library/modules/machine_filters/machine_filters.py:124-125 | machine_stage gives the resource's stage entry, and raises KeyError when the resource has none |
| MachineFilters.Mrsn | action.prepare/files/library/modules/machine_filters/machine_filters.py:128-129 | machine_mrsn gives the resource's mrsn entry, and raises KeyError when the resource has none |
| MachineFilters.MachineName | action.prepare/files/library/modules/machine_filters/machine_filters.py:155-156 | The machine name is the short name with every "-" deleted: no "-" remains and every other character keeps its count |
| MachineFilters.LibraryPath | action.prepare/files/library/modules/machine_filters/machine_filters.py:159-160 | The library path is the short name with every "-" turned into "/" and every other character kept in place |
| MachineFilters.ImageRoundTrip | action.prepare/files/library/modules/machine_filters/machine_filters.py:163-181 | The image tag holds no ":"; for a reference with ":" the URI, ":" and the tag give the reference back; without ":" the URI is empty and the whole reference is the tag |
| MachineFilters.ImagePathMeaning | action.prepare/files/library/modules/machine_filters/machine_filters.py:184-185 | The image path is what follows the first "/", up to the first ":" after it; without a "/" it is empty |
| MachineFilters.ClusterDnsNameLabels | action.prepare/files/library/modules/machine_filters/machine_filters.py:188-189 | Names without dots give a four-label DNS name: the service (with its extension), the namespace, svc and the platform |
| MachineFilters.NodeselectorSplit | action.prepare/files/library/modules/machine_filters/machine_filters.py:303-307 | A selector written as key, ": ", value splits back into the key and the value |
| MachineFilters.NodeselectorMissing | action.prepare/files/library/modules/machine_filters/machine_filters.py:303-307 | A selector without ": " is all key and has no value: reading it raises IndexError |
| MachineFilters.DeclaredFields | action.prepare/files/library/modules/machine_filters/machine_filters.py:192-297 | The kind filters keep exactly the entries whose key is a declared field of the kind, values unchanged |
| MachineFilters.DeclaredFieldsCompose | action.prepare/files/library/modules/machine_filters/machine_filters.py:192-297 | Filtering by two kinds keeps the fields both declare, and filtering again by the same kind changes nothing |
| PlatformNodes.AppendedAllStep | action.prepare/files/library/inventories/platform_nodes/platform_nodes.py:44-47 | Recording a batch of entries is recording them one by one |
| PlatformNodes.Inventory.constructor | action.prepare/files/library/inventories/platform_nodes/platform_nodes.py:131-141 | The inventory starts from the cached dictionary |
| PlatformNodes.Inventory.AddGroup | action.prepare/files/library/inventories/platform_nodes/platform_nodes.py:29-32 | The group is appended to the groups list, creating it when absent, and nothing else changes |
| PlatformNodes.Inventory.AddChild | action.prepare/files/library/inventories/platform_nodes/platform_nodes.py:34-37 | The pair is appended to the groups_children list, and nothing else changes |
| PlatformNodes.Inventory.AddHost | action.prepare/files/library/inventories/platform_nodes/platform_nodes.py:39-42 | The host and group pair is appended to the hosts list, and nothing else changes |
| PlatformNodes.Inventory.SetVariable | action.prepare/files/library/inventories/platform_nodes/platform_nodes.py:44-47 | The target, key and value are appended to the variables list, and nothing else changes |
| PlatformNodes.FilterHostsMeaning | action.prepare/files/library/inventories/platform_nodes/platform_nodes.py:242-245 | A host is kept exactly when its hostname starts with the cluster name and "-" and its OS is "none" or "custom installation" |
| PlatformNodes.FilterHosts | action.prepare/files/library/inventories/platform_nodes/platform_nodes.py:242-245 | A host is kept when its hostname starts with the cluster name and "-" and its operating system is "none" or "custom installation" (properties in FilterHostsMeaning) |
| PlatformNodes.PrivateOctetsValue | action.prepare/files/library/inventories/platform_nodes/platform_nodes.py:262-264 | The n-th address of 192.168.0.0/13 has four octets whose value is 192.168.0.0 plus n |
| PlatformNodes.PrivateAddress | action.prepare/files/library/inventories/platform_nodes/platform_nodes.py:262-264 | The dotted-decimal text of the n-th address of the 192.168.0.0/13 private network, whose octets PrivateOctetsValue pins down |
| PlatformNodes.Joined | action.prepare/files/library/inventories/platform_nodes/platform_nodes.py:211-217 | A group's path is its name under a non-empty parent path, and the bare name otherwise |
| PlatformNodes.AddedOwn | action.prepare/files/library/inventories/platform_nodes/platform_nodes.py:210-217 | Registering a group lists its path and, below the root, records and lists the edge from its parent, losing nothing |
| PlatformNodes.AddedNode | action.prepare/files/library/inventories/platform_nodes/platform_nodes.py:203-208 | A group followed by the groups nested under it records and lists every path and edge of that subtree |
| PlatformNodes.ReachApart | action.prepare/files/library/inventories/platform_nodes/platform_nodes.py:272-290 | In a tree, two groups neither of which is below the other share no group below them |
| PlatformNodes.SiblingsApart | action.prepare/files/library/inventories/platform_nodes/platform_nodes.py:275-290 | In a tree, distinct children of a group share no group below them, so the passes into them touch disjoint groups |
| PlatformNodes.ReachClosed | action.prepare/files/library/inventories/platform_nodes/platform_nodes.py:272-290 | The children of a group below g are below g too |
| PlatformNodes.IndexedStored | action.prepare/files/library/inventories/platform_nodes/platform_nodes.py:247-266 | Storing a host and listing it in a group keeps every listed host stored with an address in range |
| PlatformNodes.OrderAfter | action.prepare/files/library/inventories/platform_nodes/platform_nodes.py:249-263 | After storing a host it is in the insertion order, a known host keeping its place and a new one going last |
| PlatformNodes.OrderAfterIndex | action.prepare/files/library/inventories/platform_nodes/platform_nodes.py:263 | Storing a host moves no earlier host, and a new one lands at the end |
| PlatformNodes.AddressStored | action.prepare/files/library/inventories/platform_nodes/platform_nodes.py:249-264 | Storing a host keeps every stored host at the private address its position selects |
| PlatformNodes.AddressStable | action.prepare/files/library/inventories/platform_nodes/platform_nodes.py:262-264 | Adding a stored host again keeps its place and its private address |
| PlatformNodes.MirrorStored | action.prepare/files/library/inventories/platform_nodes/platform_nodes.py:250-257 | Recording a pair in the host-to-groups and group-to-hosts lists keeps them mirrored and free of repeats |
| PlatformNodes.HostsStored | action.prepare/files/library/inventories/platform_nodes/platform_nodes.py:247-266 | add_host keeps the host bookkeeping invariant: order, addresses, and mirrored repeat-free lists |
| PlatformNodes.RecordedLists | action.prepare/files/library/inventories/platform_nodes/platform_nodes.py:254-257 | Recording lists the new pair, keeps every pair listed before and touches no other key |
| PlatformNodes.DownFinish | action.prepare/files/library/inventories/platform_nodes/platform_nodes.py:281-290 | Handling every child of g in the downward pass covers every edge below g whose child held no hosts |
| PlatformNodes.UpReach | action.prepare/files/library/inventories/platform_nodes/platform_nodes.py:273-280 | After the upward pass a group holds the hosts of every group below it, not only of its children |
| PlatformNodes.DownThenGrown | action.prepare/files/library/inventories/platform_nodes/platform_nodes.py:268-270 | The downward pass followed by any growth leaves every group that held no hosts with the hosts of its parent |
| PlatformNodes.VariableEntries | action.prepare/files/library/inventories/platform_nodes/platform_nodes.py:304-343 | One variable entry per name and value, in order |
| PlatformNodes.PrivateTexts | action.prepare/files/library/inventories/platform_nodes/platform_nodes.py:301-303 | The first private addresses of the named hosts, in order |
| PlatformNodes.Endpoints | action.prepare/files/library/inventories/platform_nodes/platform_nodes.py:296-300 | Each etcd endpoint is https://<address>:2379 of the address at the same position |
| PlatformNodes.TotalDisks | action.prepare/files/library/inventories/platform_nodes/platform_nodes.py:324-326 | The total is at least each host's disk count and is zero exactly when no host has a disk |
| PlatformNodes.StorageDisksCount | action.prepare/files/library/inventories/platform_nodes/platform_nodes.py:320-329 | The storage-cluster disk count is every disk of the hosts less one per host |
| PlatformNodes.StorageDisks | action.prepare/files/library/inventories/platform_nodes/platform_nodes.py:324-326 | Each root-group host adds its disk count less one, the operating-system disk (properties in StorageDisksCount) |
| PlatformNodes.CountStorageDisks | action.prepare/files/library/inventories/platform_nodes/platform_nodes.py:324-326 | The loop over the root group sums, host by host, exactly the storage disks StorageDisks gives |
| PlatformNodes.TotalDisksAppend | action.prepare/files/library/inventories/platform_nodes/platform_nodes.py:324-326 | Adding a host to the list adds exactly its disks to the total |
| PlatformNodes.IngressIp | action.prepare/files/library/inventories/platform_nodes/platform_nodes.py:330-343 | An ingress address is found exactly when the group lists a stored first host with a public address, and it is that address |
| PlatformNodes.GroupsVariablesComplete | action.prepare/files/library/inventories/platform_nodes/platform_nodes.py:292-343 | The group variables raise exactly when the control, root or ingress lookups fail; otherwise ten variables are set, the node count is the root group's size, and each etcd endpoint is the URL of the etcd host at the same position |
| PlatformNodes.GroupsVariables | action.prepare/files/library/inventories/platform_nodes/platform_nodes.py:292-343 | The root-group variables in recording order, cut short by the first exception (properties in GroupsVariablesComplete and Nodes.SetGroupsVariables) |
| PlatformNodes.EtcdAddresses | action.prepare/files/library/inventories/platform_nodes/platform_nodes.py:296-301 | The loop over the control group yields exactly the private addresses of its hosts as etcd hosts, and one etcd endpoint per such address |
| PlatformNodes.PrivateAddresses | action.prepare/files/library/inventories/platform_nodes/platform_nodes.py:302-303 | The loop over the root group yields exactly the private addresses of its hosts, in group order |
| PlatformNodes.FindMac | action.prepare/files/library/inventories/platform_nodes/platform_nodes.py:346-349 | The MAC of the first interface of the type, or None when there is none |
| PlatformNodes.FailoverNetwork | action.prepare/files/library/inventories/platform_nodes/platform_nodes.py:380-383 | The failover network is the first failover address with "/32", and empty when there is none |
| PlatformNodes.PublicGatewayOfQuad | action.prepare/files/library/inventories/platform_nodes/platform_nodes.py:384-388 | For a dotted quad the gateway is its first three octets and ".1" |
| PlatformNodes.PublicGateway | action.prepare/files/library/inventories/platform_nodes/platform_nodes.py:386-387 | The gateway is the first three dot-separated parts of the public address followed by ".1" (properties in PublicGatewayOfQuad) |
| PlatformNodes.Labels | action.prepare/files/library/inventories/platform_nodes/platform_nodes.py:389-393 | No paths give the label "=true" |
| PlatformNodes.Labelled | action.prepare/files/library/inventories/platform_nodes/platform_nodes.py:392 | Each path with "=true" appended |
| PlatformNodes.LabelsSpaced | action.prepare/files/library/inventories/platform_nodes/platform_nodes.py:389-393 | With paths, the labels are the labelled paths separated by single spaces |
| PlatformNodes.DiskNames | action.prepare/files/library/inventories/platform_nodes/platform_nodes.py:394-417 | The disk names raise IndexError exactly when the host has no disks |
| PlatformNodes.DiskNamesDistinct | action.prepare/files/library/inventories/platform_nodes/platform_nodes.py:394-417 | One name per disk, up to ten NVMe or 26 other disks: /dev/nvme<digit>n1 or /dev/sd<letter> by position, with no two alike |
| PlatformNodes.HostVariablesComplete | action.prepare/files/library/inventories/platform_nodes/platform_nodes.py:351-430 | A host's variables raise exactly when it has no public address, no recorded paths, no disks or a missing confirmation setting; otherwise 18 variables are set, starting with the hostname, with private_network its private address and "/24" |
| PlatformNodes.HostVariables | action.prepare/files/library/inventories/platform_nodes/platform_nodes.py:351-430 | The variables of one host in recording order, cut short by the first exception (properties in HostVariablesComplete and PrivateNetworkOfStored) |
| PlatformNodes.PrivateNetworkOfStored | action.prepare/files/library/inventories/platform_nodes/platform_nodes.py:371-373 | A host stored at position k has as private network the (k+1)-th address of 192.168.0.0/13 with "/24" |
| PlatformNodes.AllHostVariablesStop | action.prepare/files/library/inventories/platform_nodes/platform_nodes.py:351-430 | Once a host's variables raise, no later host gets any |
| PlatformNodes.AllHostVariablesCount | action.prepare/files/library/inventories/platform_nodes/platform_nodes.py:351-430 | Without exceptions every host gets its 18 variables |
| PlatformNodes.AllHostVariables | action.prepare/files/library/inventories/platform_nodes/platform_nodes.py:351-430 | The variables of every host in insertion order, up to the host whose variables raise (properties in AllHostVariablesCount, AllHostVariablesStop and Nodes.SetHostsVariables) |
| PlatformNodes.Nodes.constructor | action.prepare/files/library/inventories/platform_nodes/platform_nodes.py:53-79 | The plugin starts with no groups, tree, hosts or host lists, for the given cluster and inventory |
| PlatformNodes.Nodes.AddGroup | action.prepare/files/library/inventories/platform_nodes/platform_nodes.py:210-217 | The group's path is added and listed; below the root the edge from its parent is recorded and listed, and without a parent path this raises TypeError; the hosts are untouched |
| PlatformNodes.Nodes.BuildNode | action.prepare/files/library/inventories/platform_nodes/platform_nodes.py:203-208 | A group and the groups nested under it are registered, every path and edge of the subtree recorded and listed |
| PlatformNodes.Nodes.BuildGroups | action.prepare/files/library/inventories/platform_nodes/platform_nodes.py:199-208 | The configured groups are registered with every path and edge recorded and listed; a non-root group without a parent path raises TypeError |
| PlatformNodes.Nodes.AddHost | action.prepare/files/library/inventories/platform_nodes/platform_nodes.py:247-266 | add_host stores the host at its address and records the pair both ways, listing it in the inventory unless only leaves are asked for and the group has children |
| PlatformNodes.Nodes.Store | action.prepare/files/library/inventories/platform_nodes/platform_nodes.py:248-264 | The bookkeeping half of add_host, as specified |
| PlatformNodes.Nodes.BuildHost | action.prepare/files/library/inventories/platform_nodes/platform_nodes.py:222-240 | A host tagged with an unknown group exits changing nothing; otherwise it is listed in each tagged group, or the root group when untagged, and in the default group, and in no other group, losing no earlier placement, and the hosts list gains one entry per such group in that order |
| PlatformNodes.Nodes.PlaceAll | action.prepare/files/library/inventories/platform_nodes/platform_nodes.py:233-240 | Placing a host in its groups lists it in each of them and in no other group, keeps every earlier listing, appends one hosts-list entry per group in order and keeps it in the insertion order, last when new |
| PlatformNodes.PlacingPlaced | action.prepare/files/library/inventories/platform_nodes/platform_nodes.py:233-240 | A host placed in all its target groups is placed as build_hosts intends, and nothing listed before is lost |
| PlatformNodes.BuildHostsStep | action.prepare/files/library/inventories/platform_nodes/platform_nodes.py:221-240 | Handling one more source host keeps every new placement within the kept hosts' target groups and extends the hosts-list entries by exactly that host's |
| PlatformNodes.Nodes.Place | action.prepare/files/library/inventories/platform_nodes/platform_nodes.py:236-240 | The host is listed in the group, every earlier listing is kept and no other group changes |
| PlatformNodes.Nodes.BuildHosts | action.prepare/files/library/inventories/platform_nodes/platform_nodes.py:219-240 | The loop exits exactly when some kept host is tagged with an unknown group; otherwise every kept host is placed and the hosts list gains their entries in source order; in every case each new placement puts a kept host in one of its own target groups, nothing listed is lost and only kept hosts are stored |
| PlatformNodes.Nodes.AddHosts | action.prepare/files/library/inventories/platform_nodes/platform_nodes.py:279-289 | Each named host is listed in the group, no other group changes and nothing listed is lost; the inventory gains one hosts entry per name, in order, unless the entries are for leaf groups only and the group has children |
| PlatformNodes.Nodes.InheritDown | action.prepare/files/library/inventories/platform_nodes/platform_nodes.py:281-290 | The downward pass leaves groups that held hosts alone and gives every group below without hosts the hosts of its parent; every inventory entry it appends places a host in a childless group that then lists it, and no other inventory list changes |
| PlatformNodes.Nodes.DownChild | action.prepare/files/library/inventories/platform_nodes/platform_nodes.py:286-290 | One child of the downward pass is handled as the loop invariant requires, appending only leaf-group entries of hosts the group then lists |
| PlatformNodes.Nodes.InheritUp | action.prepare/files/library/inventories/platform_nodes/platform_nodes.py:273-280 | The upward pass only adds hosts, touches only groups below g, and leaves each group holding the hosts of its children; every inventory entry it appends places a host in a group that then lists it, and no other inventory list changes |
| PlatformNodes.Nodes.UpChild | action.prepare/files/library/inventories/platform_nodes/platform_nodes.py:275-280 | One child of the upward pass is handled as the loop invariant requires, appending only entries of hosts the group then lists |
| PlatformNodes.Nodes.DistributeHosts | action.prepare/files/library/inventories/platform_nodes/platform_nodes.py:268-270 | Hosts flow down, level by level, into every group that held none (the state after the downward pass is exposed), leaving groups that held hosts as they were, and then up into every parent, only ever added; the inventory entries handed to Ansible are, for the downward pass, hosts in childless groups that list them and, for the upward pass, hosts in groups that list them |
| PlatformNodes.Nodes.Emit | action.prepare/files/library/inventories/platform_nodes/platform_nodes.py:304-343 | The variables are recorded in order, one set_variable each |
| PlatformNodes.Nodes.SetGroupsVariables | action.prepare/files/library/inventories/platform_nodes/platform_nodes.py:292-343 | The group variables are recorded up to the first raise, as the group variables specification gives |
| PlatformNodes.Nodes.SetHostsVariables | action.prepare/files/library/inventories/platform_nodes/platform_nodes.py:345-430 | The host variables are recorded in insertion order up to the first raise, as the host variables specification gives, every host being addressable |
| StateManagement.EnvFails | action.prepare/files/library/modules/state_management_components/state_management_components.py:34-39 | Reading the environment fails with ValueError exactly when some MRV line does not split into one name and one value |
| StateManagement.EnvRecorded | action.prepare/files/library/modules/state_management_components/state_management_components.py:34-39 | A resource is recorded exactly when some MRV line names it |
| StateManagement.EnvLast | action.prepare/files/library/modules/state_management_components/state_management_components.py:36-39 | A recorded resource holds, under the default tag, the value of the last line naming it |
| StateManagement.EnvVersions | action.prepare/files/library/modules/state_management_components/state_management_components.py:32-40 | The loop reads the environment output as the reading specification gives |
| StateManagement.EnvSpec | action.prepare/files/library/modules/state_management_components/state_management_components.py:32-40 | Specification of get_env_vars_with_mrv over the version lines (properties in EnvFails, EnvRecorded, EnvVersions) |
| StateManagement.Without | action.prepare/files/library/modules/state_management_components/state_management_components.py:146 | The path parts kept are exactly those other than the registry address |
| StateManagement.CrictlEntryMeaning | action.prepare/files/library/modules/state_management_components/state_management_components.py:129-147 | A line records an image exactly when it has two columns and its tag holds "cur", an "_" and no "__"; the record is the image name without the registry, the id before the first "_" and the rest without "-cur" |
| StateManagement.CrictlEntries | action.prepare/files/library/modules/state_management_components/state_management_components.py:128-147 | Each line gives its own record, in order |
| StateManagement.CrictlSpec | action.prepare/files/library/modules/state_management_components/state_management_components.py:126-153 | Specification of the versions process_crictl_output records from the lines it reads (properties in ParseCrictl, CrictlDropsOnlyLine) |
| StateManagement.ImagesRecorded | action.prepare/files/library/modules/state_management_components/state_management_components.py:148-151 | A resource is recorded exactly when some line records it |
| StateManagement.SuffixesRecorded | action.prepare/files/library/modules/state_management_components/state_management_components.py:148-151 | A resource is recorded under a suffix exactly when some line records both |
| StateManagement.ImagesLast | action.prepare/files/library/modules/state_management_components/state_management_components.py:148-151 | A recorded suffix holds the id of the last line that records it |
| StateManagement.CrictlLines | action.prepare/files/library/modules/state_management_components/state_management_components.py:125 | The lines, joined again with newlines, give the trimmed output, and no line holds a newline |
| StateManagement.ParseCrictl | action.prepare/files/library/modules/state_management_components/state_management_components.py:126-153 | The loop records the lines as the crictl specification gives |
| StateManagement.ProcessCrictlOutput | action.prepare/files/library/modules/state_management_components/state_management_components.py:124-153 | process_crictl_output records every line of the output except the last one |
| StateManagement.LocalImagesRecorded | action.prepare/files/library/modules/state_management_components/state_management_components.py:124-153 | In the corrected reading every line naming a current version is recorded |
| StateManagement.CrictlDropsOnlyLine | action.prepare/files/library/modules/state_management_components/state_management_components.py:125-127 | As written, the output of a single matching image records nothing, although the corrected reading records it |
| StateManagement.FetchLocalImages | action.prepare/files/library/modules/state_management_components/state_management_components.py:85-122 | A failing command or any error output gives no local images; otherwise the images are those the corrected parser records from every line of the output |
| StateManagement.SuffixNotCurrent | action.prepare/files/library/modules/state_management_components/state_management_components.py:240-249 | A tag's suffix never collides with the current_version key |
| StateManagement.PrefixesFor | action.prepare/files/library/modules/state_management_components/state_management_components.py:238-247 | The versions listed are exactly the versions of the tags carrying the suffix, no more of them than tags |
| StateManagement.PrefixesForAppend | action.prepare/files/library/modules/state_management_components/state_management_components.py:238-247 | A further tag adds its version to its suffix's list only when it is versioned with that suffix |
| StateManagement.TagsGroups | action.prepare/files/library/modules/state_management_components/state_management_components.py:238-251 | Under each suffix stand the versions of exactly the versioned tags with that suffix, in tag order, and current_version is never a suffix |
| StateManagement.TagsCurrent | action.prepare/files/library/modules/state_management_components/state_management_components.py:248-249 | The current version is the version of the last versioned tag that holds "cur" |
| StateManagement.TagsNoCurrent | action.prepare/files/library/modules/state_management_components/state_management_components.py:248-249 | Without such a tag there is no current version |
| StateManagement.CurrentTags | action.prepare/files/library/modules/state_management_components/state_management_components.py:235-251 | The loop over one answer's tags builds the tag dictionary as specified |
| StateManagement.RegistryRecorded | action.prepare/files/library/modules/state_management_components/state_management_components.py:252-256 | A resource has a dictionary exactly when some registry answer names it |
| StateManagement.RegistryLast | action.prepare/files/library/modules/state_management_components/state_management_components.py:252-256 | The last answer for a resource decides every key it holds |
| StateManagement.RegistryTags | action.prepare/files/library/modules/state_management_components/state_management_components.py:222-257 | The collecting loop builds the registry records as specified |
| StateManagement.RegistrySpec | action.prepare/files/library/modules/state_management_components/state_management_components.py:222-257 | Specification of the registry answers taken in completion order, a later answer updating an earlier one key by key (properties in RegistryRecorded, RegistryTags) |
| StateManagement.MergeMeaning | action.prepare/files/library/modules/state_management_components/state_management_components.py:76-83 | The merge holds every resource of either source; the registry's entries win over the local ones, and local entries not in the registry remain |
| StateManagement.MergeImages | action.prepare/files/library/modules/state_management_components/state_management_components.py:76-83 | The merging loop builds the merge as specified |
| StateManagement.MergeSpec | action.prepare/files/library/modules/state_management_components/state_management_components.py:76-83 | Specification of the merge of registry versions into the node's (properties in MergeMeaning) |
| StateManagement.FetchImages | action.prepare/files/library/modules/state_management_components/state_management_components.py:68-83 | The fetched images name exactly the resources the registry or the node knows, and when the local command fails they are the registry's alone |
| StateManagement.StateHelperShape | action.prepare/files/library/modules/state_management_components/state_management_components.py:264-277 | The state has one entry, for the tag, holding mrv, mrv_cur, exists, fresh and build, with build the negation of fresh and exists always true; a recorded None raises TypeError |
| StateManagement.StateHelperFresh | action.prepare/files/library/modules/state_management_components/state_management_components.py:264-277 | For a recorded list of versions, fresh says whether the new version is among them, mrv is the list and mrv_cur prefers current_version |
| StateManagement.StateHelperUnrecorded | action.prepare/files/library/modules/state_management_components/state_management_components.py:264-277 | Without a record the state has no versions and no current one, is not fresh and must be built |
| StateManagement.StateHelper | action.prepare/files/library/modules/state_management_components/state_management_components.py:264-277 | Specification of state_helper for one tag against the recorded versions (properties in StateHelperShape, StateHelperFresh, StateHelperUnrecorded) |
| StateManagement.Component.constructor | action.prepare/files/library/modules/state_management_components/state_management_components.py:282 | A component holds the given fields |
| StateManagement.TagStateStepKeeps | action.prepare/files/library/modules/state_management_components/state_management_components.py:286-306 | One tag changes only password and state; password only when the tag is recorded, then to the service's password reference; state keeps the tags it had and gains this one |
| StateManagement.TagsStateKeeps | action.prepare/files/library/modules/state_management_components/state_management_components.py:286-306 | The tags of a component change none of its fields except password and state |
| StateManagement.PasswordOnlyWhenKnown | action.prepare/files/library/modules/state_management_components/state_management_components.py:287-295 | The password reference is set only when some tag is recorded |
| StateManagement.PasswordWhenKnown | action.prepare/files/library/modules/state_management_components/state_management_components.py:287-295 | When every tag goes through, a recorded tag leaves the service's password reference in place |
| StateManagement.StateCoversTags | action.prepare/files/library/modules/state_management_components/state_management_components.py:286-306 | When every tag goes through, the state holds an entry for each tag |
| StateManagement.StateKeepsTags | action.prepare/files/library/modules/state_management_components/state_management_components.py:303-306 | A tag with a state keeps it while later tags go through |
| StateManagement.ApplyTag | action.prepare/files/library/modules/state_management_components/state_management_components.py:287-306 | One tag changes the component as the step specification gives and reports whether it raised |
| StateManagement.ApplyTags | action.prepare/files/library/modules/state_management_components/state_management_components.py:286-306 | The tag loop changes the component as specified |
| StateManagement.ComponentState | action.prepare/files/library/modules/state_management_components/state_management_components.py:283-308 | A component is stored exactly when it has an mrv, and its fields change as specified |
| StateManagement.ComponentSpec | action.prepare/files/library/modules/state_management_components/state_management_components.py:283-308 | Specification of one component of create_state: skipped without mrv, otherwise stored with its tags visited (properties in ComponentState) |
| StateManagement.CreateState | action.prepare/files/library/modules/state_management_components/state_management_components.py:279-309 | Exactly the components with an mrv are returned, by reference, each updated in place as specified |
| StateManagement.LogFolder.constructor | action.prepare/files/library/modules/state_management_components/state_management_components.py:312 | A folder holds the given files |
| StateManagement.InsertByCtime | action.prepare/files/library/modules/state_management_components/state_management_components.py:313-315 | Inserting a name adds exactly that name |
| StateManagement.InsertKeepsOrder | action.prepare/files/library/modules/state_management_components/state_management_components.py:313-315 | Inserting into names in creation order keeps them in order |
| StateManagement.SortByCtime | action.prepare/files/library/modules/state_management_components/state_management_components.py:313-315 | The sort is a permutation of the listing |
| StateManagement.SortOrders | action.prepare/files/library/modules/state_management_components/state_management_components.py:313-315 | The sort puts the names in creation order |
| StateManagement.KeepsCount | action.prepare/files/library/modules/state_management_components/state_management_components.py:316-317 | With a positive limit, a listing shorter than the limit is kept and otherwise limit - 1 files remain |
| StateManagement.KeepsRest | action.prepare/files/library/modules/state_management_components/state_management_components.py:316-317 | The removed and the remaining files together are the listing |
| StateManagement.KeepsNewest | action.prepare/files/library/modules/state_management_components/state_management_components.py:316-317 | No removed file is newer than a remaining one |
| StateManagement.ManageFiles | action.prepare/files/library/modules/state_management_components/state_management_components.py:312-317 | The oldest files are removed as specified and the rest of the folder stays; a non-positive limit raises IndexError |
| PlatformComponents.KindOfDir | action.prepare/files/library/modules/platform_components/platform_components.py:108-120 | A directory name maps to a kind only when it is that kind's plural |
| PlatformComponents.KindNamed | action.prepare/files/library/modules/platform_components/platform_components.py:121 | A kind name maps back only to the kind it names |
| PlatformComponents.KindTables | action.prepare/files/library/modules/platform_components/platform_components.py:108-121 | Each kind's plural directory and its name map back to that kind |
| PlatformComponents.KindsInjective | action.prepare/files/library/modules/platform_components/platform_components.py:108-135 | Distinct kinds have distinct plurals and distinct names |
| PlatformComponents.KindsDistinct | action.prepare/files/library/modules/platform_components/platform_components.py:108-135 | No kind's name or plural coincides with another kind's name or plural |
| PlatformComponents.KindWords | action.prepare/files/library/modules/platform_components/platform_components.py:108-135 | No kind word is a reserved attribute name; plurals end in "s" and names do not; schemes hold no "/" or ":" |
| PlatformComponents.NormalizeNameMeaning | action.prepare/files/library/modules/platform_components/platform_components.py:419-420 | A normalized name holds no "-" or "."; a name without them is already normalized |
| PlatformComponents.NormalizeNameMerges | action.prepare/files/library/modules/platform_components/platform_components.py:419-420 | Normalization maps "a-b" and "a_b" to the same name |
| PlatformComponents.NormalizeName | action.prepare/files/library/modules/platform_components/platform_components.py:419-420 | Every "-" becomes "_", then every "." becomes "__" (properties in NormalizeNameMeaning and NormalizeNameMerges) |
| PlatformComponents.Namespace | action.prepare/files/library/modules/platform_components/platform_components.py:212 | The namespace is the role name up to its first ".", or the whole name when it has none |
| PlatformComponents.ShortName | action.prepare/files/library/modules/platform_components/platform_components.py:211 | The short name is the text after the last "." of the role name (all of it when there is none), with each "_" turned into "-" |
| PlatformComponents.KindOfRolePath | action.prepare/files/library/modules/platform_components/platform_components.py:403-404 | A role under ".../<dir>/roles/<name>" has the kind whose plural is <dir>, and any other <dir> raises KeyError |
| PlatformComponents.KindOf | action.prepare/files/library/modules/platform_components/platform_components.py:403-404 | The kind named by the third-from-last part of the role path; fewer than three parts raise IndexError, an unknown directory KeyError (properties in KindOfRolePath) |
| PlatformComponents.LocatorParts | action.prepare/files/library/modules/platform_components/platform_components.py:248-251 | The locator splits into the kind's scheme, an empty segment, the group path's segments and the short name |
| PlatformComponents.Locator | action.prepare/files/library/modules/platform_components/platform_components.py:248-251 | The mrl is the kind's scheme, "://", the group path, "/" and the short name (properties in LocatorParts) |
| PlatformComponents.AddressParts | action.prepare/files/library/modules/platform_components/platform_components.py:253-254 | The dotted address splits into the group path's segments followed by the short name |
| PlatformComponents.Address | action.prepare/files/library/modules/platform_components/platform_components.py:253-254 | The mrc is the group path with "/" written ".", then "." and the short name (properties in AddressParts) |
| PlatformComponents.NodeselectorReadBack | action.prepare/files/library/modules/platform_components/platform_components.py:256-259 | The node selector reads back through the machine filters as the group path's first segment with the value "true" in quotes |
| PlatformComponents.Nodeselector | action.prepare/files/library/modules/platform_components/platform_components.py:256-259 | The node selector is the first "/"-part of the group path followed by ': "true"' (properties in NodeselectorReadBack) |
| PlatformComponents.Language | action.prepare/files/library/modules/platform_components/platform_components.py:271-278 | A function's language is golang for .go files, scala for .scala files and empty otherwise |
| PlatformComponents.InitialStateReads | action.prepare/files/library/modules/platform_components/platform_components.py:333-339 | A freshly stored resource reads back, for each of its tags, as not existing and to be built; an untagged state reads as None, on which the exists filter raises TypeError |
| PlatformComponents.InitState | action.prepare/files/library/modules/platform_components/platform_components.py:333-339 | Each tag maps to the default state: empty mrv, not existing, not fresh, to be built (properties in InitialStateReads) |
| PlatformComponents.ImagesByTags | action.prepare/files/library/modules/platform_components/platform_components.py:341-348 | A resource kind with images gets one image per tag, and the other kinds none |
| PlatformComponents.ImageHostHasNoPort | action.prepare/files/library/modules/platform_components/platform_components.py:346 | The image host prefix holds no ":" |
| PlatformComponents.ImageReadBack | action.prepare/files/library/modules/platform_components/platform_components.py:341-348 | Each tag's image reads back through the machine filters as the image host and path with tag "<mrv>_<tag>" |
| PlatformComponents.ImagePath | action.prepare/files/library/modules/platform_components/platform_components.py:341-348 | The image repository path is the resource name with "__" written "/", then "_" written "-" (properties in ImageReadBack) |
| PlatformComponents.SetAttrsAppend | action.prepare/files/library/modules/platform_components/platform_components.py:36-38 | Setting two lists of attributes in turn is setting their concatenation |
| PlatformComponents.SetAttrsUnset | action.prepare/files/library/modules/platform_components/platform_components.py:36-38 | An attribute not among the names set keeps its presence and value |
| PlatformComponents.SetAttrsLast | action.prepare/files/library/modules/platform_components/platform_components.py:36-38 | A declared attribute holds the value of its last setting |
| PlatformComponents.SetAttrsDeclared | action.prepare/files/library/modules/platform_components/platform_components.py:36-38 | An attribute the class does not declare is never set |
| PlatformComponents.Missing | action.prepare/files/library/modules/platform_components/platform_components.py:227-228 | Building the record raises exactly when the metadata lack the author or description (KeyError) or a function has no files (IndexError) |
| PlatformComponents.Requirements | action.prepare/files/library/modules/platform_components/platform_components.py:283 | The requirements are the normalized names of the dependencies, in order |
| PlatformComponents.KindsMet | action.prepare/files/library/modules/platform_components/platform_components.py:286-291 | The kinds of the required resources, in the order of the requirements |
| PlatformComponents.KindGroupsMeaning | action.prepare/files/library/modules/platform_components/platform_components.py:286-291 | A kind has a group exactly when some requirement is of that kind, and the group holds those requirements' names in order |
| PlatformComponents.KindGroups | action.prepare/files/library/modules/platform_components/platform_components.py:286-291 | The required names grouped by kind, each group in list order (properties in KindGroupsMeaning, KindsMetGrouped and GroupsFrame) |
| PlatformComponents.KindsMetGrouped | action.prepare/files/library/modules/platform_components/platform_components.py:286-292 | The kinds grouped are exactly the kinds met |
| PlatformComponents.GroupsFrame | action.prepare/files/library/modules/platform_components/platform_components.py:286-291 | The grouping depends only on the required resources |
| PlatformComponents.GroupOfAvoids | action.prepare/files/library/modules/platform_components/platform_components.py:292-295 | A kind's group never sets another kind's attributes |
| PlatformComponents.GroupPairsKeys | action.prepare/files/library/modules/platform_components/platform_components.py:292-295 | The groups never set a reserved attribute |
| PlatformComponents.GroupPairsMeaning | action.prepare/files/library/modules/platform_components/platform_components.py:292-295 | Each group is stored under its kind's plural and its first name under the kind, where the class declares them |
| PlatformComponents.NameIdentity | action.prepare/files/library/modules/platform_components/platform_components.py:211-220 | The record's namespace is the role name's first dotted part and its mrn the normalized name |
| PlatformComponents.KindIdentity | action.prepare/files/library/modules/platform_components/platform_components.py:236-267 | The version, kind, tags and initial state are set from the metadata, and namespace and mrn are left as they were |
| PlatformComponents.TailAvoids | action.prepare/files/library/modules/platform_components/platform_components.py:269-295 | The languages and the groups never overwrite a reserved attribute |
| PlatformComponents.EntryIdentity | action.prepare/files/library/modules/platform_components/platform_components.py:207-295 | The stored record carries the namespace, mrn, version, tags, initial state and kind the role gives |
| PlatformComponents.Entry | action.prepare/files/library/modules/platform_components/platform_components.py:207-295 | Specification of the record add_resource stores: the attributes it sets, in order, on an object of the kind's class (properties in EntryIdentity) |
| PlatformComponents.Attrs | action.prepare/files/library/modules/platform_components/platform_components.py:201-331 | A stored record names its kind in mrk and carries its mrn |
| PlatformComponents.ListingsMeaning | action.prepare/files/library/modules/platform_components/platform_components.py:197-199 | A resource is listed as a dependant once per time it requires the dependency |
| PlatformComponents.RequiredByNext | action.prepare/files/library/modules/platform_components/platform_components.py:195-199 | Each resource in turn appends its listings to the dependants |
| PlatformComponents.RequiredByMeaning | action.prepare/files/library/modules/platform_components/platform_components.py:194-199 | A resource is a dependant of d exactly when it is stored and requires d |
| PlatformComponents.RequiredByCount | action.prepare/files/library/modules/platform_components/platform_components.py:194-199 | A resource appears among d's dependants as many times as it requires d |
| PlatformComponents.RequiredBy | action.prepare/files/library/modules/platform_components/platform_components.py:194-199 | The names appended to a resource's requiredby, one per requiring resource and in walk order (properties in RequiredByMeaning, RequiredByCount and RequiredByNext) |
| PlatformComponents.NamesAfterIncludesMembers | action.prepare/files/library/modules/platform_components/platform_components.py:370-383 | A name is collected exactly when it is on the line after an include_role line |
| PlatformComponents.NamesAfterIncludesStep | action.prepare/files/library/modules/platform_components/platform_components.py:375-382 | Each line adds a name exactly when the previous line was an include_role line |
| PlatformComponents.FindIncludes | action.prepare/files/library/modules/platform_components/platform_components.py:370-383 | The loop returns the names following include_role lines, each once, in order |
| PlatformComponents.IncludesMeaning | action.prepare/files/library/modules/platform_components/platform_components.py:370-383 | findIncludes returns no repeats and exactly the names on lines after include_role lines |
| PlatformComponents.NamesAfterIncludes | action.prepare/files/library/modules/platform_components/platform_components.py:370-383 | The name on the line after each include_role line, in file order (properties in NamesAfterIncludesMembers, NamesAfterIncludesStep and IncludesMeaning) |
| PlatformComponents.GrowsTransitive | action.prepare/files/library/modules/platform_components/platform_components.py:201-331 | The bookkeeping only grows, transitively |
| PlatformComponents.Put | action.prepare/files/library/modules/platform_components/platform_components.py:331 | Storing a resource leaves the namespaces alone |
| PlatformComponents.PutKeeps | action.prepare/files/library/modules/platform_components/platform_components.py:331 | Storing a new, well-formed resource keeps the bookkeeping consistent and only grows it |
| PlatformComponents.LinkedConsistent | action.prepare/files/library/modules/platform_components/platform_components.py:194-199 | Linking dependants keeps the bookkeeping consistent, each resource getting exactly its dependants |
| PlatformComponents.RegisterRecords | action.prepare/files/library/modules/platform_components/platform_components.py:201-331 | A completed registration stores the role's record with its kind, its requirements and their grouping |
| PlatformComponents.NamedKeeps | action.prepare/files/library/modules/platform_components/platform_components.py:214-215 | Recording a namespace once keeps the bookkeeping consistent |
| PlatformComponents.AddKeeps | action.prepare/files/library/modules/platform_components/platform_components.py:201-331 | add_resource keeps the bookkeeping consistent and growing, on completion the role is stored, and a role already stored changes nothing |
| PlatformComponents.AddSpec | action.prepare/files/library/modules/platform_components/platform_components.py:201-331 | Specification of add_resource: a name already stored changes nothing; a new one has its kind read from the path, its namespace registered and its required attributes checked before it is registered (properties in AddKeeps) |
| PlatformComponents.NewKeeps | action.prepare/files/library/modules/platform_components/platform_components.py:207-331 | Adding a role not yet stored keeps the bookkeeping consistent and stores it on completion |
| PlatformComponents.NewSpec | action.prepare/files/library/modules/platform_components/platform_components.py:206-331 | add_resource for a new name: the kind read from the path, the namespace registered, the attributes set and the role registered, or the first exception (properties in NewKeeps) |
| PlatformComponents.RegisterKeeps | action.prepare/files/library/modules/platform_components/platform_components.py:280-331 | Registering keeps the bookkeeping consistent, fails exactly as its dependencies do, and stores the role on completion |
| PlatformComponents.RegisterSpec | action.prepare/files/library/modules/platform_components/platform_components.py:280-331 | Specification of registering a new resource: dependencies first, then the entry grouped by kind, a missing required name raising KeyError (properties in RegisterKeeps, RegisterRecords) |
| PlatformComponents.DepsKeeps | action.prepare/files/library/modules/platform_components/platform_components.py:280-282 | Adding the dependencies keeps the bookkeeping consistent and, on completion, stores every one of them |
| PlatformComponents.DepsSpec | action.prepare/files/library/modules/platform_components/platform_components.py:280-282 | add_resource for each dependency in turn, the first exception ending the loop (properties in DepsKeeps) |
| PlatformComponents.RolesKeeps | action.prepare/files/library/modules/platform_components/platform_components.py:191-192 | Adding a play's roles keeps the bookkeeping consistent and, on completion, stores every one |
| PlatformComponents.RolesSpec | action.prepare/files/library/modules/platform_components/platform_components.py:189-192 | add_resource for each role of a play under the play's name, the first exception ending the loop (properties in RolesKeeps) |
| PlatformComponents.BuildKeeps | action.prepare/files/library/modules/platform_components/platform_components.py:183-192 | build_resources keeps the bookkeeping consistent and, on completion, stores every role of every play |
| PlatformComponents.BuildSpec | action.prepare/files/library/modules/platform_components/platform_components.py:183-192 | Specification of build_resources over the plays (properties in BuildKeeps) |
| PlatformComponents.ExportedMeaning | action.prepare/files/library/modules/platform_components/platform_components.py:168-175 | An exported resource is its record's attributes together with its requiredby list |
| PlatformComponents.ExportOf | action.prepare/files/library/modules/platform_components/platform_components.py:168-175 | The export holds exactly the listed names |
| PlatformComponents.ExportOfAt | action.prepare/files/library/modules/platform_components/platform_components.py:168-175 | Each listed name is exported as its resource |
| PlatformComponents.WithLists | action.prepare/files/library/modules/platform_components/platform_components.py:180-181 | The export gains machine_resources, the stored names in order, and machine_resource_namespaces, the namespaces in order, and keeps everything else |
| PlatformComponents.ExportResource | action.prepare/files/library/modules/platform_components/platform_components.py:168-181 | Every stored name other than the two list keys is exported as its resource |
| PlatformComponents.Export | action.prepare/files/library/modules/platform_components/platform_components.py:168-181 | Specification of normalize_resources after populate: the resources in stored order, then their names and the namespaces (properties in ExportResource, ExportOf) |
| PlatformComponents.Components.constructor | action.prepare/files/library/modules/platform_components/platform_components.py:94-150 | The plugin starts with no resources, namespaces or export |
| PlatformComponents.Components.GroupByKind | action.prepare/files/library/modules/platform_components/platform_components.py:286-291 | The loop groups the required names by kind as specified |
| PlatformComponents.Components.AddResource | action.prepare/files/library/modules/platform_components/platform_components.py:201-331 | add_resource changes the bookkeeping as the add specification gives (properties in AddKeeps) |
| PlatformComponents.Components.Register | action.prepare/files/library/modules/platform_components/platform_components.py:207-331 | Registering a new role changes the bookkeeping as specified |
| PlatformComponents.Components.AddDependencies | action.prepare/files/library/modules/platform_components/platform_components.py:280-282 | The dependency loop changes the bookkeeping as specified |
| PlatformComponents.Components.ProcessDependencies | action.prepare/files/library/modules/platform_components/platform_components.py:194-199 | Every resource gets, appended to its dependants, each stored resource that requires it, once per requirement, in storing order; nothing else changes |
| PlatformComponents.Components.AppendDependant | action.prepare/files/library/modules/platform_components/platform_components.py:197-199 | One resource is appended to the dependants of each of its requirements, once per requirement |
| PlatformComponents.Components.BuildResources | action.prepare/files/library/modules/platform_components/platform_components.py:183-192 | build_resources changes the bookkeeping as specified |
| PlatformComponents.Components.AddRoles | action.prepare/files/library/modules/platform_components/platform_components.py:189-192 | The roles of a play are added in turn as specified |
| PlatformComponents.Components.Populate | action.prepare/files/library/modules/platform_components/platform_components.py:177-181 | populate stores every role of every play and links each resource to exactly its dependants; a raise leaves what was built so far |
| PlatformComponents.Components.Normalize | action.prepare/files/library/modules/platform_components/platform_components.py:158-159 | The export is the normalized resources with a copy of them under platform_components |
| PlatformComponents.Components.GetVars | action.prepare/files/library/modules/platform_components/platform_components.py:152-166 | The first call that finds nothing stored populates and exports: a failure then surfaces as a RuntimeError carrying exactly the error the build raised, and on success the stored order, namespaces and component keys are those of the build, each component linked to its dependents by `requiredBy`, and every role of every play is stored under its normalised name; the export is returned for the platform group or a group below it, and an empty dict otherwise |
| AutoTags.JoinedPrefixes | action.prepare/files/library/modules/auto_tags/auto_tags.py:14-17 | One tag per dotted part of the play name |
| AutoTags.JoinedPrefixesStep | action.prepare/files/library/modules/auto_tags/auto_tags.py:15-17 | The tag the loop builds from the previous tag and the next part is the next joined prefix |
| AutoTags.JoinedPrefixesArePrefixes | action.prepare/files/library/modules/auto_tags/auto_tags.py:15-17 | Every tag is a prefix of the joined name, and the last is the whole name |
| AutoTags.PlayTagsMeaning | action.prepare/files/library/modules/auto_tags/auto_tags.py:14-17 | A play named with n dotted parts gets n tags, each a prefix of the name ending at a part boundary, the last being the name itself |
| AutoTags.TagPlayIdempotent | action.prepare/files/library/modules/auto_tags/auto_tags.py:15-19 | Running the callback over a play a second time adds no tag |
| AutoTags.TagRole | action.prepare/files/library/modules/auto_tags/auto_tags.py:20-23 | A tagged role carries its own name among its tags, appended only when absent |
| AutoTags.TagRoles | action.prepare/files/library/modules/auto_tags/auto_tags.py:20-23 | Every role of a play is tagged, in place |
| AutoTags.TagRolesIdempotent | action.prepare/files/library/modules/auto_tags/auto_tags.py:20-23 | Tagging the roles a second time changes nothing |
| AutoTags.Play.constructor | action.prepare/files/library/modules/auto_tags/auto_tags.py:13 | A play holds the given name, tags and roles |
| AutoTags.Play.TagName | action.prepare/files/library/modules/auto_tags/auto_tags.py:14-19 | The loop appends each dotted prefix of the name to the play's tags when absent, roles untouched |
| AutoTags.Play.TagRoleNames | action.prepare/files/library/modules/auto_tags/auto_tags.py:20-23 | The loop tags every role with its own name, the play's tags untouched |
| AutoTags.OnStart | action.prepare/files/library/modules/auto_tags/auto_tags.py:12-23 | After the callback every play carries its name's prefixes and every role its own name; a play listed twice ends as if tagged once |
| ConfigLookup.Load | action.prepare/files/library/actions/config/module.py:11-17 | A missing configuration file loads as an empty mapping; otherwise the parsed document is kept |
| ConfigLookup.Config.constructor | action.prepare/files/library/actions/config/module.py:7-9 | The object holds the loaded document |
| ConfigLookup.Config.GetValue | action.prepare/files/library/actions/config/module.py:19-33 | The lookup returns what the corrected lookup gives, a missing intermediate component being reported as a missing key (properties in the lemmas below) |
| ConfigLookup.WalkNest | action.prepare/files/library/actions/config/module.py:29-30 | Walking the dotted components through a document nested along exactly those components finds the value placed there, as written and corrected |
| ConfigLookup.NestedRoundTrip | action.prepare/files/library/actions/config/module.py:19-33 | A value nested under kind, name and the dotted key is found by get_value, and a None there is reported as a missing key |
| ConfigLookup.WrittenLookup | action.prepare/files/library/actions/config/module.py:19-33 | Specification of get_value as written, raising AttributeError on a missing intermediate component (properties in CorrectionOnlyRemovesRaises, WrittenMissingIntermediateRaises) |
| ConfigLookup.Lookup | action.prepare/files/library/actions/config/module.py:19-33 | Specification of get_value with a missing intermediate component reported as a missing key (properties in NestedRoundTrip, MissingComponentReported) |
| ConfigLookup.WalksAgree | action.prepare/files/library/actions/config/module.py:29-30 | Where the walk as written does not raise, the corrected walk gives the same value |
| ConfigLookup.CorrectionOnlyRemovesRaises | action.prepare/files/library/actions/config/module.py:19-33 | The corrected lookup differs from the one as written only where the latter raises |
| ConfigLookup.WalkNestMissing | action.prepare/files/library/actions/config/module.py:29-30 | A component missing from a nested mapping makes the corrected walk give None, while the walk as written raises AttributeError when more components follow |
| ConfigLookup.MissingComponentReported | action.prepare/files/library/actions/config/module.py:29-33 | Whatever component of the dotted key is missing, the corrected lookup reports the missing key; as written, a missing component that is not the last raises AttributeError |
| ConfigLookup.WrittenMissingIntermediateRaises | action.prepare/files/library/actions/config/module.py:29-30 | A concrete document with a missing intermediate component raises as written and is reported as a missing key when corrected |
| ConfigLookup.MissingFileReportsKind | action.prepare/files/library/actions/config/module.py:15-22 | A missing file reports the missing kind |
| ConfigLookup.EmptyFileRaises | action.prepare/files/library/actions/config/module.py:14-20 | A file that parses to None raises TypeError at the first membership test, both as written and corrected |

## Left out

- Git, the CI API (OAuth, project, pipeline, jobs, trigger), sub-action lookup and execution, HTTP, DNS lookups, terminal prompts and subprocesses are library or network calls. Each is an oracle whose answer is a parameter; its internals are not part of this model.
- Concurrency: the thread-pool fan-out of `fetch_from_registry` (action.prepare/files/library/modules/state_management_components/state_management_components.py:223-230) is not modelled. The answers are taken in the order they complete, and that order is a parameter.
- Gzip and tar encoding are not modelled. The archive is the list of entries it holds. `io.Copy`, `os.Chdir`, temporary-file creation and the `deploy.log` tee are modelled only by their effect on the file tree or not at all. YAML and JSON parsing and encoding are functions supplied by the environment.
- The twin Go files are modelled once. deploy.go and validate.go differ from actions/deploy/deploy.go and actions/validate/validate.go only in names, and those rows cite the actions/ copy. create.go repeats actions/create/create.go and adds confirmDestroy (create.go:152-169), which is modelled from the root copy (Create.ConfirmDestroy, Create.ConfirmTypedName). create.go imports record types from a `pkg/types` package that is not part of this model; they are taken to be those of pkg/schema/platform.go.
- Scratch directory: `.deploy` is removed only after a successful extraction, because cleanup is registered only then. The model follows the code, so after a failed extraction `.deploy` is left behind.
- The OpenTelemetry attributes in `buildEnvironment` are rejoined in Go's map iteration order. That order is unspecified, so the model takes it as a parameter, constrained only to list each key once.
- Image.GetRepoInfo: requires a remote URL and a HEAD hash of at least 7 characters. The code indexes `URLs[0]` and slices the hash without checking either. publish.go destructures four results from `getRepoInfo` while image.go declares three; the model passes the repository name and hash to publishing explicitly.
- Credentials: the keyring library (`GetForURL`, `AddItem`, `Save`, `RequestCredentialsFromTty`) is modelled by its observable state and answers, not by its implementation.
- Create.ConfirmDestroy: the line read from the terminal is a parameter. The blanks that trimming and splitting remove, here and in every such helper, are space, tab, newline, vertical tab, form feed, carriage return, U+0085 and U+00A0 (Go's unicode.IsSpace below U+0100); Python's \x1c-\x1f separators and the Unicode spaces above U+00FF are not modelled.
- StateManagement.EnvSpec: the resource name is lower-cased in ASCII only (Common.Lower); Python's str.lower folds all of Unicode, which is not modelled.
- Common.Quote: Go's `%q` is modelled as the text between double quotes; its escaping of quotes, backslashes and control characters is not modelled. The error messages of Workflow, Validate, Create and Config that quote an identifier or key are therefore exact only for names without such characters.
- `plugin.go`, the show, list and destroy actions, and the environment module of the prepare action are not part of this model. They are presentation, registration wiring and secret I/O. `_init_env` in action.deploy/action.py is left out too.
- Platform components: the `flow` branch of `add_resource` (action.prepare/files/library/modules/platform_components/platform_components.py:298-330) reads task YAML and resolves a skill, and it is not modelled. Roles, their metadata, their direct dependencies and the included-role files come in as values; `Playbook.load`, `os.walk` and file reading are not modelled. `get_type_hints` becomes a per-kind set of declared attribute names. All tags of a new resource share one state dict in the code; the model gives each tag an equal copy, so the aliasing is not captured.
- Dicts are modelled as Dafny maps, which keep no insertion order. Where the code's output order matters (exported resource lists, namespaces, inventory lists, tag lists), the order is kept explicitly as a sequence.
- MachineFilters: `deep_requires_lookup` (action.prepare/files/library/modules/machine_filters/machine_filters.py:97-107) is left out, because it recurses without bound on cyclic dependencies. `machine_append_timestamp` (action.prepare/files/library/modules/machine_filters/machine_filters.py:300-301) is left out because it reads the clock, and `machine_json_schema` (action.prepare/files/library/modules/machine_filters/machine_filters.py:309-357) because it reads a file. The configuration read at import time is a parameter.
- StateManagement: `main()` (action.prepare/files/library/modules/state_management_components/state_management_components.py:320-434), the kubectl-based cluster fetcher (action.prepare/files/library/modules/state_management_components/state_management_components.py:43-64) and the curl commands are file and process I/O. Their outputs are parameters.
- StateManagement.CreateState: a component's `mrt` must be a list of strings. A non-string tag raises TypeError in the model; Python's `True == 1` equality and the aliasing of nested dicts through `state.update` are not modelled. The exception it prints is dropped, as the code continues with the next component.
- StateManagement.ManageFiles: the glob listing and the creation times are parameters. `os.remove` is a removal from the folder map.
- PlatformNodes: the source inventory (a subprocess, action.prepare/files/library/inventories/platform_nodes/platform_nodes.py:168-197), `load_configuration`, `build_source_inventory_command`, the cache plugin in `parse` and `apply`, and `populate`'s sequencing of the modelled steps (action.prepare/files/library/inventories/platform_nodes/platform_nodes.py:81-166) are left out. The host list and the cluster name (`/tmp/cluster`, action.prepare/files/library/inventories/platform_nodes/platform_nodes.py:70) are parameters.
- PlatformNodes.Nodes.BuildGroups: a nested group value is modelled as a list of groups. Other values (a bare string under a dict key, which Python iterates character by character) are not modelled.
- PlatformNodes.Nodes.AddHost: requires a non-empty private address list and a free address in 192.168.0.0/13. The code would raise IndexError in each case. The private address is kept symbolically as the index of the network address it was given.
- PlatformNodes.Nodes.BuildHosts: `sys.exit` on an unknown tagged group is an `exited` result. Nothing after it runs.
- PlatformNodes.Nodes.DistributeHosts: the inheritance properties are stated for a group tree in which every group has one parent and no repeated children (`Tree`). That is what `build_groups` produces from a configuration without duplicate names.
- PlatformNodes.Nodes.AddHost: the full host invariant (repeat-free mirrored lists and addresses by insertion index) is proved about the transition in `HostsStored`, not carried in the class invariant.
- PlatformNodes.Nodes.SetGroupsVariables: the variables of one call are computed first and then recorded. Because the lookups come first in the model, a raising lookup records the variables set before it, as in the code.
- Image.Workspace.Walk: runs the corrected walk, writing one header per link; the two-header archive image.go:147-184 writes is modelled separately as Image.WrittenArchive (see Findings).
- Image.Workspace.CreateArchive: ensures the corrected archive, not the two-header one image.go writes, which would make platform:deploy fail with "file exists" on any tree holding a link.
- Image.Workspace.CreateImage: builds on the corrected archive, for the same reason.
- Image.WalkOutcome: states the outcome of the corrected walk, one header per link. Only a file or a link can fail in the model: a directory whose listing fails, an `Lstat` failure reported to the walk function and a failing `tw.WriteHeader` (image.go:156, image.go:181) are not modelled. When `os.Open` of a file fails (image.go:162-163), its header has already been written (image.go:156); the model's "entries written before the failure" leave that header out.
- Image.ArchiveDelivered: the delivered archive is the corrected one, one header per link.
- Image.RoundTrip: the mode comes back exactly as it was only because FileTree.MkdirAll and FileTree.WriteFile apply no umask; under a umask such as 022 the extracted mode loses those bits.
- FileTree.MkdirAll: does not follow symbolic links (an existing link to a directory fails with "not a directory", where os.MkdirAll follows it), and new directories get the given mode without the process umask.
- FileTree.WriteFile: does not follow a symbolic link at the path (it fails with LinkNotFollowed, where os.OpenFile follows it), and a new file gets the header mode without the process umask.
- FileTree.StatNotExist: a symbolic link on the way to the path or at the path is not followed, where os.Stat follows it. A link to a directory on the way counts as a non-directory, so the path counts as existing; a link at the path counts as existing even when it dangles, where os.Stat reports it missing.
- FileTree.ReadFile: a symbolic link at the path fails with LinkNotFollowed, and a path reached through a link on the way fails with NoEntry, where os.ReadFile reads the file the links lead to.
- Config.ResolveConfigDir: existence is tested with Present, which does not follow links. A dangling link at inst/{platform}/config is therefore picked, where os.Stat fails and Go falls back to src/platform/config; and a config directory reached through a linked `inst` or platform directory counts as absent, where Go picks it.
- Config.GetSpec: a values.yaml that is a symbolic link to a regular file fails with "failed to read config", where Go reads the target and answers the value; a values.yaml below a linked config directory fails as well.
- Create.ExistingUntouched: the existence guard does not follow links. When `inst` is a link to a directory and inst/{name} does not exist, the model answers "already exists" where Go scaffolds the platform.
- Create.Scaffold.Execute: prints the corrected hints, numbered 1 to 4 when the DNS hint appears; the hints as written (1, 2, 3, 3) are Create.WrittenNextSteps (see Findings).
- Config.ConfigTree.Set: follows the corrected set specification, in which an existing values.yaml that parses to an empty document is updated; as written that case panics on the nil map (Config.WrittenSetSpec, see Findings).
- StateManagement.FetchLocalImages: parses every line of the crictl output, where `process_crictl_output` as written drops the last one (StateManagement.ProcessCrictlOutput, see Findings); StateManagement.FetchImages inherits this.
- StateManagement.FetchImages: built on the corrected StateManagement.FetchLocalImages.
- ConfigLookup.Config.GetValue: returns the corrected lookup, which reports a missing intermediate component as a missing key; as written it raises AttributeError (ConfigLookup.WrittenLookup, see Findings).
- PlatformComponents.Role: roles are a finite tree, so a cyclic dependency or include cannot be expressed; in the code such a cycle recurses until RecursionError, which `get_vars` re-raises as RuntimeError.
- PlatformComponents.Components.AddResource: for the same reason the RecursionError on a cyclic dependency is not modelled.
- MachineFilters.Unique: compares values by constructor, so Python's `True == 1` (which keeps only one of 1 and True) is not modelled.
- MachineFilters.MergeLists: relies on MachineFilters.Unique and shares its `True == 1` gap.
- PlatformNodes.Nodes.InheritDown: states a lower bound only (every empty group below receives its parent's hosts, groups that held hosts are unchanged); that it adds no other host to a group is not stated. Its inventory entries are characterised by HostsAppended.
- PlatformNodes.Nodes.InheritUp: states a lower bound only (every parent holds its children's hosts); that it adds no other host to a group is not stated. Its inventory entries are characterised by HostsAppended.
- PlatformNodes.Nodes.DistributeHosts: inherits the lower bounds of both passes; no upper bound on the hosts a group receives is stated. The inventory entries both passes append are bounded by what the groups list (HostsAppended), not by the inheriting edges themselves.

## Findings

| source | as written | input that shows it | evidently intended | confidence | as-written member | corrected member |
|---|---|---|---|---|---|---|
| image.go:147-184 | A symbolic link gets two tar headers: the first is written with the link name taken from its relative path, and the second with its real target | Any source tree holding a symbolic link. On extraction the first header creates the link, and the second one's `os.Symlink` fails with "file exists", so `platform:deploy` rejects the image | One header per link, carrying its `Readlink` target | not executed | Image.WrittenArchive, Image.WrittenLinkFails | Image.Archive, Image.RoundTrip |
| actions/create/create.go:114-126 | When DNS credentials are needed the steps are numbered 1, 2, 3, 3 | Metal provider "scaleway" with DNS provider "cloudflare" prints "3. Provision nodes" and then "3. Deploy" | Deploy numbered 4 in that branch | not executed | Create.WrittenNextSteps, Create.WrittenStepsRepeatThree | Create.NextSteps, Create.DnsLoginStep |
| config.go:113-123 | An existing file whose YAML is empty or `null` unmarshals into a nil map, and `config[a.key] = a.value` then panics | `config:set` on an existing empty values.yaml | Start from an empty map, as for a missing file | not executed | Config.WrittenAssign, Config.WrittenSetSpec, Config.WrittenSetCrashesOnEmptyFile | Config.Assign, Config.SetSpec, Config.SetThenGet |
| action.prepare/files/library/actions/config/module.py:28-33 | The walk calls `.get` on the value of each key component, so a missing intermediate component raises AttributeError on None | kind "k", name "n" holding an empty dict, key "a.b" | None with the "no key found" message, as for a missing last component | not executed | ConfigLookup.WrittenLookup, ConfigLookup.WrittenMissingIntermediateRaises | ConfigLookup.Lookup, ConfigLookup.Config.GetValue, ConfigLookup.MissingComponentReported |
| action.prepare/files/library/modules/state_management_components/state_management_components.py:124-128 | `process_crictl_output` drops the last line of the output, although `grep images` has already removed the header | Output of one matching image line, e.g. "images.example/ns/app 1.0_default-cur abc 10MB", records nothing | Every line is examined | not executed | StateManagement.ProcessCrictlOutput, StateManagement.CrictlDropsOnlyLine | StateManagement.LocalImages, StateManagement.LocalImagesRecorded |
