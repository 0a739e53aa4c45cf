# mydyndns in Dafny

A verified model of the core of **mydyndns**, a dynamic-DNS agent and command-line tool. The
agent first asks the MyDynDNS web service to point a DNS alias at the host's apparent address.
It then polls the address at a fixed interval and asks for another update whenever the polled
address differs from the last confirmed one.

The model covers:

- **Agent** (`agent.dfy`):
  - the start-up bootstrap update and its error;
  - the poller, which forwards only successfully fetched addresses;
  - the updater's baseline rule, modelled as a receive loop and proved against a fold over the received addresses.
- **Sdk** (`client.dfy`):
  - the request shape (`<BaseURL>/<path>`, `accept: text/plain`, `x-api-key`);
  - the requirement that the status be 200;
  - the bounded body read, which fills a 48-byte array in place through a limited reader and parses only the bytes read.
- **StringCollections** (`string_collection.dfy`): the `StringCollection` class over a set of strings that its methods mutate.
- **Validation** (`validation.dfy`):
  - the poll-interval, base-URL and API-key validators;
  - first-error-wins chaining;
  - checking config-file names against the supported extensions.
- **ConfigCmd** (`config.dfy`), the `config write` and `config types check` subcommands:
  - the argument check and shell completion;
  - the output path of each written file;
  - the type check.
- **Root** (`root.dfy`):
  - the mapping from flag names to environment variables;
  - how `bootstrapConfigFile` picks the config file from flags, environment and defaults.
- **CommandTree** (`tree.dfy`): the filtered copy of the command hierarchy printed by `command-tree`.
- **Helpers**:
  - `Cli`: the default config name, the environment prefix and the minimum poll interval;
  - `Results`: Option, Outcome and Result types;
  - `Strings`: ASCII case mapping, character replacement, last index;
  - `Paths`: `filepath.Ext`, `IsAbs`, `Split` and `Join` with '/' as separator.

What stands in for things the model cannot see:

- **Client answers.** They are inputs fixed up front. `polls[n]` is the answer to the `n`-th `MyIPWithContext` call. `updates(k)` is the answer to the `k`-th `UpdateAliasWithContext` call, and call 0 is the bootstrap.
- **IP addresses.** They are a type parameter. `net.IP.Equal` is the parameter `equal`, and Go's IP text parser is the parameter `unmarshal`.
- **The outside world.** HTTP transport, URL parsing, `filepath.Abs`, viper's conversion of search paths to absolute ones, config-file writing and viper's list of supported extensions are also parameters.

Where the code and its documentation differ, the model follows the code:

- **`Run` error.** `Run` always returns the client's error wrapped as "failed to start agent". Whether the context was already cancelled only changes what is logged. Cancellation is recognised through `errors.Is` on that wrapped error (`Agent.StartupErrorWraps`).
- **Update path.** `UpdateAliasWithContext` posts to `<BaseURL>/dns-value`, as in `pkg/sdk/client.go:54`. The client's test table expects `/dns-alias`.
- **Empty body.** An empty response body parses to a nil address without error, because `net.IP.UnmarshalText` does that. `Sdk.Interpret` returns `Success(None)` for it.

## Model

| member | source | states |
|---|---|---|
| Agent.PollIP | pkg/agent/agent.go:68-90 | fetches once per tick, and what it sends is exactly `Forwarded(polls)` |
| Agent.ForwardedStep | pkg/agent/agent.go:76-82 | a failed fetch sends nothing and polling continues; a successful fetch sends exactly its address |
| Agent.ForwardedAreFetched | pkg/agent/agent.go:76-82 | an address is forwarded iff some fetch returned it |
| Agent.UpdateStep | pkg/agent/agent.go:102-114 | an address equal to the baseline causes no call and no change; a differing one causes exactly one update call; the baseline becomes the address the update returned, or stays when the update failed |
| Agent.UpdateDNS | pkg/agent/agent.go:96-120 | the receive loop that reassigns `previousIP` ends in the state `UpdaterRun` gives for the received addresses |
| Agent.CallsBounded | pkg/agent/agent.go:100-111 | the updater makes at most one update call per received address |
| Agent.BaselineConfirmed | pkg/agent/agent.go:97-111 | the baseline is always the start address or an address that one of the updater's own update calls returned |
| Agent.NoUpdateIffUnchanged | pkg/agent/agent.go:103-114 | no update call is made iff every received address equals the starting baseline |
| Agent.NoCallKeepsBaseline | pkg/agent/agent.go:103-111 | without an update call the baseline never moves |
| Agent.RetryAfterFailedUpdate | pkg/agent/agent.go:106-107 | after a failed update the baseline is unchanged, so the same differing address triggers a second call |
| Agent.Run | pkg/agent/agent.go:26-63 | a failed bootstrap returns the client's error wrapped as "failed to start agent", with no fetch and one call; otherwise it returns no error, fetches once per tick, and leaves the updater in the state `UpdaterRun` gives from the bootstrap address |
| Agent.StartupErrorWraps | pkg/agent/agent.go:38 | `errors.Is` on the start-up error matches whatever the client's error matches, cancellation included |
| Agent.ScenarioOfAgentRun | pkg/agent/agent_test.go:67-101 | in the test's run (baseline 1.2.3.4; then a change to 9.8.7.6, a failed update, and a retried update to 2.3.4.5) four update calls are made and the final baseline is 2.3.4.5 |
| StringCollections.ElementsCardinality | internal/stringCollection.go:76-80 | the member count never exceeds the number of strings given, and equals it iff no string repeats |
| StringCollections.StringCollection.constructor | internal/stringCollection.go:19-25 | a new collection holds exactly the distinct strings given |
| StringCollections.StringCollection.Add | internal/stringCollection.go:30-36 | the members become the old members plus every string given |
| StringCollections.StringCollection.Remove | internal/stringCollection.go:41-47 | the members become the old members minus every string given; non-members have no effect |
| StringCollections.StringCollection.Contains | internal/stringCollection.go:50-55 | true iff the string is a member; the collection is not changed |
| StringCollections.StringCollection.Slice | internal/stringCollection.go:58-68 | the array filled by the loop lists every member exactly once; its length is the member count |
| StringCollections.StringCollection.Len | internal/stringCollection.go:76-80 | the number of distinct members |
| StringCollections.NewCollectionLen | internal/stringCollection.go:19-25 | a new collection's length counts duplicates once; it equals the number of strings given iff they are distinct |
| Validation.ValidatePollInterval | cmd/mydyndns/cli/validation.go:13-18 | fails iff the interval is below ten seconds, so exactly ten seconds is accepted |
| Validation.ValidateBaseURL | cmd/mydyndns/cli/validation.go:20-27 | an empty URL is reported missing before any scheme check; a non-empty one passes iff its lower-cased form starts with "https://"; the SSL error carries the URL |
| Validation.BaseURLCaseInsensitive | cmd/mydyndns/cli/validation.go:23 | lower-casing the URL never changes the verdict |
| Validation.ValidateAPIKey | cmd/mydyndns/cli/validation.go:29-34 | fails iff the key is empty |
| Validation.FirstValidationError | cmd/mydyndns/cli/validation.go:36-43 | returns the first failing validator's error, after evaluating only the validators up to it; passes iff every validator passes |
| Validation.ValidateAgentConfig | cmd/mydyndns/cli/config.go:267-270 | the chained validators report, in this order: an empty key, an empty URL, a URL without the https scheme (ignoring case), an interval under ten seconds; and pass iff none applies |
| Validation.ConfigType | cmd/mydyndns/cli/validation.go:52-54 | a name with an extension stands for the text after its last dot, and that text has no dot; a name without one stands for itself |
| Validation.FirstUnsupported | cmd/mydyndns/cli/validation.go:51-58 | the first position whose type is unsupported, with every earlier name supported; None iff all are supported |
| Validation.ValidateConfigFileNames | cmd/mydyndns/cli/validation.go:49-62 | passes iff every name is, or ends in, a supported extension; otherwise the error names the type of the first name that is not |
| ConfigCmd.WriteArgs | cmd/mydyndns/cli/config.go:58-63 | no arguments fails with "at least 1 argument" before any extension is checked; otherwise the result is that of the file-name check |
| ConfigCmd.Unseen | cmd/mydyndns/cli/config.go:67-71 | an extension is suggested iff it is supported and not already given |
| ConfigCmd.Extended | cmd/mydyndns/cli/config.go:72-81 | `prefix.ext` is suggested exactly for the unseen extensions that start with the typed suffix |
| ConfigCmd.CompleteWriteArgs | cmd/mydyndns/cli/config.go:64-89 | suggests the unseen extensions, then, for a word with a dot, the word's part before its last dot joined to each unseen extension that starts with the part after it; file completion is off iff safe mode is on |
| ConfigCmd.UnseenExtensions | cmd/mydyndns/cli/config.go:65-71 | the first completion loop yields `Unseen` |
| ConfigCmd.ExtendedCompletions | cmd/mydyndns/cli/config.go:72-81 | the second completion loop yields `Extended` |
| ConfigCmd.ExtOfFinalElement | cmd/mydyndns/cli/config.go:142-145 | after an absolute path is split, its extension is that of the file part |
| ConfigCmd.BareTypeUsesDefaultName | cmd/mydyndns/cli/config.go:145-148 | a relative argument without an extension is written as `mydyndns.<arg>` in the output directory |
| ConfigCmd.RelativeNameKept | cmd/mydyndns/cli/config.go:145-148 | a relative argument with an extension keeps its name in the output directory |
| ConfigCmd.AbsolutePathKept | cmd/mydyndns/cli/config.go:141-148 | an absolute argument with an extension is written exactly where it points, whatever the output directory |
| ConfigCmd.ResolveOutputPath | cmd/mydyndns/cli/config.go:140-148 | reassigning `basePath` and `f` yields `OutputPath` of the argument |
| ConfigCmd.WriteConfigFiles | cmd/mydyndns/cli/config.go:105-156 | a failure to make the directory absolute stops the command before any write; otherwise arguments are written in order, each to its output path under the absolute directory, each write seeing the paths already written; the first failed write stops the command with that error; success iff all were written |
| ConfigCmd.SafeWriteOfRepeatedName | cmd/mydyndns/cli/config_test.go:102-119 | in safe mode, naming the same file twice writes it once and then fails with "already exists" for that path |
| ConfigCmd.TypesCheck | cmd/mydyndns/cli/config.go:241-257 | a count other than one is an argument error; otherwise passes iff the argument's type is supported, and the error names that type |
| Root.FlagNameToEnvVar | cmd/mydyndns/cli/root.go:172-175 | the upper-cased prefix, then '_', then the flag name upper-cased with each '-' replaced by '_' |
| Root.EnvVarSuffixShape | cmd/mydyndns/cli/root.go:173-174 | the flag-name part of the result has no '-' and no lower-case letter |
| Root.BootstrapConfigFile | cmd/mydyndns/cli/root.go:110-149 | an undefined flag is an error that changes nothing; otherwise viper gets the explicit file, or the default name (forgetting any config file) and the absolute search path, as `ConfigSourceFor` decides, and `explicit` reports which |
| Root.WithSearchPath | cmd/mydyndns/cli/root.go:145 | an empty search path is ignored; otherwise its absolute form is added once |
| Root.Viper.SetConfigFile | cmd/mydyndns/cli/root.go:142 | the config file is set, unless the path is empty |
| Root.Viper.SetConfigName | cmd/mydyndns/cli/root.go:144 | the config name is set and the config file cleared, unless the name is empty |
| Root.Viper.AddConfigPath | cmd/mydyndns/cli/root.go:145 | the search paths become `WithSearchPath` of the old ones |
| Root.SearchPathFlagWins | cmd/mydyndns/cli/root.go:116-124 | once the config-path flag is set, the environment cannot change the search path |
| Root.ExplicitIffFlagOrEnv | cmd/mydyndns/cli/root.go:126-136 | the config file is explicit iff the config-file flag was set or its environment variable is present |
| Root.FileFlagWinsOverEnv | cmd/mydyndns/cli/root.go:131-136 | with both flags set, the environment has no influence |
| Root.ExplicitFileLocation | cmd/mydyndns/cli/root.go:138-142 | an explicit absolute file is used unchanged; a relative one is joined to the search path |
| Root.ImplicitFileDiscovered | cmd/mydyndns/cli/root.go:143-146 | without flag or environment, the default name is looked up in the search path |
| Sdk.NewRequest | pkg/sdk/client.go:74-82 | the URL is the parsed form of `<BaseURL>/<path>`, with the given method, and the request carries exactly `accept: text/plain` and the API key; an unparseable URL is the only error |
| Sdk.DoRequest | pkg/sdk/client.go:84-91 | a transport error is passed on; any status other than 200 gives `UnexpectedStatusCode` with the request's parsed URL and the status |
| Sdk.LimitedReader.Read | pkg/sdk/client.go:96-100 | one read copies, in order, the next bytes of the body into the buffer, never past the 48-byte limit; EOF comes only when the limit is used up or the body is exhausted |
| Sdk.Interpret | pkg/sdk/client.go:106 | an empty text yields a nil address without error; other texts yield the parser's address, or a parse error carrying the text |
| Sdk.ParseIP | pkg/sdk/client.go:95-108 | the result is the parse of the first 48 bytes of the body (all of a shorter body); a parse error never carries more than 48 bytes |
| Sdk.OverlongBodyRejected | pkg/sdk/client.go:96-106 | a body longer than 48 bytes is cut to its first 48, and the parse error reports exactly those |
| Sdk.FetchIP | pkg/sdk/client.go:57-72 | request, status check and parse compose as `Fetched` |
| Sdk.StatusDecidesFailure | pkg/sdk/client.go:84-91 | a response is reported as a status error iff its status is not 200, and the error carries the parsed form of `<BaseURL>/<path>` |
| Sdk.MyIP | pkg/sdk/client.go:41-43 | a GET of the parsed `<BaseURL>/my-ip`, with the result `Fetched` gives |
| Sdk.UpdateAlias | pkg/sdk/client.go:53-55 | a POST to the parsed `<BaseURL>/dns-value`, with the result `Fetched` gives |
| CommandTree.CmdToTree | cmd/mydyndns/cli/tree.go:28-41 | the root is labelled with the command's name and has no more branches than the command has subcommands |
| CommandTree.Branches | cmd/mydyndns/cli/tree.go:30-36 | the loop adds no more branches than there are subcommands |
| CommandTree.BranchesOfKept | cmd/mydyndns/cli/tree.go:31-35 | the branches are exactly the trees of the accepted subcommands, one each, in their order |
| CommandTree.BranchLabelsAreKeptNames | cmd/mydyndns/cli/tree.go:31-33 | a node's branch labels are the names of its accepted subcommands, in order |
| CommandTree.KeepAllMirrors | cmd/mydyndns/cli/tree.go:28-40 | with a filter that accepts everything, the tree mirrors the whole hierarchy |
| CommandTree.KeepAllMirrorsAll | cmd/mydyndns/cli/tree.go:31-35 | the same, for a node's list of subcommands |
| CommandTree.LabelsWithinNames | cmd/mydyndns/cli/tree.go:28-40 | every label in the tree is a name in the command hierarchy |
| CommandTree.LabelsBelowFromKept | cmd/mydyndns/cli/tree.go:31-35 | every label below the root comes from the hierarchy of an accepted subcommand |
| CommandTree.RejectedSubtreeAbsent | cmd/mydyndns/cli/tree.go:32-34 | a rejected subcommand's whole hierarchy is absent, even the parts the filter accepts, when its names occur nowhere else |
| CommandTree.RejectedNameAbsent | cmd/mydyndns/cli/tree.go:31-35 | no label below the root names a command the filter rejects by name |
| CommandTree.TreeFilterDecides | cmd/mydyndns/cli/tree.go:17-20 | the filter turns down `completion`, hidden, deprecated and help commands, and accepts every other runnable command |
| CommandTree.NoCompletionBranch | cmd/mydyndns/cli/tree.go:17-20 | the printed tree never has a `completion` branch |

## Left out

- Goroutines, the `sync.WaitGroup`, the capacity-1 channel, the ticker and `select` are not modelled, because the model is sequential. The poller runs over the list of tick results, and the updater then runs over what was sent.
- Agent.Run: concurrency is reduced to one choice, `lastPending`: the last address sent may still be in the channel at cancellation and never be received. No other interleaving is modelled. The model also does not capture that the poller's send is not inside a `select`, so after cancellation a full channel can leave the poller blocked.
- Logging is left out: the `level.*` calls, `log.NewSyncLogger` and `internal/logging.go` only produce output.
- The `sync.Mutex` of `StringCollection` is left out, because locking does nothing in a sequential model.
- `StringCollection.String` is left out because it only formats `Slice()` for printing.
- Cobra and viper plumbing are not part of this model: `cli.go`, `agent.go`, `api.go`, `main.go`, `bootstrapConfig`, env binding, `config show`, and the viper map copying in `config write`. Their results are inputs.
- Sdk.ParseIP: the body yields bytes and then EOF. Read errors other than EOF are not modelled; on such an error the source's loop would keep reading.
- Sdk.LimitedReader.Read: the most bytes a read hands out is the parameter `step`; real timing of network reads is not modelled.
- `http.Client.Do`, URL parsing with `URL.String()`, `net.IP.UnmarshalText` (for non-empty text) and `net.IP.Equal` are foreign library calls. They are the parameters `send`, `parseURL`, `unmarshal` and `equal`.
- `filepath.Abs` and viper's `absPathify` are the parameters `abs` and `absPathify`. The working directory and `$HOME` expansion they depend on are not modelled.
- Root.Viper: only the three setters `bootstrapConfigFile` calls are modelled, following viper's library code, which is not part of this repository; viper's reading of the file is not part of this model.
- ConfigCmd.WriteConfigFiles: `write` stands for viper's writer; the file system is reduced to the files that existed before (`SafeWrite`'s `existing`) and the paths this command wrote. Printing the written paths (unless `--quiet`) is left out.
- `pkg/sdk/errors.go` is not part of this model: it only formats messages with `http.StatusText`.
- Sdk.UpdateAlias: the POST path follows the code (`dns-value`). The test table's `/dns-alias` is not asserted.
- Validation.ValidateBaseURL: `strings.ToLower` is modelled on ASCII letters only, not full Unicode case mapping.
- Root.FlagNameToEnvVar: `strings.ToUpper` is modelled on ASCII letters only, not full Unicode case mapping.
- ConfigCmd.ResolveOutputPath: `filepath.Join` is modelled without the `Clean` step, so paths with `.`, `..` or repeated separators are not normalised.
- Root.BootstrapConfigFile: the same `filepath.Join` without `Clean` is used.
- `bugIfError` and its panics are left out, because they only guard against programmer error.
- treeprint's ASCII rendering is left out; only the tree's structure is modelled.
- Durations are whole nanoseconds (`int`); Go's 64-bit overflow of `time.Duration` is not modelled.
