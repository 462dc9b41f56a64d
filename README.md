# Service manager core, in Dafny

This project models the decision and bookkeeping layer of a terminal
service manager. The manager keeps a directory of self-hosted services. Each
service is a sub-directory with a `service.yaml` descriptor and an optional
`.env` file. The model covers these parts:

- **Descriptor records** (`Models`): the six run states with their indicator
  symbols and colours, the service record with its defaults, the directory
  name that serves as the service ID, and the choice of primary port.
- **Registry** (`Registry`): loading a parsed `service.yaml` tree into a
  service record, field defaults and load failures included. `discover`
  scans the services directory in sorted order, skips entries that do not
  load, and fills a name-keyed cache. `get` looks in the cache first and
  loads on a miss.
- **Lifecycle** (`Lifecycle`, `Subprocess`): the command each verb runs. A
  non-empty custom command wins; otherwise a `docker compose` default runs.
  The model also covers how a subprocess outcome becomes the
  `(success, message)` pair, restart as stop-then-start with short
  circuiting, the lines `install` and `logs` yield, and the `logs` command
  line.
- **Health** (`Health`): the fixed priority of checks. A custom status
  command is used first; otherwise the compose file and `docker compose ps`
  decide, refined by an HTTP probe of the primary port. `check_all` folds the
  results into a map keyed by directory name.
- **`.env` codec and editors** (`ConfigEditor`, `SetupWizard`): the line
  parser, the sorted and quoting serialiser, and secret masking. On the
  editor screens, the model covers value collection, required-variable
  validation, and the merge rules that decide which keys are kept,
  overwritten or deleted before saving.

The outside world is passed in as values:
- a parsed YAML tree;
- a directory listing;
- the text of a file;
- the outcome of a subprocess (exit code and output, time-out, or exception);
- the outcome of the HTTP probe;
- the text in each input widget, keyed by widget id.

`Lifecycle.ServiceLifecycle` takes subprocess outcomes from an oracle
`respond(n, command)` indexed by launch number. A ghost `trace` records
the commands launched, in order. `Health.Check` returns, next to its
verdict, the list of queries it made (file checks, `ps`, the HTTP GET). This
lets the contracts say what is *not* asked.

Python truthiness is modelled explicitly: an empty string counts as absent
wherever the source tests a value with `if`, `or` or `not`
(`Models.Truthy`). `str.strip` uses Python's full whitespace set
(`Text.IsSpace`). Sorting uses code-point order (`StringOrder.Less`). A file
read in text mode splits lines on `\n`, `\r\n` and `\r` (`Text.FileLines`).

## Model

| member | source | states |
|---|---|---|
| Models.ServiceStatus.Symbol | cli/services/models.py:19-29 | every status has a one-character symbol, and the symbol is "✕" exactly for UNHEALTHY and ERROR |
| Models.ServiceStatus.Color | cli/services/models.py:32-42 | "green" exactly for RUNNING, "red" exactly for UNHEALTHY and ERROR, "yellow" exactly for STARTING |
| Models.SymbolsDistinguishAllButFailures | cli/services/models.py:19-42 | two statuses share a symbol only when they are equal or both are red failures |
| Models.FirstEndpointIndex | cli/services/models.py:109-111 | the index of the first port with a non-empty health endpoint; no earlier port has one |
| Models.ServiceConfig.PrimaryPort | cli/services/models.py:106-112 | the first port with a non-empty endpoint, else the first port; None exactly when there are no ports; always an element of the ports |
| Models.DefaultConfigIsBare | cli/services/models.py:74-99 | a freshly built record has no vendor, ports, variables, dependencies, notes or custom commands, and no primary port |
| Registry.RequiredString | cli/services/registry.py:145-146 | `data[key]` fails on a missing key, succeeds exactly when the key holds a string, and then gives that string |
| Registry.OptionalString | cli/services/registry.py:111 | `get(key)` succeeds exactly on an absent, null or string value, giving None for absent or null and the string itself otherwise |
| Registry.OptionalBool | cli/services/registry.py:120-121 | `get(key, False)` succeeds exactly on an absent or boolean value, giving false for absent and the boolean itself otherwise |
| Registry.Items | cli/services/registry.py:113 | a list is iterated item by item; an empty string or mapping yields nothing |
| Registry.LoadEach | cli/services/registry.py:107-126 | a comprehension succeeds exactly when every item loads, keeps the count and order, and each element is its item's load |
| Registry.LoadPort | cli/services/registry.py:107-114 | a port loads exactly when it is a mapping with a string `name`, an integer `port` and an absent, null or string endpoint; it then carries exactly those three values |
| Registry.LoadEnvVar | cli/services/registry.py:117-126 | a variable loads exactly when it is a mapping with a string `name` and well-typed optional fields; it then carries the name, `required` and `secret` as given or false, `default` and `description` as given or None |
| Registry.LoadVendor | cli/services/registry.py:98-104 | an absent or falsy `vendor` gives no vendor; a truthy one loads exactly when it is a mapping with string `url` and `ref`; a load gives a vendor exactly when `vendor` is truthy, and that vendor carries the two strings |
| Registry.StringList | cli/services/registry.py:129-131 | a dependency list loads exactly when it is a list of strings, and gives those strings in order |
| Registry.LoadLifecycle | cli/services/registry.py:133-142 | `lifecycle` loads exactly when it is a mapping whose six verbs are absent, null or strings; each command is its verb's string or None; an empty mapping gives no custom commands |
| Registry.LoadPorts | cli/services/registry.py:106-114 | absent `ports` gives no ports; a list loads exactly when every item loads, and then gives one port per item, in order, each its item's load |
| Registry.LoadEnvVars | cli/services/registry.py:116-126 | absent `env_vars` gives no variables; a list loads exactly when every item loads, and then gives one variable per item, in order, each its item's load |
| Registry.LoadDependencies | cli/services/registry.py:129-131 | absent `dependencies` gives two empty lists; otherwise it loads exactly when it is a mapping whose `system` and `services` lists (empty when absent) load, and gives those lists |
| Registry.LoadCategory | cli/services/registry.py:147 | `category` loads exactly when absent or a string, giving "optional" or that string |
| Registry.LoadNotes | cli/services/registry.py:154 | `notes` loads exactly when it is a mapping of strings, and gives the same keys with the same strings |
| Registry.LoadConfig | cli/services/registry.py:85-156 | a descriptor loads exactly when it is a mapping and every field loads; the record then has the given path, the `name` and `description` strings, and as vendor, ports, variables, dependencies, lifecycle, category and notes exactly what each field's loader gives |
| Registry.BareDescriptorLoads | cli/services/registry.py:85-156 | a descriptor holding only a name and description loads as a freshly constructed record in category "optional" |
| Registry.LoadDescriptor | cli/services/registry.py:95-96 | an unreadable file fails; a parsed one loads as its tree does, with the service directory as path |
| Registry.LoadEntry | cli/services/registry.py:45-58 | an entry contributes exactly when it is a directory holding a `service.yaml` that loads, and then contributes that load, whose ID is the entry name |
| Registry.SomesSpec | cli/services/registry.py:45-58 | a value is kept exactly when some entry yields it |
| Registry.SomesAscending | cli/services/registry.py:44-55 | values keyed by strictly ascending names come out in ascending directory-name order |
| Registry.LoadAllIsSomes | cli/services/registry.py:44-58 | the scan keeps, in order, the configs of the entries that load |
| Registry.LoadAllSpec | cli/services/registry.py:44-58 | every loaded config comes from a visited entry, and every visited entry that loads is included |
| Registry.LoadAllAscending | cli/services/registry.py:44-55 | entries visited in ascending order give configs in ascending directory-name order |
| Registry.DiscoveredInNameOrder | cli/services/registry.py:44 | `discover` lists the services in directory-name order |
| Registry.DiscoveredExactlyTheLoadable | cli/services/registry.py:45-58 | `discover` returns exactly the entries that load; plain files, directories without a descriptor and failing descriptors contribute nothing and keep no other entry out |
| Registry.CacheOfSpec | cli/services/registry.py:55 | storing configs with distinct IDs leaves each under its ID, and every cache key is some config's ID |
| Registry.DiscoveredAreCached | cli/services/registry.py:53-55 | after `discover`, every returned service is in the cache under its directory name |
| Registry.ServiceRegistry.constructor | cli/services/registry.py:19-31 | the registry starts with the given directory and an empty cache |
| Registry.ServiceRegistry.Discover | cli/services/registry.py:33-60 | a missing directory gives no services; the result is the loadable entries in sorted order; the cache gains exactly those, under their IDs, and loses no key |
| Registry.ServiceRegistry.Get | cli/services/registry.py:62-83 | a cache hit is returned without loading; a miss without a descriptor is None with the cache unchanged; a miss with a descriptor loads it and caches it under the requested name, or raises and leaves the cache unchanged |
| Lifecycle.ShellReport | cli/services/lifecycle.py:179-198 | success exactly on exit 0; on success the message is stdout or, when stdout is empty, "Success" whatever stderr holds; on failure it is stderr, else stdout, else "Unknown error"; a time-out gives "Command timed out", an exception its message |
| Lifecycle.ComposeReport | cli/services/lifecycle.py:212-232 | a missing `docker` binary gives "Docker not found"; every other outcome is reported as by the shell runner |
| Lifecycle.Report | cli/services/lifecycle.py:24-50 | a custom shell command is reported by the shell runner, a `docker compose` command by the compose runner; either way success is exit code 0 |
| Lifecycle.StartCommand | cli/services/lifecycle.py:33-36 | the non-empty custom start command through the shell, else `docker compose up -d`, in the service directory |
| Lifecycle.StopCommand | cli/services/lifecycle.py:47-50 | the non-empty custom stop command through the shell, else `docker compose down`, in the service directory |
| Lifecycle.ServiceLifecycle.constructor | cli/services/lifecycle.py:14-22 | a manager starts with the given directory and no command launched |
| Lifecycle.ServiceLifecycle.Run | cli/services/lifecycle.py:179-198 | launches exactly one command, appends it to the trace, and reports its outcome with that command's runner |
| Lifecycle.ServiceLifecycle.Start | cli/services/lifecycle.py:24-36 | launches exactly the start command and reports its outcome |
| Lifecycle.ServiceLifecycle.Stop | cli/services/lifecycle.py:38-50 | launches exactly the stop command and reports its outcome |
| Lifecycle.ServiceLifecycle.Restart | cli/services/lifecycle.py:52-73 | a custom restart command runs alone; otherwise stop runs first; if it fails start never runs and the message is "Failed to stop: " + its message; otherwise start runs and gives "Restarted successfully" or "Failed to start: " + its message |
| Lifecycle.RStripAll | cli/services/lifecycle.py:110-111 | each output line is yielded with its trailing whitespace removed |
| Lifecycle.InstallCommand | cli/services/lifecycle.py:84-104 | the custom install command wins; otherwise `update.sh` runs exactly when it exists |
| Lifecycle.InstallOutput | cli/services/lifecycle.py:84-118 | with nothing to run, exactly one error line naming `update.sh`; with no output pipe, one error line; otherwise the stripped output lines, then "✅ Install completed successfully" exactly when the exit code is 0, else "❌ Install failed with code N" |
| Lifecycle.LogsCommand | cli/services/lifecycle.py:133-158 | a custom command gets " -f" when following, then " --tail=N" when the tail is non-zero; the default is `docker compose logs --tail=N`, then `-f` when following |
| Lifecycle.LogsOutput | cli/services/lifecycle.py:160-165 | no output pipe gives one error line; otherwise the stripped output lines |
| Health.CustomStatus | cli/services/health.py:147-183 | without a status command, ERROR; with one, RUNNING exactly on exit 0, STOPPED exactly on another exit code, ERROR exactly on a time-out or exception |
| Health.DockerStatus | cli/services/health.py:79-124 | `docker-compose.yml` is checked first; NOT_INSTALLED exactly when neither compose file exists, and then `ps` is not run; otherwise RUNNING exactly on exit 0 with non-blank output, STOPPED exactly on exit 0 with blank output, ERROR exactly on another exit code, a time-out or a missing `docker`; any other exception propagates |
| Health.EndpointHealthy | cli/services/health.py:126-145 | a port without an endpoint is healthy; otherwise healthy exactly on a 2xx response, unhealthy on a request error or time-out, and any other exception propagates |
| Health.Check | cli/services/health.py:23-54 | a custom status command decides alone and nothing else is queried; otherwise NOT_INSTALLED and STOPPED come straight from docker with no further query; RUNNING containers and also a docker ERROR go to the probe of a primary port with an endpoint (RUNNING exactly on 2xx, UNHEALTHY on failure) or are RUNNING without one; never STARTING; ERROR only through a custom status command |
| Health.CheckAll | cli/services/health.py:56-77 | the loop builds the status map of the services in order, an exception recorded as ERROR |
| Health.StatusAt | cli/services/health.py:67-75 | a recorded status is never STARTING, and ERROR comes only from a custom status command or a check that raised |
| Health.Statuses | cli/services/health.py:67-75 | one recorded status per service, none of them STARTING |
| Health.RecordKeys | cli/services/health.py:70-77 | the map filled in from recorded statuses has exactly one key per directory name |
| Health.RecordValues | cli/services/health.py:71-75 | the entry under a directory name is the status recorded for the last service with that name |
| Health.RecordRange | cli/services/health.py:71-77 | every entry is the status recorded for some service with that name |
| Health.StatusMapKeys | cli/services/health.py:70-77 | the map has exactly one key per directory name of the given services |
| Health.StatusMapValues | cli/services/health.py:71-75 | the entry under a directory name is the status of the last service with that name |
| Health.StatusMapRange | cli/services/health.py:71-77 | every entry is the recorded status of some service with that name, and none is STARTING |
| ConfigEditor.FirstEquals | cli/screens/config_editor.py:25 | `partition("=")` splits at the first `=` |
| ConfigEditor.Unquote | cli/screens/config_editor.py:28-31 | a value in matching double or single quotes loses exactly one outer pair, and any other value is kept |
| ConfigEditor.ParseLine | cli/screens/config_editor.py:20-32 | a line assigns nothing exactly when, stripped, it is blank, starts with `#` or has no `=` |
| ConfigEditor.Split | cli/screens/config_editor.py:24-32 | a line holding `=` splits at the first `=`; the key holds no `=` and has no surrounding whitespace |
| ConfigEditor.ParseLines | cli/screens/config_editor.py:20-32 | one parse result per line |
| ConfigEditor.ParseLinesAt | cli/screens/config_editor.py:20-32 | the `i`th parse result is the parse of the `i`th line |
| ConfigEditor.ParseLinesSpec | cli/screens/config_editor.py:20-32 | every parse result is the parse of the line at the same index |
| ConfigEditor.LoadEnvFile | cli/screens/config_editor.py:14-33 | a missing file gives the empty map; otherwise the loop applies the lines of the file in order |
| ConfigEditor.LastAssignmentWins | cli/screens/config_editor.py:20-32 | a key is loaded exactly when some line assigns it, and the last such line gives its value |
| ConfigEditor.FormatLines | cli/screens/config_editor.py:39-43 | one written line per key |
| ConfigEditor.SortedKeys | cli/screens/config_editor.py:39 | the entries are written in sorted key order |
| ConfigEditor.SaveEnvFile | cli/screens/config_editor.py:36-44 | writes one `KEY=value` line per entry in ascending key order, newline-joined, with a final newline |
| ConfigEditor.FormatValueLoads | cli/screens/config_editor.py:28-31 | a well-formed value written with or without quotes reads back unchanged |
| ConfigEditor.ParseSplitLine | cli/screens/config_editor.py:24-32 | a stripped non-comment line `key=rest` loads as the stripped key and the unquoted, stripped rest |
| ConfigEditor.FormatEntryStripped | cli/screens/config_editor.py:41-43 | a written line for a well-formed entry has nothing to strip and is not a comment |
| ConfigEditor.ParseFormatEntry | cli/screens/config_editor.py:25-32 | the line written for a well-formed entry loads back as that entry |
| ConfigEditor.ParseFormatLines | cli/screens/config_editor.py:20-32 | each written line loads back as its entry |
| ConfigEditor.AssignEntries | cli/screens/config_editor.py:32 | assigning the written entries rebuilds the map restricted to those keys |
| ConfigEditor.SavedLines | cli/screens/config_editor.py:44 | reading the saved text gives the written lines, or one empty line for an empty map |
| ConfigEditor.LoadBlankLine | cli/screens/config_editor.py:21-23 | a file with one empty line loads as the empty map |
| ConfigEditor.SaveLoadRoundTrip | cli/screens/config_editor.py:14-44 | saving a map of well-formed keys and values and loading the file back gives the same map |
| ConfigEditor.SingleQuotedStripped | cli/screens/config_editor.py:37-43 | a bare single-quoted value is written as `key=value`, with nothing to strip in the line, the key or the value |
| ConfigEditor.SingleQuotedLine | cli/screens/config_editor.py:28-31 | a bare single-quoted value is written as is and loads without its quotes |
| ConfigEditor.SingleQuotedValueLosesQuotes | cli/screens/config_editor.py:28-44 | such a value does not survive a save and a load |
| ConfigEditor.MaskValue | cli/screens/config_editor.py:47-53 | the length is kept; a value of up to 8 characters is all `*`; a longer one keeps its first and last 4 characters with `*` between |
| ConfigEditor.CurrentValue | cli/screens/config_editor.py:157 | the current value of a variable, or "" when it has none |
| ConfigEditor.ComposeEnvInputs | cli/screens/config_editor.py:153-160 | one input per declared variable, in order, with id `env-<name>`, prefilled with its current value |
| ConfigEditor.Entered | cli/screens/config_editor.py:172-175 | an input counts exactly when it exists and holds more than whitespace, and then its value is non-empty |
| ConfigEditor.ProvidedSpec | cli/screens/config_editor.py:166-178 | a name has a collected value exactly when its input counts, and the value is the input's stripped text |
| ConfigEditor.ProvidedNonEmpty | cli/screens/config_editor.py:173-175 | no collected value is empty |
| ConfigEditor.CollectValues | cli/screens/config_editor.py:166-178 | the loop collects exactly the values of the inputs that count |
| ConfigEditor.ValidateRequired | cli/screens/config_editor.py:180-187 | the loop lists the required variables that have no value, in declaration order |
| ConfigEditor.MissingRequiredSpec | cli/screens/config_editor.py:180-187 | a name is listed exactly when some required variable has it and has no non-empty value |
| ConfigEditor.MissingRequiredInOrder | cli/screens/config_editor.py:180-187 | the missing names are a subsequence of the declared names, so they keep declaration order |
| ConfigEditor.NothingMissing | cli/screens/config_editor.py:185-187 | with nothing listed, every required variable has a non-empty value |
| ConfigEditor.MergeDeclaredSpec | cli/screens/config_editor.py:198-206 | the merge keeps undeclared keys as they were, sets declared variables that have values, and deletes declared variables that have none |
| ConfigEditor.ActionSave | cli/screens/config_editor.py:189-210 | with a required variable missing, nothing is saved and the missing names are reported; otherwise the merged map is written, and every required variable has a non-empty value in it |
| SetupWizard.ComposeMissingInputs | cli/screens/setup_wizard.py:120-128 | the loop builds the inputs for the declared variables named as missing, in declaration order |
| SetupWizard.MissingInputsSpec | cli/screens/setup_wizard.py:120-128 | every input belongs to a declared missing variable, has id `wizard-<name>` and is prefilled with the current value or ""; every declared missing variable has an input |
| SetupWizard.StillMissing | cli/screens/setup_wizard.py:158 | a name is still missing exactly when it is among the missing names and has no value; if none has a value, all are still missing |
| SetupWizard.StillMissingInOrder | cli/screens/setup_wizard.py:158 | the names still missing are a subsequence of the missing names, so they keep their order |
| SetupWizard.ActionSave | cli/screens/setup_wizard.py:155-171 | with a name still missing, nothing is saved and those names are reported; otherwise the current map updated with the entered values is written; every missing name then has a non-empty value, keys not entered keep their values, and the keys are the old ones plus the entered ones |

## Left out

- The Textual user interface: screens, widgets, CSS, bindings, notifications and dismissal. A save's dismissal is the `Saved`/`Completed` outcome. The inputs are a map from widget id to text. A widget lookup that fails for any reason is a missing id.
- YAML parsing and file access: the model takes the parsed tree, the directory listing and the file text as inputs. Writing the `.env` file is the text `SaveEnvFile` returns.
- Registry.LoadConfig: the source stores whatever a key holds, unchecked, in the dataclass. The model fails the load for a value of a type other than the annotated one. For `ports` and `env_vars`, a non-empty string or mapping is iterated by the source. The model treats it as a failure too, since each item would then be a string that the loader's subscript rejects. As a result, `Discover` skips, and `Get` fails for, some descriptors the source loads: for example a variable with `default: 5432`, or `notes:` or `category:` left null.
- Registry.ServiceRegistry.Get: in the source, a name that is empty or `.` reaches the services directory itself, `..` its parent, and a name containing `/` a nested path; none of these is an entry of the directory listing. The model looks a name up as a single listing entry.
- Lifecycle.LogsCommand: `follow` and `tail` are always passed explicitly. The defaults of `logs` (no follow, a tail of 50 lines, cli/services/lifecycle.py:121) are not modelled; a caller relying on them corresponds to passing `false` and `50`.
- Registry.ServiceRegistry.Discover: the warning printed for an entry that fails to load is not modelled.
- The constructors' default directories, derived from the module's own location or the working directory, are not modelled. Both constructors take the directory.
- Subprocess execution, `docker compose` and the HTTP request are abstract outcomes. The 120 s, 10 s and 5 s time-outs and the 2.0 s probe time-out are kept only as "timed out".
- Health.CheckAll: the checks run concurrently under `asyncio.gather` in the source. The model runs them one after another, each answered by its own observations.
- Lifecycle.InstallOutput and Lifecycle.LogsOutput: the streamed output is a finished sequence of lines. Streaming, follow mode, cancellation and byte decoding are not modelled. An exception while creating the process is not modelled.
- ServiceState (cli/services/models.py:115-122) has no behaviour in the core and is not modelled.
- ConfigEditor.SaveLoadRoundTrip: the round trip holds only for keys and values the format can carry (`KeyOk`, `ValueOk`). `SingleQuotedValueLosesQuotes` shows a value that does not survive.
