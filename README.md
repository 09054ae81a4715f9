# sftp-exporter, modelled in Dafny

sftp-exporter is a Prometheus exporter. For every configured SFTP host it
runs a cycle at a fixed interval. Each cycle connects to the host, records
the host's health in `sftp_host_up`, and runs one of three checkers on each
configured folder:

- `noop` lists the folder. It records a last-seen timestamp for every name
  the file matcher accepts.
- `attributes` reads the folder with attributes. It records mtime, atime and
  size for every accepted file.
- `put_get_del` lists the folder like `noop`, then probes it. The probe
  uploads a health-check file, downloads it again, compares the copy, and
  deletes the file. Each capability state (`Ok`, `Error`, `Corrupted`) goes
  into `sftp_put_file_up`, `sftp_get_file_up` and `sftp_del_file_up`.

At start-up the exporter validates every host entry of its YAML
configuration. It then either serves the metrics or exits with code 1, 2
or 3.

The model is one Dafny module per concern:

- `Metrics` (metrics.dfy): the eight gauges, their label tuples, and the
  registry.
  - The `Registry` class holds the registry as a last-write-wins map from
    (gauge, labels) to value.
  - A sequence of gauge writes is a trace. `Written` folds a trace into that
    map.
- `Glob` (glob.dfy): `fnmatch.fnmatch` on POSIX (case-sensitive). It covers
  `*`, `?`, `[seq]`, `[!seq]`, ranges, and unclosed brackets.
- `Paths` (paths.dfy): `os.path.join` of two parts. `os.path.basename` is
  defined only to state the round trip of the probe's remote file name.
- `FileMatch` (filematch.dfy): `file_matcher`, `prepare_folder`, and the
  comprehension `[f for f in files if matcher(f)]` as `Select`.
- `Resources` (resources.dfy): a `Handles` class of live handles. It stands
  for the probe's local temporary files and for the SSH connection of a
  cycle.
- `Config` (config.dfy): one host entry as read from YAML.
  - The assertions and defaults of `check`.
  - The keyword arguments `checker()` passes to `asyncssh.connect`.
- `Checkers` (checkers.dfy): the three checkers.
  - Each is written as a method that updates the registry (and, for the
    probe, the temporary-file handles).
  - Each method is proved to perform exactly the writes of a trace function.
  - What the source promises is proved about those trace functions.
- `HostCycle` (hostcycle.dfy): one run of the `checker()` coroutine.
  - Connection and SFTP-start outcomes.
  - Host-health states.
  - Folder fan-out.
  - Closing the connection.
- `Startup` (startup.dfy): the exit-code flow of `main`.

Everything outside the exporter's own code is a parameter of the model:

- the network outcomes: the connection, the SFTP client start, directory
  listings, and the put / get / remove outcomes;
- the clock (`now`);
- `dateparser.parse`, as a function from a date expression to a date;
- `strftime`, as a function of a date and a template;
- the `uuid4` token.

Points where the code behaves in a way one might not expect:

- **The attributes checker never reports `.` or `..`.** It calls the same
  matcher as the noop checker (sftp-exporter.py:131), and the matcher rejects
  both names (sftp-exporter.py:78-79). `SelectMembers` proves this for every
  checker.
- **Folder dates are resolved once per folder.** `prepare_folder` calls
  `dateparser.parse` itself, and it runs once for every folder of a cycle
  (sftp-exporter.py:245-250, 278). So each folder carries its own date parser
  (`FolderEnv.folderParse`).
- **Pattern dates are resolved once per listed name.** With smart pattern
  dating the matcher parses its base date on every call
  (sftp-exporter.py:82). The i-th matcher call of a listing therefore sees
  `DateEnv.parseAt(i)`.
- **Only some connection failures are recorded** (sftp-exporter.py:266-288):
  - an `asyncssh.Error` gives ConnectError;
  - `socket.gaierror` gives DNSError;
  - `SFTPError` from `start_sftp_client` gives SFTPError;
  - any other `OSError` (refused, unreachable, timed out) escapes
    `checker()` and records nothing (`Connect.Unreachable`).
- **A listing failure after Ok also records ConnectError.** Ok is recorded
  before the folder checks start (sftp-exporter.py:275-282). A listing that
  raises `SFTPError` escapes `gather` and reaches `except asyncssh.Error`, so
  the same cycle also records ConnectError (see `CycleTrace`).

## Model

| member | source | states |
|---|---|---|
| Metrics.WrittenKeys | sftp-exporter.py:41-67 | a key is in the registry after a trace iff some write of the trace is to that key |
| Metrics.WrittenLastWins | sftp-exporter.py:41-67 | the value a key holds is the one of the last write to it (last-write-wins gauge) |
| Metrics.WrittenAppend | sftp-exporter.py:41-67 | running two traces one after the other equals their union, the later winning |
| Metrics.Untouched | sftp-exporter.py:41-67 | a key no write mentions keeps its old value or stays absent |
| Metrics.Registry.constructor | sftp-exporter.py:41-67 | the gauges start with no samples |
| Metrics.Registry.Set | sftp-exporter.py:110 | `labels(...).set(v)` upserts exactly the sample of that gauge and label tuple, with as many labels as the gauge declares |
| Glob.SetEnd | sftp-exporter.py:87 | the end of a bracket set is the first `]` at or after the given index, or the end of the pattern |
| Glob.OneToken | sftp-exporter.py:87 | a single non-star token matches exactly the one-character strings it admits |
| Glob.PlainTokens | sftp-exporter.py:87 | a pattern without wildcards or brackets becomes its characters as literals |
| Glob.MatchLiterals | sftp-exporter.py:87 | literals followed by more tokens match iff the name starts with them and the rest matches |
| Glob.PlainPattern | sftp-exporter.py:87 | a pattern without wildcards matches exactly itself (case-sensitive) |
| Glob.AnyRunMatchesAll | sftp-exporter.py:87 | a lone star token matches every string |
| Glob.StarMatchesAll | sftp-exporter.py:87 | `*` matches every name |
| Glob.QuestionMarkMatchesOneChar | sftp-exporter.py:87 | `?` matches exactly the one-character names |
| Glob.AnyRunThenLiterals | sftp-exporter.py:87 | a star followed by literals matches exactly the strings ending in them |
| Glob.StarSuffix | sftp-exporter.py:87 | `*x` with plain `x` (such as `*.txt`) matches exactly the names ending in `x` |
| Glob.PrefixStar | sftp-exporter.py:87 | `x*` with plain `x` matches exactly the names starting with `x` |
| Glob.SinglesItems | sftp-exporter.py:87 | a bracket body of single characters covers exactly its characters |
| Glob.SetPattern | sftp-exporter.py:87 | `[seq]` matches exactly the one-character names whose character is in seq |
| Glob.NegatedSetPattern | sftp-exporter.py:87 | `[!seq]` matches exactly the one-character names whose character is not in seq |
| Glob.UnclosedBracketIsLiteral | sftp-exporter.py:87 | a `[` with no `]` after it (with or without `!`) is a literal `[`, and the rest of the pattern is read as usual |
| Glob.FixedLength | sftp-exporter.py:87 | a token list without `*` matches exactly the names of its length whose every character its token admits |
| Glob.AnyRunSkips | sftp-exporter.py:87 | `*` followed by tokens matches a name iff those tokens match some suffix of it |
| Glob.StarPrefix | sftp-exporter.py:87 | `*x` matches a name iff `x` matches some suffix of it |
| Paths.Join | sftp-exporter.py:171 | the joined path ends in the second part; an absolute second part replaces the first; otherwise it is the first part, then `/` exactly when the first part is non-empty and does not end in `/`, then the second part |
| Paths.BasenameAfterSlash | sftp-exporter.py:171 | the basename of a directory ending in `/` plus a slash-free name is that name |
| Paths.BasenameOfJoin | sftp-exporter.py:171 | a slash-free probe file name is recovered from the joined remote path |
| FileMatch.AnyMatch | sftp-exporter.py:87 | true iff some pattern of the list glob-matches the name |
| FileMatch.FileMatcher | sftp-exporter.py:70-88 | `.` and `..` are never accepted, whatever the patterns and the smart-date flag |
| FileMatch.MatcherVerbatim | sftp-exporter.py:78-87 | without smart dating, any other name is accepted iff some pattern matches it verbatim |
| FileMatch.MatcherSmart | sftp-exporter.py:78-87 | with smart dating, any other name is accepted iff some pattern rendered through the date resolved during the call matches it |
| FileMatch.DefaultPatternsAcceptAll | sftp-exporter.py:217 | the default pattern list `['*']` accepts exactly the names other than `.` and `..` |
| FileMatch.NoPatternsAcceptNothing | sftp-exporter.py:87 | an empty pattern list accepts nothing, dated or not |
| FileMatch.SelectIsAcceptedInOrder | sftp-exporter.py:108 | the filtered listing is the listing read at the accepted positions, which increase, and a position is among them iff the matcher accepts its name on that call |
| FileMatch.SelectMembers | sftp-exporter.py:108 | an item is kept iff it is listed at a position whose matcher call accepts it; a kept name is never `.` or `..` |
| Resources.Handles.constructor | sftp-exporter.py:172-202 | no handle is live at first |
| Resources.Handles.Acquire | sftp-exporter.py:172 | a new handle, different from every live one, becomes live |
| Resources.Handles.Release | sftp-exporter.py:197 | a live handle stops being live and nothing else changes |
| Config.CheckerByName | sftp-exporter.py:229-233 | a checker name resolves iff it is `noop`, `attributes` or `put_get_del` |
| Config.Check | sftp-exporter.py:205-233 | an accepted entry has exactly one credential |
| Config.CheckAcceptsIff | sftp-exporter.py:211-233 | an entry is accepted iff host truthy, port (22 when absent) an int, exactly one of password / key file truthy, checker (noop when absent) one of the three |
| Config.CheckReportsFirstFailure | sftp-exporter.py:221-233 | each of the five rejections (host, port, both credentials, no credential, checker) is reported iff its assertion is the first that fails, in source order |
| Config.CheckAppliesDefaults | sftp-exporter.py:212-219 | absent keys take port 22, username sftp, folders ['www'], patterns ['*'], timeout 900, checker noop, known-hosts validation off, base dates 'today' |
| Config.ConnectKwargs | sftp-exporter.py:255-265 | host, port and username always; password only if truthy; client_keys = [key file] only if given; the trusting client factory iff validation is off; for an accepted entry exactly one credential key |
| Checkers.LastSeenTraceEffect | sftp-exporter.py:109-110 | the last-seen writes set exactly the keys (folder, name, host) of the matched names, each to `now` |
| Checkers.NoopWritesExactlyMatched | sftp-exporter.py:107-111 | `noop_checker` writes the last-seen sample of exactly the listed names the matcher accepts, all with value `now` |
| Checkers.NoopChecker | sftp-exporter.py:91-111 | returns the accepted names in listing order (None when listing raised) and performs exactly the last-seen writes |
| Checkers.EntryWritesEffect | sftp-exporter.py:132-138 | one matched entry sets its mtime, atime and size samples to its attributes |
| Checkers.AttributeTraceKeys | sftp-exporter.py:130-138 | the attribute writes set exactly the three keys of each matched file |
| Checkers.AttributeTraceLastEntryWins | sftp-exporter.py:130-138 | each matched file's gauges hold the attributes of its last listing entry |
| Checkers.AttributesWriteExactlyMatched | sftp-exporter.py:130-139 | `attributes_checker` writes exactly the three attribute keys of the entries the matcher accepts |
| Checkers.AttributesChecker | sftp-exporter.py:114-139 | returns the accepted entries in listing order (None when readdir raised) and performs exactly the attribute writes |
| Checkers.NoopTraceOnlyLastSeen | sftp-exporter.py:109-110 | the listing part writes only the last-seen gauge |
| Checkers.ProbeCapabilities | sftp-exporter.py:164-200 | the capability samples of the probe are keyed (host, username, folder, state) and all hold `now` |
| Checkers.PutFailureWritesOnlyPutError | sftp-exporter.py:176-200 | if put fails, the only capability sample is put Error; get and del stay unset |
| Checkers.GetFailureSkipsDelete | sftp-exporter.py:177-195 | if put succeeds and get fails, exactly put Ok and get Error are written and del stays unset |
| Checkers.ReadBackDecidesGetState | sftp-exporter.py:181-191 | if get succeeds, get is Ok iff the content read back equals the content written, else Corrupted; del is written Ok or Error either way |
| Checkers.RoundTripSuccess | sftp-exporter.py:158-191 | a faithful server yields exactly put, get and del Ok |
| Checkers.ProbeStepOrder | sftp-exporter.py:176-200 | the probe writes put first, get only after put Ok, del only after get returned: one, two or three writes, each at `now` with the folder as third label |
| Checkers.DefaultProbeFile | sftp-exporter.py:158-171 | without `check_file_name` the remote probe file is `.sftp-exporter-health-check` inside the folder |
| Checkers.FreshTokenDetectsStaleCopy | sftp-exporter.py:159-184 | without `check_file_contents` the content is the fresh token, so a read-back of content from another token records get Corrupted |
| Checkers.ConfiguredContentsIgnoreToken | sftp-exporter.py:159-160 | with `check_file_contents` the expected content is that value and the probe does not depend on the token |
| Checkers.WriteReadDelete | sftp-exporter.py:171-202 | performs exactly the probe writes; both temporary files are removed on every path (live set unchanged), two created when put succeeded, one otherwise |
| Checkers.PutGetDelChecker | sftp-exporter.py:142-202 | fails iff the listing raised; remote file is `join(folder, check_file_name or default)`; performs the listing writes then the probe writes; every temporary file is removed |
| HostCycle.Names | sftp-exporter.py:107 | the names of a listing, one per entry in order |
| HostCycle.ListingFailedAmongIff | sftp-exporter.py:276-283 | a failure is counted among the first n folders iff one of them has no listing |
| HostCycle.FolderLabelIsPrepared | sftp-exporter.py:245-250 | every sample a folder check writes carries as folder label the configured folder, rendered through the parsed base date only with smart folder dating |
| HostCycle.CheckFolder | sftp-exporter.py:278-279 | runs the configured checker on the prepared folder; fails iff its listing raised; temporary files released |
| HostCycle.CheckFolders | sftp-exporter.py:276-282 | every folder is checked, in order; reports a failure iff some listing raised |
| HostCycle.StartedCycle | sftp-exporter.py:274-285 | records Ok, runs the folder checks, then records ConnectError iff some listing raised |
| HostCycle.RunCycle | sftp-exporter.py:252-292 | performs exactly the cycle's writes; the trusting client factory is passed iff validation is off; a connection is opened iff connect succeeds and is always closed |
| HostCycle.LastSeenTraceNoHostUp | sftp-exporter.py:109-110 | the last-seen writes never touch `sftp_host_up` |
| HostCycle.AttributeTraceNoHostUp | sftp-exporter.py:132-138 | the attribute writes never touch `sftp_host_up` |
| HostCycle.FolderTraceNoHostUp | sftp-exporter.py:91-202 | no checker writes `sftp_host_up` |
| HostCycle.FoldersTraceNoHostUp | sftp-exporter.py:276-282 | the folder checks together never write `sftp_host_up` |
| HostCycle.FoldersOnlyAfterOk | sftp-exporter.py:274-282 | any folder sample of a cycle means connection and SFTP client came up, and the cycle's first write is host Ok |
| HostCycle.HostUpStates | sftp-exporter.py:273-288 | every host-health sample is for this host and user, in one of Ok, SFTPError, ConnectError, DNSError |
| HostCycle.OkIffStarted | sftp-exporter.py:270-275 | Ok is recorded iff both the connection and the SFTP client came up |
| HostCycle.DnsFailureOnlyRecordsDnsError | sftp-exporter.py:286-288 | a name that does not resolve leaves exactly one sample, DNSError at `now`, and no folder sample |
| HostCycle.UnreachableRecordsNothing | sftp-exporter.py:267-292 | an `OSError` other than a resolution failure records nothing |
| HostCycle.ListingFailureRecordsConnectError | sftp-exporter.py:276-285 | a started cycle records ConnectError iff some folder listing raised |
| HostCycle.HostStatesRecorded | sftp-exporter.py:266-292 | a cycle leaves the host in exactly the states its outcome calls for (nothing, DNSError, ConnectError, SFTPError, or Ok plus ConnectError iff a listing raised), each at `now` |
| Startup.LoadAndServe | sftp-exporter.py:313-349 | missing file: exit 1; YAML error: exit 2; with skip: exit 0, serving, the accepted entries started; without: exit 0 and serving if all are accepted, else exit 3 at the first rejected entry with the entries before it started and no server |
| Startup.FirstRejectedIsFirst | sftp-exporter.py:334-343 | the reported position is rejected and every entry before it is accepted; none reported means all accepted |
| Startup.FirstRejectedAt | sftp-exporter.py:334-343 | a rejected entry preceded only by accepted ones is the first rejected |
| Startup.NoneRejected | sftp-exporter.py:334-347 | when every entry is accepted, none is reported |
| Startup.AcceptedMembers | sftp-exporter.py:334-340 | exactly the settings of accepted entries are started |
| Startup.AllAcceptedStartsEvery | sftp-exporter.py:334-336 | when every entry is accepted, one loop is started per entry, in file order |
| Startup.SomeRejectedIff | sftp-exporter.py:334-343 | a first rejected position exists iff some entry fails validation |

## Left out

- Network I/O (asyncssh `connect`, `start_sftp_client`, `listdir`, `readdir`, `put`, `get`, `remove`): these are foreign calls. The model takes their outcomes as inputs (`Connect`, `SftpStart`, a listing or None, `Probe`).
- asyncio scheduling (`checker_loop`, `ensure_future`, `asyncio.sleep(timeout)`, cycles overlapping when one outlasts the interval): this is concurrency. The configured `timeout` is kept in `HostSettings` but drives nothing.
- HostCycle.CheckFolders: the checks that `gather` runs concurrently are modelled one after another, in folder order, all of them to the end. In the code, a listing failure propagates out of `gather` while sibling checks are still running, and the following `conn.close()` can cut them short. The interleaving of the samples of different folders is not modelled either.
- Checkers.AttributesChecker: the attributes of a `readdir` entry are always present in the model. In asyncssh they are optional. A missing mtime, atime or size makes `.set(None)` raise `TypeError` partway through the loop, after the earlier samples are written. That error is not an `asyncssh.Error`, so it leaves `checker()` without a ConnectError sample, and this path is not modelled.
- `dateparser.parse`, `strftime`, `time.time` and `uuid.uuid4().hex`: they become parameters. The case where `dateparser.parse` returns None (so `strftime` raises) is not modelled.
- The `re.error` that older Python versions raise for a reversed bracket range such as `[z-a]`: this depends on the Python version. The model follows current versions, where such a range matches nothing.
- `tempfile.mkstemp`, `os.fdopen` and `os.remove` as file-system effects: the model keeps only the live handles. `filecmp.cmp` is modelled as equality of the written and read-back contents. Its shallow stat-signature shortcut is left out.
- The YAML loading and the `string.Template` substitution of environment variables. A reference to an undefined variable makes `substitute` raise `KeyError`, and that crash is not modelled. A document that is not a mapping, a `checks` value that is not a list, and an entry that is not a mapping are not modelled either.
- Config.Check: YAML values are typed as in the documented configuration. A YAML null for a key read with a default, or a truthy non-boolean for a flag, is outside the model. So is an entry key named `callback`, which would clash with the positional argument of `check`. An entry with `check_file_contents: null` makes the probe try to write None, and that is left out.
- `_trusting_client` and the `SSHTrustingClient` subclass: they are foreign wrappers. Only the choice to pass the factory is modelled.
- The aiohttp `/metrics` server, argparse, logging and the Prometheus client internals: these are I/O and foreign code. Serving is a flag, and gauges are the map upsert of `Registry.Set`.
