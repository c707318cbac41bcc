# Firewall control plane: a Dafny model

This project models the control plane of a small XDP/eBPF port firewall:
an HTTP server (`server.js`) that keeps a record of configured ports in
`data.json`, reads the live port list from `firewall.conf`, runs the
filtering program `firewall.py` (with `sudo` when it touches the kernel),
classifies its `--status` output as ONLINE or OFFLINE, and serves the tail
of its log.

The model has these parts:

- `Text`: JavaScript's `trim` (the ECMAScript white-space set), `split` on
  one character, and `startsWith`.
- `Numbers`: `Number(s)` on decimal strings and `String(n)` on port numbers.
- `ConfigReader`: `readFirewallPorts`. It finds the first `default_ports`
  and `custom_ports` lines, takes the text between the first and the second
  `=`, splits it on commas, trims the entries and drops the empty ones. It
  then keeps the integer values and returns their union, without repeats,
  in ascending order.
- `ConfigExamples`: the reader on a concrete two-line configuration.
- `ProcessController`: which command `execFirewall` runs, the error text of
  a failed run, and `getFirewallStatus`.
- `StateStore`: the persisted record and the defaults that replace a
  missing or corrupt one.
- `Logs`: the last 100 non-blank log lines.
- `Server`: every API handler. The stateful ones sit in the class
  `ControlPlane`, whose field `persisted` is the content of `data.json`.
  The handlers that do not touch `data.json` are functions.

Nothing outside the server's own code is modelled. Each run of the
filtering program is an `ExecResult` parameter: its output, or its failure.
The configuration and log files are `Option<string>` parameters, where None
means the file cannot be read. The clock is a `now` parameter. Each handler
returns the invocations it made, in order, next to its response. This lets
the contracts say, for example, that a rejected port change never runs
`--add`.

Three behaviours of `server.js` worth knowing when reading the model:

- `/api/firewall/start` awaits `--run` (server.js:166), and `execFile`
  reports only once the process has exited (server.js:69). While the filter
  runs, the request stays unanswered. When it ends with a signal, such as
  the SIGTERM sent by stop, the answer is 500. When it exits cleanly, the
  answer is 200 "Firewall started", even though the filter has already
  stopped.
- When the configuration cannot be read, the recorded ports are reported in
  their stored order. The default list `[80, 443, 22, 25, 53]` is not
  ascending (`Server.FallbackKeepsStoredOrder`).
- `/api/firewall/stop` always answers 200. The kill reports its outcome
  through a callback that ignores it (server.js:183-188), so the handler's
  error path cannot be reached.

## Model

| member | source | states |
|---|---|---|
| Text.LeadingSpace | server.js:51 | the count covers only white space and stops at the first character that is not white space |
| Text.TrailingSpace | server.js:51 | the count covers only white space and stops at the last character that is not white space |
| Text.Trim | server.js:79 | the result is no longer than the input and neither of its ends is white space |
| Text.TrimShape | server.js:79 | any string is its trimmed form with white space on either side |
| Text.LeadingSpaceAfter | server.js:53 | white space put in front of a string adds exactly its length to the leading white space |
| Text.TrailingSpaceBefore | server.js:53 | white space put after a string adds exactly its length to the trailing white space |
| Text.TrimPadded | server.js:79 | trimming a string with no white space at either end, padded with white space on both sides, gives it back |
| Text.BlankIffAllSpace | server.js:199 | a line trims to empty exactly when it is all white space |
| Text.Split | server.js:53 | there is at least one part, and no part contains the separator |
| Text.JoinSplit | server.js:51 | joining the parts of a split with the separator gives back the original text |
| Text.SplitPrefix | server.js:51 | splitting text that starts with a separator-free prefix extends the first part and leaves the other parts as they were |
| Text.JoinAvoids | server.js:53 | a character other than the separator occurs in joined parts only if it occurs in one of them |
| Text.SplitJoin | server.js:51 | splitting joined parts that do not contain the separator gives back exactly those parts |
| Numbers.ParseNum | server.js:53-56 | `Number` then `Number.isInteger` on a non-empty entry: an integer exactly when the entry is a run of decimal digits, possibly after one `+` or `-`, and then its signed decimal value; every other text gives nothing. The empty text gives nothing here, unlike `Number('')`, but `filter(Boolean)` removes empty entries first |
| Numbers.Digit | server.js:115 | the character is a decimal digit with the given value |
| Numbers.ToDecimal | server.js:115 | `String(port)` is a non-empty run of digits; it has one digit exactly when the number is below 10, and a leading zero only for 0 |
| Numbers.DigitsOfDecimal | server.js:115 | the digits of `String(n)` have the value n |
| Numbers.DecimalRoundTrip | server.js:139 | `Number(String(n)) == n`: the port passed to the program is the port requested |
| ConfigReader.FirstDeclaring | server.js:51-52 | the index found is the first line whose trimmed form starts with the key; None means no line does |
| ConfigReader.DeclarationLine | server.js:51-52 | `find` returns the first line whose trimmed text starts with the key; when no line does, `\|\| ''` gives the empty line |
| ConfigReader.NoDeclarationLine | server.js:51-52 | without a declaring line, `find(...) \|\| ''` gives the empty line |
| ConfigReader.CleanEntries | server.js:53 | trimmed entries with the empty ones dropped: no more entries than pieces, and none of them empty |
| ConfigReader.CleanEntriesTrimmed | server.js:53 | every kept entry is non-empty and has no white space at either end |
| ConfigReader.Entries | server.js:53 | `parsePorts` before `Number`: every entry of a declaration line is non-empty and trimmed |
| ConfigReader.CleanEntriesMembers | server.js:53 | an entry is kept exactly when it is non-empty and is the trimmed form of some piece |
| ConfigReader.AscendingCons | server.js:56 | a value below every element of an ascending list can go at its front and the list stays ascending |
| ConfigReader.Insert | server.js:56 | inserting into an ascending list keeps it ascending and adds exactly that value |
| ConfigReader.EntryValues | server.js:53-56 | `Number` then `Number.isInteger`: every entry read as an integer contributes its value, and every value comes from such an entry |
| ConfigReader.EntryValuesCons | server.js:56 | the integer values of a list of entries are those of its head together with those of its rest |
| ConfigReader.DeclaredEntries | server.js:54-56 | the entries of both declaration lines, defaults first, are all non-empty and trimmed |
| ConfigReader.SortedUnion | server.js:56 | the merge is strictly ascending and holds exactly the accumulated values and the integer values of the entries |
| ConfigReader.ReadFirewallPorts | server.js:48-61 | None exactly when the file cannot be read; otherwise strictly ascending, so free of repeats, and holding exactly the integer entries of both declaration lines |
| ConfigReader.AscendingUnique | server.js:56 | two strictly ascending lists with the same members are equal, so the sorted merge is determined by its set |
| ConfigReader.DeclarationEntries | server.js:53 | a line `head=` (no `=` in head) followed by comma-separated pieces that contain no `=` and no `,` declares exactly the pieces' trimmed, non-empty texts, in order |
| ConfigReader.NoEqualsNoEntries | server.js:53 | a line without `=` (also the missing line `''`) declares no entries |
| ConfigExamples.TwoCleanEntries | server.js:53 | the comma-separated text `22,80` gives the two entries `22` and `80` |
| ConfigExamples.PairEntries | server.js:53 | a line `head= a,b` gives the entries a and b |
| ConfigExamples.DeclaresKey | server.js:51-52 | a line with no white space at its ends that starts with the key declares it |
| ConfigExamples.OtherKey | server.js:51-52 | such a line does not declare a key that starts with a different character |
| ConfigExamples.ExampleDeclarations | server.js:51-52 | in the example text, the first line is the default declaration and the second the custom one |
| ConfigExamples.ExampleLineEntries | server.js:53-55 | the line `default_ports = 22,80` gives the entries `22` and `80`, and `custom_ports = 80,443` gives `80` and `443` |
| ConfigExamples.ExampleDeclaredEntries | server.js:54-56 | the defaults' entries come first, then the custom ones |
| ConfigExamples.ExampleNumbers | server.js:53 | `Number` reads `22`, `80` and `443` as those integers |
| ConfigExamples.ExampleValues | server.js:53-56 | the integer values of `22,80,80,443` are exactly 22, 80 and 443 |
| ConfigExamples.ExampleSortedUnion | server.js:56 | merging `22,80,80,443` gives `[22, 80, 443]` |
| ConfigExamples.ExampleLines | server.js:51-52 | the two-line example text splits into its two lines |
| ConfigExamples.MergeExample | server.js:48-61 | the configuration `default_ports = 22,80` / `custom_ports = 80,443` reads as `[22, 80, 443]` |
| ProcessController.SelectCommand | server.js:63-67 | the program is `sudo` exactly when the arguments include `--add`, `--del` or `--run`, otherwise `python3`; without `sudo` the command line is always `python3 <script> <args>` |
| ProcessController.ErrorText | server.js:70 | the error of a failed run is its error stream when that is not empty, and the failure message when it is |
| ProcessController.ClassifyStatus | server.js:76-84 | `getFirewallStatus`: ONLINE exactly when the status query completes and its output trims to `ONLINE`; OFFLINE otherwise, failures included |
| ProcessController.OnlineOutput | server.js:76-84 | an ONLINE verdict means the query completed and printed ONLINE with only white space around it |
| ProcessController.PaddedOnline | server.js:79-80 | conversely, ONLINE with any white space around it, line breaks included, is classified ONLINE |
| ProcessController.FailureIsOffline | server.js:81-83 | a failed status query reads as OFFLINE, never as an error |
| StateStore.Heal | server.js:33-39 | `readState`: a stored record is returned as it is; a missing or unparseable one is replaced by the default ports stamped with the current time |
| StateStore.HealStable | server.js:32-41 | once a record has been healed, reading it again returns it unchanged whatever the time |
| Logs.NonBlankLines | server.js:199 | kept lines are lines of the log and are not blank; there are no more of them than lines |
| Logs.NonBlankAppend | server.js:199 | the blank-line filter distributes over concatenation |
| Logs.NonBlankKeeps | server.js:199 | every non-blank line of the log is kept |
| Logs.LastLines | server.js:199 | `.slice(-100)` keeps min(100, length) elements, and they are the end of the list |
| Logs.LastLinesAppend | server.js:199 | once the later part alone has 100 elements, what comes before it is cut off |
| Logs.Tail | server.js:199 | the result has min(100, number of non-blank lines) lines and is the end of the non-blank lines |
| Logs.TailIgnoresOlder | server.js:199 | once 100 recent non-blank lines exist, nothing written before them shows |
| Logs.TailOfShortLog | server.js:199 | a log with at most 100 non-blank lines is returned whole, without its blank lines |
| Server.IsValidPort | server.js:104 | the acceptance test of a requested port: `Number` gave an integer from 1 to 65535 (the same test guards DELETE at server.js:128); `ChangePort`'s contract is stated in terms of it |
| Server.PortArgs | server.js:115 | `['--add', String(port)]` or `['--del', String(port)]` (server.js:139): two arguments, the flag names the operation, the run needs `sudo`, and the port text reads back as the requested port |
| Server.ReportedPorts | server.js:92 | a readable configuration decides the ports (ascending, its integer entries, even when there are none); otherwise the recorded ports |
| Server.UndeclaredConfigReportsNothing | server.js:92 | a readable configuration with no declaration line reports an empty list and hides the recorded ports |
| Server.FallbackKeepsStoredOrder | server.js:37 | the fallback to the default record reports `[80, 443, 22, 25, 53]`, which is not ascending |
| Server.GetStatus | server.js:150-152 | always 200 with the classified status, after exactly one status query |
| Server.WellKnown | server.js:98-100 | always 200 with the fixed table of services |
| Server.StartInterface | server.js:163 | the requested interface when one is given and not empty, otherwise `lo` |
| Server.Start | server.js:155-177 | 409 exactly when the filter is ONLINE, and then only the status query is made; `--run` is invoked exactly when it is OFFLINE; 500 with the run's error when the run fails, after exactly the status query and `--run` on the chosen interface; 200 with the status queried afterwards and "Firewall started" when it succeeds |
| Server.Stop | server.js:179-192 | always 200 with the later status and "Firewall stopped"; kills by pattern, then queries the status, and never runs `--run` |
| Server.ReadLogs | server.js:195-204 | always 200; an unreadable log gives no lines and the advisory error; otherwise at most 100 lines, the tail of the log |
| Server.ControlPlane.constructor | server.js:13 | the control plane starts with the stored record as given |
| Server.ControlPlane.WriteState | server.js:43-45 | the record is replaced as a whole |
| Server.ControlPlane.ReadState | server.js:32-41 | returns the stored record, or the defaults stamped with the current time; the result is what is stored afterwards |
| Server.ControlPlane.GetState | server.js:87-96 | 200 with the reported ports, the record's timestamp and the live status; the only change is healing a missing record |
| Server.ControlPlane.ChangePort | server.js:102-148 | for both POST and DELETE: 400 for a port outside 1..65535 with no invocation; 409 while ONLINE after only the status query; 500 with the error text when `--add`/`--del` fails; in all three the record is untouched. On success only the timestamp changes, the ports stay as recorded, and the response has the ports read afterwards and the later status |

## Left out

- ParseNum: `Number` is modelled only on an optional sign followed by decimal digits. Hexadecimal, binary and octal literals, exponents and fractions with a zero fractional part (`80.0`), a trailing point (`80.`) and a leading point (`.0`) give nothing here, although `Number` reads them as integers (`80.` as 80, `.0` as 0).
- ParseNum: digit runs are read as exact unbounded integers. JavaScript rounds them to doubles, so above 2^53 neighbouring values such as `9007199254740992` and `9007199254740993` become the same number and merge into one port in the `Set` (server.js:56). A run beyond about 1.8e308 becomes `Infinity`, which `Number.isInteger` rejects, while the model still returns its value.
- ChangePort, StartInterface: the port arrives as an `Option<int>`, the outcome of `Number(...)`, and the interface as an `Option<string>`. Conversions of non-string JSON values are not modelled: `Number(true)` or an array for the port, and `String(req.body.iface)` (server.js:163), which turns `5` into `"5"` while `0` and `false` fall back to `lo`.
- ReadState: a `data.json` that parses but has the wrong shape, for example without `ports`, is not modelled. A record is either well formed or missing.
- Failures of `writeFileSync` are not modelled. In the port handlers such a failure would surface as a 500 answer.
- Concurrent requests and their interleavings are not modelled. Each handler runs atomically.
- The delays of 1000 ms and 500 ms before the final status queries are not modelled. The outcome of each later query is a separate parameter.
- The external program's effect on `firewall.conf` is not modelled. The configuration read after `--add`/`--del` is a parameter, so "an added port appears in the next state" is not a claim of this model.
- HTTP routing, JSON encoding, static file serving, `app.listen` and the `PORT` environment variable are not part of this model.
- The variable `firewallProc` is declared but never used, so it has no counterpart.
- Start: `run` is the outcome of `--run` after the process has exited. A filter that is still running has no outcome in the model, so the unanswered request this leaves is not represented.
- Stop: the result of `sudo pkill` is not modelled, because the handler ignores it.
