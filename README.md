# suyac / morc command core, modelled in Dafny

This project models the command-line core of suyac (later renamed morc), a
project-based HTTP request templating tool. Three pieces of it are modelled:

- **`suyac send`** (`Send` module). First the flags become options. An empty
  project file path is rejected first, then the output flags are read, then
  each repeated `-V name:value` flag is split at its first colon into a
  one-time variable map. Then one request template is sent. It is looked up
  by its lower-case name and checked in a fixed order: it must exist, then
  have a method, then have a URL. Its capture specs are handed to the send
  in ascending order of their names. When history recording is on, one
  entry is appended to the project history.
- **`morc flows`** (`Flows` module). This covers the flow attribute keys
  (`NAME` only), their case-insensitive parsing, their human-readable
  names, and the flow listing. The listing prints `(none)` for a project
  without flows. Otherwise it prints one line per flow in ascending key
  order, `name:! n requests`, where the `!` marks a flow that cannot be
  executed and the `s` is dropped for exactly one step. The command checks
  the project file path and then always lists.
- **`cmdio`** (`CmdIO` module): `CountOf`, which prints a count with a
  singular or plural word, and `OnOrOff`.

Two helper modules support these. `Text` models the parts of Go's string
library the commands rely on: ASCII case mapping, `%d`, `%q`,
`strings.Join` and `strings.SplitN(s, ":", 2)`. `Sorting` models the order
`sort.Strings` produces and the sorted key list both commands build from a
Go map. Each formatter is paired with a reader that inverts it: `ParseInt`
for `%d`, `Unquote` for `%q`, `SplitFirst` for the colon split and
`ParseCount` for `CountOf`. Round-trip lemmas connect each pair.

Foreign calls are parameters of the methods that make them:

- `load` for `LoadProjectFromDisk`;
- `outputFlags` for the result of `gatherRequestOutputFlags`;
- `send` for `suyac.Send`;
- `persist` for `Project.PersistHistoryToDisk`;
- `isExecable` for `Project.IsExecableFlow`.

Where the source's own text and its code disagree, the model follows the
code:

- The flows command's help text (cmd/morc/commands/flows/flows.go:26-28,44)
  describes a remove/add/move engine for flow steps. In the source the step
  flags are only registered: `RunE` never applies them and always lists
  (cmd/morc/commands/flows/flows.go:87). Variable substitution and capture
  happen inside the foreign `suyac.Send`
  (cmd/suyac/commands/send.go:120).
- `CountOf`'s doc comment says the singular is used for "0 or 1". The
  code uses it only when the count is exactly 1
  (cmd/morc/cmdio/cmdio.go:99), and so does the model.
- A listing line has a colon after the flow name and before the `!`
  marker (cmd/morc/commands/flows/flows.go:120).

## Model

| member | source | states |
|---|---|---|
| CmdIO.OnOrOff | cmd/morc/cmdio/cmdio.go:71-76 | the label is "ON" exactly when the switch is on and "OFF" exactly when it is off |
| CmdIO.CountOfRoundTrip | cmd/morc/cmdio/cmdio.go:84-106 | CountOf's text is the decimal count, a space, then the word form; reading it back yields the count and the singular form exactly when the count is 1, so 0, negative counts and counts above 1 get the plural |
| CmdIO.CountOfDefaultForms | cmd/morc/cmdio/cmdio.go:85-96 | in CountOf, without suffixes the singular is the bare word and the plural is the word plus "s" |
| CmdIO.CountOfSuffixOverrides | cmd/morc/cmdio/cmdio.go:88-93 | the first suffix replaces the plural "s", the second replaces the empty singular suffix, and suffixes after the second change nothing |
| Flows.FlowKey.Human | cmd/morc/commands/flows/flows.go:146-153 | NAME reads "flow name"; any other key gives "unknown flow key " followed by the quoted key, which reads back as the key |
| Flows.FlowAttrKeyNames | cmd/morc/commands/flows/flows.go:167-173 | the names list has one entry per valid key, entry i is the name of key i, and it is the list AttrKeyNames the invalid-attribute error joins |
| Flows.ParseFlowAttrKeyAnyCase | cmd/morc/commands/flows/flows.go:175-178 | ParseFlowAttrKey succeeds exactly for the sixteen letter casings of "name", and then yields NAME |
| Flows.ParseFlowAttrKeyErrorListsKeys | cmd/morc/commands/flows/flows.go:179-180 | ParseFlowAttrKey's error for any other text contains the name of every valid key |
| Flows.ParseFlowAttrKeyRoundTrip | cmd/morc/commands/flows/flows.go:155-178 | for every valid key, ParseFlowAttrKey of FlowKey.Name() gives back that key |
| Flows.FlowLineIsCountOf | cmd/morc/commands/flows/flows.go:110-120 | the step count part of a listing line is exactly CountOf(n, "request") |
| Flows.FlowLineReadsBack | cmd/morc/commands/flows/flows.go:110-120 | a line starts with the flow's name and a colon, has '!' next exactly when the flow is not execable, and its rest reads back as the step count with "request" for one step and "requests" otherwise |
| Flows.ListingOneLinePerFlow | cmd/morc/commands/flows/flows.go:97-121 | a project with flows lists exactly one line per flow, every flow's line is present, and the line of a smaller key comes before the line of a larger key |
| Flows.ListFlows | cmd/morc/commands/flows/flows.go:91-125 | the lines printed are "(none)" for no flows, else the line of each flow in ascending key order |
| Flows.RunFlowsCommand | cmd/morc/commands/flows/flows.go:46-88 | an empty project file path is an error; otherwise a load error is returned, or the listing is printed, whatever step or creation flags were given |
| Sorting.SortedNames | cmd/morc/commands/flows/flows.go:100-105 | collecting a map's keys and sorting them yields the unique strictly ascending list of exactly those keys |
| Sorting.SortedUnique | cmd/suyac/commands/send.go:111-115 | two strictly ascending lists of the same names are equal, so the sorted order does not depend on map iteration order |
| Send.FirstMalformedVar | cmd/suyac/commands/send.go:64-68 | finds the first var flag without a ':'; all flags before it have one |
| Send.VarFlagSplitsAtFirstColon | cmd/suyac/commands/send.go:65-69 | a flag splits at its first ':': the name is the text before it, the value everything after, even an empty value or one with more colons |
| Send.VarsOfNames | cmd/suyac/commands/send.go:63-71 | the variables set are exactly the names of the flags |
| Send.VarsOfLastWins | cmd/suyac/commands/send.go:63-71 | when several flags name one variable, the last of them gives its value |
| Send.ParsedVarsFailsIffMalformed | cmd/suyac/commands/send.go:64-68 | parsing the var flags fails exactly when some flag has no ':' |
| Send.ParsedVarsFailsOnMalformed | cmd/suyac/commands/send.go:64-68 | the error names the first flag without ':' and its 1-based position |
| Send.ParseVarFlags | cmd/suyac/commands/send.go:61-72 | the flag loop yields no map for no flags, the error for the first malformed flag, else the map of the flags |
| Send.SendFlagsToOptions | cmd/suyac/commands/send.go:47-75 | the options are checked in order: project file path, then output flags, then var flags |
| Send.EmptyProjectFileFirst | cmd/suyac/commands/send.go:50-53 | an empty project file path is the error, whatever the other flags hold |
| Send.Validate | cmd/suyac/commands/send.go:85-100 | a template is accepted exactly when its lower-case name exists and it has a method and a URL; the errors come in that order |
| Send.ValidateIgnoresCase | cmd/suyac/commands/send.go:85-89 | names that differ only in letter case select the same template and fail the same way |
| Send.OrderedCapturesCoverAll | cmd/suyac/commands/send.go:111-118 | the send receives as many capture specs as the template has, every spec among them, and the spec of a smaller name comes before the spec of a larger name |
| Send.SendOnlyValidTemplates | cmd/suyac/commands/send.go:86-120 | the send is reached exactly when the project loads and the template passes validation, with the template's method and URL, "$" as the variable symbol and the one-time variables |
| Send.HistoryGrowsByOne | cmd/suyac/commands/send.go:129-143 | with recording on, a successful send persists the old history unchanged plus one entry at the end with the template name and the result's times, request, response and captures, and the persister's error is the command's error; otherwise nothing is persisted |
| Send.InvokeSend | cmd/suyac/commands/send.go:78-144 | the command's load, validation, capture ordering, send, history append and persisting behave as SendSpec describes |
| Send.RunSendCommand | cmd/suyac/commands/send.go:37-44 | a flag error is returned without loading or sending; otherwise the send proceeds with the parsed options |

## Left out

- Loading the project, persisting its history, `gatherRequestOutputFlags`, `suyac.Send` and `IsExecableFlow` are foreign calls. They are parameters. Variable substitution, capture extraction and HTTP transport happen inside `suyac.Send`.
- Request and response snapshots, header maps, bodies and capture specs are carried through unread. Timestamps are plain integers.
- Case mapping is ASCII only. Go's `strings.ToLower` and `strings.ToUpper` also map non-ASCII letters.
- `%q` is modelled for `\`, `"`, newline, tab and carriage return. Go also escapes other control characters and non-printable code points.
- `sort.Strings` sorts the slice in place. The model builds the sorted list by insertion and states only its result.
- Go map iteration order is random. The model collects keys in an unspecified order and proves the sorted result does not depend on it.
- `sendFlagsToOptions` returns a partly filled options value together with an error. The caller discards it, so the model returns only the error.
- The flow-step remove/add/move engine is not modelled. The source only registers its flags and never applies them.
- The `flowAction` enumeration and `flowOptions.action` field are not modelled. Nothing in the source reads them.
- cmd/suyac/commands/init.go is not part of this model. Apart from a default name and an empty-name check, it only writes a new project to disk.
- cmd/morc/commands/send_test.go is not part of this model. It is an integration test against a live HTTP server.
- The stream printing methods of `cmdio.IO`, `cmdio.From`, the global HTTP client, cobra flag registration and `init` functions are I/O and wiring.
