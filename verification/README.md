# go-scrcpy device-bridge client, modelled in Dafny

This project models the decision logic of the Go package `scrcpy`. The
package drives the Android Debug Bridge (`adb`) executable in two files:

- `adbutils.go` runs `adb version`, `adb devices`, `adb -s <id> shell getprop`,
  `adb -s <id> push` and `adb -s <id> shell <command>`. It decides each
  result from the process outcome and the captured standard output.
- `scrcpy.go` holds the session factory `NewScrcpy`. It checks adb, resolves
  the single device a session is for, fetches that device's properties and
  builds the session handle `ScrClient`.

The subprocess is not modelled. A `Runner` is a function from the executable
path and the argument list to `RunFailed(cause)` or `Ran(stdout)`; it stands
for `cmd.Run()` with standard output captured. A `Starter` stands for
`cmd.Start()` the same way. Both are parameters, so every property below holds
for every possible behaviour of adb.

The process-wide variable `adbPath` becomes an explicit `Config` value.
`SetAdbPath` returns the new configuration together with the check's outcome.

Modules:

- `GoStrings` (go_strings.dfy) defines Go's `strings.Index`, `Contains` and
  `Split` with a non-empty separator. `Split` is proved to be undone by `Join`,
  and `Join` by `Split` for one-character separators. Strings are sequences of
  characters. Go works on bytes, but every separator used here is ASCII.
- `Errors` (errors.dfy) holds the error kinds, `Result`, `Outcome` and
  `Option`.
- `AdbUtils` (adbutils.dfy) holds the wrappers and their output parsers.
- `Scrcpy` (scrcpy.dfy) holds the session factory.
- `Scenarios` (scenarios.dfy) works through concrete listings, getprop
  outputs and one whole auto-selecting session.

Modelling choices:

- `strings.Split(line, ": ")[1]` panics at run time when a property line
  holds no `": "`. The model reports this as the error value `IndexPanic`.
  A panic is not an error return, so `NewScrcpy` does not turn it into
  "can not connect to device". It hands the panic through unchanged.
- scrcpy.go:24 declares a fresh `err` inside the auto-select branch. The bare
  `return`s at scrcpy.go:26 and scrcpy.go:30 then refer to a shadowed result
  parameter, which the Go compiler rejects. `Scrcpy.NewScrcpy` models the
  evident intent:
  - a listing error is returned as is;
  - an empty listing is "no device connected".

  The literal reading is modelled separately (see Findings).

## Model

| member | source | states |
|---|---|---|
| `GoStrings.Index` | adbutils.go:25 | The result is -1 exactly when the needle occurs nowhere. Otherwise it is the position of an occurrence with no earlier occurrence. |
| `GoStrings.ContainsOccurs` | adbutils.go:25 | `Contains` holds exactly when the needle occurs at some position. |
| `GoStrings.Split` | adbutils.go:46 | A split has at least one piece. It has more than one exactly when the separator occurs. |
| `GoStrings.SplitPiecesLackSeparator` | adbutils.go:52 | No piece of a split contains the separator. |
| `GoStrings.JoinSplit` | adbutils.go:46 | Gluing the pieces back together with the separator gives the original string. |
| `GoStrings.SplitJoin` | adbutils.go:67 | Splitting a newline-joined list of lines without newlines gives back exactly those lines. |
| `GoStrings.SplitSecond` | adbutils.go:71 | The second piece starts right after the first separator and ends at the next separator or at the end of the string. |
| `AdbUtils.CheckAdb` | adbutils.go:17-29 | A run error is returned unchanged. A clean run passes exactly when the output holds the "Android Debug Bridge version" banner, and otherwise fails with "adb not found". |
| `AdbUtils.SetAdbPath` | adbutils.go:12-15 | The new path is installed whether or not the check that follows succeeds. The result passes exactly when adb at the new path runs and prints the banner. Otherwise it carries the run error, or "adb not found" after a clean run without the banner. |
| `AdbUtils.DefaultIsBareAdb` | adbutils.go:10-15 | Before any path is set, the configuration is the one `SetAdbPath("adb")` would install, and checking it runs that same bare executable name. |
| `AdbUtils.HeaderTestRedundant` | adbutils.go:49 | The comparison with the header line never changes the filter: a line is kept exactly when it contains "\tdevice". |
| `AdbUtils.DeviceLineState` | adbutils.go:49 | A line `name<TAB>state` is kept exactly when the state starts with "device". So "offline" and "unauthorized" lines are dropped. |
| `AdbUtils.DeviceId` | adbutils.go:52 | The identifier is a prefix of the line with no tab in it, followed by a tab or by the end of the line. |
| `AdbUtils.DeviceIdOfLine` | adbutils.go:52 | The identifier of `name<TAB>rest` is `name`. |
| `AdbUtils.DeviceIds` | adbutils.go:48-54 | The loop returns at most one identifier per line, and no identifier holds a tab. |
| `AdbUtils.DeviceLineIndices` | adbutils.go:48-51 | A reference list of the positions of the kept lines: increasing, each a kept line, and missing none. |
| `AdbUtils.DevicesFollowLineOrder` | adbutils.go:48-54 | The k-th identifier comes from the k-th kept line. Nothing is added, reordered or missed. |
| `AdbUtils.ParseDevices` | adbutils.go:46-55 | There are at most as many identifiers as lines minus one. |
| `AdbUtils.FirstLineIgnored` | adbutils.go:46-48 | The first line of the output is never inspected, even when it is a device line. |
| `AdbUtils.SingleLineYieldsNoDevices` | adbutils.go:46-55 | Output of one line, with or without a trailing newline, yields no devices and no error. This covers empty and header-only listings. |
| `AdbUtils.AdbGetDevices` | adbutils.go:38-56 | A run error is returned unchanged. A clean run always succeeds, with identifiers free of tabs. |
| `AdbUtils.PropValue` | adbutils.go:70-73 | Field 1 of a `": "` split exists exactly when the line holds `": "`. Otherwise indexing panics. The value never holds `": "` itself. |
| `AdbUtils.PropValueSpan` | adbutils.go:71 | The value is the text from just after the first `": "` up to the second `": "`, or to the end of the line. |
| `AdbUtils.PropValueOfPair` | adbutils.go:71 | The value of `key: value` is `value`. |
| `AdbUtils.PropValueStopsAtSeparator` | adbutils.go:71 | The value of `key: value: rest` is `value`, not everything after the first separator. |
| `AdbUtils.ScanLineFails` | adbutils.go:70-74 | One iteration fails exactly on a line that names a wanted key but holds no `": "`, and only by panicking. |
| `AdbUtils.ScanLineEffect` | adbutils.go:70-74 | A line that sets a property stores its value. Every other field is left alone, and so is the identifier. |
| `AdbUtils.ScanProps` | adbutils.go:68-75 | A successful scan leaves the identifier field empty; it is only set after the loop. |
| `AdbUtils.ScanPropsPanics` | adbutils.go:69-75 | The scan panics exactly when some line names a wanted key without a `": "`. Panicking is its only failure. |
| `AdbUtils.ScanPropsUnset` | adbutils.go:68-75 | A property that no line sets stays empty. |
| `AdbUtils.ScanPropsLastSetter` | adbutils.go:69-75 | A property holds the value of the last line that sets it. For the model this is the last line naming "ro.product.model" but not "ro.product.name". |
| `AdbUtils.ParseDeviceInfo` | adbutils.go:67-77 | A parsed record carries the queried identifier. Parsing fails only by the index panic. |
| `AdbUtils.ParseDeviceInfoFields` | adbutils.go:67-77 | In a parsed record a field is empty when no line sets it, and otherwise holds the value of the last line that sets it. |
| `AdbUtils.AdbGetDeviceInfo` | adbutils.go:59-78 | A run error is returned unchanged. A clean run gives a record carrying the queried identifier, or the index panic. |
| `AdbUtils.AdbPush` | adbutils.go:81-93 | The push passes exactly when the run is clean and the output holds "pushed". A run error is returned unchanged. A clean run without the marker fails with "failed to push file". |
| `AdbUtils.Wait` | adbutils.go:120 | Waiting passes exactly when the process exited without error. |
| `AdbUtils.AdbShellAsync` | adbutils.go:125-132 | A start error is returned unchanged. Otherwise it returns the started process without waiting. |
| `AdbUtils.AdbShell` | adbutils.go:116-122 | A start error is returned without waiting. Otherwise the result is exactly what waiting on the started process reports. |
| `Scrcpy.FirstDevice` | scrcpy.go:23-33 | Auto-selection hands back a listing error unchanged. It reports "no device connected" on an empty listing, and otherwise picks the first listed device. |
| `Scrcpy.NewScrcpy` | scrcpy.go:15-45 | A failed adb check is returned first. More than one serial gives "only one serial number is allowed". A single serial is the target. With none, the first listed device is the target. A successful handle carries the target, its fetched properties (whose identifier is the target), no process and an empty codec. |
| `Scrcpy.NewScrcpyAfterTarget` | scrcpy.go:34-44 | Once the target is known, a failed property query becomes "can not connect to device: <id>" and the underlying error is dropped. A parser panic passes through. A successful query gives the handle. |
| `Scrcpy.NewScrcpyAutoSelectErrors` | scrcpy.go:24-31 | With no serial, a listing run error is returned as is, and an empty listing gives "no device connected". |
| `Scrcpy.TooManySerialsConsultsOnlyVersion` | scrcpy.go:16-22 | With more than one serial the result depends on the version check alone. Neither the listing nor getprop is consulted. |
| `Scrcpy.ExplicitSerialSkipsListing` | scrcpy.go:23-35 | With exactly one serial the device listing is never consulted. |
| `Scrcpy.NewScrcpyAsWritten` | scrcpy.go:15-44 | The literal reading returns a failed adb check first and rejects more than one serial. A handle other than the zero handle carries the properties fetched for its own identifier. |
| `Scrcpy.AsWrittenAgreesElsewhere` | scrcpy.go:15-44 | The literal reading and the intended factory agree on every input except: no serial, a passing adb check, and a failed or empty listing. |
| `Scrcpy.ShadowedErrorIsLost` | scrcpy.go:24-30 | Under the literal reading, a failed or empty listing yields success with the empty handle. The intended factory reports an error. |
| `Scenarios.ListingKeepsOnlyAttachedDevices` | adbutils.go:46-55 | The listing "List of devices attached\nABC123\tdevice\nXYZ999\toffline\n" yields exactly ["ABC123"]. |
| `Scenarios.TwoLineListing` | adbutils.go:46-55 | For a header and two device-style lines, each line's name is reported exactly when that line is kept, in line order. |
| `Scenarios.GetpropNameAndModel` | adbutils.go:67-77 | The lines `[ro.product.name]: <name>` and `[ro.product.model]: <model>` give that product name and that model, for example "myphone" and "Pixel7". This holds for any values without `": "` or a newline, provided the model line does not also name "ro.product.name". |
| `Scenarios.AutoSelectsListedDevice` | scrcpy.go:15-45 | With no serial, a banner, a listing of one attached device and its getprop output, the session opens for that device with the parsed properties. |

## Left out

- The `exec.Command` / `Run` / `Start` / `Wait` machinery is operating-system process I/O. It is replaced by the `Runner` and `Starter` parameters and the `Process` record.
- `AdbForward` and `AdbForwardRemove` (adbutils.go:96-113) only hand back the run error of one invocation. They contain no decision logic to state properties about.
- The live `*exec.Cmd` handle returned by `AdbShellAsync`, and its lifetime, is process and resource management. A `Process` only records what a later wait reports, and the handle's `AliveCmd` field is always empty here.
- Concurrent access to the global `adbPath` is not modelled. The configuration is a value passed explicitly.
- Byte versus character strings: Go's `strings` functions work on bytes, and the model works on characters. Every separator and key involved is ASCII, so the results coincide on ASCII input. Multi-byte input is not modelled.
- The human-readable error texts are not carried. Each error kind is a distinct constructor of `Errors.Error`, and `CannotConnect` keeps the device identifier that its Go text includes.

## Findings

| source | as written | input that shows it | evidently intended | confidence | as-written member | corrected member |
|---|---|---|---|---|---|---|
| scrcpy.go:24-30 | `devices, err :=` declares a new `err` in the auto-select branch, so the bare returns refer to a shadowed result. The Go compiler rejects this. Read literally, the returns would hand back the outer `err`, still nil, together with the empty handle. | No serial, a passing adb check and an empty device listing: the literal reading reports success with an empty handle. | The listing error is returned, and an empty listing gives "no device connected". | not executed; the shadowing is visible in the text | `Scrcpy.NewScrcpyAsWritten`, `Scrcpy.ShadowedErrorIsLost`, `Scrcpy.AsWrittenAgreesElsewhere` | `Scrcpy.NewScrcpy`, `Scrcpy.NewScrcpyAutoSelectErrors` |
