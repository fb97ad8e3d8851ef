/** The device-bridge client: each Go wrapper runs the adb executable once and
    decides its result from the process outcome and the captured standard
    output. The subprocess itself is not modelled; a `Runner` stands for "run
    this executable with these arguments and wait", a `Starter` for "start it
    without waiting".
 */
module AdbUtils {
  import opened GoStrings
  import opened Errors

  /** What `cmd.Run()` reports: an error, or normal exit with the captured
      standard output. */
  datatype RunOutcome = RunFailed(cause: string) | Ran(stdout: string)

  /** Runs the executable at the given path with the given arguments. */
  type Runner = (string, seq<string>) -> RunOutcome

  /** A started process; `exitError` is what a later `Wait()` reports. */
  datatype Process = Process(exitError: Option<string>)

  /** What `cmd.Start()` reports. */
  datatype StartOutcome = StartFailed(cause: string) | Started(process: Process)

  /** Starts the executable at the given path with the given arguments. */
  type Starter = (string, seq<string>) -> StartOutcome

  /** The process-wide configuration: the path of the adb executable. */
  datatype Config = Config(adbPath: string)

  const DefaultConfig := Config("adb")

  const Banner := "Android Debug Bridge version"
  const DevicesHeader := "List of devices attached"
  const DeviceMarker := "\tdevice"
  const Newline := "\n"
  const Tab := "\t"
  const PropSeparator := ": "
  const ProductNameKey := "ro.product.name"
  const ModelKey := "ro.product.model"
  const PushedMarker := "pushed"

  const VersionArgs: seq<string> := ["version"]
  const DevicesArgs: seq<string> := ["devices"]

  /** Argument lists of the adb invocations. */
  function GetpropArgs(deviceId: string): seq<string>
  {
    ["-s", deviceId, "shell", "getprop"]
  }

  function PushArgs(deviceId: string, local: string, remote: string): seq<string>
  {
    ["-s", deviceId, "push", local, remote]
  }

  function ShellArgs(deviceId: string, command: string): seq<string>
  {
    ["-s", deviceId, "shell", command]
  }

  // ---------------------------------------------------------------------------
  // Locating adb

  /** `CheckAdb`: runs `adb version`; a run error is returned as is, and a
      successful run passes exactly when the banner occurs in its output. */
  function CheckAdb(cfg: Config, run: Runner): (r: Outcome)
    ensures run(cfg.adbPath, VersionArgs).RunFailed? ==>
              r == Fail(ExecFailed(run(cfg.adbPath, VersionArgs).cause))
    ensures run(cfg.adbPath, VersionArgs).Ran? ==>
              (r == Pass <==> exists i :: OccursAt(run(cfg.adbPath, VersionArgs).stdout, Banner, i))
    ensures run(cfg.adbPath, VersionArgs).Ran? && r != Pass ==> r == Fail(AdbNotFound)
  {
    match run(cfg.adbPath, VersionArgs)
    case RunFailed(cause) => Fail(ExecFailed(cause))
    case Ran(out) => if !Contains(out, Banner) then Fail(AdbNotFound) else Pass
  }

  /** The configuration after `SetAdbPath`, with the error it returned. */
  datatype Configured = Configured(config: Config, check: Outcome)

  /** `SetAdbPath`: stores the path first, then checks adb at the new path. */
  function SetAdbPath(path: string, run: Runner): (r: Configured)
    ensures r.config.adbPath == path
    ensures r.check == Pass <==>
              run(path, VersionArgs).Ran? && Contains(run(path, VersionArgs).stdout, Banner)
    ensures run(path, VersionArgs).RunFailed? ==>
              r.check == Fail(ExecFailed(run(path, VersionArgs).cause))
    ensures run(path, VersionArgs).Ran? && r.check != Pass ==> r.check == Fail(AdbNotFound)
  {
    var cfg := Config(path);
    Configured(cfg, CheckAdb(cfg, run))
  }

  /** Until a path is set the wrapper uses the bare name "adb": the initial
      configuration is the one `SetAdbPath("adb")` would install, and it is
      checked by running that same executable. */
  lemma DefaultIsBareAdb(run: Runner)
    ensures SetAdbPath("adb", run).config == DefaultConfig
    ensures CheckAdb(DefaultConfig, run) == SetAdbPath("adb", run).check
  {
  }

  // ---------------------------------------------------------------------------
  // Listing devices

  /** The per-line filter of `AdbGetDevices`, written as the Go test reads:
      a line is skipped when it is the header or lacks the device marker. */
  predicate IsDeviceLine(line: string)
  {
    !(line == DevicesHeader || !Contains(line, DeviceMarker))
  }

  /** The header comparison never decides anything: the header holds no tab,
      so it cannot hold the device marker. */
  lemma HeaderTestRedundant(line: string)
    ensures IsDeviceLine(line) <==> Contains(line, DeviceMarker)
  {
    assert DevicesHeader[4] == ' ';
    assert forall k :: 0 <= k < |DevicesHeader| ==> DevicesHeader[k] != '\t';
    MissingCharNotContained(DevicesHeader, DeviceMarker, '\t');
  }

  /** `strings.Split(line, "\t")[0]`: the text before the first tab. */
  function DeviceId(line: string): (id: string)
    ensures |id| <= |line| && line[..|id|] == id
    ensures '\t' !in id
    ensures |id| < |line| ==> line[|id|] == '\t'
  {
    var id := Split(line, Tab)[0];
    SplitHead(line, Tab);
    SplitPiecesLackSeparator(line, Tab);
    ContainsChar(id, '\t');
    assert |id| < |line| ==> line[|id|] == '\t' by {
      if Index(line, Tab) >= 0 {
        assert line[Index(line, Tab)..Index(line, Tab) + 1] == Tab;
      }
    }
    id
  }

  /** The loop of `AdbGetDevices` over the lines it inspects: after each line
      the identifier of a device line has been appended. */
  function DeviceIds(lines: seq<string>): (ids: seq<string>)
    ensures |ids| <= |lines|
    ensures forall k :: 0 <= k < |ids| ==> '\t' !in ids[k]
  {
    if |lines| == 0 then []
    else
      var last := lines[|lines| - 1];
      DeviceIds(lines[..|lines| - 1]) + (if IsDeviceLine(last) then [DeviceId(last)] else [])
  }

  /** The positions of the device lines, in increasing order: a reference
      for which lines `DeviceIds` reports and in what order. */
  ghost function DeviceLineIndices(lines: seq<string>): (idx: seq<nat>)
    ensures forall k :: 0 <= k < |idx| ==> idx[k] < |lines| && IsDeviceLine(lines[idx[k]])
    ensures forall k, l :: 0 <= k < l < |idx| ==> idx[k] < idx[l]
    ensures forall i :: 0 <= i < |lines| && IsDeviceLine(lines[i]) ==> i in idx
  {
    if |lines| == 0 then []
    else
      var n := |lines| - 1;
      var init := DeviceLineIndices(lines[..n]);
      assert forall i :: 0 <= i < n ==> lines[..n][i] == lines[i];
      init + (if IsDeviceLine(lines[n]) then [n] else [])
  }

  /** The k-th identifier comes from the k-th device line: nothing else is
      reported, nothing is reordered and no device line is missed. */
  lemma {:induction false} DevicesFollowLineOrder(lines: seq<string>)
    ensures |DeviceIds(lines)| == |DeviceLineIndices(lines)|
    ensures forall k :: 0 <= k < |DeviceIds(lines)| ==>
              DeviceIds(lines)[k] == DeviceId(lines[DeviceLineIndices(lines)[k]])
  {
    if |lines| > 0 {
      var n := |lines| - 1;
      DevicesFollowLineOrder(lines[..n]);
      assert forall i :: 0 <= i < n ==> lines[..n][i] == lines[i];
    }
  }

  /** The parse of `adb devices` output: split into lines, drop the first
      line unconditionally, keep device lines. */
  function ParseDevices(out: string): (ids: seq<string>)
    ensures |ids| <= |Split(out, Newline)| - 1
  {
    DeviceIds(Split(out, Newline)[1..])
  }

  /** Splitting into lines peels off a first line that holds no newline. */
  lemma SplitFirstLine(first: string, rest: string)
    requires '\n' !in first
    ensures Split(first + Newline + rest, Newline) == [first] + Split(rest, Newline)
  {
    SplitConsChar(first, '\n', rest);
  }

  /** The first line is never inspected, whatever it holds. */
  lemma FirstLineIgnored(first: string, rest: string)
    requires '\n' !in first
    ensures ParseDevices(first + Newline + rest) == DeviceIds(Split(rest, Newline))
  {
    SplitFirstLine(first, rest);
  }

  /** The identifier of `name<TAB>rest` is `name`. */
  lemma DeviceIdOfLine(name: string, rest: string)
    requires '\t' !in name
    ensures DeviceId(name + Tab + rest) == name
  {
    SplitConsChar(name, '\t', rest);
  }

  /** A line `name<TAB>state` with a single tab is a device line exactly
      when its state starts with "device": "offline" and "unauthorized"
      lines are skipped. */
  lemma DeviceLineState(name: string, state: string)
    requires '\t' !in name && '\t' !in state
    ensures IsDeviceLine(name + Tab + state) <==> |state| >= 6 && state[..6] == "device"
  {
    var s := name + Tab + state;
    HeaderTestRedundant(s);
    ContainsOccurs(s, DeviceMarker);
    forall j | 0 <= j < |s| && j != |name| ensures s[j] != '\t' {
      if j < |name| {
        assert s[j] == name[j];
      } else {
        assert s[j] == state[j - |name| - 1];
      }
    }
    if |state| >= 6 && state[..6] == "device" {
      assert s[|name|..|name| + 7] == Tab + state[..6];
      assert OccursAt(s, DeviceMarker, |name|);
    }
    forall i | OccursAt(s, DeviceMarker, i) ensures |state| >= 6 && state[..6] == "device" {
      assert s[i] == s[i..i + 7][0] == '\t';
      assert i == |name|;
      assert s[i + 1..] == state;
      assert s[i + 1..i + 7] == s[i..i + 7][1..] == DeviceMarker[1..] == "device";
      assert state[..6] == s[i + 1..][..6] == s[i + 1..i + 7];
    }
  }

  /** Output of at most one line, or one line and a newline (an empty or
      header-only listing, or a lone device line) yields no devices. */
  lemma SingleLineYieldsNoDevices(first: string)
    requires '\n' !in first
    ensures ParseDevices(first) == []
    ensures ParseDevices(first + Newline) == []
  {
    ContainsChar(first, '\n');
    FirstLineIgnored(first, "");
    ContainsChar("", '\n');
    assert Split("", Newline) == [""];
    assert !Contains("", DeviceMarker);
  }

  /** `AdbGetDevices`: a run error is returned as is; otherwise the parsed
      identifiers, possibly none. */
  function AdbGetDevices(cfg: Config, run: Runner): (r: Result<seq<string>>)
    ensures run(cfg.adbPath, DevicesArgs).RunFailed? ==>
              r == Err(ExecFailed(run(cfg.adbPath, DevicesArgs).cause))
    ensures run(cfg.adbPath, DevicesArgs).Ran? ==> r.Ok?
    ensures r.Ok? ==> forall k :: 0 <= k < |r.value| ==> '\t' !in r.value[k]
  {
    match run(cfg.adbPath, DevicesArgs)
    case RunFailed(cause) => Err(ExecFailed(cause))
    case Ran(out) => Ok(ParseDevices(out))
  }

  // ---------------------------------------------------------------------------
  // Device properties

  datatype DeviceInfo = DeviceInfo(deviceId: string, productName: string, model: string)

  /** `strings.Split(line, ": ")[1]`, which panics when the line holds no
      separator. */
  function PropValue(line: string): (r: Result<string>)
    ensures r.Ok? <==> Contains(line, PropSeparator)
    ensures r.Err? ==> r.error == IndexPanic
    ensures r.Ok? ==> !Contains(r.value, PropSeparator)
  {
    var parts := Split(line, PropSeparator);
    SplitPiecesLackSeparator(line, PropSeparator);
    if |parts| < 2 then Err(IndexPanic) else Ok(parts[1])
  }

  /** The value runs from `start`, the end of the first separator, up to the
      second separator, or to the end of the line when there is no second
      one. The offset is a parameter pinned by the requires so that the
      solver sees one term for it. */
  lemma PropValueSpan(line: string, v: string, start: int)
    requires PropValue(line) == Ok(v)
    requires start == Index(line, PropSeparator) + |PropSeparator|
    ensures start + |v| <= |line|
    ensures line[start..start + |v|] == v
    ensures start + |v| < |line| ==> OccursAt(line, PropSeparator, start + |v|)
  {
    var sep := PropSeparator;
    PropValueIsSecondPiece(line, sep, v);
    SplitSecond(line, sep, start, v);
  }

  /** A value is the second piece of its line's split. */
  lemma PropValueIsSecondPiece(line: string, sep: string, v: string)
    requires sep == PropSeparator && PropValue(line) == Ok(v)
    ensures Index(line, sep) >= 0
    ensures |Split(line, sep)| > 1 && v == Split(line, sep)[1]
  {
  }

  /** Appending ':' cannot create a separator, since the separator's second
      character is not ':'. */
  lemma NoSeparatorAcrossColon(a: string)
    requires !Contains(a, PropSeparator)
    ensures !Contains(a + PropSeparator[..1], PropSeparator)
  {
    var t := a + PropSeparator[..1];
    forall j | 0 <= j ensures !OccursAt(t, PropSeparator, j) {
      if j + 2 <= |a| {
        assert !OccursAt(a, PropSeparator, j);
        assert t[j..j + 2] == a[j..j + 2];
      } else if j + 2 == |t| {
        assert t[j..j + 2][1] == ':';
      }
    }
  }

  /** The value of `key: value` is `value`. */
  lemma PropValueOfPair(key: string, value: string)
    requires !Contains(key, PropSeparator) && !Contains(value, PropSeparator)
    ensures PropValue(key + PropSeparator + value) == Ok(value)
  {
    NoSeparatorAcrossColon(key);
    SplitCons(key, PropSeparator, value);
  }

  /** The value of `key: value: rest` is still `value`: the value is not
      "everything after the first separator" but stops at the second one. */
  lemma PropValueStopsAtSeparator(key: string, value: string, rest: string)
    requires !Contains(key, PropSeparator) && !Contains(value, PropSeparator)
    ensures PropValue(key + PropSeparator + value + PropSeparator + rest) == Ok(value)
  {
    NoSeparatorAcrossColon(key);
    NoSeparatorAcrossColon(value);
    var tail := value + PropSeparator + rest;
    assert key + PropSeparator + value + PropSeparator + rest == key + PropSeparator + tail;
    SplitCons(key, PropSeparator, tail);
    SplitCons(value, PropSeparator, rest);
  }

  /** The two properties the scan fills in. */
  datatype Prop = ProductName | Model

  /** Which lines set a property: the model test sits in the `else` branch
      of the product-name test, so a line naming both sets only the name. */
  predicate Sets(p: Prop, line: string)
  {
    match p
    case ProductName => Contains(line, ProductNameKey)
    case Model => !Contains(line, ProductNameKey) && Contains(line, ModelKey)
  }

  /** The field a property is stored in. */
  function Field(info: DeviceInfo, p: Prop): string
  {
    match p
    case ProductName => info.productName
    case Model => info.model
  }

  /** One iteration of the getprop loop. */
  function ScanLine(info: DeviceInfo, line: string): Result<DeviceInfo>
  {
    if Contains(line, ProductNameKey) then
      match PropValue(line)
      case Err(e) => Err(e)
      case Ok(v) => Ok(info.(productName := v))
    else if Contains(line, ModelKey) then
      match PropValue(line)
      case Err(e) => Err(e)
      case Ok(v) => Ok(info.(model := v))
    else Ok(info)
  }

  /** The getprop loop over `lines`, from an empty record; a panic on any
      line ends the scan. */
  function ScanProps(lines: seq<string>): (r: Result<DeviceInfo>)
    ensures r.Ok? ==> r.value.deviceId == ""
  {
    if |lines| == 0 then Ok(DeviceInfo("", "", ""))
    else
      match ScanProps(lines[..|lines| - 1])
      case Err(e) => Err(e)
      case Ok(info) => ScanLine(info, lines[|lines| - 1])
  }

  /** `i` is the last line of `lines` that sets `p`. */
  predicate IsLastSetter(lines: seq<string>, p: Prop, i: int)
  {
    && 0 <= i < |lines|
    && Sets(p, lines[i])
    && forall j :: i < j < |lines| ==> !Sets(p, lines[j])
  }

  /** A line the scan cannot take apart: it sets a property but holds no
      separator. */
  predicate Unparsable(line: string)
  {
    (Sets(ProductName, line) || Sets(Model, line)) && !Contains(line, PropSeparator)
  }

  /** One iteration fails exactly on an unparsable line, and only by
      panicking. */
  lemma ScanLineFails(info: DeviceInfo, line: string)
    ensures ScanLine(info, line).Err? <==> Unparsable(line)
    ensures ScanLine(info, line).Err? ==> ScanLine(info, line).error == IndexPanic
  {
  }

  /** The scan panics exactly when some line is unparsable, and the panic is
      the only way it fails. */
  lemma {:induction false} ScanPropsPanics(lines: seq<string>)
    ensures ScanProps(lines).Err? <==> exists i :: 0 <= i < |lines| && Unparsable(lines[i])
    ensures ScanProps(lines).Err? ==> ScanProps(lines).error == IndexPanic
  {
    if |lines| > 0 {
      var n := |lines| - 1;
      var init := lines[..n];
      ScanPropsPanics(init);
      assert forall i :: 0 <= i < n ==> init[i] == lines[i];
      if ScanProps(init).Ok? {
        ScanLineFails(ScanProps(init).value, lines[n]);
      } else {
        var i :| 0 <= i < n && Unparsable(init[i]);
        assert Unparsable(lines[i]);
      }
    }
  }

  /** One scanned line sets a property to its value when it is a setter for
      that property and leaves the property alone otherwise. */
  lemma ScanLineEffect(info: DeviceInfo, line: string, p: Prop)
    requires ScanLine(info, line).Ok?
    ensures Sets(p, line) ==> PropValue(line) == Ok(Field(ScanLine(info, line).value, p))
    ensures !Sets(p, line) ==> Field(ScanLine(info, line).value, p) == Field(info, p)
    ensures ScanLine(info, line).value.deviceId == info.deviceId
  {
  }

  /** A successful scan is a successful scan of all but the last line,
      followed by one more iteration. */
  lemma ScanPropsLast(lines: seq<string>)
    requires |lines| > 0 && ScanProps(lines).Ok?
    ensures ScanProps(lines[..|lines| - 1]).Ok?
    ensures ScanProps(lines) == ScanLine(ScanProps(lines[..|lines| - 1]).value, lines[|lines| - 1])
  {
  }

  /** After a successful scan a property that no line sets is empty. */
  lemma {:induction false} ScanPropsUnset(lines: seq<string>, p: Prop)
    requires ScanProps(lines).Ok?
    requires forall i :: 0 <= i < |lines| ==> !Sets(p, lines[i])
    ensures Field(ScanProps(lines).value, p) == ""
  {
    if |lines| > 0 {
      var n := |lines| - 1;
      var init := lines[..n];
      ScanPropsLast(lines);
      assert forall i :: 0 <= i < n ==> init[i] == lines[i];
      ScanPropsUnset(init, p);
      ScanLineEffect(ScanProps(init).value, lines[n], p);
    }
  }

  /** After a successful scan a property holds the value of the LAST line
      that sets it. */
  lemma {:induction false} ScanPropsLastSetter(lines: seq<string>, p: Prop, i: int)
    requires ScanProps(lines).Ok?
    requires IsLastSetter(lines, p, i)
    ensures PropValue(lines[i]) == Ok(Field(ScanProps(lines).value, p))
  {
    var n := |lines| - 1;
    var init := lines[..n];
    ScanPropsLast(lines);
    ScanLineEffect(ScanProps(init).value, lines[n], p);
    if i < n {
      assert IsLastSetter(init, p, i) by {
        assert forall j :: 0 <= j < n ==> init[j] == lines[j];
      }
      ScanPropsLastSetter(init, p, i);
      assert init[i] == lines[i];
    }
  }

  /** The parse of `adb shell getprop` output for `deviceId`. */
  function ParseDeviceInfo(deviceId: string, out: string): (r: Result<DeviceInfo>)
    ensures r.Ok? ==> r.value.deviceId == deviceId
    ensures r.Err? ==> r.error == IndexPanic
  {
    ScanPropsPanics(Split(out, Newline));
    match ScanProps(Split(out, Newline))
    case Err(e) => Err(e)
    case Ok(info) => Ok(info.(deviceId := deviceId))
  }

  /** The fields of a successful parse: a property no line sets is empty,
      otherwise it holds the value of the last line that sets it. */
  lemma ParseDeviceInfoFields(deviceId: string, out: string, p: Prop)
    requires ParseDeviceInfo(deviceId, out).Ok?
    ensures (forall i :: 0 <= i < |Split(out, Newline)| ==> !Sets(p, Split(out, Newline)[i])) ==>
              Field(ParseDeviceInfo(deviceId, out).value, p) == ""
    ensures forall i :: IsLastSetter(Split(out, Newline), p, i) ==>
              PropValue(Split(out, Newline)[i]) == Ok(Field(ParseDeviceInfo(deviceId, out).value, p))
  {
    var lines := Split(out, Newline);
    var info := ScanProps(lines).value;
    assert Field(ParseDeviceInfo(deviceId, out).value, p) == Field(info, p);
    if forall i :: 0 <= i < |lines| ==> !Sets(p, lines[i]) {
      ScanPropsUnset(lines, p);
    }
    forall i | IsLastSetter(lines, p, i)
      ensures PropValue(lines[i]) == Ok(Field(info, p))
    {
      ScanPropsLastSetter(lines, p, i);
    }
  }

  /** `AdbGetDeviceInfo`: a run error is returned as is, otherwise the parse
      of the output, stamped with the queried identifier. */
  function AdbGetDeviceInfo(cfg: Config, run: Runner, deviceId: string): (r: Result<DeviceInfo>)
    ensures run(cfg.adbPath, GetpropArgs(deviceId)).RunFailed? ==>
              r == Err(ExecFailed(run(cfg.adbPath, GetpropArgs(deviceId)).cause))
    ensures run(cfg.adbPath, GetpropArgs(deviceId)).Ran? ==> (r.Ok? || r == Err(IndexPanic))
    ensures r.Ok? ==> r.value.deviceId == deviceId
  {
    match run(cfg.adbPath, GetpropArgs(deviceId))
    case RunFailed(cause) => Err(ExecFailed(cause))
    case Ran(out) => ParseDeviceInfo(deviceId, out)
  }

  // ---------------------------------------------------------------------------
  // Pushing files and running shell commands

  /** `AdbPush`: passes exactly when the run succeeds and its output holds
      "pushed"; a clean run without the marker still fails. */
  function AdbPush(cfg: Config, run: Runner, deviceId: string, local: string, remote: string): (r: Outcome)
    ensures r == Pass <==>
              && run(cfg.adbPath, PushArgs(deviceId, local, remote)).Ran?
              && exists i :: OccursAt(run(cfg.adbPath, PushArgs(deviceId, local, remote)).stdout, PushedMarker, i)
    ensures run(cfg.adbPath, PushArgs(deviceId, local, remote)).RunFailed? ==>
              r == Fail(ExecFailed(run(cfg.adbPath, PushArgs(deviceId, local, remote)).cause))
    ensures run(cfg.adbPath, PushArgs(deviceId, local, remote)).Ran? && r != Pass ==> r == Fail(PushFailed)
  {
    match run(cfg.adbPath, PushArgs(deviceId, local, remote))
    case RunFailed(cause) => Fail(ExecFailed(cause))
    case Ran(out) => if !Contains(out, PushedMarker) then Fail(PushFailed) else Pass
  }

  /** `cmd.Wait()` on a started process. */
  function Wait(p: Process): (r: Outcome)
    ensures r == Pass <==> p.exitError.None?
  {
    match p.exitError
    case None => Pass
    case Some(cause) => Fail(ExecFailed(cause))
  }

  /** `AdbShellAsync`: starts `adb -s <id> shell <command>` and hands back
      the process without waiting for it. */
  function AdbShellAsync(cfg: Config, start: Starter, deviceId: string, command: string): (r: Result<Process>)
    ensures start(cfg.adbPath, ShellArgs(deviceId, command)).StartFailed? ==>
              r == Err(ExecFailed(start(cfg.adbPath, ShellArgs(deviceId, command)).cause))
    ensures start(cfg.adbPath, ShellArgs(deviceId, command)).Started? ==>
              r == Ok(start(cfg.adbPath, ShellArgs(deviceId, command)).process)
  {
    match start(cfg.adbPath, ShellArgs(deviceId, command))
    case StartFailed(cause) => Err(ExecFailed(cause))
    case Started(p) => Ok(p)
  }

  /** `AdbShell`: a start error is returned without waiting; otherwise the
      result is exactly what waiting on the started process reports. */
  function AdbShell(cfg: Config, start: Starter, deviceId: string, command: string): (r: Outcome)
    ensures start(cfg.adbPath, ShellArgs(deviceId, command)).StartFailed? ==>
              r == Fail(ExecFailed(start(cfg.adbPath, ShellArgs(deviceId, command)).cause))
    ensures start(cfg.adbPath, ShellArgs(deviceId, command)).Started? ==>
              r == Wait(start(cfg.adbPath, ShellArgs(deviceId, command)).process)
  {
    match AdbShellAsync(cfg, start, deviceId, command)
    case Err(e) => Fail(e)
    case Ok(p) => Wait(p)
  }
}
