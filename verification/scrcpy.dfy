/** The session factory: resolves the one device a mirroring session is for,
    fetches its properties and builds the session handle.
 */
module Scrcpy {
  import opened Errors
  import opened AdbUtils

  /** The session handle. `aliveCmd` and `avCodec` are filled in later by the
      mirroring set-up, which is not part of this model. */
  datatype ScrClient = ScrClient(
    deviceId: string,
    deviceInfo: DeviceInfo,
    aliveCmd: Option<Process>,
    avCodec: string)

  /** Auto-selection: the first listed device; a listing error is handed
      back, an empty listing is "no device connected". */
  function FirstDevice(cfg: Config, run: Runner): (r: Result<string>)
    ensures AdbGetDevices(cfg, run).Err? ==> r == Err(AdbGetDevices(cfg, run).error)
    ensures AdbGetDevices(cfg, run) == Ok([]) ==> r == Err(NoDevice)
    ensures r.Ok? ==> AdbGetDevices(cfg, run).Ok? && |AdbGetDevices(cfg, run).value| > 0
                      && r.value == AdbGetDevices(cfg, run).value[0]
  {
    match AdbGetDevices(cfg, run)
    case Err(e) => Err(e)
    case Ok(devices) => if |devices| == 0 then Err(NoDevice) else Ok(devices[0])
  }

  /** `NewScrcpy(serial...)`: checks adb, resolves the serial, fetches the
      device's properties and builds the handle. A failed property query is
      reported as "can not connect" with the underlying error dropped; a panic
      in the parser is not an error value and passes through unchanged. */
  function NewScrcpy(cfg: Config, run: Runner, serials: seq<string>): (r: Result<ScrClient>)
    ensures CheckAdb(cfg, run).Fail? ==> r == Err(CheckAdb(cfg, run).error)
    ensures CheckAdb(cfg, run) == Pass && |serials| > 1 ==> r == Err(OnlyOneSerial)
    ensures r.Ok? ==> CheckAdb(cfg, run) == Pass && |serials| <= 1
    ensures r.Ok? && |serials| == 1 ==> r.value.deviceId == serials[0]
    ensures r.Ok? && |serials| == 0 ==> Ok(r.value.deviceId) == FirstDevice(cfg, run)
    ensures r.Ok? ==> AdbGetDeviceInfo(cfg, run, r.value.deviceId) == Ok(r.value.deviceInfo)
    ensures r.Ok? ==> r.value.deviceInfo.deviceId == r.value.deviceId
    ensures r.Ok? ==> r.value.aliveCmd == None && r.value.avCodec == ""
  {
    match CheckAdb(cfg, run)
    case Fail(e) => Err(e)
    case Pass =>
      if |serials| > 1 then Err(OnlyOneSerial)
      else
        var target := if |serials| == 0 then FirstDevice(cfg, run) else Ok(serials[0]);
        match target
        case Err(e) => Err(e)
        case Ok(deviceId) =>
          match AdbGetDeviceInfo(cfg, run, deviceId)
          case Err(IndexPanic) => Err(IndexPanic)
          case Err(_) => Err(CannotConnect(deviceId))
          case Ok(info) => Ok(ScrClient(deviceId, info, None, ""))
  }

  /** Once a serial is resolved, the outcome is decided by the property
      query alone: a run error becomes "can not connect to device: <id>". */
  lemma NewScrcpyAfterTarget(cfg: Config, run: Runner, serials: seq<string>, deviceId: string)
    requires CheckAdb(cfg, run) == Pass
    requires (|serials| == 1 && deviceId == serials[0]) || (|serials| == 0 && FirstDevice(cfg, run) == Ok(deviceId))
    ensures run(cfg.adbPath, GetpropArgs(deviceId)).RunFailed? ==>
              NewScrcpy(cfg, run, serials) == Err(CannotConnect(deviceId))
    ensures AdbGetDeviceInfo(cfg, run, deviceId) == Err(IndexPanic) ==>
              NewScrcpy(cfg, run, serials) == Err(IndexPanic)
    ensures AdbGetDeviceInfo(cfg, run, deviceId).Ok? ==>
              NewScrcpy(cfg, run, serials)
                == Ok(ScrClient(deviceId, AdbGetDeviceInfo(cfg, run, deviceId).value, None, ""))
  {
  }

  /** With zero serials a listing error is handed back unchanged and an empty
      listing is "no device connected". */
  lemma NewScrcpyAutoSelectErrors(cfg: Config, run: Runner)
    requires CheckAdb(cfg, run) == Pass
    ensures run(cfg.adbPath, DevicesArgs).RunFailed? ==>
              NewScrcpy(cfg, run, []) == Err(ExecFailed(run(cfg.adbPath, DevicesArgs).cause))
    ensures AdbGetDevices(cfg, run) == Ok([]) ==> NewScrcpy(cfg, run, []) == Err(NoDevice)
  {
  }

  /** With more than one serial only the version check is consulted: the
      device listing and the property query never influence the result. */
  lemma TooManySerialsConsultsOnlyVersion(cfg: Config, run1: Runner, run2: Runner, serials: seq<string>)
    requires |serials| > 1
    requires run1(cfg.adbPath, VersionArgs) == run2(cfg.adbPath, VersionArgs)
    ensures NewScrcpy(cfg, run1, serials) == NewScrcpy(cfg, run2, serials)
  {
  }

  /** With exactly one serial the device listing is never consulted. */
  lemma ExplicitSerialSkipsListing(cfg: Config, run1: Runner, run2: Runner, serial: string)
    requires forall args :: args != DevicesArgs ==> run1(cfg.adbPath, args) == run2(cfg.adbPath, args)
    ensures NewScrcpy(cfg, run1, [serial]) == NewScrcpy(cfg, run2, [serial])
  {
    assert VersionArgs != DevicesArgs by { assert VersionArgs[0][0] != DevicesArgs[0][0]; }
    assert GetpropArgs(serial) != DevicesArgs;
  }

  /** The zero value of the session handle, which a bare `return` hands
      back when nothing was assigned to it. */
  const EmptyClient := ScrClient("", DeviceInfo("", "", ""), None, "")

  /** The session factory with the shadowed `err` at scrcpy.go:24 taken
      literally: the two bare returns of the auto-select branch hand back the
      outer `err`, which is still nil after the successful adb check, and the
      zero handle. The rest follows scrcpy.go:15-44 line by line. */
  function NewScrcpyAsWritten(cfg: Config, run: Runner, serials: seq<string>): (r: Result<ScrClient>)
    ensures CheckAdb(cfg, run).Fail? ==> r == Err(CheckAdb(cfg, run).error)
    ensures CheckAdb(cfg, run) == Pass && |serials| > 1 ==> r == Err(OnlyOneSerial)
    ensures r.Ok? && r.value != EmptyClient ==>
              AdbGetDeviceInfo(cfg, run, r.value.deviceId) == Ok(r.value.deviceInfo)
  {
    match CheckAdb(cfg, run)
    case Fail(e) => Err(e)
    case Pass =>
      if |serials| > 1 then Err(OnlyOneSerial)
      else if |serials| == 0 && AdbGetDevices(cfg, run).Err? then Ok(EmptyClient)
      else if |serials| == 0 && |AdbGetDevices(cfg, run).value| == 0 then Ok(EmptyClient)
      else
        var deviceId := if |serials| == 0 then AdbGetDevices(cfg, run).value[0] else serials[0];
        match AdbGetDeviceInfo(cfg, run, deviceId)
        case Err(IndexPanic) => Err(IndexPanic)
        case Err(_) => Err(CannotConnect(deviceId))
        case Ok(info) => Ok(ScrClient(deviceId, info, None, ""))
  }

  /** The literal reading and the intended factory differ only when no serial
      is given, adb checks out, and the listing fails or is empty. */
  lemma AsWrittenAgreesElsewhere(cfg: Config, run: Runner, serials: seq<string>)
    ensures !(|serials| == 0 && CheckAdb(cfg, run) == Pass
              && (AdbGetDevices(cfg, run).Err? || AdbGetDevices(cfg, run) == Ok([]))) ==>
              NewScrcpyAsWritten(cfg, run, serials) == NewScrcpy(cfg, run, serials)
  {
  }

  /** Taken literally, an empty listing or a failed listing reports success
      with the empty handle; the intended factory reports the error. */
  lemma ShadowedErrorIsLost(cfg: Config, run: Runner)
    requires CheckAdb(cfg, run) == Pass
    requires run(cfg.adbPath, DevicesArgs).RunFailed? || AdbGetDevices(cfg, run) == Ok([])
    ensures NewScrcpyAsWritten(cfg, run, []) == Ok(EmptyClient)
    ensures NewScrcpy(cfg, run, []).Err?
  {
  }
}
