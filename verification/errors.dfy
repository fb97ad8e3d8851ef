/** The error values of the adb wrapper and the result shapes its functions
    return: Go's `(T, error)` pair becomes `Result<T>`, a bare `error` return
    becomes `Outcome`.
 */
module Errors {

  datatype Error =
    /** An `exec.Cmd` run, start or wait error, handed back unchanged. */
    | ExecFailed(cause: string)
    /** The version output lacks the adb banner. */
    | AdbNotFound
    /** The push output lacks the "pushed" marker. */
    | PushFailed
    /** More than one serial was given to the session factory. */
    | OnlyOneSerial
    /** Auto-selection found no connected device. */
    | NoDevice
    /** The property query for this device failed. */
    | CannotConnect(deviceId: string)
    /** Not an error value in Go but a run-time panic: indexing past the end
        of the pieces of a split. It unwinds through every caller. */
    | IndexPanic

  datatype Result<+T> = Ok(value: T) | Err(error: Error)

  datatype Outcome = Pass | Fail(error: Error)

  datatype Option<+T> = None | Some(value: T)
}
