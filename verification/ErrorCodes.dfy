/** The return codes of `silog_error.h` that the modelled operations use. */
module ErrorCodes {
  datatype Code =
    | Ok
    | InvalidArg
    | NullPtr
    | Busy
    | FileOpen
    | FileWrite
    | NetFileCreate
    | NetFileError
    | NetConnect
    | NetRecv
    | NetTimeout
    | NetClosed
    | TransNotInit
    | QueueFull
    | QueueEmpty
    | FileManagerNotInit
    | OutOfMemory
    | ThreadCreate
}
