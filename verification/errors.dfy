/** The errors the program can end with, and the kind each one reports. */
module Errors {
  import opened Net

  /** Why a run stops with an error.
      `Usage` and `NotMulticast` are the program's own `io::ErrorKind::InvalidInput` errors;
      `BadAddress` and `BadPort` are the standard library's address and integer parse errors,
      which carry no trace of the rejected text;
      `Io` is any failed socket or standard-input call. */
  datatype Error =
    | Usage
    | BadAddress
    | BadPort
    | NotMulticast(addr: IpAddr)
    | Io

  datatype ErrorKind = InvalidInput | AddrParse | IntParse | OsError

  function KindOf(e: Error): (k: ErrorKind)
    ensures k == InvalidInput <==> e.Usage? || e.NotMulticast?
  {
    match e
    case Usage => InvalidInput
    case NotMulticast(_) => InvalidInput
    case BadAddress => AddrParse
    case BadPort => IntParse
    case Io => OsError
  }
}
