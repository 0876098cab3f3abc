/** Vocabulary shared by every part of the model: bytes, results, polls, and the part of
    `std::io::Error` that callers can observe (kind, errno and message). */
module Basics {

  newtype byte = i: int | 0 <= i < 256

  datatype Option<+T> = None | Some(value: T)

  datatype Result<+T, +E> = Ok(value: T) | Err(error: E)

  datatype Poll<+T> = Pending | Ready(value: T)

  datatype Unit = Unit

  datatype ErrorKind =
    | UnexpectedEof
    | InvalidData
    | Unsupported
    | WriteZero
    | BrokenPipe
    | WouldBlock
    | Interrupted
    | OtherKind(code: int)

  /** An error either carries a raw errno, or a kind and a message with some opaque source object. */
  datatype IoError =
    | Os(errno: int)
    | Custom(kind: ErrorKind, message: string, source: nat)
  {
    function RawOsError(): Option<int> {
      match this
      case Os(errno) => Some(errno)
      case Custom(_, _, _) => None
    }

    function Kind(): ErrorKind {
      match this
      case Os(errno) =>
        if errno == EAGAIN then WouldBlock
        else if errno == EINTR then Interrupted
        else if errno == EPIPE then BrokenPipe
        else OtherKind(errno)
      case Custom(kind, _, _) => kind
    }
  }

  /** `io::ErrorKind::Other`. */
  const OTHER := OtherKind(0)

  const EINTR := 4
  const EAGAIN := 11
  const EPIPE := 32

  type IoResult = Result<Unit, IoError>

  predicate Succeeds(r: Poll<IoResult>) {
    r.Ready? && r.value.Ok?
  }

  predicate Fails(r: Poll<IoResult>) {
    r.Ready? && r.value.Err?
  }

  /** What a caller can tell about an error without reaching its source object. */
  ghost predicate SameReport(a: IoError, b: IoError) {
    && a.Kind() == b.Kind()
    && a.RawOsError() == b.RawOsError()
    && (a.Custom? && b.Custom? ==> a.message == b.message)
  }

  /** `duplicate_io_error` and `copy_error`: reproduce the errno when there is one, otherwise the
      kind and the message. The source object is not carried over. */
  function Duplicate(e: IoError): (d: IoError)
    ensures SameReport(d, e)
    ensures e.Os? || e.source == 0 ==> d == e
  {
    match e
    case Os(errno) => Os(errno)
    case Custom(kind, message, _) => Custom(kind, message, 0)
  }

  function Min(a: int, b: int): int {
    if a < b then a else b
  }

  function Flatten<T>(parts: seq<seq<T>>): seq<T> {
    if parts == [] then [] else parts[0] + Flatten(parts[1..])
  }
}
