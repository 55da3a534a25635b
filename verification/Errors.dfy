/** The semantic error categories and the I/O errors that may carry one. */
module Errors {
  import opened Wire

  datatype ProtocolErrorKind = NotSupported | Forbidden | InvalidArgs | VersionMismatch | Other

  /** An I/O error; `classified` is the category a dispatch loop embedded. */
  datatype IoError = IoError(kind: IoKind, classified: Option<ProtocolErrorKind>)

  /** Wraps `e` with a category, keeping its I/O kind. */
  function FromIo(kind: ProtocolErrorKind, e: IoError): IoError {
    IoError(e.kind, Some(kind))
  }

  /** The category of an I/O error: the embedded one if there is one. */
  function OfIoError(e: IoError): ProtocolErrorKind {
    match e.classified
    case Some(k) => k
    case None =>
      match e.kind
      case PermissionDenied => Forbidden
      case InvalidData => NotSupported
      case InvalidInput => InvalidArgs
      case _ => Other
  }

  datatype HandlerError = RecvError(error: IoError) | SendError(error: IoError)
  {
    function Kind(): ProtocolErrorKind {
      if RecvError? then OfIoError(error) else Other
    }
  }

  /** A category put on an error is the one it is read as, and leaves its I/O
      kind alone; without one, three kinds have a category of their own; and
      a failing send is never more than `Other`. */
  lemma Categories(kind: ProtocolErrorKind, e: IoError)
    ensures OfIoError(FromIo(kind, e)) == kind && FromIo(kind, e).kind == e.kind
    ensures e.classified.None? ==>
              && (OfIoError(e) == Forbidden <==> e.kind == PermissionDenied)
              && (OfIoError(e) == NotSupported <==> e.kind == InvalidData)
              && (OfIoError(e) == InvalidArgs <==> e.kind == InvalidInput)
              && OfIoError(e) != VersionMismatch
    ensures RecvError(e).Kind() == OfIoError(e) && SendError(e).Kind() == Other
  {
  }
}
