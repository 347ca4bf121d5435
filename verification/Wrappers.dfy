/** Shared value types: optional values, results, and the error values of the program. */
module Wrappers {

  datatype Option<+T> = None | Some(value: T)

  datatype Result<+T> = Ok(value: T) | Err(error: Error)

  /** One cause of failure: the program's sentinel errors and the failures of the libraries it calls. */
  datatype Fault =
    | InvalidIP
    | UnsupportedProtocol
    | InvalidPort
    | EmptyScopeID
    | InvalidStateScopeID
    | InvalidStateScanID
    | ServiceIdentityScopeMismatch
    | UnversionedStateSchema
    | UnsupportedStateSchemaVersion
    | InvalidStateSchemaMetadata
    | InvalidPersistentServiceRecord
    | CurrentScanNotFound
    | PromotionRequiresSuccessfulScan
    | ReconciliationRequiresSuccessfulScan
    | StateScanAlreadyExists
    | ScanIncomplete
    | CommitFailed
    | ContextCanceled
    | TargetParse
    | TargetResolution
    | UnsupportedUDPPort(port: int)
    | ScanCompletionMissing
    | InvalidRuntimeScanID
    | RuntimeScanIDCollisions
    | EntropyFailed
    | SpoolFailed
    | CloseFailed
    | EmitFailed
    | LimiterRefused

  /** A Go `error` as the list of its causes: nil is the empty list, and `errors.Join` is concatenation. */
  type Error = seq<Fault>

  const Nil: Error := []
}
