/** How a scan ended, and who may authorise a promotion. */
module Completion {
  import opened Wrappers

  /** `NoStatus` is the empty status string of a fail-closed completion. */
  datatype ScanStatus =
    Completed | Cancelled | ResolutionFailed | ParseFailed | WorkerFailed | StateFailed | NoStatus

  datatype ScanCompletion = ScanCompletion(status: ScanStatus, err: Error) {
    predicate Successful() {
      status == Completed && err == Nil
    }
  }

  function FromProducerError(err: Error): ScanCompletion {
    if err == Nil then ScanCompletion(Completed, Nil)
    else if ContextCanceled in err then ScanCompletion(Cancelled, err)
    else if TargetParse in err then ScanCompletion(ParseFailed, err)
    else if TargetResolution in err then ScanCompletion(ResolutionFailed, err)
    else ScanCompletion(NoStatus, err)
  }

  /** `finalizeScanCompletion`: fold a persistence failure into the scanner's own completion. */
  function WithStateError(c: ScanCompletion, stateErr: Error): ScanCompletion {
    if stateErr == Nil then c
    else if c.Successful() then ScanCompletion(StateFailed, stateErr)
    else ScanCompletion(c.status, c.err + stateErr)
  }

  /** The status a producer's failure gets: cancellation comes first, then a parse failure, then a failed resolution;
      any other failure has no status. Only the nil error is a success, and no cause is lost. */
  lemma ProducerErrorStatus(err: Error)
    ensures var c := FromProducerError(err);
      && c.err == err
      && (c.status == Completed <==> err == Nil)
      && (c.status == Cancelled <==> ContextCanceled in err)
      && (c.status == ParseFailed <==> TargetParse in err && ContextCanceled !in err)
      && (c.status == ResolutionFailed <==> TargetResolution in err && ContextCanceled !in err && TargetParse !in err)
  {
  }

  /** Success survives exactly when nothing went wrong, and no cause of failure is lost on the way. */
  lemma SuccessNeedsEveryPart(c: ScanCompletion, stateErr: Error)
    ensures WithStateError(c, stateErr).Successful() <==> c.Successful() && stateErr == Nil
    ensures WithStateError(c, stateErr).err == c.err + stateErr
    ensures WithStateError(c, stateErr).status == if c.Successful() && stateErr != Nil then StateFailed else c.status
  {
    assert Nil + stateErr == stateErr;
    assert c.err + Nil == c.err;
  }
}
