/** `resumeDownloading(to:)` and its `ContinuationDelegate`: how the two
    URLSession callbacks turn a finished transfer into exactly one
    resumption of the awaiting continuation, moving the downloaded file on
    success. The transfer itself is an input: the task's client-side error,
    the response, where URLSession left the file, and whether it delivered
    the did-finish callback at all. */
module Downloads {
  import opened Common
  import opened Files

  /** `HTTPURLResponse.isSuccess`. */
  predicate IsSuccess(statusCode: int) {
    200 <= statusCode <= 299
  }

  datatype Response = HttpResponse(statusCode: int) | OtherResponse

  /** The file is moved: no task error, a response, and a 2xx status when
      the response is an HTTP one. */
  predicate MovesFile(taskError: Option<Error>, response: Option<Response>) {
    taskError.None? && response.Some?
    && (response.value.HttpResponse? ==> IsSuccess(response.value.statusCode))
  }

  /** What `urlSession(_:downloadTask:didFinishDownloadingTo:)` resumes the
      continuation with, given the outcome the move would have; `None` when
      it returns without resuming. */
  function FinishResumption(taskError: Option<Error>, response: Option<Response>, move: Outcome): Option<Outcome> {
    if taskError.Some? then None
    else
      match response
      case None => Some(Fail(NoResponse))
      case Some(HttpResponse(code)) => if IsSuccess(code) then Some(move) else Some(Fail(HttpStatus(code)))
      case Some(OtherResponse) => Some(move)
  }

  /** What `urlSession(_:task:didCompleteWithError:)` resumes with. */
  function CompleteResumption(error: Option<Error>): Option<Outcome> {
    match error
    case None => None
    case Some(e) => Some(Fail(e))
  }

  /** The did-finish callback's result in each case: it is silent when the
      task carries an error; otherwise it fails with `noResponse` without a
      response, with `httpResponse(statusCode)` on a non-2xx status, and
      otherwise reports the move. */
  lemma FinishResumptionCases(taskError: Option<Error>, response: Option<Response>, move: Outcome)
    ensures FinishResumption(taskError, response, move) == None <==> taskError.Some?
    ensures taskError.None? && response.None? ==> FinishResumption(taskError, response, move) == Some(Fail(NoResponse))
    ensures taskError.None? && response.Some? && response.value.HttpResponse? && !IsSuccess(response.value.statusCode) ==>
      FinishResumption(taskError, response, move) == Some(Fail(HttpStatus(response.value.statusCode)))
    ensures MovesFile(taskError, response) ==> FinishResumption(taskError, response, move) == Some(move)
  {
  }

  /** The did-finish callback reports success only when it has moved the
      file, and reports the move's own outcome whenever it moves; for an HTTP
      response it moves exactly when the status is 2xx. Anything else it
      reports is a failure. */
  lemma FinishReportsMove(taskError: Option<Error>, response: Option<Response>, move: Outcome)
    ensures MovesFile(taskError, response) ==> FinishResumption(taskError, response, move) == Some(move)
    ensures FinishResumption(taskError, response, Pass) == Some(Pass) <==> MovesFile(taskError, response)
    ensures taskError.None? && response.Some? && response.value.HttpResponse? ==>
      (MovesFile(taskError, response) <==> IsSuccess(response.value.statusCode))
    ensures !MovesFile(taskError, response) && FinishResumption(taskError, response, move).Some? ==>
      FinishResumption(taskError, response, move).value.Fail?
  {
  }

  lemma CompleteResumptionCases(error: Option<Error>)
    ensures CompleteResumption(error).Some? <==> error.Some?
    ensures error.Some? ==> CompleteResumption(error) == Some(Fail(error.value))
  {
  }

  /** One transfer as URLSession reports it. Both callbacks see the same task
      error; did-complete is always delivered, did-finish only when
      `finishDelivered`. */
  datatype Transfer = Transfer(taskError: Option<Error>, response: Option<Response>, temporaryFile: Url, finishDelivered: bool)

  /** Every resumption of the continuation, in order: did-finish's (when it
      is delivered) and then did-complete's. */
  function Resumptions(t: Transfer, move: Outcome): seq<Outcome> {
    (if t.finishDelivered then OptionToSeq(FinishResumption(t.taskError, t.response, move)) else [])
    + OptionToSeq(CompleteResumption(t.taskError))
  }

  /** The continuation is never resumed twice; it is resumed exactly once
      when the task failed or the did-finish callback came, which is every
      case the delegate's comment describes; and the one resumption is the
      task's error, if any, and otherwise did-finish's result. */
  lemma ResumedExactlyOnce(t: Transfer, move: Outcome)
    ensures |Resumptions(t, move)| <= 1
    ensures |Resumptions(t, move)| == 1 <==> t.taskError.Some? || t.finishDelivered
    ensures t.taskError.Some? ==> Resumptions(t, move) == [Fail(t.taskError.value)]
    ensures t.taskError.None? && t.finishDelivered ==>
      Resumptions(t, move) == [FinishResumption(None, t.response, move).value]
  {
    FinishResumptionCases(t.taskError, t.response, move);
    CompleteResumptionCases(t.taskError);
  }

  /** The delegate of one download task; `resumed` records every value the
      continuation it holds was resumed with. */
  class ContinuationDelegate {
    const location: Url
    var resumed: seq<Outcome>

    constructor (location: Url)
      ensures this.location == location && resumed == []
    {
      this.location := location;
      resumed := [];
    }

    method DidCompleteWithError(error: Option<Error>)
      modifies this
      ensures resumed == old(resumed) + OptionToSeq(CompleteResumption(error))
    {
      if error.Some? {
        resumed := resumed + [Fail(error.value)];
      }
    }

    method DidFinishDownloadingTo(fs: FileSystem, taskError: Option<Error>, response: Option<Response>, temporary: Url)
      modifies this, fs
      ensures var (move, moved) := MoveItemSpec(old(fs.entries), PathOf(temporary), PathOf(location));
        resumed == old(resumed) + OptionToSeq(FinishResumption(taskError, response, move))
        && fs.entries == (if MovesFile(taskError, response) then moved else old(fs.entries))
      ensures fs.excludedFromBackup == old(fs.excludedFromBackup)
    {
      if taskError.Some? {
        return;
      }
      match response
      case None =>
        resumed := resumed + [Fail(NoResponse)];
      case Some(r) =>
        if r.HttpResponse? && !IsSuccess(r.statusCode) {
          resumed := resumed + [Fail(HttpStatus(r.statusCode))];
        } else {
          var move := fs.MoveItem(temporary, location);
          resumed := resumed + [move];
        }
    }
  }

  /** `resumeDownloading(to:)`: deliver the transfer's callbacks to a fresh
      delegate and return what the continuation was resumed with, `None`
      when it never was (the await would never return). */
  method ResumeDownloading(fs: FileSystem, transfer: Transfer, location: Url) returns (o: Option<Outcome>)
    modifies fs
    ensures var (move, moved) := MoveItemSpec(old(fs.entries), PathOf(transfer.temporaryFile), PathOf(location));
      var rs := Resumptions(transfer, move);
      o == (if rs == [] then None else Some(rs[0]))
      && fs.entries == (if transfer.finishDelivered && MovesFile(transfer.taskError, transfer.response) then moved else old(fs.entries))
    ensures fs.excludedFromBackup == old(fs.excludedFromBackup)
    ensures o == Some(Pass) ==> PathOf(location) in fs.entries
  {
    var delegate := new ContinuationDelegate(location);
    ghost var move := MoveItemSpec(fs.entries, PathOf(transfer.temporaryFile), PathOf(location)).0;
    if transfer.finishDelivered {
      delegate.DidFinishDownloadingTo(fs, transfer.taskError, transfer.response, transfer.temporaryFile);
    }
    delegate.DidCompleteWithError(transfer.taskError);
    assert delegate.resumed == Resumptions(transfer, move);
    ResumedExactlyOnce(transfer, move);
    o := if delegate.resumed == [] then None else Some(delegate.resumed[0]);
    if o == Some(Pass) {
      MoveItemEffect(old(fs.entries), PathOf(transfer.temporaryFile), PathOf(location));
    }
  }
}
