/** The cluster management service (CMS) as the reconcilers see it: asynchronous operations
    that are submitted once and polled by identifier. */
module Cms {
  import opened Wrappers
  import opened Conditions

  datatype StatusCode = Success | AlreadyExists | OtherStatus

  datatype OpResult = Running | Finished(code: StatusCode)

  /** The operation part of a CMS reply. `id` is the message a condition would store for it. */
  datatype Operation = Operation(ready: bool, status: StatusCode, id: Message)

  datatype Check = Check(finished: bool, id: Message, failed: bool)

  predicate Accepted(result: OpResult) {
    result.Finished? && (result.code.Success? || result.code.AlreadyExists?)
  }

  function CheckOperationStatus(operation: Option<Operation>): (r: Check)
    ensures (r.finished && !r.failed) <==>
            (operation.Some? && operation.value.ready && Accepted(Finished(operation.value.status)))
    ensures !r.finished && !r.failed ==> operation.Some? && !operation.value.ready
    ensures operation.Some? ==> r.id == operation.value.id
  {
    match operation
    case None => Check(false, Empty, true)
    case Some(op) =>
      if !op.ready then Check(false, op.id, false)
      else if op.status.AlreadyExists? || op.status.Success? then Check(true, op.id, false)
      else Check(true, op.id, true)
  }

  function Reply(result: OpResult, id: Message): Operation {
    match result
    case Running => Operation(false, OtherStatus, id)
    case Finished(code) => Operation(true, code, id)
  }

  /** What became of a request that starts an operation. The server may have taken the request even
      when the caller saw an error, and may answer without an operation or without its identifier. */
  datatype Submission =
    | Refused
    | Unanswered(taken: OpResult)
    | NoOperation(taken: OpResult)
    | Answered(taken: OpResult, idShown: bool)

  /** What the answer to a request that was taken says about the operation with that identifier; none
      if the call failed all the same. */
  function ReplyTo(submission: Submission, id: nat): Option<Check>
    requires !submission.Refused?
  {
    match submission
    case Unanswered(_) => None
    case NoOperation(_) => Some(CheckOperationStatus(None))
    case Answered(result, idShown) =>
      Some(CheckOperationStatus(Some(Reply(result, if idShown then OperationId(id) else Empty))))
  }

  /** What became of a request that polls an operation. */
  datatype Poll = PollFailed | PollEmpty | PollForgotten | PollAnswered

  /** The reply to polling the operation named by `id`; `logged` is its result, if the log has one of
      that identifier. */
  function PollReply(logged: Option<OpResult>, id: Message, poll: Poll): Option<Operation> {
    if poll.PollEmpty? then None
    else if poll.PollAnswered? && logged.Some? then Some(Reply(logged.value, id))
    else Some(Operation(true, OtherStatus, id))
  }
}
