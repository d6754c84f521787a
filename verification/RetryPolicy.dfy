/** What a failed order submit proves (execution/retry_policy.py, and the reply
    handling of execution/live_canary_adapter.py it is fed from). */
module RetryPolicy {
  import opened Common

  datatype SubmitState = REJECTED | UNKNOWN

  datatype Action = BackoffAndQuery | QueryBeforeRetry | DoNotRetry | LimitedBackoffThenQuery | ManualReview

  datatype Classification = Classification(state: SubmitState, retry: bool, action: Action)

  /** What the POST returned: an HTTP status, or an exception (its name contains "timeout" or not). */
  datatype PostReply = Http(status: int) | Raised(timeoutNamed: bool)

  /** Answer to "does this client order id exist": yes, the venue's not-found code, or no usable answer. */
  datatype Existence = Exists | Absent | Unresolved

  /** How a status query travels: answered, answered without a usable body, or failed. */
  datatype Link = Up | Garbled | Down

  function ClassifyExchangeError(status: Option<int>, timeoutNamed: bool): Classification {
    if status == Some(429) then Classification(UNKNOWN, false, BackoffAndQuery)
    else if timeoutNamed then Classification(UNKNOWN, false, QueryBeforeRetry)
    else if status.Some? && 400 <= status.value < 500 then Classification(REJECTED, false, DoNotRetry)
    else if status.Some? && status.value >= 500 then Classification(UNKNOWN, true, LimitedBackoffThenQuery)
    else Classification(UNKNOWN, false, ManualReview)
  }

  function ClassificationOf(reply: PostReply): Classification {
    match reply
    case Http(status) => ClassifyExchangeError(Some(status), false)
    case Raised(timeoutNamed) => ClassifyExchangeError(None, timeoutNamed)
  }

  predicate Submitted(reply: PostReply) {
    reply.Http? && 200 <= reply.status < 300
  }

  predicate IsAmbiguousSubmit(reply: PostReply) {
    !Submitted(reply) && ClassificationOf(reply).state != SubmitState.REJECTED
  }

  /** Replies after which the venue is known not to have the order. */
  predicate ProvesNoOrder(reply: PostReply) {
    reply.Http? && 400 <= reply.status < 500 && reply.status != 429
  }

  /** A failed submit is treated as "nothing happened" on exactly the replies that prove it. */
  lemma AmbiguousUnlessProven(reply: PostReply)
    ensures IsAmbiguousSubmit(reply) <==> !Submitted(reply) && !ProvesNoOrder(reply)
  {
  }

  /** The kernel's "external_order_submission_performed" after _resolve_submit:
      confirmed, or possibly live because even the query failed. */
  predicate Performed(reply: PostReply, answer: Existence) {
    Submitted(reply) || (IsAmbiguousSubmit(reply) && answer != Absent)
  }
}
