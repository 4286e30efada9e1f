/** How `kafkaBrokerConnection` turns the broker's reply to a CreateTopics or
    DeleteTopics request into the single error it returns.

    The request itself (one topic, a timeout) is handed to the Kafka client
    unchanged; what the client gives back is the parameter `reply` here: either
    a transport error, or the response's `TopicErrors` list. */
module Broker {
  import opened Outcomes
  import opened Errors

  /** One entry of a reply's `TopicErrors`: the topic, the broker's error code,
      and the error value the client attached to it (`None` when it is nil). */
  datatype TopicError = TopicError(topic: string, code: Int16, err: Option<Error>)

  /** What the Kafka client returned: `Failure(e)` when its `err` was non-nil,
      otherwise the response's `TopicErrors`. */
  type Reply = Result<seq<TopicError>, Error>

  /** The entry a reply is judged by: the first one, and only when its code is
      non-zero. Entries after the first are never looked at. */
  function FirstFailure(errors: seq<TopicError>): (f: Option<TopicError>)
    ensures f.Some? <==> |errors| > 0 && errors[0].code != 0
    ensures f.Some? ==> f.value == errors[0]
  {
    if |errors| > 0 && errors[0].code != 0 then Some(errors[0]) else None
  }

  /** `CreateTopic`: a transport error is returned as it is; otherwise a failing
      first entry yields the error value attached to that entry; otherwise nil. */
  function CreateTopic(reply: Reply): (r: Option<Error>)
    ensures reply.Failure? ==> r == Some(reply.error)
    ensures reply.Success? && FirstFailure(reply.value).Some? ==> r == reply.value[0].err
    ensures reply.Success? && FirstFailure(reply.value).None? ==> r == None
  {
    match reply
    case Failure(e) => Some(e)
    case Success(errors) =>
      match FirstFailure(errors)
      case Some(entry) => entry.err
      case None => None
  }

  /** `DeleteTopic`: same selection as `CreateTopic`, but the failure it reports
      is a new error naming the first entry's topic and code. */
  function DeleteTopic(reply: Reply): (r: Option<Error>)
    ensures reply.Failure? ==> r == Some(reply.error)
    ensures reply.Success? ==>
      (r.Some? <==> |reply.value| > 0 && reply.value[0].code != 0)
    ensures reply.Success? && r.Some? ==>
      r.value == DeletionFailed(reply.value[0].topic, reply.value[0].code)
  {
    match reply
    case Failure(e) => Some(e)
    case Success(errors) =>
      match FirstFailure(errors)
      case Some(entry) => Some(DeletionFailed(entry.topic, entry.code))
      case None => None
  }

  /** A reply whose error list is empty, or whose first code is zero, is success
      for both operations, whatever the later entries say. */
  lemma SuccessWhenFirstEntryClean(errors: seq<TopicError>)
    requires |errors| == 0 || errors[0].code == 0
    ensures CreateTopic(Success(errors)) == None
    ensures DeleteTopic(Success(errors)) == None
  {
  }

  /** Only the first entry is inspected: appending entries to a non-empty list
      never changes either outcome. */
  lemma OnlyFirstEntryInspected(errors: seq<TopicError>, more: seq<TopicError>)
    requires |errors| > 0
    ensures CreateTopic(Success(errors + more)) == CreateTopic(Success(errors[..1]))
    ensures DeleteTopic(Success(errors + more)) == DeleteTopic(Success(errors[..1]))
  {
  }

  /** The two operations fail on the same replies, provided the client attached
      an error value to every failing entry; a failing first entry whose
      attached error is nil makes `CreateTopic` report success. */
  lemma CreateAndDeleteAgree(reply: Reply)
    ensures (CreateTopic(reply).Some? <==> DeleteTopic(reply).Some?) <==>
      (reply.Success? && FirstFailure(reply.value).Some? ==> reply.value[0].err.Some?)
  {
  }

  /** The text of a deletion failure names the topic and carries the code in a
      form from which the number can be read back. */
  lemma DeletionTextNamesTopicAndCode(entry: TopicError, rest: seq<TopicError>)
    requires entry.code != 0
    ensures DeleteTopic(Success([entry] + rest)).Some?
    ensures var text := Text(DeleteTopic(Success([entry] + rest)).value);
      exists digits :: text == "Deletion failed for Topic: " + entry.topic + " with ErrorCode: " + digits
                    && WellFormedDecimal(digits) && ParseDecimal(digits) == entry.code as int
  {
    var digits := Decimal(entry.code as int);
    DecimalRoundTrip(entry.code as int);
    assert ([entry] + rest)[0] == entry;
  }
}
