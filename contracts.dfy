/**
 * The messages exchanged over the broker, their topic names, and the JSON
 * documents that carry them. A payload is modelled as a document value with
 * one constructor per serialised message shape: serialising applies the
 * constructor, deserialising matches on it. Property names are matched
 * exactly, as System.Text.Json does by default; unmatched properties keep
 * their default values.
 */
module Contracts {
  import opened Base

  const TransactionReceivedTopic := "transaction.received"
  const FraudAssessedTopic := "fraud.assessed"
  const DeadLetterQueueTopic := "dlq"

  /** The runtime type name of the one domain event, used as outbox EventType. */
  const TransactionReceivedEventType := "TransactionReceivedEvent"

  datatype TransactionReceived = TransactionReceived(
    transactionId: Guid,
    accountId: Guid,
    amount: real,
    merchantId: Guid,
    currency: string,
    timestamp: Ticks,
    metadata: map<string, string>)

  /** A TransactionReceived whose every property has its default value. */
  const EmptyTransactionReceived := TransactionReceived(EmptyGuid, EmptyGuid, 0.0, EmptyGuid, "", DefaultTicks, map[])

  datatype RuleResult = RuleResult(ruleName: string, triggered: bool, riskScore: real, reason: string)

  datatype FraudAssessed = FraudAssessed(
    fraudCheckId: Guid,
    transactionId: Guid,
    isFlagged: bool,
    overallRiskScore: real,
    ruleResults: seq<RuleResult>)

  /** The domain event raised by Transaction.Create; id and occurredOn are
      its own fresh Guid and creation instant. */
  datatype TransactionReceivedEvent = TransactionReceivedEvent(
    transactionId: Guid,
    accountId: Guid,
    amount: real,
    merchantId: Guid,
    currency: string,
    timestamp: Ticks,
    metadata: map<string, string>,
    id: Guid,
    occurredOn: Ticks)

  /** The anonymous object the producer sends to the dead-letter topic. */
  datatype DeadLetterEnvelope = DeadLetterEnvelope(
    originalTopic: string,
    originalPayload: Json,
    failureReason: string,
    timestamp: Ticks,
    exceptionType: string)

  /** A JSON text, by the shape of the object it was serialised from. */
  datatype Json =
    | TransactionReceivedEventDoc(event: TransactionReceivedEvent)
    | TransactionReceivedDoc(message: TransactionReceived)
    | FraudAssessedDoc(assessed: FraudAssessed)
    | DeadLetterDoc(envelope: DeadLetterEnvelope)
    | NullDoc
    | Unparsable(text: string)

  const JsonErrorMessage := "The JSON value could not be converted."

  /** JsonSerializer.Deserialize<TransactionReceived>(payload): a JsonException
      for text that is not JSON, null for the literal null, and otherwise a
      message whose properties are copied from the same-named properties of
      the document. */
  function DeserializeTransactionReceived(doc: Json): (r: Try<Option<TransactionReceived>>)
    ensures r.Throws? <==> doc.Unparsable?
    ensures r.Throws? ==> r.error.typeName == JsonExceptionType
    ensures r == Ok(None) <==> doc.NullDoc?
    ensures doc.TransactionReceivedDoc? ==> r == Ok(Some(doc.message))
    ensures doc.TransactionReceivedEventDoc? ==>
      (r.Ok? && r.value.Some? &&
       var m, e := r.value.value, doc.event;
       m.transactionId == e.transactionId && m.accountId == e.accountId && m.amount == e.amount &&
       m.merchantId == e.merchantId && m.currency == e.currency && m.timestamp == e.timestamp &&
       m.metadata == e.metadata)
  {
    match doc
    case TransactionReceivedEventDoc(e) =>
      Ok(Some(TransactionReceived(e.transactionId, e.accountId, e.amount, e.merchantId, e.currency, e.timestamp, e.metadata)))
    case TransactionReceivedDoc(m) => Ok(Some(m))
    case FraudAssessedDoc(a) => Ok(Some(EmptyTransactionReceived.(transactionId := a.transactionId)))
    case DeadLetterDoc(env) => Ok(Some(EmptyTransactionReceived.(timestamp := env.timestamp)))
    case NullDoc => Ok(None)
    case Unparsable(_) => Throws(Exception(JsonExceptionType, JsonErrorMessage, None))
  }
}
