/**
 * FraudEvaluationWorker: the handler it gives the consumer of
 * "transaction.received". For each message it evaluates the transaction,
 * publishes the FraudAssessed event to "fraud.assessed", and when either
 * step throws, publishes the original message to "dlq" instead; only a
 * failure of that last publication escapes the handler.
 */
module Worker {
  import opened Base
  import opened Contracts
  import opened Rules
  import opened FraudChecks
  import opened RulesEngineData
  import opened EvaluationService
  import opened Producer

  /** The FraudAssessed event built from a saved check. */
  function ToFraudAssessed(c: FraudCheck): (a: FraudAssessed)
    ensures a.fraudCheckId == c.fraudCheckId && a.transactionId == c.transactionId
    ensures a.isFlagged == c.isFlagged && a.overallRiskScore == c.overallRiskScore
    ensures |a.ruleResults| == |c.ruleResults|
    ensures forall i :: 0 <= i < |c.ruleResults| ==>
      a.ruleResults[i] == RuleResult(c.ruleResults[i].ruleName, c.ruleResults[i].triggered,
                                     c.ruleResults[i].riskScore, c.ruleResults[i].reason)
  {
    FraudAssessed(c.fraudCheckId, c.transactionId, c.isFlagged, c.overallRiskScore,
      seq(|c.ruleResults|, i requires 0 <= i < |c.ruleResults| =>
        RuleResult(c.ruleResults[i].ruleName, c.ruleResults[i].triggered, c.ruleResults[i].riskScore, c.ruleResults[i].reason)))
  }

  /** The publication of the original message to "dlq" in the catch block. */
  function DeadLetterRun(os: seq<SendOutcome>, k: nat, m: TransactionReceived, now: Ticks): Run {
    ProduceRun(os, k, DeadLetterQueueTopic, TransactionReceivedDoc(m), now)
  }

  /** What the handler sends for a message, given the evaluation's outcome. */
  function HandleRun(os: seq<SendOutcome>, k: nat, evaluated: Try<FraudCheck>, m: TransactionReceived, now: Ticks): Run {
    match evaluated
    case Throws(_) => DeadLetterRun(os, k, m, now)
    case Ok(check) =>
      var first := ProduceRun(os, k, FraudAssessedTopic, FraudAssessedDoc(ToFraudAssessed(check)), now);
      if first.result.Ok? then first
      else After(first.sent, first.waits, DeadLetterRun(os, first.next, m, now))
  }

  class FraudEvaluationWorker {
    const service: FraudEvaluationService
    const producer: KafkaEventProducer

    constructor (service: FraudEvaluationService, producer: KafkaEventProducer)
      ensures this.service == service && this.producer == producer
    {
      this.service := service;
      this.producer := producer;
    }

    /** The consumer's handler for one TransactionReceived message. */
    method HandleMessage(m: TransactionReceived, fmt: Formatter, now: Ticks, freshId: Guid,
                         queryFault: Option<Exception>, saveFault: Option<Exception>)
      returns (r: Try<()>)
      requires service.db.Valid()
      modifies service.db, producer
      ensures service.db.Valid()
      ensures var evaluated := EvaluationOutcome(service.pipeline, service.registry, old(service.db.fraudChecks),
                                                 old(service.db.staged), m, fmt, now, freshId, queryFault, saveFault);
        var run := HandleRun(producer.outcomes, old(producer.next), evaluated, m, now);
        r == run.result && producer.sent == old(producer.sent) + run.sent &&
        producer.waits == old(producer.waits) + run.waits && producer.next == run.next
      // the database: nothing added when the pipeline throws; otherwise the new
      // check is saved with the staged ones, or stays staged when the save fails
      ensures var outcome := PipelineOutcome(service.pipeline, m,
                               DataContextOf(service.registry, old(service.db.fraudChecks), queryFault), fmt, now);
        var evaluated := EvaluationOutcome(service.pipeline, service.registry, old(service.db.fraudChecks),
                                           old(service.db.staged), m, fmt, now, freshId, queryFault, saveFault);
        (outcome.Throws? ==> service.db.fraudChecks == old(service.db.fraudChecks) && service.db.staged == old(service.db.staged)) &&
        (outcome.Ok? ==>
           var check := NewFraudCheck(m, outcome.value, freshId, now);
           (evaluated.Ok? ==> service.db.fraudChecks == old(service.db.fraudChecks) + old(service.db.staged) + [check] &&
                              service.db.staged == []) &&
           (evaluated.Throws? ==> service.db.fraudChecks == old(service.db.fraudChecks) &&
                                  service.db.staged == old(service.db.staged) + [check]))
    {
      ghost var sent0, waits0 := producer.sent, producer.waits;
      var checked := service.EvaluateAsync(m, fmt, now, freshId, queryFault, saveFault);
      if checked.Throws? {
        r := producer.ProduceAsync(DeadLetterQueueTopic, TransactionReceivedDoc(m), now);
        return;
      }
      var doc := FraudAssessedDoc(ToFraudAssessed(checked.value));
      ghost var first := ProduceRun(producer.outcomes, producer.next, FraudAssessedTopic, doc, now);
      r := producer.ProduceAsync(FraudAssessedTopic, doc, now);
      if r.Throws? {
        ghost var second := DeadLetterRun(producer.outcomes, producer.next, m, now);
        r := producer.ProduceAsync(DeadLetterQueueTopic, TransactionReceivedDoc(m), now);
        AfterAppend(sent0, waits0, first, second);
      }
    }
  }

  lemma AfterAppend(sent0: seq<Sent>, waits0: seq<Ticks>, first: Run, second: Run)
    ensures sent0 + first.sent + second.sent == sent0 + After(first.sent, first.waits, second).sent
    ensures waits0 + first.waits + second.waits == waits0 + After(first.sent, first.waits, second).waits
  {
    assert sent0 + first.sent + second.sent == sent0 + (first.sent + second.sent);
    assert waits0 + first.waits + second.waits == waits0 + (first.waits + second.waits);
  }

  /** A message whose evaluation failed goes to "dlq" as it was received, and
      is the first thing the handler sends. */
  lemma FailedEvaluationDeadLettered(os: seq<SendOutcome>, k: nat, e: Exception, m: TransactionReceived, now: Ticks)
    ensures var run := HandleRun(os, k, Throws(e), m, now);
      |run.sent| >= 1 && run.sent[0] == Sent(DeadLetterQueueTopic, TransactionReceivedDoc(m))
  {
    AttemptsShape(os, k, DeadLetterQueueTopic, TransactionReceivedDoc(m), 1);
  }

  /** An assessment delivered at once is the handler's only send, and the
      handler returns normally. */
  lemma AssessmentPublished(os: seq<SendOutcome>, k: nat, check: FraudCheck, m: TransactionReceived, now: Ticks)
    requires OutcomeAt(os, k).Delivered?
    ensures HandleRun(os, k, Ok(check), m, now) ==
      Run(Ok(()), [Sent(FraudAssessedTopic, FraudAssessedDoc(ToFraudAssessed(check)))], [], k + 1)
  {
    FirstDeliveryEnds(os, k, FraudAssessedTopic, FraudAssessedDoc(ToFraudAssessed(check)), now);
  }

  /** The handler returns normally only once the assessment or the original
      message has gone out: either the FraudAssessed event or the message
      itself (to "dlq") is among its sends. When it throws, it has sent the
      message to "dlq" and that publication failed. */
  lemma {:induction false} HandlerOutcome(os: seq<SendOutcome>, k: nat, evaluated: Try<FraudCheck>, m: TransactionReceived, now: Ticks)
    ensures var run := HandleRun(os, k, evaluated, m, now);
      var dlq := Sent(DeadLetterQueueTopic, TransactionReceivedDoc(m));
      (run.result.Ok? ==>
        (dlq in run.sent || (evaluated.Ok? && Sent(FraudAssessedTopic, FraudAssessedDoc(ToFraudAssessed(evaluated.value))) in run.sent))) &&
      (run.result.Throws? ==> dlq in run.sent)
  {
    match evaluated
    case Throws(_) =>
      AttemptsShape(os, k, DeadLetterQueueTopic, TransactionReceivedDoc(m), 1);
    case Ok(check) =>
      var doc := FraudAssessedDoc(ToFraudAssessed(check));
      AttemptsShape(os, k, FraudAssessedTopic, doc, 1);
      var first := ProduceRun(os, k, FraudAssessedTopic, doc, now);
      assert first.sent[0] == Sent(FraudAssessedTopic, doc);
      if first.result.Throws? {
        AttemptsShape(os, first.next, DeadLetterQueueTopic, TransactionReceivedDoc(m), 1);
        var second := DeadLetterRun(os, first.next, m, now);
        assert second.sent[0] == Sent(DeadLetterQueueTopic, TransactionReceivedDoc(m));
        assert HandleRun(os, k, evaluated, m, now).sent[|first.sent|] == second.sent[0];
      }
  }
}
