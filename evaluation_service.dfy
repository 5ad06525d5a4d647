/**
 * FraudEvaluationService: runs the rule pipeline over one received
 * transaction and persists the outcome as one FraudCheck.
 */
module EvaluationService {
  import opened Base
  import opened Contracts
  import opened EvaluationResults
  import opened Rules
  import opened Pipeline
  import opened FraudChecks
  import opened RulesEngineData
  import opened Mediator

  /** FraudRuleResult.Create over the pipeline's results, one for one, in order. */
  function ToRuleResults(rs: seq<EvaluationResult>): (out: seq<FraudRuleResult>)
    ensures |out| == |rs|
    ensures forall i :: 0 <= i < |rs| ==>
      out[i].ruleName == rs[i].ruleName && out[i].triggered == rs[i].triggered &&
      out[i].riskScore == rs[i].riskScore && out[i].reason == rs[i].reason
  {
    seq(|rs|, i requires 0 <= i < |rs| => FraudRuleResult(rs[i].ruleName, rs[i].triggered, rs[i].riskScore, rs[i].reason))
  }

  /** FraudCheck.Create(transactionId, accountId, isFlagged, score, results):
      identity from the transaction, verdict from the pipeline, a fresh
      FraudCheckId and EvaluatedAt = now. */
  function NewFraudCheck(tx: TransactionReceived, result: FraudCheckResult, freshId: Guid, now: Ticks): (c: FraudCheck)
    ensures c.fraudCheckId == freshId && c.evaluatedAt == now
    ensures c.transactionId == tx.transactionId && c.accountId == tx.accountId
    ensures c.isFlagged == result.isFlagged && c.overallRiskScore == result.overallRiskScore
    ensures |c.ruleResults| == |result.ruleResults|
  {
    FraudCheck(freshId, tx.transactionId, tx.accountId, result.isFlagged, result.overallRiskScore, now,
      ToRuleResults(result.ruleResults))
  }

  /** The data context the rules see: the mediator's answers over the saved
      checks, with `queryFault` the error the history query raises during this
      evaluation (None when the database answers). */
  function DataContextOf(registry: map<HandlerKey, Handler>, checks: seq<FraudCheck>, queryFault: Option<Exception>): DataContext {
    q => Resolve(registry, checks, queryFault, q)
  }

  /** What the pipeline's EvaluateAsync returns for the transaction. */
  function PipelineOutcome(p: CompositeRulePipeline, tx: TransactionReceived, dc: DataContext, fmt: Formatter, now: Ticks): Try<FraudCheckResult>
  {
    match EvaluateAllSpec(p, tx, dc, fmt, now)
    case Throws(e) => Throws(e)
    case Ok(rs) => Ok(Aggregate(rs))
  }

  /** What FraudEvaluationService.EvaluateAsync returns: the pipeline's
      exception, or the new check once it is saved with the checks already
      staged, or the save's exception. */
  function EvaluationOutcome(p: CompositeRulePipeline, registry: map<HandlerKey, Handler>,
                             checks: seq<FraudCheck>, staged: seq<FraudCheck>,
                             tx: TransactionReceived, fmt: Formatter, now: Ticks, freshId: Guid,
                             queryFault: Option<Exception>, saveFault: Option<Exception>): (r: Try<FraudCheck>)
    ensures var outcome := PipelineOutcome(p, tx, DataContextOf(registry, checks, queryFault), fmt, now);
      (outcome.Throws? ==> r == Throws(outcome.error)) &&
      (outcome.Ok? ==>
         var check := NewFraudCheck(tx, outcome.value, freshId, now);
         (r.Ok? <==> saveFault.None? && UniqueChecks(checks + staged + [check])) &&
         (r.Ok? ==> r.value == check) &&
         (saveFault.Some? ==> r == Throws(saveFault.value)))
  {
    match PipelineOutcome(p, tx, DataContextOf(registry, checks, queryFault), fmt, now)
    case Throws(e) => Throws(e)
    case Ok(result) =>
      var check := NewFraudCheck(tx, result, freshId, now);
      assert checks + (staged + [check]) == checks + staged + [check];
      match SaveOutcome(checks, staged + [check], saveFault)
      case Ok(_) => Ok(check)
      case Throws(e) => Throws(e)
  }

  class FraudEvaluationService {
    const pipeline: CompositeRulePipeline
    /** The registrations the scoped mediator dispatches to. */
    const registry: map<HandlerKey, Handler>
    /** The scoped database behind both the repository and the history reads. */
    const db: RulesEngineDb

    constructor (pipeline: CompositeRulePipeline, registry: map<HandlerKey, Handler>, db: RulesEngineDb)
      ensures this.pipeline == pipeline && this.registry == registry && this.db == db
    {
      this.pipeline := pipeline;
      this.registry := registry;
      this.db := db;
    }

    /** EvaluateAsync(transaction): evaluate, build the FraudCheck, add it and
        save. `freshId` stands for Guid.NewGuid(), `now` for DateTime.UtcNow,
        `queryFault` for an error the history query raises and `saveFault` for
        one the save raises. */
    method EvaluateAsync(tx: TransactionReceived, fmt: Formatter, now: Ticks, freshId: Guid,
                         queryFault: Option<Exception>, saveFault: Option<Exception>)
      returns (r: Try<FraudCheck>)
      requires db.Valid()
      modifies db
      ensures db.Valid()
      ensures r == EvaluationOutcome(pipeline, registry, old(db.fraudChecks), old(db.staged), tx, fmt, now, freshId, queryFault, saveFault)
      ensures var outcome := PipelineOutcome(pipeline, tx, DataContextOf(registry, old(db.fraudChecks), queryFault), fmt, now);
        (outcome.Throws? ==> db.fraudChecks == old(db.fraudChecks) && db.staged == old(db.staged)) &&
        (outcome.Ok? ==>
           var check := NewFraudCheck(tx, outcome.value, freshId, now);
           (r.Ok? ==> db.fraudChecks == old(db.fraudChecks) + old(db.staged) + [check] && db.staged == []) &&
           (r.Throws? ==> db.fraudChecks == old(db.fraudChecks) && db.staged == old(db.staged) + [check]))
    {
      var dc := DataContextOf(registry, db.fraudChecks, queryFault);
      var result := Pipeline.EvaluateAsync(pipeline, tx, dc, fmt, now);
      if result.Throws? {
        return Throws(result.error);
      }
      var check := NewFraudCheck(tx, result.value, freshId, now);
      db.Add(check);
      var saved := db.SaveChanges(saveFault);
      if saved.Throws? {
        return Throws(saved.error);
      }
      return Ok(check);
    }
  }

  /** The persisted rule results are the pipeline's results copied field for
      field and in order, and the check's verdict is the pipeline's. */
  lemma {:induction false} FraudCheckCopiesResults(tx: TransactionReceived, rs: seq<EvaluationResult>, freshId: Guid, now: Ticks, i: nat)
    requires i < |rs|
    ensures var c := NewFraudCheck(tx, Aggregate(rs), freshId, now);
      c.ruleResults[i] == FraudRuleResult(rs[i].ruleName, rs[i].triggered, rs[i].riskScore, rs[i].reason) &&
      (c.isFlagged <==> c.overallRiskScore >= 0.5)
  {
    AggregateScore(rs, 0.0, 0.0);
  }
}
