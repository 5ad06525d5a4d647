/** FraudRuleEvaluationResult and its two factories. */
module EvaluationResults {

  datatype EvaluationResult = EvaluationResult(ruleName: string, triggered: bool, riskScore: real, reason: string)

  const NotTriggeredReason := "Rule did not trigger"

  /** RuleNotTriggered(ruleName). */
  function RuleNotTriggered(ruleName: string): (r: EvaluationResult)
    ensures r.ruleName == ruleName && !r.triggered
    ensures r.riskScore == 0.0 && r.reason == NotTriggeredReason
  {
    EvaluationResult(ruleName, false, 0.0, NotTriggeredReason)
  }

  /** RuleTriggered(ruleName, riskScore, reason). */
  function RuleTriggered(ruleName: string, riskScore: real, reason: string): (r: EvaluationResult)
    ensures r.ruleName == ruleName && r.triggered
    ensures r.riskScore == riskScore && r.reason == reason
  {
    EvaluationResult(ruleName, true, riskScore, reason)
  }

  /** The Triggered flag tells which factory built a result. */
  lemma FactoriesDiffer(n: string, m: string, s: real, reason: string)
    ensures RuleNotTriggered(n) != RuleTriggered(m, s, reason)
  {
  }
}

/** RecentTransactionCountRequest: the one data request a rule can make. */
module DataRequests {
  import opened Base
  import opened Contracts

  datatype DataRequest = RecentTransactionCountRequest(accountId: Guid, since: Ticks)
  {
    /** RequestId is the same constant for every request of this type. */
    function RequestId(): string { "RecentTransactionCount" }
  }

  /** The request and response type names that key its handler. */
  const RequestTypeName := "RecentTransactionCountRequest"
  const ResponseTypeName := "Int32"

  /** FromTransaction(transaction, timeWindow): the window ends at the
      transaction's timestamp, or at now when the timestamp is unset. */
  function FromTransaction(tx: TransactionReceived, window: Ticks, now: Ticks): (q: DataRequest)
    ensures q.accountId == tx.accountId
    ensures tx.timestamp != DefaultTicks ==> q.since + window == tx.timestamp
    ensures tx.timestamp == DefaultTicks ==> q.since + window == now
  {
    RecentTransactionCountRequest(tx.accountId, (if tx.timestamp == DefaultTicks then now else tx.timestamp) - window)
  }

  /** With a non-negative window the request never starts after the transaction. */
  lemma SinceNotAfterTimestamp(tx: TransactionReceived, window: Ticks, now: Ticks)
    requires tx.timestamp != DefaultTicks && window >= 0
    ensures FromTransaction(tx, window, now).since <= tx.timestamp
  {
  }

  /** With the timestamp set, the request does not depend on the clock; when it
      is unset, two different clock readings give two different requests. */
  lemma FromTransactionClock(tx: TransactionReceived, window: Ticks, now1: Ticks, now2: Ticks)
    ensures tx.timestamp != DefaultTicks ==> FromTransaction(tx, window, now1) == FromTransaction(tx, window, now2)
    ensures tx.timestamp == DefaultTicks && now1 != now2 ==> FromTransaction(tx, window, now1) != FromTransaction(tx, window, now2)
  {
  }
}

/** HighRiskSpecification. */
module Specifications {
  import opened EvaluationResults

  const DefaultRiskThreshold: real := 0.5

  predicate HighRisk(threshold: real, candidate: EvaluationResult) {
    candidate.triggered && candidate.riskScore >= threshold
  }

  /** A result that did not trigger never satisfies the specification, and a
      triggered one does exactly when its score reaches the threshold. */
  lemma HighRiskCharacterised(threshold: real, candidate: EvaluationResult)
    ensures !candidate.triggered ==> !HighRisk(threshold, candidate)
    ensures candidate.triggered ==> (HighRisk(threshold, candidate) <==> candidate.riskScore >= threshold)
  {
  }

  /** Lowering the threshold keeps every satisfying result satisfying. */
  lemma HighRiskMonotone(t: real, t': real, candidate: EvaluationResult)
    requires t' <= t && HighRisk(t, candidate)
    ensures HighRisk(t', candidate)
  {
  }
}

/**
 * The three fraud rules. A rule is a value (its configuration is readonly);
 * GetDataRequirements and EvaluateAsync become functions of the transaction,
 * the data context and the clock reading.
 */
module Rules {
  import opened Base
  import opened Text
  import opened Contracts
  import opened EvaluationResults
  import opened DataRequests

  /** An IFraudRule: one of the three production rules, or any other
      implementation the pipeline is given (a test double, say), described by
      its name, its GetDataRequirements and its EvaluateAsync. */
  datatype Rule =
    | HighAmountRule(threshold: real)
    | ForeignCountryRule(allowedCountry: string)
    | VelocityRule(maxTransactionsPerHour: int, timeWindow: Ticks)
    | OtherRule(name: string,
                declares: (TransactionReceived, Ticks) -> seq<DataRequest>,
                evaluates: (TransactionReceived, DataContext, Ticks) -> Try<EvaluationResult>)

  const DefaultHighAmountThreshold: real := 10000.0
  const DefaultAllowedCountry := "RSA"
  const DefaultMaxTransactionsPerHour := 10
  const DefaultTimeWindow: Ticks := TicksPerHour

  const HighAmountScore: real := 0.7
  const ForeignCountryScore: real := 0.6
  const VelocityScore: real := 0.8

  const CountryKey := "Country"

  /** IRuleDataContext.ResolveAsync: the answer to a request, or the exception it raised. */
  type DataContext = DataRequest -> Try<int>

  /** The culture-dependent ToString of the values interpolated into reasons. */
  datatype Formatter = Formatter(
    decimalText: real -> string,
    guidText: Guid -> string,
    intText: int -> string,
    hoursText: Ticks -> string)

  function RuleName(rule: Rule): string {
    match rule
    case HighAmountRule(_) => "HighAmountRule"
    case ForeignCountryRule(_) => "ForeignCountryRule"
    case VelocityRule(_, _) => "VelocityRule"
    case OtherRule(name, _, _) => name
  }

  /** GetDataRequirements(transaction). */
  function DataRequirements(rule: Rule, tx: TransactionReceived, now: Ticks): (qs: seq<DataRequest>)
    ensures rule.HighAmountRule? || rule.ForeignCountryRule? ==> qs == []
    ensures rule.VelocityRule? ==> |qs| == 1 && qs[0].RequestId() == "RecentTransactionCount"
  {
    match rule
    case VelocityRule(_, window) => [FromTransaction(tx, window, now)]
    case OtherRule(_, declares, _) => declares(tx, now)
    case _ => []
  }

  /** Metadata.GetValueOrDefault("Country", allowedCountry). */
  function ObservedCountry(metadata: map<string, string>, allowed: string): string {
    if CountryKey in metadata then metadata[CountryKey] else allowed
  }

  function HighAmountReason(fmt: Formatter, amount: real, threshold: real): string {
    "Transaction amount " + fmt.decimalText(amount) + " exceeds threshold " + fmt.decimalText(threshold)
  }

  function ForeignCountryReason(country: string): string {
    "Transaction from foreign country: " + country
  }

  function VelocityReason(fmt: Formatter, account: Guid, count: int, window: Ticks, max: int): string {
    "Account " + fmt.guidText(account) + " has " + fmt.intText(count) + " transactions in the last "
    + fmt.hoursText(window) + " hour(s), exceeding limit of " + fmt.intText(max)
  }

  /** EvaluateAsync(context, dataContext). Of the production rules only the
      velocity rule consults the data context, once, and an exception from it
      propagates; any other rule answers whatever its own EvaluateAsync does. */
  function Evaluate(rule: Rule, tx: TransactionReceived, dc: DataContext, fmt: Formatter, now: Ticks): (r: Try<EvaluationResult>)
    ensures !rule.OtherRule? && r.Ok? ==> r.value.ruleName == RuleName(rule)
    ensures !rule.OtherRule? && r.Ok? && !r.value.triggered ==> r.value == RuleNotTriggered(RuleName(rule))
    ensures rule.HighAmountRule? || rule.ForeignCountryRule? ==> r.Ok?
  {
    match rule
    case HighAmountRule(threshold) =>
      if tx.amount > threshold then
        Ok(RuleTriggered(RuleName(rule), HighAmountScore, HighAmountReason(fmt, tx.amount, threshold)))
      else Ok(RuleNotTriggered(RuleName(rule)))
    case ForeignCountryRule(allowed) =>
      var country := ObservedCountry(tx.metadata, allowed);
      if !EqualsIgnoreCase(country, allowed) then
        Ok(RuleTriggered(RuleName(rule), ForeignCountryScore, ForeignCountryReason(country)))
      else Ok(RuleNotTriggered(RuleName(rule)))
    case VelocityRule(max, window) =>
      (match dc(FromTransaction(tx, window, now))
       case Throws(e) => Throws(e)
       case Ok(count) =>
         if count >= max then
           Ok(RuleTriggered(RuleName(rule), VelocityScore, VelocityReason(fmt, tx.accountId, count, window, max)))
         else Ok(RuleNotTriggered(RuleName(rule))))
    case OtherRule(_, _, evaluates) => evaluates(tx, dc, now)
  }

  /** The amount rule triggers exactly above the threshold (strictly), always
      with score 0.7 and a reason naming the amount and the threshold. */
  lemma HighAmountSpec(threshold: real, tx: TransactionReceived, dc: DataContext, fmt: Formatter, now: Ticks)
    ensures var r := Evaluate(HighAmountRule(threshold), tx, dc, fmt, now);
      r.Ok? && (r.value.triggered <==> tx.amount > threshold) &&
      (r.value.triggered ==>
         (r.value.riskScore == HighAmountScore &&
          Contains(r.value.reason, fmt.decimalText(tx.amount)) &&
          Contains(r.value.reason, fmt.decimalText(threshold)))) &&
      (!r.value.triggered ==> r.value.riskScore == 0.0)
  {
    var a, t := fmt.decimalText(tx.amount), fmt.decimalText(threshold);
    var reason := HighAmountReason(fmt, tx.amount, threshold);
    ContainsConcat("Transaction amount ", a, " exceeds threshold " + t);
    assert reason == "Transaction amount " + a + (" exceeds threshold " + t);
    ContainsConcat("Transaction amount " + a + " exceeds threshold ", t, "");
    assert reason == "Transaction amount " + a + " exceeds threshold " + t + "";
  }

  /** The observed country is the metadata entry, or the allowed country when
      the key is absent; so a missing key never triggers the rule, and the rule
      triggers exactly when the observed country differs ignoring ASCII case. */
  lemma ForeignCountrySpec(allowed: string, tx: TransactionReceived, dc: DataContext, fmt: Formatter, now: Ticks)
    ensures var r := Evaluate(ForeignCountryRule(allowed), tx, dc, fmt, now);
      var country := ObservedCountry(tx.metadata, allowed);
      r.Ok? &&
      (CountryKey !in tx.metadata ==> !r.value.triggered) &&
      (r.value.triggered <==> !EqualsIgnoreCase(country, allowed)) &&
      (r.value.triggered ==> (r.value.riskScore == ForeignCountryScore && Contains(r.value.reason, country)))
  {
    var country := ObservedCountry(tx.metadata, allowed);
    ContainsConcat("Transaction from foreign country: ", country, "");
    assert ForeignCountryReason(country) == "Transaction from foreign country: " + country + "";
  }

  /** "rsa", "Rsa" and "RsA" all match the default allowed country. */
  lemma ForeignCountryIgnoresCase(tx: TransactionReceived, dc: DataContext, fmt: Formatter, now: Ticks)
    requires CountryKey in tx.metadata && tx.metadata[CountryKey] in {"rsa", "Rsa", "RsA", "RSA"}
    ensures !Evaluate(ForeignCountryRule(DefaultAllowedCountry), tx, dc, fmt, now).value.triggered
  {
    var c := tx.metadata[CountryKey];
    assert Upper(c) == Upper(DefaultAllowedCountry) by {
      assert |c| == 3;
      forall i | 0 <= i < 3 ensures Upper(c)[i] == Upper(DefaultAllowedCountry)[i] {
      }
    }
  }

  /** The velocity rule resolves the request built by FromTransaction with its
      window and triggers exactly when the count reaches the limit (inclusive),
      with score 0.8 and a reason naming the account, the count, the window and
      the limit; an exception from the data context propagates unchanged. */
  lemma VelocitySpec(max: int, window: Ticks, tx: TransactionReceived, dc: DataContext, fmt: Formatter, now: Ticks)
    ensures var r := Evaluate(VelocityRule(max, window), tx, dc, fmt, now);
      var answer := dc(FromTransaction(tx, window, now));
      (answer.Throws? ==> r == Throws(answer.error)) &&
      (answer.Ok? ==> r.Ok? && (r.value.triggered <==> answer.value >= max)) &&
      (answer.Ok? && r.value.triggered ==>
         (r.value.riskScore == VelocityScore &&
          Contains(r.value.reason, fmt.guidText(tx.accountId)) &&
          Contains(r.value.reason, fmt.intText(answer.value)) &&
          Contains(r.value.reason, fmt.hoursText(window)) &&
          Contains(r.value.reason, fmt.intText(max))))
  {
    var answer := dc(FromTransaction(tx, window, now));
    if answer.Ok? {
      VelocityReasonMentions(fmt, tx.accountId, answer.value, window, max);
    }
  }

  /** The velocity reason names the account, the count, the window and the limit. */
  lemma VelocityReasonMentions(fmt: Formatter, accountId: Guid, count: int, window: Ticks, max: int)
    ensures var reason := VelocityReason(fmt, accountId, count, window, max);
      Contains(reason, fmt.guidText(accountId)) && Contains(reason, fmt.intText(count)) &&
      Contains(reason, fmt.hoursText(window)) && Contains(reason, fmt.intText(max))
  {
    EightPartsContain("Account ", fmt.guidText(accountId), " has ", fmt.intText(count), " transactions in the last ",
      fmt.hoursText(window), " hour(s), exceeding limit of ", fmt.intText(max));
  }

  /** A text built of eight parts contains its 2nd, 4th, 6th and 8th part. */
  lemma EightPartsContain(p1: string, g: string, p2: string, c: string, p3: string, h: string, p4: string, m: string)
    ensures var t := p1 + g + p2 + c + p3 + h + p4 + m;
      Contains(t, g) && Contains(t, c) && Contains(t, h) && Contains(t, m)
  {
    var t := p1 + g + p2 + c + p3 + h + p4 + m;
    ContainsConcat(p1, g, p2 + c + p3 + h + p4 + m);
    assert t == p1 + g + (p2 + c + p3 + h + p4 + m);
    ContainsConcat(p1 + g + p2, c, p3 + h + p4 + m);
    assert t == p1 + g + p2 + c + (p3 + h + p4 + m);
    ContainsConcat(p1 + g + p2 + c + p3, h, p4 + m);
    assert t == p1 + g + p2 + c + p3 + h + (p4 + m);
    ContainsConcat(p1 + g + p2 + c + p3 + h + p4, m, "");
    assert t == p1 + g + p2 + c + p3 + h + p4 + m + "";
  }

  /** A production rule's evaluation depends on the data context only through
      the requests it declares, provided the declared requests and the
      evaluated ones were built from the same clock reading or the transaction
      carries a timestamp. */
  lemma EvaluateUsesOnlyDeclaredData(rule: Rule, tx: TransactionReceived, dc1: DataContext, dc2: DataContext,
                                     fmt: Formatter, declaredAt: Ticks, now: Ticks)
    requires !rule.OtherRule?
    requires tx.timestamp != DefaultTicks || declaredAt == now
    requires forall q :: q in DataRequirements(rule, tx, declaredAt) ==> dc1(q) == dc2(q)
    ensures Evaluate(rule, tx, dc1, fmt, now) == Evaluate(rule, tx, dc2, fmt, now)
  {
    if rule.VelocityRule? {
      FromTransactionClock(tx, rule.timeWindow, declaredAt, now);
      assert FromTransaction(tx, rule.timeWindow, now) in DataRequirements(rule, tx, declaredAt);
    }
  }
}
