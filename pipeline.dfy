/**
 * CompositeRulePipeline: runs its rules in list order against one
 * transaction, keeps the results an optional specification admits, and
 * aggregates the triggered scores into an overall score and a flag.
 */
module Pipeline {
  import opened Base
  import opened Stats
  import opened Contracts
  import opened EvaluationResults
  import opened DataRequests
  import opened Specifications
  import opened Rules

  /** The rules, and the specification (ISpecification.IsSatisfiedBy) when one is given. */
  datatype CompositeRulePipeline = CompositeRulePipeline(rules: seq<Rule>, specification: Option<EvaluationResult -> bool>)

  datatype FraudCheckResult = FraudCheckResult(isFlagged: bool, overallRiskScore: real, ruleResults: seq<EvaluationResult>)

  const FlagThreshold: real := 0.5

  /** GetAllDataRequirements: every rule's declared requests, rule after rule. */
  function AllDataRequirements(rules: seq<Rule>, tx: TransactionReceived, now: Ticks): seq<DataRequest>
    decreases |rules|
  {
    if rules == [] then []
    else AllDataRequirements(rules[..|rules| - 1], tx, now) + DataRequirements(rules[|rules| - 1], tx, now)
  }

  /** The requirements of two rule lists run back to back are those of the
      first list followed by those of the second. */
  lemma {:induction false} AllDataRequirementsConcat(a: seq<Rule>, b: seq<Rule>, tx: TransactionReceived, now: Ticks)
    ensures AllDataRequirements(a + b, tx, now) == AllDataRequirements(a, tx, now) + AllDataRequirements(b, tx, now)
    decreases |b|
  {
    if b == [] {
      assert a + b == a;
    } else {
      var b' := b[..|b| - 1];
      assert (a + b)[..|a + b| - 1] == a + b';
      assert (a + b)[|a + b| - 1] == b[|b| - 1];
      AllDataRequirementsConcat(a, b', tx, now);
    }
  }

  /** A request is required by the pipeline exactly when some rule declares it. */
  lemma {:induction false} AllDataRequirementsMembers(rules: seq<Rule>, tx: TransactionReceived, now: Ticks, q: DataRequest)
    ensures q in AllDataRequirements(rules, tx, now) <==>
      exists i :: 0 <= i < |rules| && q in DataRequirements(rules[i], tx, now)
    decreases |rules|
  {
    if rules != [] {
      var init := rules[..|rules| - 1];
      AllDataRequirementsMembers(init, tx, now, q);
      if q in AllDataRequirements(rules, tx, now) {
        if q in AllDataRequirements(init, tx, now) {
          var i :| 0 <= i < |init| && q in DataRequirements(init[i], tx, now);
          assert init[i] == rules[i];
        } else {
          assert q in DataRequirements(rules[|rules| - 1], tx, now);
        }
      } else {
        forall i | 0 <= i < |rules| ensures q !in DataRequirements(rules[i], tx, now) {
          if i < |init| {
            assert init[i] == rules[i];
          }
        }
      }
    }
  }

  /** The production rule set (amount, velocity, country) needs exactly one
      request, the velocity rule's recent-transaction count. */
  lemma ProductionRequirements(threshold: real, max: int, window: Ticks, allowed: string, tx: TransactionReceived, now: Ticks)
    ensures var qs := AllDataRequirements([HighAmountRule(threshold), VelocityRule(max, window), ForeignCountryRule(allowed)], tx, now);
      qs == [FromTransaction(tx, window, now)] && qs[0].RequestId() == "RecentTransactionCount"
  {
    var rules := [HighAmountRule(threshold), VelocityRule(max, window), ForeignCountryRule(allowed)];
    assert rules[..2] == [HighAmountRule(threshold), VelocityRule(max, window)];
    assert rules[..2][..1] == [HighAmountRule(threshold)];
    assert rules[..2][..1][..0] == [];
    assert AllDataRequirements(rules[..2][..1], tx, now) == [];
    assert AllDataRequirements(rules[..2], tx, now) == [FromTransaction(tx, window, now)];
  }

  /** Every rule's result in list order, or the first exception a rule raised. */
  function EvaluateEach(rules: seq<Rule>, tx: TransactionReceived, dc: DataContext, fmt: Formatter, now: Ticks): Try<seq<EvaluationResult>>
    decreases |rules|
  {
    if rules == [] then Ok([])
    else
      match EvaluateEach(rules[..|rules| - 1], tx, dc, fmt, now)
      case Throws(e) => Throws(e)
      case Ok(rs) =>
        match Evaluate(rules[|rules| - 1], tx, dc, fmt, now)
        case Throws(e) => Throws(e)
        case Ok(r) => Ok(rs + [r])
  }

  /** A result is kept when there is no specification or the specification holds of it. */
  predicate Admits(specification: Option<EvaluationResult -> bool>, r: EvaluationResult) {
    (specification.Some? && specification.value(r)) || specification.None?
  }

  /** The results a specification admits, in their original order. */
  function Keep(specification: Option<EvaluationResult -> bool>, rs: seq<EvaluationResult>): seq<EvaluationResult>
    decreases |rs|
  {
    if rs == [] then []
    else Keep(specification, rs[..|rs| - 1]) + (if Admits(specification, rs[|rs| - 1]) then [rs[|rs| - 1]] else [])
  }

  /** What EvaluateAllAsync returns (or throws). */
  function EvaluateAllSpec(p: CompositeRulePipeline, tx: TransactionReceived, dc: DataContext, fmt: Formatter, now: Ticks): Try<seq<EvaluationResult>>
  {
    match EvaluateEach(p.rules, tx, dc, fmt, now)
    case Throws(e) => Throws(e)
    case Ok(rs) => Ok(Keep(p.specification, rs))
  }

  /** Once a prefix of the rules has thrown, the whole list throws the same exception. */
  lemma {:induction false} EvaluateEachThrowsExtends(rules: seq<Rule>, k: nat, tx: TransactionReceived, dc: DataContext, fmt: Formatter, now: Ticks)
    requires k <= |rules| && EvaluateEach(rules[..k], tx, dc, fmt, now).Throws?
    ensures EvaluateEach(rules, tx, dc, fmt, now) == EvaluateEach(rules[..k], tx, dc, fmt, now)
    decreases |rules| - k
  {
    if k < |rules| {
      var init := rules[..|rules| - 1];
      assert init[..k] == rules[..k];
      EvaluateEachThrowsExtends(init, k, tx, dc, fmt, now);
    } else {
      assert rules[..k] == rules;
    }
  }

  /** EvaluateAllAsync: each rule is evaluated once, in list order, with the same
      transaction and data context; a result is added when the specification is
      absent or satisfied. An exception from a rule ends the loop and propagates. */
  method EvaluateAll(p: CompositeRulePipeline, tx: TransactionReceived, dc: DataContext, fmt: Formatter, now: Ticks)
    returns (r: Try<seq<EvaluationResult>>)
    ensures r == EvaluateAllSpec(p, tx, dc, fmt, now)
  {
    var results: seq<EvaluationResult> := [];
    ghost var all: seq<EvaluationResult> := [];
    var i := 0;
    while i < |p.rules|
      invariant 0 <= i <= |p.rules|
      invariant EvaluateEach(p.rules[..i], tx, dc, fmt, now) == Ok(all)
      invariant results == Keep(p.specification, all)
    {
      assert p.rules[..i + 1][..i] == p.rules[..i];
      var outcome := Evaluate(p.rules[i], tx, dc, fmt, now);
      if outcome.Throws? {
        EvaluateEachThrowsExtends(p.rules, i + 1, tx, dc, fmt, now);
        return Throws(outcome.error);
      }
      var result := outcome.value;
      if p.specification.Some? && p.specification.value(result) {
        results := results + [result];
      } else if p.specification.None? {
        results := results + [result];
      }
      ghost var all' := all + [result];
      assert all'[..|all'| - 1] == all;
      all := all';
      i := i + 1;
    }
    assert p.rules[..i] == p.rules;
    return Ok(results);
  }

  /** Without an exception there is one result per rule, each the rule's own
      evaluation, in rule order; an exception is the first one a rule raised. */
  lemma {:induction false} EvaluateEachInOrder(rules: seq<Rule>, tx: TransactionReceived, dc: DataContext, fmt: Formatter, now: Ticks)
    ensures var each := EvaluateEach(rules, tx, dc, fmt, now);
      (each.Ok? ==>
         (|each.value| == |rules| &&
          forall i :: 0 <= i < |rules| ==> Evaluate(rules[i], tx, dc, fmt, now) == Ok(each.value[i]))) &&
      (each.Throws? ==>
         exists k :: 0 <= k < |rules| && Evaluate(rules[k], tx, dc, fmt, now) == Throws(each.error) &&
           (forall i :: 0 <= i < k ==> Evaluate(rules[i], tx, dc, fmt, now).Ok?))
    decreases |rules|
  {
    if rules != [] {
      var init := rules[..|rules| - 1];
      var n := |rules| - 1;
      EvaluateEachInOrder(init, tx, dc, fmt, now);
      var each := EvaluateEach(rules, tx, dc, fmt, now);
      var prev := EvaluateEach(init, tx, dc, fmt, now);
      if prev.Throws? {
        var k :| 0 <= k < |init| && Evaluate(init[k], tx, dc, fmt, now) == Throws(prev.error) &&
          forall i :: 0 <= i < k ==> Evaluate(init[i], tx, dc, fmt, now).Ok?;
        assert init[k] == rules[k];
        forall i | 0 <= i < k ensures Evaluate(rules[i], tx, dc, fmt, now).Ok? {
          assert init[i] == rules[i];
        }
      } else if each.Throws? {
        forall i | 0 <= i < n ensures Evaluate(rules[i], tx, dc, fmt, now).Ok? {
          assert init[i] == rules[i];
        }
      } else {
        forall i | 0 <= i < |rules| ensures Evaluate(rules[i], tx, dc, fmt, now) == Ok(each.value[i]) {
          if i < n {
            assert init[i] == rules[i];
          }
        }
      }
    }
  }

  /** Keep is a filter: a result is kept exactly when it is in the list and
      admitted, nothing is added, and without a specification everything is kept. */
  lemma {:induction false} KeepIsFilter(specification: Option<EvaluationResult -> bool>, rs: seq<EvaluationResult>)
    ensures forall x :: x in Keep(specification, rs) <==> x in rs && Admits(specification, x)
    ensures |Keep(specification, rs)| <= |rs|
    ensures specification.None? ==> Keep(specification, rs) == rs
    decreases |rs|
  {
    if rs != [] {
      var init := rs[..|rs| - 1];
      KeepIsFilter(specification, init);
      assert rs == init + [rs[|rs| - 1]];
    }
  }

  /** Filtering keeps the original relative order: the kept results of a list
      split in two are those of the first part followed by those of the second. */
  lemma {:induction false} KeepConcat(specification: Option<EvaluationResult -> bool>, a: seq<EvaluationResult>, b: seq<EvaluationResult>)
    ensures Keep(specification, a + b) == Keep(specification, a) + Keep(specification, b)
    decreases |b|
  {
    if b == [] {
      assert a + b == a;
    } else {
      var b' := b[..|b| - 1];
      assert (a + b)[..|a + b| - 1] == a + b';
      assert (a + b)[|a + b| - 1] == b[|b| - 1];
      KeepConcat(specification, a, b');
    }
  }

  /** The risk scores of the triggered results, in order. */
  function TriggeredScores(rs: seq<EvaluationResult>): seq<real>
    decreases |rs|
  {
    if rs == [] then []
    else TriggeredScores(rs[..|rs| - 1]) + (if rs[|rs| - 1].triggered then [rs[|rs| - 1].riskScore] else [])
  }

  /** The Where(Triggered) / Average / ">= 0.5m" aggregation of EvaluateAsync. */
  function Aggregate(rs: seq<EvaluationResult>): FraudCheckResult
  {
    var score := Mean(TriggeredScores(rs));
    FraudCheckResult(score >= FlagThreshold, score, rs)
  }

  /** EvaluateAsync: EvaluateAllAsync followed by the aggregation; the returned
      RuleResults are exactly the list EvaluateAllAsync produced. */
  method EvaluateAsync(p: CompositeRulePipeline, tx: TransactionReceived, dc: DataContext, fmt: Formatter, now: Ticks)
    returns (r: Try<FraudCheckResult>)
    ensures EvaluateAllSpec(p, tx, dc, fmt, now).Throws? ==> r == Throws(EvaluateAllSpec(p, tx, dc, fmt, now).error)
    ensures EvaluateAllSpec(p, tx, dc, fmt, now).Ok? ==>
      r.Ok? && r.value.ruleResults == EvaluateAllSpec(p, tx, dc, fmt, now).value &&
      r.value == Aggregate(r.value.ruleResults)
  {
    var all := EvaluateAll(p, tx, dc, fmt, now);
    if all.Throws? {
      return Throws(all.error);
    }
    var results := all.value;
    var triggered := TriggeredScores(results);
    var score := if |triggered| > 0 then Mean(triggered) else 0.0;
    return Ok(FraudCheckResult(score >= FlagThreshold, score, results));
  }

  /** The triggered scores are empty exactly when no result triggered, and lie
      within any bounds that hold for every triggered score. */
  lemma {:induction false} TriggeredScoresProperties(rs: seq<EvaluationResult>, lo: real, hi: real)
    ensures TriggeredScores(rs) == [] <==> forall i :: 0 <= i < |rs| ==> !rs[i].triggered
    ensures (forall i :: 0 <= i < |rs| && rs[i].triggered ==> lo <= rs[i].riskScore <= hi) ==> Within(TriggeredScores(rs), lo, hi)
    decreases |rs|
  {
    if rs != [] {
      var init := rs[..|rs| - 1];
      TriggeredScoresProperties(init, lo, hi);
      assert forall i :: 0 <= i < |init| ==> init[i] == rs[i];
    }
  }

  /** The overall score is the mean of the triggered scores: 0 when nothing
      triggered (so not flagged), otherwise between any lower and upper bound
      of the triggered scores; the flag is exactly "score >= 0.5". */
  lemma AggregateScore(rs: seq<EvaluationResult>, lo: real, hi: real)
    ensures Aggregate(rs).ruleResults == rs
    ensures Aggregate(rs).isFlagged <==> Aggregate(rs).overallRiskScore >= 0.5
    ensures (forall i :: 0 <= i < |rs| ==> !rs[i].triggered) ==>
      Aggregate(rs).overallRiskScore == 0.0 && !Aggregate(rs).isFlagged
    ensures (exists i :: 0 <= i < |rs| && rs[i].triggered) &&
            (forall i :: 0 <= i < |rs| && rs[i].triggered ==> lo <= rs[i].riskScore <= hi) ==>
      lo <= Aggregate(rs).overallRiskScore <= hi
  {
    TriggeredScoresProperties(rs, lo, hi);
    if (exists i :: 0 <= i < |rs| && rs[i].triggered) &&
       (forall i :: 0 <= i < |rs| && rs[i].triggered ==> lo <= rs[i].riskScore <= hi) {
      MeanBounds(TriggeredScores(rs), lo, hi);
    }
  }

  /** Two triggered results scoring 0.7 and 0.6 give 0.65 and a flag, whatever
      untriggered results sit beside them. */
  lemma AggregateExample(a: string, b: string, c: string, ra: string, rb: string)
    ensures var rs := [RuleTriggered(a, 0.7, ra), RuleNotTriggered(c), RuleTriggered(b, 0.6, rb)];
      Aggregate(rs).overallRiskScore == 0.65 && Aggregate(rs).isFlagged
  {
    var rs := [RuleTriggered(a, 0.7, ra), RuleNotTriggered(c), RuleTriggered(b, 0.6, rb)];
    assert rs[..2] == [RuleTriggered(a, 0.7, ra), RuleNotTriggered(c)];
    assert rs[..2][..1] == [RuleTriggered(a, 0.7, ra)];
    assert rs[..2][..1][..0] == [];
    assert TriggeredScores(rs[..2][..1]) == [0.7];
    assert TriggeredScores(rs[..2]) == [0.7];
    assert TriggeredScores(rs) == [0.7, 0.6];
    MeanOfPair(0.7, 0.6);
  }

  lemma MeanOfPair(x: real, y: real)
    ensures Mean([x, y]) == (x + y) / 2.0
  {
    assert [x, y][..1] == [x];
    assert [x][..0] == [];
    assert Sum([x]) == x;
    assert Sum([x, y]) == x + y;
  }

  /** A pipeline without rules returns no results, score 0 and no flag. */
  lemma EmptyPipeline(specification: Option<EvaluationResult -> bool>, tx: TransactionReceived, dc: DataContext, fmt: Formatter, now: Ticks)
    ensures EvaluateAllSpec(CompositeRulePipeline([], specification), tx, dc, fmt, now) == Ok([])
    ensures Aggregate([]).overallRiskScore == 0.0 && !Aggregate([]).isFlagged
  {
  }

  /** With HighRiskSpecification at a threshold of at least 0.5 every returned
      result is triggered, so a non-empty result list is always flagged. */
  lemma HighRiskPipelineFlags(rules: seq<Rule>, threshold: real, tx: TransactionReceived, dc: DataContext, fmt: Formatter, now: Ticks)
    requires threshold >= 0.5
    requires var all := EvaluateAllSpec(CompositeRulePipeline(rules, Some(c => HighRisk(threshold, c))), tx, dc, fmt, now);
      all.Ok? && all.value != []
    ensures var rs := EvaluateAllSpec(CompositeRulePipeline(rules, Some(c => HighRisk(threshold, c))), tx, dc, fmt, now).value;
      (forall i :: 0 <= i < |rs| ==> rs[i].triggered && rs[i].riskScore >= threshold) && Aggregate(rs).isFlagged
  {
    var spec: Option<EvaluationResult -> bool> := Some(c => HighRisk(threshold, c));
    var each := EvaluateEach(rules, tx, dc, fmt, now).value;
    var rs := Keep(spec, each);
    KeepIsFilter(spec, each);
    forall i | 0 <= i < |rs| ensures rs[i].triggered && rs[i].riskScore >= threshold {
      assert rs[i] in rs;
    }
    AggregateScore(rs, threshold, MaxScore(rs));
  }

  /** The largest score in a list, or 0 for the empty list. */
  ghost function MaxScore(rs: seq<EvaluationResult>): (m: real)
    ensures forall i :: 0 <= i < |rs| ==> rs[i].riskScore <= m
    decreases |rs|
  {
    if rs == [] then 0.0
    else
      var rest := MaxScore(rs[1..]);
      assert forall i :: 1 <= i < |rs| ==> rs[i] == rs[1..][i - 1];
      if rs[0].riskScore > rest then rs[0].riskScore else rest
  }
}
