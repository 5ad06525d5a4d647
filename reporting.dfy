/**
 * The reporting side: FraudAssessedProjection keeps one summary per
 * transaction and a per-rule, per-day heatmap of trigger counts and running
 * average scores; the repositories answer the daily-statistics and top-rules
 * queries over those tables.
 */
module Reporting {
  import opened Base
  import opened Contracts
  import opened Results
  import opened Stats
  import opened Sorting

  datatype FraudSummary = FraudSummary(
    transactionId: Guid,
    fraudCheckId: Guid,
    isFlagged: bool,
    overallRiskScore: real,
    evaluatedAt: Ticks,
    createdAt: Ticks)

  datatype FraudRuleHeatmap = FraudRuleHeatmap(
    ruleName: string,
    date: Ticks,
    triggerCount: int,
    averageRiskScore: real,
    lastUpdated: Ticks)

  /** The unique index on fraud_summary.TransactionId. */
  predicate OneSummaryPerTransaction(rows: seq<FraudSummary>) {
    forall i, j :: 0 <= i < j < |rows| ==> rows[i].transactionId != rows[j].transactionId
  }

  /** The unique index on fraud_rule_heatmap (RuleName, Date). */
  predicate OneHeatmapPerRuleAndDay(rows: seq<FraudRuleHeatmap>) {
    forall i, j :: 0 <= i < j < |rows| ==> rows[i].ruleName != rows[j].ruleName || rows[i].date != rows[j].date
  }

  /** Every heatmap row the projection writes has counted at least one trigger. */
  ghost predicate CountsPositive(rows: seq<FraudRuleHeatmap>) {
    forall i :: 0 <= i < |rows| ==> rows[i].triggerCount >= 1
  }

  /** The index of the first summary for a transaction. */
  function FindSummary(rows: seq<FraudSummary>, transactionId: Guid): (r: Option<nat>)
    ensures r.None? <==> forall i :: 0 <= i < |rows| ==> rows[i].transactionId != transactionId
    ensures r.Some? ==> r.value < |rows| && rows[r.value].transactionId == transactionId &&
                        forall i :: 0 <= i < r.value ==> rows[i].transactionId != transactionId
    decreases |rows|
  {
    if rows == [] then None
    else if rows[0].transactionId == transactionId then Some(0)
    else match FindSummary(rows[1..], transactionId)
      case None => None
      case Some(i) => Some(i + 1)
  }

  /** The index of the first heatmap for a rule on a day. */
  function FindHeatmap(rows: seq<FraudRuleHeatmap>, ruleName: string, date: Ticks): (r: Option<nat>)
    ensures r.None? <==> forall i :: 0 <= i < |rows| ==> rows[i].ruleName != ruleName || rows[i].date != date
    ensures r.Some? ==> r.value < |rows| && rows[r.value].ruleName == ruleName && rows[r.value].date == date
    decreases |rows|
  {
    if rows == [] then None
    else if rows[0].ruleName == ruleName && rows[0].date == date then Some(0)
    else match FindHeatmap(rows[1..], ruleName, date)
      case None => None
      case Some(i) => Some(i + 1)
  }

  /** The summary upsert: a new row for an unseen transaction, otherwise the
      existing row with IsFlagged, OverallRiskScore and EvaluatedAt replaced. */
  function UpsertSummary(rows: seq<FraudSummary>, m: FraudAssessed, now: Ticks): seq<FraudSummary> {
    match FindSummary(rows, m.transactionId)
    case None => rows + [FraudSummary(m.transactionId, m.fraudCheckId, m.isFlagged, m.overallRiskScore, now, now)]
    case Some(i) => rows[i := rows[i].(isFlagged := m.isFlagged, overallRiskScore := m.overallRiskScore, evaluatedAt := now)]
  }

  /** The heatmap row a rule's first trigger of the day creates. */
  function FirstTrigger(r: RuleResult, today: Ticks, now: Ticks): FraudRuleHeatmap {
    FraudRuleHeatmap(r.ruleName, today, 1, r.riskScore, now)
  }

  /** A later trigger: one more count, and the average updated as a running mean. */
  function Bump(h: FraudRuleHeatmap, score: real, now: Ticks): (b: FraudRuleHeatmap)
    requires h.triggerCount >= 0
  {
    var count := h.triggerCount + 1;
    h.(triggerCount := count,
       averageRiskScore := (h.averageRiskScore * ((count - 1) as real) + score) / (count as real),
       lastUpdated := now)
  }

  /** The first trigger's average is its score, and each later trigger keeps
      TriggerCount and AverageRiskScore equal to the count and the mean of all
      the scores seen for that rule and day. */
  lemma HeatmapIsRunningMean(h: FraudRuleHeatmap, scores: seq<real>, r: RuleResult, today: Ticks, now: Ticks)
    requires h.triggerCount == |scores| && h.averageRiskScore == Mean(scores)
    ensures FirstTrigger(r, today, now).triggerCount == |[r.riskScore]|
    ensures FirstTrigger(r, today, now).averageRiskScore == Mean([r.riskScore])
    ensures Bump(h, r.riskScore, now).triggerCount == |scores + [r.riskScore]|
    ensures Bump(h, r.riskScore, now).averageRiskScore == Mean(scores + [r.riskScore])
  {
    MeanSnoc(scores, r.riskScore);
    MeanConstant([r.riskScore], r.riskScore);
  }

  /** What the change tracker holds for the heatmap table: the loaded rows,
      updated in place, and the rows added since. */
  datatype Tracked = Tracked(loaded: seq<FraudRuleHeatmap>, added: seq<FraudRuleHeatmap>)

  /** One turn of the foreach. The lookup queries the database, so it sees
      the loaded rows (with their updates) but not the rows added before. */
  function TrackTrigger(t: Tracked, r: RuleResult, today: Ticks, now: Ticks): Tracked
    requires CountsPositive(t.loaded)
  {
    if !r.triggered then t
    else match FindHeatmap(t.loaded, r.ruleName, today)
      case Some(i) => t.(loaded := t.loaded[i := Bump(t.loaded[i], r.riskScore, now)])
      case None => t.(added := t.added + [FirstTrigger(r, today, now)])
  }

  lemma TrackTriggerKeeps(t: Tracked, r: RuleResult, today: Ticks, now: Ticks)
    requires CountsPositive(t.loaded)
    ensures var u := TrackTrigger(t, r, today, now);
      CountsPositive(u.loaded) && |u.loaded| == |t.loaded| &&
      (forall i :: 0 <= i < |t.loaded| ==> u.loaded[i].ruleName == t.loaded[i].ruleName && u.loaded[i].date == t.loaded[i].date)
  {
  }

  /** The foreach over the rule results from result k on. */
  function TrackTriggers(t: Tracked, results: seq<RuleResult>, k: nat, today: Ticks, now: Ticks): (u: Tracked)
    requires CountsPositive(t.loaded) && k <= |results|
    ensures CountsPositive(u.loaded) && |u.loaded| == |t.loaded|
    ensures forall i :: 0 <= i < |t.loaded| ==> u.loaded[i].ruleName == t.loaded[i].ruleName && u.loaded[i].date == t.loaded[i].date
    decreases |results| - k
  {
    if k == |results| then t
    else
      TrackTriggerKeeps(t, results[k], today, now);
      TrackTriggers(TrackTrigger(t, results[k], today, now), results, k + 1, today, now)
  }

  /** The outcome of ProjectAsync: what SaveChangesAsync did and the tables after it. */
  datatype Projection = Projection(result: Try<()>, summaries: seq<FraudSummary>, heatmaps: seq<FraudRuleHeatmap>)

  const SummaryDuplicateError := Exception(DbUpdateExceptionType, DbUpdateMessage,
    Some(Exception(PostgresExceptionType, "23505: duplicate key value violates unique constraint \"IX_fraud_summary_TransactionId\"", None)))

  const HeatmapDuplicateError := Exception(DbUpdateExceptionType, DbUpdateMessage,
    Some(Exception(PostgresExceptionType, "23505: duplicate key value violates unique constraint \"IX_fraud_rule_heatmap_RuleName_Date\"", None)))

  /** What SaveChangesAsync answers for the tables it would write and a
      connection fault: the fault if there is one, then the TransactionId
      index of fraud_summary, then the (RuleName, Date) index of the heatmap. */
  function ReportingSaveOutcome(summaries: seq<FraudSummary>, heatmaps: seq<FraudRuleHeatmap>, fault: Option<Exception>): (r: Try<()>)
    ensures r.Ok? <==> fault.None? && OneSummaryPerTransaction(summaries) && OneHeatmapPerRuleAndDay(heatmaps)
    ensures fault.Some? ==> r == Throws(fault.value)
    ensures fault.None? && !OneSummaryPerTransaction(summaries) ==> r == Throws(SummaryDuplicateError)
    ensures fault.None? && OneSummaryPerTransaction(summaries) && !OneHeatmapPerRuleAndDay(heatmaps) ==>
      r == Throws(HeatmapDuplicateError)
  {
    if fault.Some? then Throws(fault.value)
    else if !OneSummaryPerTransaction(summaries) then Throws(SummaryDuplicateError)
    else if !OneHeatmapPerRuleAndDay(heatmaps) then Throws(HeatmapDuplicateError)
    else Ok(())
  }

  /** ProjectAsync over the saved tables: upsert the summary, track the
      triggered rules against today's heatmap, and save once; a save that
      fails changes nothing and throws. */
  function Project(summaries: seq<FraudSummary>, heatmaps: seq<FraudRuleHeatmap>, m: FraudAssessed, now: Ticks,
                   fault: Option<Exception>): Projection
    requires CountsPositive(heatmaps)
  {
    var t := TrackTriggers(Tracked(heatmaps, []), m.ruleResults, 0, DateOf(now), now);
    var upserted := UpsertSummary(summaries, m, now);
    var saved := ReportingSaveOutcome(upserted, t.loaded + t.added, fault);
    if saved.Ok? then Projection(saved, upserted, t.loaded + t.added)
    else Projection(saved, summaries, heatmaps)
  }

  /** FraudReportingDbContext's two tables, as saved. */
  class FraudReportingDb {
    var summaries: seq<FraudSummary>
    var heatmaps: seq<FraudRuleHeatmap>

    /** The two unique indexes of FraudReportingDbContext. */
    ghost predicate Indexed()
      reads this
    {
      OneSummaryPerTransaction(summaries) && OneHeatmapPerRuleAndDay(heatmaps)
    }

    ghost predicate Valid()
      reads this
    {
      Indexed() && CountsPositive(heatmaps)
    }

    constructor ()
      ensures Valid() && summaries == [] && heatmaps == []
    {
      summaries := [];
      heatmaps := [];
    }

    /** SaveChangesAsync: the tracked tables are written in one transaction,
        or, on a connection fault or a repeated key of either unique index,
        nothing is. */
    method SaveChanges(newSummaries: seq<FraudSummary>, newHeatmaps: seq<FraudRuleHeatmap>, fault: Option<Exception>)
      returns (r: Try<()>)
      requires Indexed()
      modifies this
      ensures Indexed()
      ensures r == ReportingSaveOutcome(newSummaries, newHeatmaps, fault)
      ensures r.Ok? ==> summaries == newSummaries && heatmaps == newHeatmaps
      ensures r.Throws? ==> summaries == old(summaries) && heatmaps == old(heatmaps)
    {
      r := ReportingSaveOutcome(newSummaries, newHeatmaps, fault);
      if r.Ok? {
        summaries, heatmaps := newSummaries, newHeatmaps;
      }
    }
  }

  /** An upsert keeps one summary per transaction. */
  lemma {:induction false} UpsertKeepsOnePerTransaction(rows: seq<FraudSummary>, m: FraudAssessed, now: Ticks)
    requires OneSummaryPerTransaction(rows)
    ensures OneSummaryPerTransaction(UpsertSummary(rows, m, now))
  {
  }

  /** After an upsert the transaction has exactly one summary, carrying the
      message's flag and score and `now` as EvaluatedAt; a summary that
      existed keeps its FraudCheckId and CreatedAt, a new one takes the
      message's FraudCheckId and `now`; every other summary is unchanged. */
  lemma UpsertSummaryContents(rows: seq<FraudSummary>, m: FraudAssessed, now: Ticks)
    requires OneSummaryPerTransaction(rows)
    ensures var after := UpsertSummary(rows, m, now);
      var i := FindSummary(after, m.transactionId);
      i.Some? &&
      after[i.value].isFlagged == m.isFlagged && after[i.value].overallRiskScore == m.overallRiskScore &&
      after[i.value].evaluatedAt == now &&
      (match FindSummary(rows, m.transactionId)
       case Some(j) => after[i.value].fraudCheckId == rows[j].fraudCheckId && after[i.value].createdAt == rows[j].createdAt
       case None => after[i.value].fraudCheckId == m.fraudCheckId && after[i.value].createdAt == now) &&
      (forall k :: 0 <= k < |rows| && rows[k].transactionId != m.transactionId ==> after[k] == rows[k])
  {
    var after := UpsertSummary(rows, m, now);
    match FindSummary(rows, m.transactionId)
    case Some(j) =>
      assert after[j].transactionId == m.transactionId;
    case None =>
      assert after[|rows|].transactionId == m.transactionId;
  }

  /** A triggered rule result of a rule and day already on the heatmap bumps
      that row; results not triggered touch nothing. */
  lemma TrackTriggerEffect(t: Tracked, r: RuleResult, today: Ticks, now: Ticks)
    requires CountsPositive(t.loaded)
    ensures !r.triggered ==> TrackTrigger(t, r, today, now) == t
    ensures r.triggered && FindHeatmap(t.loaded, r.ruleName, today).Some? ==>
      var i := FindHeatmap(t.loaded, r.ruleName, today).value;
      TrackTrigger(t, r, today, now) == Tracked(t.loaded[i := Bump(t.loaded[i], r.riskScore, now)], t.added)
    ensures r.triggered && FindHeatmap(t.loaded, r.ruleName, today).None? ==>
      TrackTrigger(t, r, today, now) == Tracked(t.loaded, t.added + [FirstTrigger(r, today, now)])
  {
  }

  /** A row of the loaded heatmap for a rule that no triggered result names,
      or for another day, comes out unchanged. */
  lemma {:induction false} UntouchedRowsKept(t: Tracked, results: seq<RuleResult>, k: nat, today: Ticks, now: Ticks, x: nat)
    requires CountsPositive(t.loaded) && k <= |results| && x < |t.loaded|
    requires t.loaded[x].date != today ||
             forall j :: k <= j < |results| && results[j].triggered ==> results[j].ruleName != t.loaded[x].ruleName
    ensures TrackTriggers(t, results, k, today, now).loaded[x] == t.loaded[x]
    decreases |results| - k
  {
    if k < |results| {
      var u := TrackTrigger(t, results[k], today, now);
      TrackTriggerKeeps(t, results[k], today, now);
      UntouchedRowsKept(u, results, k + 1, today, now, x);
    }
  }

  /** The heatmap rows a projection adds are each a first trigger of today,
      for a triggered rule that had no row today. */
  lemma {:induction false} AddedRowsAreFirstTriggers(t: Tracked, results: seq<RuleResult>, k: nat, today: Ticks, now: Ticks)
    requires CountsPositive(t.loaded) && k <= |results|
    ensures var u := TrackTriggers(t, results, k, today, now);
      |u.added| >= |t.added| && u.added[..|t.added|] == t.added &&
      forall a :: |t.added| <= a < |u.added| ==>
        u.added[a].date == today && u.added[a].triggerCount == 1 &&
        exists j :: k <= j < |results| && results[j].triggered && results[j].ruleName == u.added[a].ruleName &&
                    u.added[a].averageRiskScore == results[j].riskScore
    decreases |results| - k
  {
    if k < |results| {
      var u1 := TrackTrigger(t, results[k], today, now);
      TrackTriggerKeeps(t, results[k], today, now);
      AddedRowsAreFirstTriggers(u1, results, k + 1, today, now);
      var u := TrackTriggers(t, results, k, today, now);
      assert u == TrackTriggers(u1, results, k + 1, today, now);
      forall a | |t.added| <= a < |u.added|
        ensures u.added[a].date == today && u.added[a].triggerCount == 1 &&
          exists j :: k <= j < |results| && results[j].triggered && results[j].ruleName == u.added[a].ruleName &&
                      u.added[a].averageRiskScore == results[j].riskScore
      {
        if a < |u1.added| {
          assert u1.added == t.added + [FirstTrigger(results[k], today, now)];
          assert u.added[a] == u1.added[a] == FirstTrigger(results[k], today, now);
        }
      }
      assert u.added[..|t.added|] == u1.added[..|u1.added|][..|t.added|];
    }
  }

  /** When the triggered rule results name distinct rules, the heatmap
      index holds after the projection, so the save goes through. */
  lemma DistinctRulesSave(summaries: seq<FraudSummary>, heatmaps: seq<FraudRuleHeatmap>, m: FraudAssessed, now: Ticks)
    requires OneHeatmapPerRuleAndDay(heatmaps) && CountsPositive(heatmaps)
    requires forall i, j :: 0 <= i < j < |m.ruleResults| && m.ruleResults[i].triggered && m.ruleResults[j].triggered ==>
      m.ruleResults[i].ruleName != m.ruleResults[j].ruleName
    requires OneSummaryPerTransaction(summaries)
    ensures Project(summaries, heatmaps, m, now, None).result == Ok(())
  {
    UpsertKeepsOnePerTransaction(summaries, m, now);
    DistinctRulesTracked(Tracked(heatmaps, []), m.ruleResults, 0, DateOf(now), now);
  }

  /** A projection of an indexed summary table either saves the upserted
      summary and the tracked heatmap together, or throws and leaves both
      tables as they were; it saves iff the connection answers and the
      heatmap keeps one row per rule and day. */
  lemma ProjectAllOrNothing(summaries: seq<FraudSummary>, heatmaps: seq<FraudRuleHeatmap>, m: FraudAssessed, now: Ticks,
                            fault: Option<Exception>)
    requires OneSummaryPerTransaction(summaries) && CountsPositive(heatmaps)
    ensures var p := Project(summaries, heatmaps, m, now, fault);
      var t := TrackTriggers(Tracked(heatmaps, []), m.ruleResults, 0, DateOf(now), now);
      (p.result.Ok? <==> fault.None? && OneHeatmapPerRuleAndDay(t.loaded + t.added)) &&
      (fault.Some? ==> p.result == Throws(fault.value)) &&
      (p.result.Ok? ==> p.summaries == UpsertSummary(summaries, m, now) && p.heatmaps == t.loaded + t.added) &&
      (p.result.Throws? ==> p.summaries == summaries && p.heatmaps == heatmaps)
  {
    UpsertKeepsOnePerTransaction(summaries, m, now);
  }

  /** The index invariant of the tracked rows across the foreach: the loaded
      rows keep their keys, and each added row is today's row of a distinct
      rule with no loaded row today and no triggered result left to come. */
  ghost predicate TrackedIndexOk(t: Tracked, results: seq<RuleResult>, k: nat, today: Ticks)
    requires k <= |results|
  {
    OneHeatmapPerRuleAndDay(t.loaded + t.added) &&
    (forall a :: 0 <= a < |t.added| ==>
       t.added[a].date == today && FindHeatmap(t.loaded, t.added[a].ruleName, today).None? &&
       forall j :: k <= j < |results| && results[j].triggered ==> results[j].ruleName != t.added[a].ruleName)
  }

  lemma {:induction false} DistinctRulesTracked(t: Tracked, results: seq<RuleResult>, k: nat, today: Ticks, now: Ticks)
    requires CountsPositive(t.loaded) && k <= |results|
    requires TrackedIndexOk(t, results, k, today)
    requires forall i, j :: k <= i < j < |results| && results[i].triggered && results[j].triggered ==>
      results[i].ruleName != results[j].ruleName
    ensures var u := TrackTriggers(t, results, k, today, now);
      OneHeatmapPerRuleAndDay(u.loaded + u.added)
    decreases |results| - k
  {
    if k < |results| {
      var r := results[k];
      var u := TrackTrigger(t, r, today, now);
      TrackTriggerKeeps(t, r, today, now);
      assert FindHeatmap(u.loaded, r.ruleName, today) == FindHeatmap(t.loaded, r.ruleName, today) by {
        SameKeysSameFind(t.loaded, u.loaded, r.ruleName, today);
      }
      forall a | 0 <= a < |t.added|
        ensures FindHeatmap(u.loaded, t.added[a].ruleName, today).None?
      {
        SameKeysSameFind(t.loaded, u.loaded, t.added[a].ruleName, today);
      }
      var all := u.loaded + u.added;
      forall i, j | 0 <= i < j < |all|
        ensures all[i].ruleName != all[j].ruleName || all[i].date != all[j].date
      {
        var before := t.loaded + t.added;
        if j < |before| {
          assert all[i].ruleName == before[i].ruleName && all[i].date == before[i].date;
          assert all[j].ruleName == before[j].ruleName && all[j].date == before[j].date;
        }
      }
      DistinctRulesTracked(u, results, k + 1, today, now);
    }
  }

  /** Two tables with the same keys in the same places answer the same lookups. */
  lemma {:induction false} SameKeysSameFind(a: seq<FraudRuleHeatmap>, b: seq<FraudRuleHeatmap>, ruleName: string, date: Ticks)
    requires |a| == |b| && forall i :: 0 <= i < |a| ==> a[i].ruleName == b[i].ruleName && a[i].date == b[i].date
    ensures FindHeatmap(a, ruleName, date) == FindHeatmap(b, ruleName, date)
    decreases |a|
  {
    if a != [] {
      SameKeysSameFind(a[1..], b[1..], ruleName, date);
    }
  }

  /** The foreach over the rule results of ProjectAsync: a triggered result
      bumps its rule's row of today among the loaded rows, or adds a first
      trigger; the rows are only tracked, not saved. */
  method TrackHeatmaps(loaded: seq<FraudRuleHeatmap>, results: seq<RuleResult>, today: Ticks, now: Ticks) returns (tracked: Tracked)
    requires CountsPositive(loaded)
    ensures tracked == TrackTriggers(Tracked(loaded, []), results, 0, today, now)
    ensures forall a :: 0 <= a < |tracked.added| ==> tracked.added[a].triggerCount == 1
  {
    tracked := Tracked(loaded, []);
    var k := 0;
    while k < |results|
      invariant 0 <= k <= |results|
      invariant CountsPositive(tracked.loaded)
      invariant TrackTriggers(tracked, results, k, today, now) == TrackTriggers(Tracked(loaded, []), results, 0, today, now)
      invariant forall a :: 0 <= a < |tracked.added| ==> tracked.added[a].triggerCount == 1
    {
      var result := results[k];
      if result.triggered {
        var h := FindHeatmap(tracked.loaded, result.ruleName, today);
        if h.None? {
          tracked := tracked.(added := tracked.added + [FirstTrigger(result, today, now)]);
        } else {
          var i := h.value;
          tracked := tracked.(loaded := tracked.loaded[i := Bump(tracked.loaded[i], result.riskScore, now)]);
        }
      }
      k := k + 1;
    }
  }

  class FraudAssessedProjection {
    const context: FraudReportingDb

    constructor (context: FraudReportingDb)
      ensures this.context == context
    {
      this.context := context;
    }

    /** ProjectAsync, with one clock reading `now`; `fault` is what the
        connection raises at SaveChangesAsync (None when the database answers). */
    method ProjectAsync(m: FraudAssessed, now: Ticks, fault: Option<Exception>) returns (r: Try<()>)
      requires context.Valid()
      modifies context
      ensures context.Valid()
      ensures var p := Project(old(context.summaries), old(context.heatmaps), m, now, fault);
        r == p.result && context.summaries == p.summaries && context.heatmaps == p.heatmaps
    {
      var summaries := context.summaries;
      var found := FindSummary(summaries, m.transactionId);
      if found.None? {
        summaries := summaries + [FraudSummary(m.transactionId, m.fraudCheckId, m.isFlagged, m.overallRiskScore, now, now)];
      } else {
        var i := found.value;
        summaries := summaries[i := summaries[i].(isFlagged := m.isFlagged, overallRiskScore := m.overallRiskScore, evaluatedAt := now)];
      }
      UpsertKeepsOnePerTransaction(context.summaries, m, now);
      var tracked := TrackHeatmaps(context.heatmaps, m.ruleResults, DateOf(now), now);
      r := context.SaveChanges(summaries, tracked.loaded + tracked.added, fault);
    }
  }

  /** GetByTransactionIdAsync: the summary of a transaction, or null. */
  function GetByTransactionId(rows: seq<FraudSummary>, transactionId: Guid): (r: Option<FraudSummary>)
    ensures r.None? <==> forall i :: 0 <= i < |rows| ==> rows[i].transactionId != transactionId
    ensures r.Some? ==> r.value in rows && r.value.transactionId == transactionId
  {
    match FindSummary(rows, transactionId)
    case None => None
    case Some(i) => Some(rows[i])
  }

  /** Under the unique index, the summary found is the only one of the transaction. */
  lemma GetByTransactionIdUnique(rows: seq<FraudSummary>, s: FraudSummary)
    requires OneSummaryPerTransaction(rows) && s in rows
    ensures GetByTransactionId(rows, s.transactionId) == Some(s)
  {
    var i := FindSummary(rows, s.transactionId).value;
    var j :| 0 <= j < |rows| && rows[j] == s;
    assert i == j;
  }

  datatype DailyStatsDto = DailyStatsDto(date: Ticks, totalEvaluations: nat, flaggedCount: nat, averageRiskScore: real)

  /** The summary was evaluated in [day, day + 1 day). */
  predicate EvaluatedWithin(s: FraudSummary, day: Ticks)
  {
    day <= s.evaluatedAt < day + TicksPerDay
  }

  /** The summaries evaluated in [day, day + 1 day), in table order. */
  function EvaluatedOn(rows: seq<FraudSummary>, day: Ticks): (w: seq<FraudSummary>)
    ensures forall i :: 0 <= i < |w| ==> w[i] in rows && EvaluatedWithin(w[i], day)
    ensures |w| <= |rows|
    decreases |rows|
  {
    if rows == [] then []
    else
      var init := rows[..|rows| - 1];
      var last := rows[|rows| - 1];
      assert forall s :: s in init ==> s in rows;
      if EvaluatedWithin(last, day) then EvaluatedOn(init, day) + [last] else EvaluatedOn(init, day)
  }

  /** The indexes of the rows evaluated in [day, day + 1 day). */
  ghost function WindowIndexes(rows: seq<FraudSummary>, day: Ticks): set<int>
  {
    set i | 0 <= i < |rows| && EvaluatedWithin(rows[i], day)
  }

  lemma WindowIndexesSnoc(rows: seq<FraudSummary>, day: Ticks)
    requires rows != []
    ensures WindowIndexes(rows, day) ==
            WindowIndexes(rows[..|rows| - 1], day) +
            (if EvaluatedWithin(rows[|rows| - 1], day) then {|rows| - 1} else {})
  {
  }

  /** EvaluatedOn keeps each in-window row exactly as often as the table
      holds it and no other row, so its length is the number of in-window rows. */
  lemma {:induction false} EvaluatedOnExactly(rows: seq<FraudSummary>, day: Ticks)
    ensures forall s :: multiset(EvaluatedOn(rows, day))[s] ==
                        if EvaluatedWithin(s, day) then multiset(rows)[s] else 0
    ensures |EvaluatedOn(rows, day)| == |WindowIndexes(rows, day)|
    decreases |rows|
  {
    if rows != [] {
      var init := rows[..|rows| - 1];
      var last := rows[|rows| - 1];
      EvaluatedOnExactly(init, day);
      WindowIndexesSnoc(rows, day);
      assert rows == init + [last];
      assert multiset(rows) == multiset(init) + multiset{last};
      if EvaluatedWithin(last, day) {
        assert |rows| - 1 !in WindowIndexes(init, day);
        assert multiset(EvaluatedOn(rows, day)) == multiset(EvaluatedOn(init, day)) + multiset{last};
      }
    }
  }

  /** The number of flagged summaries among w. */
  function CountFlagged(w: seq<FraudSummary>): (n: nat)
    ensures n == |set i | 0 <= i < |w| && w[i].isFlagged|
    ensures n <= |w|
  {
    if w == [] then 0
    else
      var init := w[..|w| - 1];
      assert (set i | 0 <= i < |w| && w[i].isFlagged) ==
             (set i | 0 <= i < |init| && init[i].isFlagged) +
             (if w[|w| - 1].isFlagged then {|w| - 1} else {});
      CountFlagged(init) + (if w[|w| - 1].isFlagged then 1 else 0)
  }

  function Scores(w: seq<FraudSummary>): (s: seq<real>)
    ensures |s| == |w| && forall i :: 0 <= i < |w| ==> s[i] == w[i].overallRiskScore
  {
    seq(|w|, i requires 0 <= i < |w| => w[i].overallRiskScore)
  }

  /** GetDailyStatisticsAsync: null when no summary was evaluated that day;
      otherwise the day, the number of that day's summaries, how many of them
      are flagged, and their mean score. */
  function GetDailyStatistics(rows: seq<FraudSummary>, date: Ticks): (r: Option<DailyStatsDto>)
    ensures r.None? <==> forall s :: s in rows ==> !EvaluatedWithin(s, DateOf(date))
    ensures r.Some? ==> r.value.date == DateOf(date) && r.value.flaggedCount <= r.value.totalEvaluations &&
                        1 <= r.value.totalEvaluations <= |rows|
    ensures r.Some? ==> r.value.totalEvaluations == |WindowIndexes(rows, DateOf(date))|
    ensures r.Some? ==> r.value.flaggedCount == CountFlagged(EvaluatedOn(rows, DateOf(date)))
    ensures r.Some? ==>
      r.value.averageRiskScore == Sum(Scores(EvaluatedOn(rows, DateOf(date)))) / (r.value.totalEvaluations as real)
  {
    var day := DateOf(date);
    var w := EvaluatedOn(rows, day);
    EvaluatedOnExactly(rows, day);
    if w == [] then
      assert forall s :: s in rows ==> !EvaluatedWithin(s, day) by {
        forall s | s in rows ensures !EvaluatedWithin(s, day) {
          assert multiset(w)[s] == 0;
        }
      }
      None
    else
      assert w[0] in rows;
      var scores := Scores(w);
      Some(DailyStatsDto(day, |w|, CountFlagged(w), Mean(scores)))
  }

  /** The daily average lies between the lowest and highest score of the
      day's summaries. */
  lemma DailyAverageBounds(rows: seq<FraudSummary>, date: Ticks, lo: real, hi: real)
    requires forall s :: s in rows ==> lo <= s.overallRiskScore <= hi
    ensures var r := GetDailyStatistics(rows, date);
      r.Some? ==> lo <= r.value.averageRiskScore <= hi
  {
    var w := EvaluatedOn(rows, DateOf(date));
    if w != [] {
      MeanBounds(Scores(w), lo, hi);
    }
  }

  /** Every instant of a day asks for the same statistics. */
  lemma SameDaySameStatistics(rows: seq<FraudSummary>, t: Ticks, u: Ticks)
    requires DateOf(t) <= u < DateOf(t) + TicksPerDay
    ensures GetDailyStatistics(rows, u) == GetDailyStatistics(rows, t)
  {
    DateOfWithinDay(t, u);
  }

  /** GetDailyStatsQueryHandler.Handle: always a success; a day with no
      summaries gets zero counts and a zero average. */
  function HandleDailyStats(rows: seq<FraudSummary>, date: Ticks): (r: Result<DailyStatsDto>)
    ensures r.Success?
    ensures r.value.date == DateOf(date)
    ensures GetDailyStatistics(rows, DateOf(date)).Some? ==> r.value == GetDailyStatistics(rows, DateOf(date)).value
    ensures GetDailyStatistics(rows, DateOf(date)).None? ==>
      r.value.totalEvaluations == 0 && r.value.flaggedCount == 0 && r.value.averageRiskScore == 0.0
  {
    DateOfIdempotent(date);
    match GetDailyStatistics(rows, DateOf(date))
    case Some(stats) => Success(stats)
    case None => Success(DailyStatsDto(DateOf(date), 0, 0, 0.0))
  }

  datatype TopRuleDto = TopRuleDto(ruleName: string, triggerCount: int, averageRiskScore: real, date: Ticks)

  function ToTopRule(h: FraudRuleHeatmap): TopRuleDto {
    TopRuleDto(h.ruleName, h.triggerCount, h.averageRiskScore, h.date)
  }

  /** The sort key of OrderByDescending(TriggerCount). */
  function NegatedCount(h: FraudRuleHeatmap): int {
    -h.triggerCount
  }

  /** The heatmap rows by TriggerCount, most triggered first. */
  function ByCountDescending(rows: seq<FraudRuleHeatmap>): seq<FraudRuleHeatmap> {
    SortBy(rows, NegatedCount)
  }

  /** The rows GetTopRules keeps: the first `top` of the descending order. */
  function TopRows(rows: seq<FraudRuleHeatmap>, top: int): seq<FraudRuleHeatmap> {
    Take(ByCountDescending(rows), top)
  }

  /** What Postgres answers a query whose LIMIT is negative. */
  const NegativeLimitError := Exception(PostgresExceptionType, "2201W: LIMIT must not be negative", None)

  /** GetTopRules(top): the `top` heatmap rows with the most triggers, over all
      days. Take(top) becomes `LIMIT top`, which the database refuses when top
      is negative. */
  function GetTopRules(rows: seq<FraudRuleHeatmap>, top: int): Try<seq<TopRuleDto>> {
    if top < 0 then Throws(NegativeLimitError)
    else
      var kept := TopRows(rows, top);
      Ok(seq(|kept|, i requires 0 <= i < |kept| => ToTopRule(kept[i])))
  }

  /** The kept rows come in non-increasing TriggerCount, and none of them has
      fewer triggers than a row of the descending order that was cut off. */
  lemma TopRowsOrdered(rows: seq<FraudRuleHeatmap>, top: int)
    ensures var all := ByCountDescending(rows);
      var kept := TopRows(rows, top);
      multiset(all) == multiset(rows) &&
      (forall i, j :: 0 <= i < j < |kept| ==> kept[i].triggerCount >= kept[j].triggerCount) &&
      (forall i, j :: 0 <= i < |kept| <= j < |all| ==> kept[i].triggerCount >= all[j].triggerCount)
  {
    SortByProperties(rows, NegatedCount);
    TakeSorted(ByCountDescending(rows), top, NegatedCount);
  }

  /** Each row left out of the top has no more triggers than any kept row. */
  lemma TopRowsBeatLeftOut(rows: seq<FraudRuleHeatmap>, top: int)
    ensures var kept := TopRows(rows, top);
      multiset(kept) <= multiset(rows) &&
      forall i, h :: 0 <= i < |kept| && h in multiset(rows) - multiset(kept) ==> kept[i].triggerCount >= h.triggerCount
  {
    TopRowsOrdered(rows, top);
    var all := ByCountDescending(rows);
    var kept := TopRows(rows, top);
    var n := |kept|;
    assert all == kept + all[n..];
    assert multiset(all) == multiset(kept) + multiset(all[n..]);
    forall i, h | 0 <= i < n && h in multiset(rows) - multiset(kept)
      ensures kept[i].triggerCount >= h.triggerCount
    {
      var rest := all[n..];
      assert h in rest;
      var l :| 0 <= l < |rest| && rest[l] == h;
      assert all[n + l] == h;
    }
  }

  /** A negative top makes the query throw. Otherwise: at most `top` entries
      (none for top 0), in non-increasing TriggerCount, each a copy of a
      heatmap row, no row counted twice; no row left out has more triggers
      than an entry. */
  lemma TopRulesProperties(rows: seq<FraudRuleHeatmap>, top: int)
    ensures GetTopRules(rows, top).Throws? <==> top < 0
    ensures GetTopRules(rows, top).Throws? ==> GetTopRules(rows, top).error == NegativeLimitError
    ensures top >= 0 ==> var r := GetTopRules(rows, top).value;
      var kept := TopRows(rows, top);
      |r| == (if top < |rows| then top else |rows|) &&
      (forall i, j :: 0 <= i < j < |r| ==> r[i].triggerCount >= r[j].triggerCount) &&
      (forall i :: 0 <= i < |r| ==> r[i] == ToTopRule(kept[i])) &&
      multiset(kept) <= multiset(rows) &&
      (forall i, h :: 0 <= i < |r| && h in multiset(rows) - multiset(kept) ==> r[i].triggerCount >= h.triggerCount)
  {
    TopRowsOrdered(rows, top);
    TopRowsBeatLeftOut(rows, top);
    SortByProperties(rows, NegatedCount);
  }
}
