/** The persisted outcome of one evaluation: FraudCheck and its FraudRuleResults. */
module FraudChecks {
  import opened Base

  datatype FraudRuleResult = FraudRuleResult(ruleName: string, triggered: bool, riskScore: real, reason: string)

  datatype FraudCheck = FraudCheck(
    fraudCheckId: Guid,
    transactionId: Guid,
    accountId: Guid,
    isFlagged: bool,
    overallRiskScore: real,
    evaluatedAt: Ticks,
    ruleResults: seq<FraudRuleResult>)
}

/**
 * The evaluation worker's database (RulesEngineDbContext) as seen through
 * FraudCheckRepository: AddAsync stages a check, SaveChangesAsync persists
 * every staged check at once. The unique indexes on FraudCheckId and on
 * (AccountId, EvaluatedAt) are the table's invariant; a save that would
 * break one fails as a DbUpdateException and persists nothing.
 */
module RulesEngineData {
  import opened Base
  import opened FraudChecks

  const UniqueViolationMessage := "23505: duplicate key value violates unique constraint"

  /** No two checks share a FraudCheckId or an (AccountId, EvaluatedAt) pair. */
  ghost predicate UniqueChecks(checks: seq<FraudCheck>) {
    forall i, j :: 0 <= i < j < |checks| ==>
      checks[i].fraudCheckId != checks[j].fraudCheckId &&
      (checks[i].accountId != checks[j].accountId || checks[i].evaluatedAt != checks[j].evaluatedAt)
  }

  /** Whether a list of checks has a duplicate key (what the database rejects). */
  function HasDuplicateKey(checks: seq<FraudCheck>): (b: bool)
    ensures !b <==> UniqueChecks(checks)
  {
    exists i, j :: 0 <= i < j < |checks| &&
      (checks[i].fraudCheckId == checks[j].fraudCheckId ||
       (checks[i].accountId == checks[j].accountId && checks[i].evaluatedAt == checks[j].evaluatedAt))
  }

  /** The error a save raises when a unique index would be broken. */
  const DuplicateKeyError := Exception(DbUpdateExceptionType, DbUpdateMessage,
    Some(Exception(PostgresExceptionType, UniqueViolationMessage, None)))

  /** What SaveChangesAsync returns for the saved rows, the staged rows and a
      connection fault: the fault if there is one, then the unique-index check. */
  function SaveOutcome(rows: seq<FraudCheck>, staged: seq<FraudCheck>, fault: Option<Exception>): (r: Try<()>)
    ensures r.Ok? <==> fault.None? && UniqueChecks(rows + staged)
    ensures fault.Some? ==> r == Throws(fault.value)
    ensures fault.None? && r.Throws? ==>
      (r.error == DuplicateKeyError && r.error.inner.Some? && r.error.inner.value.typeName == PostgresExceptionType)
  {
    if fault.Some? then Throws(fault.value)
    else if HasDuplicateKey(rows + staged) then Throws(DuplicateKeyError)
    else Ok(())
  }

  class RulesEngineDb {
    /** The fraud_checks table, in insertion order. */
    var fraudChecks: seq<FraudCheck>
    /** Checks added to the context and not yet saved. */
    var staged: seq<FraudCheck>

    ghost predicate Valid()
      reads this
    {
      UniqueChecks(fraudChecks)
    }

    constructor (rows: seq<FraudCheck>)
      requires UniqueChecks(rows)
      ensures Valid() && fraudChecks == rows && staged == []
    {
      fraudChecks := rows;
      staged := [];
    }

    /** FraudCheckRepository.AddAsync: stage the check; nothing is persisted yet. */
    method Add(check: FraudCheck)
      modifies this
      ensures fraudChecks == old(fraudChecks) && staged == old(staged) + [check]
    {
      staged := staged + [check];
    }

    /** FraudCheckRepository.SaveChangesAsync. `fault` is an error the connection
        raises (None when the database answers); a duplicate key raises a
        DbUpdateException. On failure nothing is persisted and the checks stay
        staged, as the change tracker keeps them. */
    method SaveChanges(fault: Option<Exception>) returns (r: Try<()>)
      requires Valid()
      modifies this
      ensures Valid()
      ensures r == SaveOutcome(old(fraudChecks), old(staged), fault)
      ensures r.Ok? ==> fraudChecks == old(fraudChecks) + old(staged) && staged == []
      ensures r.Throws? ==> fraudChecks == old(fraudChecks) && staged == old(staged)
    {
      r := SaveOutcome(fraudChecks, staged, fault);
      if r.Ok? {
        fraudChecks := fraudChecks + staged;
        staged := [];
      }
    }
  }
}

/** TransactionHistoryRepository: the recent-activity count behind the velocity rule. */
module History {
  import opened Base
  import opened FraudChecks

  /** Whether a check belongs to the account and was evaluated at or after since. */
  predicate IsRecent(c: FraudCheck, accountId: Guid, since: Ticks) {
    c.accountId == accountId && c.evaluatedAt >= since
  }

  /** GetRecentTransactionsCountAsync: the number of checks of the account
      evaluated at or after since. */
  function CountRecent(checks: seq<FraudCheck>, accountId: Guid, since: Ticks): (n: nat)
    ensures n <= |checks|
    decreases |checks|
  {
    if checks == [] then 0
    else CountRecent(checks[..|checks| - 1], accountId, since) + (if IsRecent(checks[|checks| - 1], accountId, since) then 1 else 0)
  }

  /** Adding a check adds one exactly when it is the account's and not older than
      since (the boundary itself is counted). */
  lemma CountRecentSnoc(checks: seq<FraudCheck>, c: FraudCheck, accountId: Guid, since: Ticks)
    ensures CountRecent(checks + [c], accountId, since) ==
      CountRecent(checks, accountId, since) + (if c.accountId == accountId && c.evaluatedAt >= since then 1 else 0)
  {
    assert (checks + [c])[..|checks + [c]| - 1] == checks;
  }

  /** The count is zero exactly when no check is recent for the account; other
      accounts' checks never contribute. */
  lemma {:induction false} CountRecentZero(checks: seq<FraudCheck>, accountId: Guid, since: Ticks)
    ensures CountRecent(checks, accountId, since) == 0 <==>
      forall i :: 0 <= i < |checks| ==> !IsRecent(checks[i], accountId, since)
    decreases |checks|
  {
    if checks != [] {
      var init := checks[..|checks| - 1];
      CountRecentZero(init, accountId, since);
      assert forall i :: 0 <= i < |init| ==> init[i] == checks[i];
    }
  }

  /** An earlier since never gives a smaller count. */
  lemma {:induction false} CountRecentAntitone(checks: seq<FraudCheck>, accountId: Guid, since1: Ticks, since2: Ticks)
    requires since1 <= since2
    ensures CountRecent(checks, accountId, since2) <= CountRecent(checks, accountId, since1)
    decreases |checks|
  {
    if checks != [] {
      CountRecentAntitone(checks[..|checks| - 1], accountId, since1, since2);
    }
  }

  /** Counting over two lists run back to back adds up. */
  lemma {:induction false} CountRecentConcat(a: seq<FraudCheck>, b: seq<FraudCheck>, accountId: Guid, since: Ticks)
    ensures CountRecent(a + b, accountId, since) == CountRecent(a, accountId, since) + CountRecent(b, accountId, since)
    decreases |b|
  {
    if b == [] {
      assert a + b == a;
    } else {
      var b' := b[..|b| - 1];
      assert (a + b)[..|a + b| - 1] == a + b';
      assert (a + b)[|a + b| - 1] == b[|b| - 1];
      CountRecentConcat(a, b', accountId, since);
    }
  }
}
