/**
 * TransactionUnitOfWork: runs an operation inside a database transaction,
 * committing only when the operation succeeds and rolling back otherwise.
 * The database's transaction control is a class whose log records each
 * Begin, Commit and Rollback that took effect.
 */
module UnitOfWork {
  import opened Base
  import opened Results

  const PersistFailedMessage := "Unable to persist the transaction. Please retry the request."

  /** A database-transaction step that took effect. */
  datatype TxStep = Begin | Commit | Rollback

  /** The steps ExecuteAsync takes and what it returns or throws. */
  datatype Execution<+T> = Execution(steps: seq<TxStep>, result: Try<Result<T>>)

  /** ExecuteAsync over the outcome of the operation: None is a null delegate,
      Throws an exception the operation raises. `beginFault` and `commitFault`
      are errors from BeginTransactionAsync and CommitAsync. */
  function Execute<T>(operation: Option<Try<Result<T>>>, beginFault: Option<Exception>, commitFault: Option<Exception>): (x: Execution<T>)
    // a transaction that begins ends exactly once, by commit or by rollback
    ensures x.steps == [] || x.steps == [Begin, Commit] || x.steps == [Begin, Rollback]
    // nothing begins when ExecuteAsync throws, and it throws only for a null
    // operation or a failed begin
    ensures x.steps == [] <==> x.result.Throws?
    ensures x.result.Throws? <==> operation.None? || beginFault.Some?
    ensures operation.None? ==> x.result.Throws? && x.result.error.typeName == ArgumentNullExceptionType
    // only a successful operation whose commit succeeds is committed, and its
    // result is returned as it is
    ensures Commit in x.steps <==> operation.Some? && operation.value.Ok? && operation.value.value.Success? &&
                                   beginFault.None? && commitFault.None?
    ensures Commit in x.steps ==> x.result == operation.value
    // a failure the operation returns is rolled back and passed on unchanged
    ensures operation.Some? && beginFault.None? && operation.value.Ok? && operation.value.value.Failure? ==>
      x == Execution([Begin, Rollback], operation.value)
    // an exception, from the operation or the commit, is rolled back and
    // answered with the persistence failure
    ensures operation.Some? && beginFault.None? && (operation.value.Throws? || commitFault.Some?) &&
            !(operation.value.Ok? && operation.value.value.Failure?) ==>
      x == Execution([Begin, Rollback], Ok(Failure(PersistFailedMessage)))
  {
    if operation.None? then Execution([], Throws(Exception(ArgumentNullExceptionType, "Value cannot be null. (Parameter 'operation')", None)))
    else if beginFault.Some? then Execution([], Throws(beginFault.value))
    else match operation.value
      case Throws(_) => Execution([Begin, Rollback], Ok(Failure(PersistFailedMessage)))
      case Ok(result) =>
        if result.IsFailure() then Execution([Begin, Rollback], Ok(result))
        else if commitFault.Some? then Execution([Begin, Rollback], Ok(Failure(PersistFailedMessage)))
        else Execution([Begin, Commit], Ok(result))
  }

  /** context.Database: the transactions begun, committed and rolled back. */
  class DatabaseFacade {
    var log: seq<TxStep>

    constructor ()
      ensures log == []
    {
      log := [];
    }

    method BeginTransaction(fault: Option<Exception>) returns (r: Try<()>)
      modifies this
      ensures fault.Some? ==> r == Throws(fault.value) && log == old(log)
      ensures fault.None? ==> r == Ok(()) && log == old(log) + [Begin]
    {
      if fault.Some? {
        return Throws(fault.value);
      }
      log := log + [Begin];
      return Ok(());
    }

    method CommitTransaction(fault: Option<Exception>) returns (r: Try<()>)
      modifies this
      ensures fault.Some? ==> r == Throws(fault.value) && log == old(log)
      ensures fault.None? ==> r == Ok(()) && log == old(log) + [Commit]
    {
      if fault.Some? {
        return Throws(fault.value);
      }
      log := log + [Commit];
      return Ok(());
    }

    method RollbackTransaction()
      modifies this
      ensures log == old(log) + [Rollback]
    {
      log := log + [Rollback];
    }
  }

  class TransactionUnitOfWork {
    const database: DatabaseFacade

    constructor (database: DatabaseFacade)
      ensures this.database == database
    {
      this.database := database;
    }

    /** ExecuteAsync: begin, run the operation, then roll back a failure or an
        exception and commit a success. */
    method ExecuteAsync<T>(operation: Option<Try<Result<T>>>, beginFault: Option<Exception>, commitFault: Option<Exception>)
      returns (r: Try<Result<T>>)
      modifies database
      ensures var x := Execute(operation, beginFault, commitFault);
        r == x.result && database.log == old(database.log) + x.steps
    {
      if operation.None? {
        return Throws(Exception(ArgumentNullExceptionType, "Value cannot be null. (Parameter 'operation')", None));
      }
      var begun := database.BeginTransaction(beginFault);
      if begun.Throws? {
        return Throws(begun.error);
      }
      var outcome := operation.value;
      if outcome.Ok? {
        var result := outcome.value;
        if result.IsFailure() {
          database.RollbackTransaction();
          return Ok(result);
        }
        var committed := database.CommitTransaction(commitFault);
        if committed.Ok? {
          return Ok(result);
        }
      }
      database.RollbackTransaction();
      return Ok(Failure(PersistFailedMessage));
    }
  }
}
