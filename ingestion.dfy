/**
 * Transaction ingestion: CreateTransactionCommandHandler, idempotent on
 * ExternalId, and DomainEventBehaviour, the request-pipeline step registered
 * around it. The behaviour turns every pending domain event into an outbox
 * row and saves the new transaction and its outbox rows with one
 * SaveChanges, translating a failed save into a failure result.
 */
module Ingestion {
  import opened Base
  import opened Text
  import opened Contracts
  import opened Results
  import opened Validation
  import opened Transactions

  const CreateFailedMessage := "Unable to create the transaction at this time. Please retry."
  const SaveFailedMessage := "An error occurred while saving the transaction. Please verify your input and try again."
  const CurrencyLengthMessage := "Currency must be exactly " + "3 characters (ISO 4217 format)."
  const FieldTooLongMessage := "One or more fields exceed the maximum allowed length."
  const DuplicateRecordMessage := "A record with this identifier already exists."
  const MissingFieldMessage := "One or more required fields are missing."

  /** Metadata ?? new Dictionary. */
  function MetadataOrEmpty(m: Option<map<string, string>>): map<string, string> {
    if m.Some? then m.value else map[]
  }

  /** The row of the Transaction created for a command. */
  function NewRecord(cmd: CreateTransactionCommand, freshId: Guid, now: Ticks): TransactionRecord {
    TransactionRecord(freshId, cmd.accountId, cmd.amount, cmd.merchantId, cmd.currency, cmd.timestamp,
      cmd.externalId, MetadataOrEmpty(cmd.metadata), now)
  }

  /** The saved row with that ExternalId, as the repository finds it. */
  function ExistingWith(rows: seq<TransactionRecord>, externalId: string): Option<TransactionRecord> {
    FirstWhere(rows, (t: TransactionRecord) => t.externalId == externalId)
  }

  /** What the handler answers, and the transaction it stages, if any. */
  datatype Created = Created(result: Result<Guid>, staged: Option<TransactionRecord>)

  /** CreateTransactionCommandHandler.Handle over the saved rows. `freshId` is
      the new transaction's Guid.NewGuid(), `lookupFault` an error the
      ExternalId lookup raises. */
  function HandleCommand(rows: seq<TransactionRecord>, cmd: CreateTransactionCommand, freshId: Guid, now: Ticks,
                         lookupFault: Option<Exception>): (c: Created)
    ensures c.result.Failure? <==> lookupFault.Some?
    ensures c.result.Failure? ==> c == Created(Failure(CreateFailedMessage), None)
    ensures c.staged.Some? ==> c.result == Success(freshId) && c.staged.value == NewRecord(cmd, freshId, now)
    ensures lookupFault.None? ==>
      (c.staged.None? <==> exists i :: 0 <= i < |rows| && rows[i].externalId == cmd.externalId)
    ensures c.result.Success? && c.staged.None? ==>
      exists i :: 0 <= i < |rows| && rows[i].externalId == cmd.externalId && rows[i].transactionId == c.result.value
  {
    if lookupFault.Some? then Created(Failure(CreateFailedMessage), None)
    else match ExistingWith(rows, cmd.externalId)
      case Some(existing) => Created(Success(existing.transactionId), None)
      case None => Created(Success(freshId), Some(NewRecord(cmd, freshId, now)))
  }

  function RecordsOf(c: Created): seq<TransactionRecord> {
    if c.staged.Some? then [c.staged.value] else []
  }

  /** The event the created transaction carries. */
  function NewEvents(c: Created, eventId: Guid, now: Ticks): seq<TransactionReceivedEvent> {
    if c.staged.Some? then [ReceivedEvent(c.staged.value, eventId, now)] else []
  }

  /** The innermost exception of a chain. */
  function Innermost(e: Exception): (i: Exception)
    ensures i.inner.None?
    ensures e.inner.None? ==> i == e
    decreases e
  {
    if e.inner.Some? then Innermost(e.inner.value) else e
  }

  /** The message a database error text is reported as, checked in order. */
  function DatabaseErrorMessage(m: string): string {
    if Contains(m, TooLongText) then
      (if Contains(m, "varying(3)") then CurrencyLengthMessage else FieldTooLongMessage)
    else if Contains(m, DuplicateKeyText) then DuplicateRecordMessage
    else if Contains(m, "violates not-null constraint") then MissingFieldMessage
    else SaveFailedMessage
  }

  /** ExtractDatabaseErrorMessage: walk to the innermost exception, then
      classify its message. */
  method ExtractDatabaseErrorMessage(ex: Exception) returns (msg: string)
    ensures msg == DatabaseErrorMessage(Innermost(ex).message)
  {
    var e := ex;
    while e.inner.Some?
      invariant Innermost(e) == Innermost(ex)
      decreases e
    {
      e := e.inner.value;
    }
    msg := DatabaseErrorMessage(e.message);
  }

  /** The failure text a failed save becomes: a DbUpdateException is
      classified by its innermost message, anything else is generic. */
  function SaveFailure(e: Exception): string {
    if e.typeName == DbUpdateExceptionType then DatabaseErrorMessage(Innermost(e).message) else SaveFailedMessage
  }

  /** The catch clauses around the save: a DbUpdateException is classified
      by ExtractDatabaseErrorMessage, any other exception gets the generic text. */
  method FailureMessage(e: Exception) returns (msg: string)
    ensures msg == SaveFailure(e)
  {
    if e.typeName == DbUpdateExceptionType {
      msg := ExtractDatabaseErrorMessage(e);
    } else {
      msg := SaveFailedMessage;
    }
  }

  /** What the registered request pipeline, DomainEventBehaviour around the
      handler, answers for a command, given the saved rows and the rows the
      context already tracks as added. */
  function RequestOutcome(rows: seq<TransactionRecord>, added: seq<TransactionRecord>, cmd: CreateTransactionCommand,
                          freshId: Guid, now: Ticks, lookupFault: Option<Exception>, saveFault: Option<Exception>): (r: Result<Guid>)
    ensures var c := HandleCommand(rows, cmd, freshId, now, lookupFault);
      (c.result.Failure? ==> r == c.result) &&
      (c.result.Success? ==> (r == c.result <==> SaveOutcome(rows, added + RecordsOf(c), saveFault).Ok?))
  {
    var c := HandleCommand(rows, cmd, freshId, now, lookupFault);
    if c.result.Failure? then c.result
    else SavedResult(c.result.value, SaveOutcome(rows, added + RecordsOf(c), saveFault))
  }

  /** The answer once the handler has produced an id: the id if the save
      succeeds, the failure text of the save's error otherwise. */
  function SavedResult(id: Guid, save: Try<()>): (r: Result<Guid>)
    ensures r.Success? <==> save.Ok?
    ensures r.Success? ==> r.value == id
  {
    match save
    case Ok(_) => Success(id)
    case Throws(e) => Failure(SaveFailure(e))
  }

  class CreateTransactionCommandHandler {
    const repository: TransactionRepository

    constructor (repository: TransactionRepository)
      ensures this.repository == repository
    {
      this.repository := repository;
    }

    /** Handle: an ExternalId already saved answers with that transaction's id
        and stages nothing; otherwise a new Transaction is created and staged
        and its fresh id returned; an exception becomes a failure. The handler
        never saves. `eventId` is the fresh id of the event Create raises. */
    method Handle(request: CreateTransactionCommand, freshId: Guid, eventId: Guid, now: Ticks, lookupFault: Option<Exception>)
      returns (r: Result<Guid>)
      requires repository.context.Valid()
      modifies repository.context
      ensures repository.context.Valid()
      ensures var c := HandleCommand(old(repository.context.transactions), request, freshId, now, lookupFault);
        var added, added0 := repository.context.added, old(repository.context.added);
        r == c.result &&
        (c.staged.None? ==> added == added0) &&
        (c.staged.Some? ==>
          |added| == |added0| + 1 && added[..|added0|] == added0 && fresh(added[|added0|]) &&
          added[|added0|].Record() == c.staged.value &&
          added[|added0|].domainEvents == [ReceivedEvent(c.staged.value, eventId, now)])
      ensures repository.context.transactions == old(repository.context.transactions)
      ensures repository.context.outboxMessages == old(repository.context.outboxMessages)
      ensures repository.context.addedOutbox == old(repository.context.addedOutbox)
      ensures repository.context.processedMarks == old(repository.context.processedMarks)
    {
      if lookupFault.Some? {
        return Failure(CreateFailedMessage);
      }
      var existing := repository.GetByExternalId(request.externalId);
      if existing.Some? {
        return Success(existing.value.transactionId);
      }
      var transaction := new Transaction.Create(request.accountId, request.amount, request.merchantId, request.currency,
        request.timestamp, request.externalId, MetadataOrEmpty(request.metadata), freshId, eventId, now);
      repository.AddAsync(transaction);
      return Success(transaction.transactionId);
    }
  }

  class DomainEventBehaviour {
    const outboxService: OutboxService
    const context: TransactionDb

    constructor (outboxService: OutboxService, context: TransactionDb)
      ensures this.outboxService == outboxService && this.context == context
    {
      this.outboxService := outboxService;
      this.context := context;
    }

    /** The foreach over the events of one entity. */
    method StageOutboxRows(events: seq<TransactionReceivedEvent>, now: Ticks)
      requires outboxService.context == context
      modifies context
      ensures context.addedOutbox == old(context.addedOutbox) + OutboxRows(events, now)
      ensures context.transactions == old(context.transactions) && context.outboxMessages == old(context.outboxMessages)
      ensures context.added == old(context.added) && context.processedMarks == old(context.processedMarks)
    {
      var k := 0;
      while k < |events|
        invariant 0 <= k <= |events|
        invariant context.addedOutbox == old(context.addedOutbox) + OutboxRows(events[..k], now)
        invariant context.transactions == old(context.transactions) && context.outboxMessages == old(context.outboxMessages)
        invariant context.added == old(context.added) && context.processedMarks == old(context.processedMarks)
      {
        outboxService.AddToOutbox(events[k], now);
        assert OutboxRows(events[..k + 1], now) == OutboxRows(events[..k], now) + [OutboxRowFor(events[k], now)];
        k := k + 1;
      }
      assert events[..k] == events;
    }

    /** The body of the outer foreach: stage one entity's events, then clear them. */
    method StageEntity(entity: Transaction, now: Ticks)
      requires outboxService.context == context
      modifies context, entity
      ensures context.addedOutbox == old(context.addedOutbox) + OutboxRows(old(entity.domainEvents), now)
      ensures entity.domainEvents == []
      ensures context.transactions == old(context.transactions) && context.outboxMessages == old(context.outboxMessages)
      ensures context.added == old(context.added) && context.processedMarks == old(context.processedMarks)
    {
      if entity.domainEvents != [] {
        StageOutboxRows(entity.domainEvents, now);
        entity.ClearDomainEvents();
      }
    }

    /** The nested foreach: every pending event of every tracked entity becomes
        an outbox row, in order, and each entity's events are then cleared. */
    method StagePendingEvents(now: Ticks)
      requires context.Valid() && outboxService.context == context
      modifies context, set t | t in context.added
      ensures context.Valid()
      ensures context.addedOutbox == old(context.addedOutbox) + OutboxRows(old(context.PendingEvents()), now)
      ensures forall t :: t in context.added ==> t.domainEvents == []
      ensures context.transactions == old(context.transactions) && context.outboxMessages == old(context.outboxMessages)
      ensures context.added == old(context.added) && context.processedMarks == old(context.processedMarks)
    {
      var entities := context.added;
      ghost var evs := EventLists(entities);
      ghost var outbox0 := context.addedOutbox;
      var i := 0;
      while i < |entities|
        invariant 0 <= i <= |entities|
        invariant context.added == entities && context.Valid()
        invariant context.addedOutbox == outbox0 + OutboxRows(Flatten(evs[..i]), now)
        invariant forall j :: 0 <= j < i ==> entities[j].domainEvents == []
        invariant forall j :: i <= j < |entities| ==> entities[j].domainEvents == evs[j]
        invariant context.transactions == old(context.transactions) && context.outboxMessages == old(context.outboxMessages)
        invariant context.processedMarks == old(context.processedMarks)
      {
        ghost var before := context.addedOutbox;
        StageEntity(entities[i], now);
        StagedInOrder(outbox0, evs, i, before, context.addedOutbox, now);
        i := i + 1;
      }
      assert evs[..i] == evs;
    }

    /** The part of Handle after the handler succeeded with `id`: stage the
        outbox rows, clear the events and save once, turning a failed save
        into a failure. */
    method SaveStaged(id: Guid, now: Ticks, saveFault: Option<Exception>) returns (r: Result<Guid>)
      requires context.Valid() && outboxService.context == context
      modifies context, set t | t in context.added
      ensures context.Valid()
      ensures r == SavedResult(id, SaveOutcome(old(context.transactions), old(context.AddedRecords()), saveFault))
      ensures var rows := OutboxRows(old(context.PendingEvents()), now);
        var save := SaveOutcome(old(context.transactions), old(context.AddedRecords()), saveFault);
        (save.Ok? ==>
          context.transactions == old(context.transactions) + old(context.AddedRecords()) &&
          context.outboxMessages == Marked(old(context.outboxMessages), old(context.processedMarks)) + old(context.addedOutbox) + rows &&
          context.added == [] && context.addedOutbox == []) &&
        (save.Throws? ==>
          context.transactions == old(context.transactions) && context.outboxMessages == old(context.outboxMessages) &&
          context.addedOutbox == old(context.addedOutbox) + rows)
      ensures forall t :: t in old(context.added) ==> t.domainEvents == []
    {
      ghost var records0 := context.AddedRecords();
      StagePendingEvents(now);
      assert context.AddedRecords() == records0;
      var saved := context.SaveChanges(saveFault);
      if saved.Throws? {
        var message := FailureMessage(saved.error);
        r := Failure(message);
      } else {
        r := Success(id);
      }
    }

    /** Handle for the create-transaction request: run the handler once, first;
        a failure is returned unchanged; otherwise save what it staged. */
    method Handle(handler: CreateTransactionCommandHandler, request: CreateTransactionCommand, freshId: Guid, eventId: Guid,
                  now: Ticks, lookupFault: Option<Exception>, saveFault: Option<Exception>) returns (r: Result<Guid>)
      requires context.Valid() && outboxService.context == context && handler.repository.context == context
      modifies context, set t | t in context.added
      ensures context.Valid()
      ensures r == RequestOutcome(old(context.transactions), old(context.AddedRecords()), request, freshId, now, lookupFault, saveFault)
      ensures var c := HandleCommand(old(context.transactions), request, freshId, now, lookupFault);
        var rows := OutboxRows(old(context.PendingEvents()) + NewEvents(c, eventId, now), now);
        var save := SaveOutcome(old(context.transactions), old(context.AddedRecords()) + RecordsOf(c), saveFault);
        (c.result.Failure? ==>
          context.transactions == old(context.transactions) && context.outboxMessages == old(context.outboxMessages) &&
          context.added == old(context.added) && context.addedOutbox == old(context.addedOutbox)) &&
        (c.result.Success? && save.Ok? ==>
          context.transactions == old(context.transactions) + old(context.AddedRecords()) + RecordsOf(c) &&
          context.outboxMessages == Marked(old(context.outboxMessages), old(context.processedMarks)) + old(context.addedOutbox) + rows &&
          context.added == [] && context.addedOutbox == []) &&
        (c.result.Success? && save.Throws? ==>
          context.transactions == old(context.transactions) && context.outboxMessages == old(context.outboxMessages) &&
          context.addedOutbox == old(context.addedOutbox) + rows) &&
        (c.result.Success? ==> forall t :: t in old(context.added) ==> t.domainEvents == [])
    {
      ghost var c := HandleCommand(context.transactions, request, freshId, now, lookupFault);
      ghost var pending0, records0 := context.PendingEvents(), context.AddedRecords();
      r := RunHandler(handler, request, freshId, eventId, now, lookupFault);
      assert context.PendingEvents() == pending0 + NewEvents(c, eventId, now);
      assert context.AddedRecords() == records0 + RecordsOf(c);
      if r.Success? {
        r := SaveStaged(r.value, now, saveFault);
      }
    }

    /** The call to next(): the handler runs and what it stages joins what
        the context already tracks. */
    method RunHandler(handler: CreateTransactionCommandHandler, request: CreateTransactionCommand, freshId: Guid, eventId: Guid,
                      now: Ticks, lookupFault: Option<Exception>) returns (r: Result<Guid>)
      requires context.Valid() && handler.repository.context == context
      modifies context
      ensures context.Valid()
      ensures var c := HandleCommand(old(context.transactions), request, freshId, now, lookupFault);
        r == c.result &&
        context.PendingEvents() == old(context.PendingEvents()) + NewEvents(c, eventId, now) &&
        context.AddedRecords() == old(context.AddedRecords()) + RecordsOf(c) &&
        (c.result.Failure? ==> context.added == old(context.added))
      ensures forall t :: t in context.added ==> t in old(context.added) || fresh(t)
      ensures forall t :: t in old(context.added) ==> t in context.added
      ensures context.transactions == old(context.transactions) && context.outboxMessages == old(context.outboxMessages)
      ensures context.addedOutbox == old(context.addedOutbox) && context.processedMarks == old(context.processedMarks)
    {
      ghost var c := HandleCommand(context.transactions, request, freshId, now, lookupFault);
      ghost var entities0 := context.added;
      ghost var pending0 := context.PendingEvents();
      ghost var records0 := context.AddedRecords();
      r := handler.Handle(request, freshId, eventId, now, lookupFault);
      assert Flatten(EventLists(entities0)) == pending0;
      TrackedAfterHandler(context, entities0, pending0, records0, c, eventId, now);
    }
  }

  /** The outbox rows staged for the first i + 1 entities are those for the
      first i followed by those of entity i. */
  lemma StagedInOrder(outbox0: seq<OutboxMessage>, evs: seq<seq<TransactionReceivedEvent>>, i: nat,
                      before: seq<OutboxMessage>, after: seq<OutboxMessage>, now: Ticks)
    requires i < |evs|
    requires before == outbox0 + OutboxRows(Flatten(evs[..i]), now)
    requires after == before + OutboxRows(evs[i], now)
    ensures after == outbox0 + OutboxRows(Flatten(evs[..i + 1]), now)
  {
    assert evs[..i + 1] == evs[..i] + [evs[i]];
    FlattenSnoc(evs[..i], evs[i]);
    assert OutboxRows(Flatten(evs[..i]) + evs[i], now) == OutboxRows(Flatten(evs[..i]), now) + OutboxRows(evs[i], now);
  }

  /** What the context tracks once the handler has run: the entities it
      tracked, with their events, and then the one created, if any. */
  lemma TrackedAfterHandler(context: TransactionDb, entities0: seq<Transaction>, pending0: seq<TransactionReceivedEvent>,
                            records0: seq<TransactionRecord>, c: Created, eventId: Guid, now: Ticks)
    requires pending0 == Flatten(EventLists(entities0))
    requires |records0| == |entities0| && forall i :: 0 <= i < |entities0| ==> records0[i] == entities0[i].Record()
    requires c.staged.None? ==> context.added == entities0
    requires c.staged.Some? ==>
      var added := context.added;
      |added| == |entities0| + 1 && added[..|entities0|] == entities0 &&
      added[|entities0|].Record() == c.staged.value &&
      added[|entities0|].domainEvents == [ReceivedEvent(c.staged.value, eventId, now)]
    ensures context.PendingEvents() == pending0 + NewEvents(c, eventId, now)
    ensures context.AddedRecords() == records0 + RecordsOf(c)
  {
    if c.staged.Some? {
      var created := context.added[|entities0|];
      assert context.added == entities0 + [created];
      PendingSnoc(entities0, created);
    }
  }

  /** One more tracked entity adds its events after the others. */
  lemma PendingSnoc(ts: seq<Transaction>, t: Transaction)
    ensures Flatten(EventLists(ts + [t])) == Flatten(EventLists(ts)) + t.domainEvents
  {
    assert EventLists(ts + [t]) == EventLists(ts) + [t.domainEvents];
    FlattenSnoc(EventLists(ts), t.domainEvents);
  }

  /** A command resubmitted with the ExternalId of a saved transaction is
      answered with the original id and stages nothing, whatever its other
      fields; the saved row keeps its first values. */
  lemma {:induction false} ResubmissionReturnsOriginal(rows: seq<TransactionRecord>, first: CreateTransactionCommand,
                                                      second: CreateTransactionCommand, id1: Guid, id2: Guid, now1: Ticks, now2: Ticks)
    requires UniqueTransactions(rows + [NewRecord(first, id1, now1)])
    requires second.externalId == first.externalId
    ensures HandleCommand(rows, first, id1, now1, None) == Created(Success(id1), Some(NewRecord(first, id1, now1)))
    ensures HandleCommand(rows + [NewRecord(first, id1, now1)], second, id2, now2, None) == Created(Success(id1), None)
  {
    var saved := rows + [NewRecord(first, id1, now1)];
    assert forall i :: 0 <= i < |rows| ==> rows[i] == saved[i];
    var again := ExistingWith(saved, second.externalId);
    assert saved[|rows|].externalId == second.externalId;
    var i :| 0 <= i < |saved| && saved[i] == again.value && again.value.externalId == second.externalId;
    assert i == |rows|;
  }

  /** A value too long for the three-character currency column is reported
      as the currency message. */
  lemma CurrencyErrorClassified()
    ensures SaveFailure(CurrencyTooLongError) == CurrencyLengthMessage
  {
    ContainsConcat("22001: ", TooLongText, "(3)");
    assert ValueTooLongMessage == ("22001: " + "value too long for type character ") + "varying(3)" + "";
    ContainsConcat("22001: " + "value too long for type character ", "varying(3)", "");
  }

  /** A unique-index violation is reported as the duplicate message. */
  lemma DuplicateErrorClassified()
    ensures SaveFailure(DuplicateTransactionError) == DuplicateRecordMessage
  {
    DuplicateKeyNotTooLong();
    ContainsConcat("23505: ", DuplicateKeyText, " violates unique constraint");
  }

  lemma DuplicateKeyNotTooLong()
    ensures !Contains(DuplicateKeyMessage, TooLongText)
  {
    assert 'g' !in "23505: " && 'g' !in DuplicateKeyText && 'g' !in " violates unique constraint";
    AbsentCharNotContained(DuplicateKeyMessage, TooLongText, 'g');
  }

  /** As registered, the pipeline has no validation step: a "ZARR" currency
      reaches the database, whose column rejects it, and the answer is the
      column-length failure, which does not mention "3 uppercase letters". */
  lemma RegisteredPipelineAnswersZarr(rows: seq<TransactionRecord>, cmd: CreateTransactionCommand, freshId: Guid, now: Ticks)
    requires cmd.currency == "ZARR"
    requires forall i :: 0 <= i < |rows| ==> rows[i].externalId != cmd.externalId
    ensures RequestOutcome(rows, [], cmd, freshId, now, None, None) == Failure(CurrencyLengthMessage)
    ensures !Contains(CurrencyLengthMessage, "3 uppercase letters")
  {
    var c := HandleCommand(rows, cmd, freshId, now, None);
    assert c.staged.Some? && c.staged.value.currency == "ZARR";
    var added := [] + RecordsOf(c);
    assert added[0] == c.staged.value;
    assert !FitsColumns(added);
    CurrencyErrorClassified();
    CurrencyMessageSaysCharacters();
  }

  /** The column-length message speaks of characters, not of letters. */
  lemma CurrencyMessageSaysCharacters()
    ensures !Contains(CurrencyLengthMessage, "3 uppercase letters")
  {
    assert 'p' !in "Currency must be exactly " && 'p' !in "3 characters (ISO 4217 format).";
    AbsentCharNotContained(CurrencyLengthMessage, "3 uppercase letters", 'p');
  }

  /** The request pipeline with ValidationBehaviour and the create-transaction
      validator in front of it. */
  function ValidatedRequestOutcome(v: CreateTransactionCommandValidator, rows: seq<TransactionRecord>, added: seq<TransactionRecord>,
                                   cmd: CreateTransactionCommand, freshId: Guid, now: Ticks,
                                   lookupFault: Option<Exception>, saveFault: Option<Exception>): (h: Handled<Result<Guid>>)
    ensures Acceptable(v, cmd) ==> h == Handled(Ok(RequestOutcome(rows, added, cmd, freshId, now, lookupFault, saveFault)), 1)
    ensures !Acceptable(v, cmd) ==> h.nextCalls == 0 && h.response.Ok? && h.response.value.Failure?
  {
    var validators := [(c: CreateTransactionCommand) => Validate(v, c)];
    assert Failures(validators, cmd) == Validate(v, cmd) + Failures(validators[1..], cmd);
    HandleValidation(validators, cmd, Ok(RequestOutcome(rows, added, cmd, freshId, now, lookupFault, saveFault)),
      Some((e: string) => Failure(e)))
  }

  /** With validation in front, a "ZARR" currency is answered with a failure
      mentioning "3 uppercase letters" and the database is never reached. */
  lemma ValidatedPipelineRejectsZarr(v: CreateTransactionCommandValidator, rows: seq<TransactionRecord>, added: seq<TransactionRecord>,
                                     cmd: CreateTransactionCommand, freshId: Guid, now: Ticks,
                                     lookupFault: Option<Exception>, saveFault: Option<Exception>)
    requires cmd.currency == "ZARR"
    ensures var h := ValidatedRequestOutcome(v, rows, added, cmd, freshId, now, lookupFault, saveFault);
      h.nextCalls == 0 && h.response.Ok? && h.response.value.Failure? &&
      Contains(h.response.value.error, "3 uppercase letters")
  {
    ZarrCurrencyAnsweredWithFailure(v, cmd, Ok(RequestOutcome(rows, added, cmd, freshId, now, lookupFault, saveFault)));
  }
}
