/**
 * The transactions store of the ingestion service: the Transaction aggregate
 * with its pending domain events, the outbox row, the database context with
 * its saved tables and its change tracker, and the repository and outbox
 * service that stage rows in it. Nothing staged is visible to a query until
 * one SaveChanges persists all of it together.
 */
module Transactions {
  import opened Base
  import opened Contracts

  /** A row of the transactions table. */
  datatype TransactionRecord = TransactionRecord(
    transactionId: Guid,
    accountId: Guid,
    amount: real,
    merchantId: Guid,
    currency: string,
    timestamp: Ticks,
    externalId: string,
    metadata: map<string, string>,
    createdAt: Ticks)

  /** The event Transaction.Create raises: the transaction's own data, with the
      event's fresh id and creation instant. */
  function ReceivedEvent(t: TransactionRecord, eventId: Guid, now: Ticks): TransactionReceivedEvent {
    TransactionReceivedEvent(t.transactionId, t.accountId, t.amount, t.merchantId, t.currency, t.timestamp, t.metadata, eventId, now)
  }

  /** The Transaction entity. Its properties have private setters and are
      assigned once, by Create; only the pending-event list changes. */
  class Transaction {
    const transactionId: Guid
    const accountId: Guid
    const amount: real
    const merchantId: Guid
    const currency: string
    const timestamp: Ticks
    const externalId: string
    const metadata: map<string, string>
    const createdAt: Ticks
    /** The pending domain events, in the order they were raised. */
    var domainEvents: seq<TransactionReceivedEvent>

    /** The row this entity is saved as. */
    function Record(): TransactionRecord {
      TransactionRecord(transactionId, accountId, amount, merchantId, currency, timestamp, externalId, metadata, createdAt)
    }

    /** Transaction.Create: the given fields unchanged, `freshId` for
        Guid.NewGuid(), CreatedAt = now, and one pending TransactionReceivedEvent
        carrying the transaction's data. */
    constructor Create(accountId: Guid, amount: real, merchantId: Guid, currency: string, timestamp: Ticks,
                       externalId: string, metadata: map<string, string>, freshId: Guid, eventId: Guid, now: Ticks)
      ensures Record() == TransactionRecord(freshId, accountId, amount, merchantId, currency, timestamp, externalId, metadata, now)
      ensures domainEvents == [ReceivedEvent(Record(), eventId, now)]
    {
      this.transactionId := freshId;
      this.accountId := accountId;
      this.amount := amount;
      this.merchantId := merchantId;
      this.currency := currency;
      this.timestamp := timestamp;
      this.externalId := externalId;
      this.metadata := metadata;
      this.createdAt := now;
      this.domainEvents := [];
      new;
      AddDomainEvent(ReceivedEvent(Record(), eventId, now));
    }

    method AddDomainEvent(e: TransactionReceivedEvent)
      modifies this
      ensures domainEvents == old(domainEvents) + [e]
    {
      domainEvents := domainEvents + [e];
    }

    method ClearDomainEvents()
      modifies this
      ensures domainEvents == []
    {
      domainEvents := [];
    }
  }

  /** A row of the outbox_messages table; ProcessedAt is null until published. */
  datatype OutboxMessage = OutboxMessage(eventType: string, payload: Json, createdAt: Ticks, processedAt: Option<Ticks>)

  /** The row OutboxService.AddToOutboxAsync builds for an event at `now`: the
      event's runtime type name, the event serialised, not yet processed. Read
      back as a TransactionReceived, the payload gives the transaction's data. */
  function OutboxRowFor(e: TransactionReceivedEvent, now: Ticks): (m: OutboxMessage)
    ensures m.eventType == TransactionReceivedEventType && m.createdAt == now && m.processedAt == None
    ensures DeserializeTransactionReceived(m.payload) ==
      Ok(Some(TransactionReceived(e.transactionId, e.accountId, e.amount, e.merchantId, e.currency, e.timestamp, e.metadata)))
  {
    OutboxMessage(TransactionReceivedEventType, TransactionReceivedEventDoc(e), now, None)
  }

  /** One outbox row per event, in order. */
  function OutboxRows(events: seq<TransactionReceivedEvent>, now: Ticks): (rows: seq<OutboxMessage>)
    ensures |rows| == |events| && forall i :: 0 <= i < |events| ==> rows[i] == OutboxRowFor(events[i], now)
  {
    seq(|events|, i requires 0 <= i < |events| => OutboxRowFor(events[i], now))
  }

  /** Each entity's pending events, entity by entity. */
  function EventLists(ts: seq<Transaction>): (evs: seq<seq<TransactionReceivedEvent>>)
    reads set t | t in ts
    ensures |evs| == |ts| && forall j :: 0 <= j < |ts| ==> evs[j] == ts[j].domainEvents
  {
    seq(|ts|, j requires 0 <= j < |ts| reads set t | t in ts => ts[j].domainEvents)
  }

  /** The lists joined in order. */
  function Flatten<E>(ss: seq<seq<E>>): seq<E>
    decreases |ss|
  {
    if ss == [] then [] else Flatten(ss[..|ss| - 1]) + ss[|ss| - 1]
  }

  lemma FlattenSnoc<E>(ss: seq<seq<E>>, s: seq<E>)
    ensures Flatten(ss + [s]) == Flatten(ss) + s
  {
    assert (ss + [s])[..|ss|] == ss;
  }

  /** The outbox rows with the ProcessedAt values set since the last save. */
  function Marked(rows: seq<OutboxMessage>, marks: map<nat, Ticks>): (out: seq<OutboxMessage>)
    ensures |out| == |rows|
    ensures forall i :: 0 <= i < |rows| ==>
      out[i] == (if i in marks then rows[i].(processedAt := Some(marks[i])) else rows[i])
  {
    seq(|rows|, i requires 0 <= i < |rows| => if i in marks then rows[i].(processedAt := Some(marks[i])) else rows[i])
  }

  /** The Currency column is varchar(3). */
  const MaxCurrencyLength := 3

  /** The PostgreSQL error texts for a value longer than its column and for
      a unique-index violation, each after its SQLSTATE code. */
  const TooLongText := "value too long for type character " + "varying"
  const ValueTooLongMessage := "22001: " + TooLongText + "(3)"
  const DuplicateKeyText := "duplicate key value"
  const DuplicateKeyMessage := "23505: " + DuplicateKeyText + " violates unique constraint"

  /** What a save raises for a currency longer than its column. */
  const CurrencyTooLongError := Exception(DbUpdateExceptionType, DbUpdateMessage,
    Some(Exception(PostgresExceptionType, ValueTooLongMessage, None)))
  /** What a save raises for a second row with a TransactionId or ExternalId
      already in the table. */
  const DuplicateTransactionError := Exception(DbUpdateExceptionType, DbUpdateMessage,
    Some(Exception(PostgresExceptionType, DuplicateKeyMessage, None)))

  /** The unique indexes on TransactionId and on ExternalId. */
  ghost predicate UniqueTransactions(rows: seq<TransactionRecord>) {
    forall i, j :: 0 <= i < j < |rows| ==>
      rows[i].transactionId != rows[j].transactionId && rows[i].externalId != rows[j].externalId
  }

  function HasDuplicateKey(rows: seq<TransactionRecord>): (b: bool)
    ensures !b <==> UniqueTransactions(rows)
  {
    exists i, j :: 0 <= i < j < |rows| &&
      (rows[i].transactionId == rows[j].transactionId || rows[i].externalId == rows[j].externalId)
  }

  predicate FitsColumns(rows: seq<TransactionRecord>) {
    forall i :: 0 <= i < |rows| ==> |rows[i].currency| <= MaxCurrencyLength
  }

  /** What SaveChangesAsync returns for the saved rows, the added rows and a
      connection fault: the fault, else a too-long currency, else a duplicate key. */
  function SaveOutcome(rows: seq<TransactionRecord>, added: seq<TransactionRecord>, fault: Option<Exception>): (r: Try<()>)
    ensures r.Ok? <==> fault.None? && FitsColumns(added) && UniqueTransactions(rows + added)
    ensures fault.Some? ==> r == Throws(fault.value)
    ensures fault.None? && r.Throws? ==> r.error == CurrencyTooLongError || r.error == DuplicateTransactionError
  {
    if fault.Some? then Throws(fault.value)
    else if !FitsColumns(added) then Throws(CurrencyTooLongError)
    else if HasDuplicateKey(rows + added) then Throws(DuplicateTransactionError)
    else Ok(())
  }

  /** The first row satisfying p (FirstOrDefault), or none. */
  function FirstWhere(rows: seq<TransactionRecord>, p: TransactionRecord -> bool): (r: Option<TransactionRecord>)
    ensures r.None? <==> forall i :: 0 <= i < |rows| ==> !p(rows[i])
    ensures r.Some? ==> exists i :: 0 <= i < |rows| && rows[i] == r.value && p(r.value) &&
                                    forall j :: 0 <= j < i ==> !p(rows[j])
    decreases |rows|
  {
    if rows == [] then None
    else if p(rows[0]) then Some(rows[0])
    else
      var r := FirstWhere(rows[1..], p);
      assert forall i :: 1 <= i < |rows| ==> rows[i] == rows[1..][i - 1];
      r
  }

  /** TransactionDbContext: the saved tables and what its change tracker holds. */
  class TransactionDb {
    /** The transactions table, in insertion order. */
    var transactions: seq<TransactionRecord>
    /** The outbox_messages table, in insertion order. */
    var outboxMessages: seq<OutboxMessage>
    /** Transaction entities added to the context and not yet saved. */
    var added: seq<Transaction>
    /** Outbox rows added to the context and not yet saved. */
    var addedOutbox: seq<OutboxMessage>
    /** ProcessedAt values set on tracked outbox rows since the last save, by row index. */
    var processedMarks: map<nat, Ticks>

    ghost predicate Valid()
      reads this
    {
      UniqueTransactions(transactions) && FitsColumns(transactions) &&
      (forall i, j :: 0 <= i < j < |added| ==> added[i] != added[j]) &&
      (forall k :: k in processedMarks ==> k < |outboxMessages|)
    }

    /** The pending events of the tracked entities, entity by entity. */
    function PendingEvents(): seq<TransactionReceivedEvent>
      reads this, set t | t in added
    {
      Flatten(EventLists(added))
    }

    /** The rows the added entities are saved as. */
    function AddedRecords(): (rs: seq<TransactionRecord>)
      reads this
      ensures |rs| == |added| && forall i :: 0 <= i < |added| ==> rs[i] == added[i].Record()
    {
      seq(|added|, i requires 0 <= i < |added| reads this => added[i].Record())
    }

    constructor (rows: seq<TransactionRecord>, outbox: seq<OutboxMessage>)
      requires UniqueTransactions(rows) && FitsColumns(rows)
      ensures Valid()
      ensures transactions == rows && outboxMessages == outbox
      ensures added == [] && addedOutbox == [] && processedMarks == map[]
    {
      transactions := rows;
      outboxMessages := outbox;
      added := [];
      addedOutbox := [];
      processedMarks := map[];
    }

    /** Transactions.AddAsync: track the entity as added; an entity already
        tracked stays tracked once. */
    method AddTransaction(t: Transaction)
      requires Valid()
      modifies this
      ensures Valid()
      ensures added == (if t in old(added) then old(added) else old(added) + [t])
      ensures transactions == old(transactions) && outboxMessages == old(outboxMessages)
      ensures addedOutbox == old(addedOutbox) && processedMarks == old(processedMarks)
    {
      if t !in added {
        added := added + [t];
      }
    }

    /** OutboxMessages.AddAsync. */
    method AddOutboxMessage(m: OutboxMessage)
      modifies this
      ensures addedOutbox == old(addedOutbox) + [m]
      ensures transactions == old(transactions) && outboxMessages == old(outboxMessages)
      ensures added == old(added) && processedMarks == old(processedMarks)
    {
      addedOutbox := addedOutbox + [m];
    }

    /** Setting ProcessedAt on the tracked outbox row at `index`. */
    method MarkProcessed(index: nat, at: Ticks)
      requires Valid() && index < |outboxMessages|
      modifies this
      ensures Valid()
      ensures processedMarks == old(processedMarks)[index := at]
      ensures transactions == old(transactions) && outboxMessages == old(outboxMessages)
      ensures added == old(added) && addedOutbox == old(addedOutbox)
    {
      processedMarks := processedMarks[index := at];
    }

    /** SaveChangesAsync: one database transaction for everything tracked. On
        success the added rows are appended and the marks applied; on failure
        nothing is persisted and the tracker keeps what it held. */
    method SaveChanges(fault: Option<Exception>) returns (r: Try<()>)
      requires Valid()
      modifies this
      ensures Valid()
      ensures r == SaveOutcome(old(transactions), old(AddedRecords()), fault)
      ensures r.Ok? ==>
        transactions == old(transactions) + old(AddedRecords()) &&
        outboxMessages == Marked(old(outboxMessages), old(processedMarks)) + old(addedOutbox) &&
        added == [] && addedOutbox == [] && processedMarks == map[]
      ensures r.Throws? ==>
        transactions == old(transactions) && outboxMessages == old(outboxMessages) &&
        added == old(added) && addedOutbox == old(addedOutbox) && processedMarks == old(processedMarks)
    {
      var rows := AddedRecords();
      r := SaveOutcome(transactions, rows, fault);
      if r.Ok? {
        assert FitsColumns(transactions + rows) by {
          assert forall i :: |transactions| <= i < |transactions + rows| ==> (transactions + rows)[i] == rows[i - |transactions|];
        }
        transactions := transactions + rows;
        outboxMessages := Marked(outboxMessages, processedMarks) + addedOutbox;
        added := [];
        addedOutbox := [];
        processedMarks := map[];
      }
    }
  }

  /** TransactionRepository over a context. */
  class TransactionRepository {
    const context: TransactionDb

    constructor (context: TransactionDb)
      ensures this.context == context
    {
      this.context := context;
    }

    /** GetByIdAsync: the saved row with that TransactionId, or null. */
    function GetById(transactionId: Guid): Option<TransactionRecord>
      reads context
    {
      FirstWhere(context.transactions, (t: TransactionRecord) => t.transactionId == transactionId)
    }

    /** GetByExternalIdAsync: the saved row with that ExternalId, or null. */
    function GetByExternalId(externalId: string): Option<TransactionRecord>
      reads context
    {
      FirstWhere(context.transactions, (t: TransactionRecord) => t.externalId == externalId)
    }

    method AddAsync(t: Transaction)
      requires context.Valid()
      modifies context
      ensures context.Valid()
      ensures context.added == (if t in old(context.added) then old(context.added) else old(context.added) + [t])
      ensures context.transactions == old(context.transactions) && context.outboxMessages == old(context.outboxMessages)
      ensures context.addedOutbox == old(context.addedOutbox) && context.processedMarks == old(context.processedMarks)
    {
      context.AddTransaction(t);
    }
  }

  /** The lookups see saved rows only: a row is found by its TransactionId or
      its ExternalId exactly when the table holds it, and then it is that row,
      as the unique indexes allow no other. */
  lemma LookupsFindTheSavedRow(repo: TransactionRepository, t: TransactionRecord)
    requires repo.context.Valid()
    ensures t in repo.context.transactions <==> repo.GetById(t.transactionId) == Some(t)
    ensures t in repo.context.transactions <==> repo.GetByExternalId(t.externalId) == Some(t)
  {
    var rows := repo.context.transactions;
    if t in rows {
      var k :| 0 <= k < |rows| && rows[k] == t;
      var byId := repo.GetById(t.transactionId);
      var i :| 0 <= i < |rows| && rows[i] == byId.value && byId.value.transactionId == t.transactionId;
      assert i == k;
      var byExt := repo.GetByExternalId(t.externalId);
      var j :| 0 <= j < |rows| && rows[j] == byExt.value && byExt.value.externalId == t.externalId;
      assert j == k;
    }
  }

  /** OutboxService over a context. */
  class OutboxService {
    const context: TransactionDb

    constructor (context: TransactionDb)
      ensures this.context == context
    {
      this.context := context;
    }

    /** AddToOutboxAsync: stage exactly one outbox row for the event. */
    method AddToOutbox(e: TransactionReceivedEvent, now: Ticks)
      modifies context
      ensures context.addedOutbox == old(context.addedOutbox) + [OutboxRowFor(e, now)]
      ensures context.transactions == old(context.transactions) && context.outboxMessages == old(context.outboxMessages)
      ensures context.added == old(context.added) && context.processedMarks == old(context.processedMarks)
    {
      context.AddOutboxMessage(OutboxRowFor(e, now));
    }
  }
}
