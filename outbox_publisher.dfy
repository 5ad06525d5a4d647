/**
 * OutboxPublisher: on each timer tick, the oldest unprocessed outbox rows
 * (at most 100, by CreatedAt) are published to the topic their event type
 * maps to; each row the producer accepts gets ProcessedAt, a row whose
 * publication throws is left for the next tick, and the marks are saved once.
 */
module OutboxPublisher {
  import opened Base
  import opened Contracts
  import opened Sorting
  import opened Producer
  import opened Transactions

  const BatchSize := 100
  const DeadLetterTopic := "dead-letter"

  /** GetTopicForEventType. */
  function TopicForEventType(eventType: string): (topic: string)
    ensures eventType == TransactionReceivedEventType <==> topic == TransactionReceivedTopic
    ensures eventType != TransactionReceivedEventType <==> topic == DeadLetterTopic
  {
    if eventType == TransactionReceivedEventType then TransactionReceivedTopic else DeadLetterTopic
  }

  /** The indexes of the rows whose ProcessedAt is null, in table order. */
  function Pending(rows: seq<OutboxMessage>): (p: seq<nat>)
    ensures forall j :: 0 <= j < |p| ==> p[j] < |rows| && rows[p[j]].processedAt.None?
    ensures forall i :: 0 <= i < |rows| && rows[i].processedAt.None? ==> i in p
    decreases |rows|
  {
    if rows == [] then []
    else
      var p := Pending(rows[..|rows| - 1]);
      assert forall i :: 0 <= i < |rows| - 1 ==> rows[..|rows| - 1][i] == rows[i];
      p + (if rows[|rows| - 1].processedAt.None? then [|rows| - 1] else [])
  }

  /** The CreatedAt of row i, the sort key of the batch query. */
  function CreatedAt(rows: seq<OutboxMessage>, i: nat): Ticks {
    if i < |rows| then rows[i].createdAt else DefaultTicks
  }

  /** Where(ProcessedAt == null).OrderBy(CreatedAt).Take(100). */
  function Batch(rows: seq<OutboxMessage>): seq<nat> {
    Take(SortBy(Pending(rows), i => CreatedAt(rows, i)), BatchSize)
  }

  /** The batch holds unprocessed rows only, at most 100 of them; it is all
      the unprocessed rows when there are at most 100. */
  lemma BatchFromPending(rows: seq<OutboxMessage>)
    ensures var b := Batch(rows);
      |b| == (if |Pending(rows)| < BatchSize then |Pending(rows)| else BatchSize) &&
      forall j :: 0 <= j < |b| ==> b[j] < |rows| && rows[b[j]].processedAt.None?
  {
    var key := (i: nat) => CreatedAt(rows, i);
    var p := Pending(rows);
    var sorted := SortBy(p, key);
    SortByProperties(p, key);
    var b := Batch(rows);
    forall j | 0 <= j < |b|
      ensures b[j] < |rows| && rows[b[j]].processedAt.None?
    {
      assert b[j] == sorted[j];
      assert sorted[j] in multiset(p);
    }
  }

  /** The batch is ordered by CreatedAt, and no unprocessed row left out of it
      is older than a row taken. */
  lemma BatchOldestFirst(rows: seq<OutboxMessage>)
    ensures var b := Batch(rows);
      (forall j, l :: 0 <= j < l < |b| ==> CreatedAt(rows, b[j]) <= CreatedAt(rows, b[l])) &&
      (forall j, i :: 0 <= j < |b| && 0 <= i < |rows| && rows[i].processedAt.None? && i !in b ==>
         CreatedAt(rows, b[j]) <= rows[i].createdAt)
  {
    var key := (i: nat) => CreatedAt(rows, i);
    var p := Pending(rows);
    var sorted := SortBy(p, key);
    SortByProperties(p, key);
    TakeSorted(sorted, BatchSize, key);
    var b := Batch(rows);
    forall j, i | 0 <= j < |b| && 0 <= i < |rows| && rows[i].processedAt.None? && i !in b
      ensures CreatedAt(rows, b[j]) <= rows[i].createdAt
    {
      assert i in multiset(sorted);
      var l :| 0 <= l < |sorted| && sorted[l] == i;
      assert forall x :: 0 <= x < |b| ==> b[x] == sorted[x];
      assert l >= |b|;
      assert key(b[j]) <= key(sorted[l]);
    }
  }

  /** What publishing a batch did: the rows accepted, the messages sent, the
      waits taken and the next oracle entry. */
  datatype Published = Published(accepted: seq<nat>, sent: seq<Sent>, waits: seq<Ticks>, next: nat)

  /** The foreach over the batch, the k-th oracle entry answering the first send. */
  function Publish(os: seq<SendOutcome>, k: nat, rows: seq<OutboxMessage>, batch: seq<nat>, now: Ticks): Published
    decreases |batch|
  {
    if batch == [] then Published([], [], [], k)
    else
      var m := if batch[0] < |rows| then rows[batch[0]] else OutboxMessage("", NullDoc, DefaultTicks, None);
      var run := ProduceRun(os, k, TopicForEventType(m.eventType), m.payload, now);
      var rest := Publish(os, run.next, rows, batch[1..], now);
      Published((if run.result.Ok? then [batch[0]] else []) + rest.accepted, run.sent + rest.sent, run.waits + rest.waits, rest.next)
  }

  /** A publication preceded by what was already done. */
  function Behind(accepted: seq<nat>, sent: seq<Sent>, waits: seq<Ticks>, p: Published): Published {
    Published(accepted + p.accepted, sent + p.sent, waits + p.waits, p.next)
  }

  /** The first row of the batch is published, then the rest. */
  lemma PublishStep(os: seq<SendOutcome>, k: nat, rows: seq<OutboxMessage>, x: nat, rest: seq<nat>, now: Ticks, run: Run)
    requires x < |rows|
    requires run == ProduceRun(os, k, TopicForEventType(rows[x].eventType), rows[x].payload, now)
    ensures Publish(os, k, rows, [x] + rest, now) ==
      Behind(if run.result.Ok? then [x] else [], run.sent, run.waits, Publish(os, run.next, rows, rest, now))
  {
    assert ([x] + rest)[0] == x && ([x] + rest)[1..] == rest;
  }

  lemma BehindBehind(a1: seq<nat>, s1: seq<Sent>, w1: seq<Ticks>, a2: seq<nat>, s2: seq<Sent>, w2: seq<Ticks>, p: Published)
    ensures Behind(a1, s1, w1, Behind(a2, s2, w2, p)) == Behind(a1 + a2, s1 + s2, w1 + w2, p)
  {
    assert a1 + (a2 + p.accepted) == (a1 + a2) + p.accepted;
    assert s1 + (s2 + p.sent) == (s1 + s2) + p.sent;
    assert w1 + (w2 + p.waits) == (w1 + w2) + p.waits;
  }

  /** Only rows of the batch are accepted, in batch order. */
  lemma {:induction false} AcceptedFromBatch(os: seq<SendOutcome>, k: nat, rows: seq<OutboxMessage>, batch: seq<nat>, now: Ticks)
    ensures forall i :: i in Publish(os, k, rows, batch, now).accepted ==> i in batch
    ensures |Publish(os, k, rows, batch, now).accepted| <= |batch|
    decreases |batch|
  {
    if batch != [] {
      var m := if batch[0] < |rows| then rows[batch[0]] else OutboxMessage("", NullDoc, DefaultTicks, None);
      var run := ProduceRun(os, k, TopicForEventType(m.eventType), m.payload, now);
      AcceptedFromBatch(os, run.next, rows, batch[1..], now);
      forall i | i in batch[1..]
        ensures i in batch
      {
      }
    }
  }

  /** Setting ProcessedAt to `now` on each accepted row, in order. */
  function MarkAll(marks: map<nat, Ticks>, accepted: seq<nat>, now: Ticks): (m: map<nat, Ticks>)
    decreases |accepted|
  {
    if accepted == [] then marks
    else MarkAll(marks, accepted[..|accepted| - 1], now)[accepted[|accepted| - 1] := now]
  }

  /** The marks after MarkAll: each accepted row carries `now`, every other
      row keeps its mark or its absence of one. */
  lemma {:induction false} MarkAllMarks(marks: map<nat, Ticks>, accepted: seq<nat>, now: Ticks)
    ensures var m := MarkAll(marks, accepted, now);
      (forall i :: i in m <==> i in marks || i in accepted) &&
      (forall i :: i in accepted ==> m[i] == now) &&
      (forall i :: i in marks && i !in accepted ==> m[i] == marks[i])
    decreases |accepted|
  {
    if accepted != [] {
      var init := accepted[..|accepted| - 1];
      MarkAllMarks(marks, init, now);
      assert accepted == init + [accepted[|accepted| - 1]];
      forall i | i in accepted && i != accepted[|accepted| - 1]
        ensures i in init
      {
      }
    }
  }

  lemma MarkAllSnoc(marks: map<nat, Ticks>, accepted: seq<nat>, x: nat, now: Ticks)
    ensures MarkAll(marks, accepted + [x], now) == MarkAll(marks, accepted, now)[x := now]
  {
    assert (accepted + [x])[..|accepted|] == accepted;
  }

  class OutboxPublisher {
    /** The scope's TransactionDbContext and IEventProducer. */
    const context: TransactionDb
    const producer: KafkaEventProducer

    constructor (context: TransactionDb, producer: KafkaEventProducer)
      ensures this.context == context && this.producer == producer
    {
      this.context := context;
      this.producer := producer;
    }

    /** One message of the foreach: publish it and mark it when the producer
        returns; an exception is logged and the row left as it is. */
    method PublishOne(index: nat, now: Ticks)
      requires context.Valid() && index < |context.outboxMessages|
      modifies context, producer
      ensures context.Valid()
      ensures context.transactions == old(context.transactions) && context.outboxMessages == old(context.outboxMessages)
      ensures context.added == old(context.added) && context.addedOutbox == old(context.addedOutbox)
      ensures var m := context.outboxMessages[index];
        var run := ProduceRun(producer.outcomes, old(producer.next), TopicForEventType(m.eventType), m.payload, now);
        producer.next == run.next && producer.sent == old(producer.sent) + run.sent &&
        producer.waits == old(producer.waits) + run.waits &&
        context.processedMarks == (if run.result.Ok? then old(context.processedMarks)[index := now] else old(context.processedMarks))
    {
      var message := context.outboxMessages[index];
      var topic := TopicForEventType(message.eventType);
      var r := producer.ProduceAsync(topic, message.payload, now);
      if r.Ok? {
        context.MarkProcessed(index, now);
      }
    }

    /** What the loop of PublishBatch keeps: the whole publication is what
        was done so far followed by publishing the rest of the batch. */
    ghost predicate Progress(whole: Published, os: seq<SendOutcome>, next: nat, sent: seq<Sent>, waits: seq<Ticks>,
                             marks: map<nat, Ticks>, rows: seq<OutboxMessage>, rest: seq<nat>, now: Ticks,
                             marks0: map<nat, Ticks>, sent0: seq<Sent>, waits0: seq<Ticks>,
                             accepted: seq<nat>, s: seq<Sent>, w: seq<Ticks>)
    {
      whole == Behind(accepted, s, w, Publish(os, next, rows, rest, now)) &&
      sent == sent0 + s && waits == waits0 + w && marks == MarkAll(marks0, accepted, now)
    }

    /** One turn of the foreach, keeping Progress. */
    method PublishNext(batch: seq<nat>, i: nat, now: Ticks, ghost whole: Published, ghost marks0: map<nat, Ticks>,
                       ghost sent0: seq<Sent>, ghost waits0: seq<Ticks>, ghost accepted: seq<nat>, ghost s: seq<Sent>, ghost w: seq<Ticks>)
      returns (ghost accepted': seq<nat>, ghost s': seq<Sent>, ghost w': seq<Ticks>)
      requires context.Valid() && i < |batch| && batch[i] < |context.outboxMessages|
      requires Progress(whole, producer.outcomes, producer.next, producer.sent, producer.waits, context.processedMarks,
                        context.outboxMessages, batch[i..], now, marks0, sent0, waits0, accepted, s, w)
      modifies context, producer
      ensures context.Valid()
      ensures context.transactions == old(context.transactions) && context.outboxMessages == old(context.outboxMessages)
      ensures context.added == old(context.added) && context.addedOutbox == old(context.addedOutbox)
      ensures Progress(whole, producer.outcomes, producer.next, producer.sent, producer.waits, context.processedMarks,
                       context.outboxMessages, batch[i + 1..], now, marks0, sent0, waits0, accepted', s', w')
    {
      var index, rest := batch[i], batch[i + 1..];
      assert batch[i..] == [index] + rest;
      var rows := context.outboxMessages;
      ghost var run := ProduceRun(producer.outcomes, producer.next, TopicForEventType(rows[index].eventType), rows[index].payload, now);
      ghost var step := if run.result.Ok? then [index] else [];
      PublishStep(producer.outcomes, producer.next, rows, index, rest, now, run);
      PublishOne(index, now);
      BehindBehind(accepted, s, w, step, run.sent, run.waits, Publish(producer.outcomes, producer.next, rows, rest, now));
      if run.result.Ok? {
        MarkAllSnoc(marks0, accepted, index, now);
      } else {
        assert accepted + step == accepted;
      }
      Associative(sent0, s, run.sent);
      Associative(waits0, w, run.waits);
      accepted', s', w' := accepted + step, s + run.sent, w + run.waits;
    }

    /** The foreach over the batch: every row in it is published in order and
        the accepted ones are marked. */
    method PublishBatch(batch: seq<nat>, now: Ticks)
      requires context.Valid() && forall j :: 0 <= j < |batch| ==> batch[j] < |context.outboxMessages|
      modifies context, producer
      ensures context.Valid()
      ensures context.transactions == old(context.transactions) && context.outboxMessages == old(context.outboxMessages)
      ensures context.added == old(context.added) && context.addedOutbox == old(context.addedOutbox)
      ensures var p := Publish(producer.outcomes, old(producer.next), context.outboxMessages, batch, now);
        producer.next == p.next && producer.sent == old(producer.sent) + p.sent &&
        producer.waits == old(producer.waits) + p.waits &&
        context.processedMarks == MarkAll(old(context.processedMarks), p.accepted, now)
    {
      var rows := context.outboxMessages;
      ghost var whole := Publish(producer.outcomes, producer.next, rows, batch, now);
      ghost var marks0 := context.processedMarks;
      ghost var sent0, waits0 := producer.sent, producer.waits;
      ghost var accepted: seq<nat>, s: seq<Sent>, w: seq<Ticks> := [], [], [];
      assert batch[0..] == batch;
      var i := 0;
      while i < |batch|
        invariant 0 <= i <= |batch|
        invariant forall j :: 0 <= j < |batch| ==> batch[j] < |rows|
        invariant context.Valid() && context.outboxMessages == rows
        invariant context.transactions == old(context.transactions)
        invariant context.added == old(context.added) && context.addedOutbox == old(context.addedOutbox)
        invariant Progress(whole, producer.outcomes, producer.next, producer.sent, producer.waits, context.processedMarks,
                           rows, batch[i..], now, marks0, sent0, waits0, accepted, s, w)
      {
        accepted, s, w := PublishNext(batch, i, now, whole, marks0, sent0, waits0, accepted, s, w);
        i := i + 1;
      }
      assert batch[i..] == [];
      assert accepted + [] == accepted && s + [] == s && w + [] == w;
    }

    /** PublishOutboxMessages, with one clock reading `now` for the tick and
        `saveFault` an error the final save raises. The scope's context is
        new, so nothing is staged in it. */
    method PublishOutboxMessages(now: Ticks, saveFault: Option<Exception>) returns (batch: seq<nat>, saved: Try<()>)
      requires context.Valid() && context.added == [] && context.addedOutbox == []
      modifies context, producer
      ensures context.Valid()
      ensures batch == Batch(old(context.outboxMessages))
      ensures saved == (if batch == [] || saveFault.None? then Ok(()) else Throws(saveFault.value))
      ensures context.transactions == old(context.transactions)
      ensures var p := Publish(producer.outcomes, old(producer.next), old(context.outboxMessages), batch, now);
        var marks := MarkAll(old(context.processedMarks), p.accepted, now);
        producer.next == p.next && producer.sent == old(producer.sent) + p.sent &&
        producer.waits == old(producer.waits) + p.waits &&
        (batch == [] ==> context.processedMarks == old(context.processedMarks) &&
                         context.outboxMessages == old(context.outboxMessages)) &&
        (batch != [] && saved.Ok? ==> context.outboxMessages == Marked(old(context.outboxMessages), marks) &&
                                      context.processedMarks == map[]) &&
        (batch != [] && saved.Throws? ==> context.outboxMessages == old(context.outboxMessages) &&
                                          context.processedMarks == marks)
    {
      batch := Batch(context.outboxMessages);
      BatchFromPending(context.outboxMessages);
      PublishBatch(batch, now);
      saved := Ok(());
      if |batch| > 0 {
        assert context.transactions + context.AddedRecords() == context.transactions;
        saved := context.SaveChanges(saveFault);
      }
    }
  }

  /** After a tick whose save succeeds, an accepted row carries ProcessedAt
      `now`, a row of the batch the producer threw for stays unprocessed, and
      every row outside the batch is unchanged. */
  lemma {:induction false} TickOutcome(os: seq<SendOutcome>, k: nat, rows: seq<OutboxMessage>, now: Ticks, i: nat)
    requires i < |rows|
    ensures var batch := Batch(rows);
      var p := Publish(os, k, rows, batch, now);
      var after := Marked(rows, MarkAll(map[], p.accepted, now));
      (i in p.accepted ==> after[i] == rows[i].(processedAt := Some(now))) &&
      (i !in p.accepted ==> after[i] == rows[i]) &&
      (i !in batch ==> after[i] == rows[i])
  {
    var batch := Batch(rows);
    var p := Publish(os, k, rows, batch, now);
    MarkAllMarks(map[], p.accepted, now);
    AcceptedFromBatch(os, k, rows, batch, now);
  }
}
