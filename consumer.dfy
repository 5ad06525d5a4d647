/**
 * KafkaEventConsumer.ConsumeAsync<TransactionReceived>: subscribe, then until
 * cancellation poll one record at a time; skip empty records; deserialise
 * the value; hand a non-null message to the handler and commit the record
 * only after the handler returns; back off five seconds after a
 * ConsumeException; any other exception, from the deserialiser, the handler
 * or Commit, leaves the loop. The consumer is closed on every path. The
 * broker's records, its answers to commits and the handler's outcomes are
 * oracles; polling past the last record stands for cancellation.
 */
module Consumer {
  import opened Base
  import opened Contracts

  /** The delay after a ConsumeException. */
  const ConsumeBackoff: Ticks := 5 * TicksPerSecond

  /** What one Consume call yields: a record with a value, a null result or
      record value, or an exception. A record also carries the broker's answer
      to committing it: None when the commit succeeds, or the exception
      Commit throws. */
  datatype Poll = Record(value: Json, commitFault: Option<Exception>) | NoMessage | ConsumeFailed(error: Exception)

  /** Whether the loop's catch clause handles an exception. */
  predicate Caught(e: Exception) {
    e.typeName == ConsumeExceptionType
  }

  /** The handler's outcome for its j-th call; past the end it returns normally. */
  function HandlerAt(hs: seq<Try<()>>, j: nat): Try<()> {
    if j < |hs| then hs[j] else Ok(())
  }

  /** What the consumer has done so far: the messages handed to the handler,
      the indices of the records committed, the back-off delays, and the
      index of the handler's next outcome. */
  datatype Progress = Progress(handled: seq<TransactionReceived>, committed: seq<nat>, delays: seq<Ticks>, handlerNext: nat)

  /** One turn of the loop: None to go on, Some(e) to leave with e. */
  datatype Step = Step(stop: Option<Exception>, after: Progress)

  /** The loop body on record i. */
  function StepAt(polls: seq<Poll>, i: nat, hs: seq<Try<()>>, p: Progress): Step
    requires i < |polls|
  {
    match polls[i]
    case NoMessage => Step(None, p)
    case ConsumeFailed(e) =>
      if Caught(e) then Step(None, p.(delays := p.delays + [ConsumeBackoff])) else Step(Some(e), p)
    case Record(doc, commitFault) =>
      match DeserializeTransactionReceived(doc)
      // a JsonException: not a ConsumeException, so it leaves the loop
      case Throws(e) => Step(Some(e), p)
      case Ok(None) => Step(None, p)
      case Ok(Some(m)) =>
        var q := p.(handled := p.handled + [m], handlerNext := p.handlerNext + 1);
        match HandlerAt(hs, p.handlerNext)
        case Ok(_) =>
          (match commitFault
           case None => Step(None, q.(committed := q.committed + [i]))
           // the record stays uncommitted; the exception meets the same catch clause
           case Some(e) =>
             if Caught(e) then Step(None, q.(delays := q.delays + [ConsumeBackoff])) else Step(Some(e), q))
        case Throws(e) =>
          if Caught(e) then Step(None, q.(delays := q.delays + [ConsumeBackoff])) else Step(Some(e), q)
  }

  /** How the loop ends and what it has done by then. */
  datatype Ending = Ending(result: Try<()>, final: Progress)

  /** The loop from record i to cancellation or to an exception it does not catch. */
  function ConsumeFrom(polls: seq<Poll>, i: nat, hs: seq<Try<()>>, p: Progress): Ending
    decreases |polls| - i
  {
    if i >= |polls| then Ending(Ok(()), p)
    else
      var s := StepAt(polls, i, hs, p);
      if s.stop.Some? then Ending(Throws(s.stop.value), s.after)
      else ConsumeFrom(polls, i + 1, hs, s.after)
  }

  class KafkaEventConsumer {
    /** The records the broker yields, in order. */
    const polls: seq<Poll>
    /** The handler's outcome for each call, in order. */
    const handlerOutcomes: seq<Try<()>>
    var position: nat
    var handlerNext: nat
    var subscriptions: seq<string>
    /** Every message handed to the handler, in order. */
    var handled: seq<TransactionReceived>
    /** The indices of the records committed, in order. */
    var committed: seq<nat>
    var delays: seq<Ticks>
    var closed: bool

    function Current(): Progress
      reads this
    {
      Progress(handled, committed, delays, handlerNext)
    }

    constructor (polls: seq<Poll>, handlerOutcomes: seq<Try<()>>)
      ensures this.polls == polls && this.handlerOutcomes == handlerOutcomes
      ensures position == 0 && Current() == Progress([], [], [], 0) && subscriptions == [] && !closed
    {
      this.polls := polls;
      this.handlerOutcomes := handlerOutcomes;
      position := 0;
      handlerNext := 0;
      subscriptions := [];
      handled := [];
      committed := [];
      delays := [];
      closed := false;
    }

    /** ConsumeAsync(topic, handler): subscribe, poll until cancellation or an
        uncaught exception, and close the consumer in the finally block. */
    method ConsumeAsync(topic: string) returns (r: Try<()>)
      modifies this
      ensures Ending(r, Current()) == ConsumeFrom(polls, old(position), handlerOutcomes, old(Current()))
      ensures subscriptions == old(subscriptions) + [topic] && closed
    {
      subscriptions := subscriptions + [topic];
      ghost var whole := ConsumeFrom(polls, position, handlerOutcomes, Current());
      r := Ok(());
      while position < |polls|
        invariant subscriptions == old(subscriptions) + [topic]
        invariant whole == ConsumeFrom(polls, position, handlerOutcomes, Current())
        decreases |polls| - position
      {
        var stop := PollOnce();
        if stop.Some? {
          r := Throws(stop.value);
          break;
        }
      }
      closed := true;
    }

    /** One turn of the loop body on the record at `position`. */
    method PollOnce() returns (stop: Option<Exception>)
      requires position < |polls|
      modifies this
      ensures Step(stop, Current()) == StepAt(polls, old(position), handlerOutcomes, old(Current()))
      ensures position == old(position) + 1
      ensures subscriptions == old(subscriptions) && closed == old(closed)
    {
      var i := position;
      position := position + 1;
      stop := None;
      match polls[i]
      case NoMessage =>
      case ConsumeFailed(e) =>
        if Caught(e) {
          delays := delays + [ConsumeBackoff];
        } else {
          stop := Some(e);
        }
      case Record(doc, commitFault) =>
        var message := DeserializeTransactionReceived(doc);
        if message.Throws? {
          stop := Some(message.error);
        } else if message.value.Some? {
          handled := handled + [message.value.value];
          var outcome := HandlerAt(handlerOutcomes, handlerNext);
          handlerNext := handlerNext + 1;
          var failure := if outcome.Ok? then commitFault else Some(outcome.error);
          if failure.None? {
            committed := committed + [i];
          } else if Caught(failure.value) {
            delays := delays + [ConsumeBackoff];
          } else {
            stop := failure;
          }
        }
    }
  }

  /** Whether record i carries a message the handler is given. */
  predicate Deliverable(polls: seq<Poll>, i: nat) {
    i < |polls| && polls[i].Record? &&
    var m := DeserializeTransactionReceived(polls[i].value);
    m.Ok? && m.value.Some?
  }

  /** The loop only appends to what the consumer has done, and calls the
      handler once per message it hands over. */
  lemma {:induction false} ConsumeOnlyAppends(polls: seq<Poll>, i: nat, hs: seq<Try<()>>, p: Progress)
    ensures var f := ConsumeFrom(polls, i, hs, p).final;
      |f.committed| >= |p.committed| && f.committed[..|p.committed|] == p.committed &&
      |f.handled| >= |p.handled| && f.handled[..|p.handled|] == p.handled &&
      |f.delays| >= |p.delays| && f.delays[..|p.delays|] == p.delays &&
      f.handlerNext - p.handlerNext == |f.handled| - |p.handled|
    decreases |polls| - i
  {
    if i < |polls| {
      var s := StepAt(polls, i, hs, p);
      if s.stop.None? {
        ConsumeOnlyAppends(polls, i + 1, hs, s.after);
        var f := ConsumeFrom(polls, i + 1, hs, s.after).final;
        assert f.committed[..|p.committed|] == f.committed[..|s.after.committed|][..|p.committed|];
        assert f.handled[..|p.handled|] == f.handled[..|s.after.handled|][..|p.handled|];
        assert f.delays[..|p.delays|] == f.delays[..|s.after.delays|][..|p.delays|];
      }
    }
  }

  /** Commits are at-least-once bookkeeping: the loop commits only records
      from i on whose message reached the handler, in increasing order and
      never twice, and no more of them than it handed to the handler. */
  lemma {:induction false} CommitsFollowHandler(polls: seq<Poll>, i: nat, hs: seq<Try<()>>, p: Progress)
    ensures var f := ConsumeFrom(polls, i, hs, p).final;
      var k := |p.committed|;
      |f.committed| >= k &&
      (forall n :: k <= n < |f.committed| ==> i <= f.committed[n] && Deliverable(polls, f.committed[n])) &&
      (forall n, m :: k <= n < m < |f.committed| ==> f.committed[n] < f.committed[m]) &&
      |f.committed| - k <= |f.handled| - |p.handled|
    decreases |polls| - i
  {
    ConsumeOnlyAppends(polls, i, hs, p);
    if i < |polls| {
      var s := StepAt(polls, i, hs, p);
      if s.stop.None? {
        CommitsFollowHandler(polls, i + 1, hs, s.after);
        ConsumeOnlyAppends(polls, i + 1, hs, s.after);
        var f := ConsumeFrom(polls, i + 1, hs, s.after).final;
        var k := |p.committed|;
        if |s.after.committed| > k {
          assert s.after.committed == p.committed + [i] && Deliverable(polls, i);
          assert f.committed[k] == f.committed[..|s.after.committed|][k] == i;
        }
      }
    }
  }

  /** A record whose message the handler rejected with an exception other than
      a ConsumeException ends the loop with that exception; the message was
      handed over but the record is not committed. */
  lemma HandlerFailureStops(polls: seq<Poll>, i: nat, hs: seq<Try<()>>, p: Progress, m: TransactionReceived)
    requires i < |polls| && polls[i].Record? && DeserializeTransactionReceived(polls[i].value) == Ok(Some(m))
    requires HandlerAt(hs, p.handlerNext).Throws? && !Caught(HandlerAt(hs, p.handlerNext).error)
    ensures ConsumeFrom(polls, i, hs, p) ==
      Ending(HandlerAt(hs, p.handlerNext), p.(handled := p.handled + [m], handlerNext := p.handlerNext + 1))
  {
  }

  /** A record that is not JSON ends the loop with a JsonException, uncommitted
      and unhandled: the catch clause handles ConsumeException only. */
  lemma UnparsableRecordStops(polls: seq<Poll>, i: nat, hs: seq<Try<()>>, p: Progress, text: string)
    requires i < |polls| && polls[i].Record? && polls[i].value == Unparsable(text)
    ensures var e := ConsumeFrom(polls, i, hs, p);
      e.result.Throws? && e.result.error.typeName == JsonExceptionType && e.final == p
  {
  }

  /** A commit that throws an exception other than a ConsumeException ends the
      loop with it; the message was handled but the record stays uncommitted. */
  lemma CommitFailureStops(polls: seq<Poll>, i: nat, hs: seq<Try<()>>, p: Progress, m: TransactionReceived)
    requires i < |polls| && polls[i].Record? && DeserializeTransactionReceived(polls[i].value) == Ok(Some(m))
    requires HandlerAt(hs, p.handlerNext).Ok?
    requires polls[i].commitFault.Some? && !Caught(polls[i].commitFault.value)
    ensures ConsumeFrom(polls, i, hs, p) ==
      Ending(Throws(polls[i].commitFault.value), p.(handled := p.handled + [m], handlerNext := p.handlerNext + 1))
  {
  }

  /** Empty records and null messages are skipped without touching the handler. */
  lemma SkipsEmpty(polls: seq<Poll>, i: nat, hs: seq<Try<()>>, p: Progress)
    requires i < |polls| && (polls[i].NoMessage? || (polls[i].Record? && polls[i].value.NullDoc?))
    ensures ConsumeFrom(polls, i, hs, p) == ConsumeFrom(polls, i + 1, hs, p)
  {
  }

  /** A ConsumeException costs a five-second back-off and the loop goes on. */
  lemma ConsumeExceptionBacksOff(polls: seq<Poll>, i: nat, hs: seq<Try<()>>, p: Progress)
    requires i < |polls| && polls[i].ConsumeFailed? && Caught(polls[i].error)
    ensures ConsumeFrom(polls, i, hs, p) == ConsumeFrom(polls, i + 1, hs, p.(delays := p.delays + [ConsumeBackoff]))
  {
  }

  /** When every message is handled normally and no poll or commit fails, the
      loop runs to cancellation, waits nowhere and commits every deliverable
      record. */
  lemma {:induction false} AllHandledAllCommitted(polls: seq<Poll>, i: nat, hs: seq<Try<()>>, p: Progress)
    requires forall n :: i <= n < |polls| ==>
      !polls[n].ConsumeFailed? && !(polls[n].Record? && (polls[n].value.Unparsable? || polls[n].commitFault.Some?))
    requires forall n :: p.handlerNext <= n ==> HandlerAt(hs, n).Ok?
    ensures var e := ConsumeFrom(polls, i, hs, p);
      e.result.Ok? && e.final.delays == p.delays &&
      |e.final.committed| - |p.committed| == |e.final.handled| - |p.handled| &&
      (forall n :: i <= n < |polls| && Deliverable(polls, n) ==> n in e.final.committed)
    decreases |polls| - i
  {
    if i < |polls| {
      var s := StepAt(polls, i, hs, p);
      AllHandledAllCommitted(polls, i + 1, hs, s.after);
      ConsumeOnlyAppends(polls, i + 1, hs, s.after);
      var f := ConsumeFrom(polls, i + 1, hs, s.after).final;
      if Deliverable(polls, i) {
        assert s.after.committed[|s.after.committed| - 1] == i;
        assert f.committed[|s.after.committed| - 1] == f.committed[..|s.after.committed|][|s.after.committed| - 1];
      }
    }
  }
}
