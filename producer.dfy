/**
 * KafkaEventProducer: publishes a JSON payload to a topic, retrying a failed
 * send that raised a ProduceException up to three times with exponential
 * backoff (2, 4 and 8 seconds), and when every attempt failed publishing a
 * dead-letter envelope to the "dlq" topic; a failure to publish that
 * envelope is rethrown. The broker is an oracle: the outcome of each send in
 * turn, every send past the end of the list being delivered.
 */
module Producer {
  import opened Base
  import opened Contracts

  const RetryCount := 3
  const MaxAttempts := RetryCount + 1

  function Pow2(n: nat): (p: nat)
    ensures p >= 1
  {
    if n == 0 then 1 else 2 * Pow2(n - 1)
  }

  /** The wait before retry `attempt` (1-based): 2^attempt seconds. */
  function RetryDelay(attempt: nat): Ticks {
    Pow2(attempt) * TicksPerSecond
  }

  /** What the broker does with one send. */
  datatype SendOutcome = Delivered | Fails(error: Exception)

  /** A header value: text, or an instant written in the round-trip ("O") format. */
  datatype HeaderValue = Text(text: string) | Instant(at: Ticks)

  datatype Header = Header(key: string, value: HeaderValue)

  /** One message handed to the broker, with the metadata headers the
      producer adds (none on an ordinary send). */
  datatype Sent = Sent(topic: string, payload: Json, headers: seq<Header> := [])

  /** The outcome of the k-th send; past the end of the oracle every send is delivered. */
  function OutcomeAt(os: seq<SendOutcome>, k: nat): SendOutcome {
    if k < |os| then os[k] else Delivered
  }

  /** Whether the retry policy handles an exception (Handle<ProduceException<string, string>>). */
  predicate Retryable(e: Exception) {
    e.typeName == ProduceExceptionType
  }

  /** What a run of sends did: its result, the messages sent, the waits taken
      and the index of the next oracle entry. */
  datatype Run = Run(result: Try<()>, sent: seq<Sent>, waits: seq<Ticks>, next: nat)

  /** A run preceded by sends and waits already made. */
  function After(sent: seq<Sent>, waits: seq<Ticks>, run: Run): Run {
    Run(run.result, sent + run.sent, waits + run.waits, run.next)
  }

  /** The retry policy executing the send from attempt `attempt` on, the k-th
      oracle entry answering it. */
  function Attempts(os: seq<SendOutcome>, k: nat, topic: string, payload: Json, attempt: nat): Run
    requires 1 <= attempt <= MaxAttempts
    decreases MaxAttempts - attempt
  {
    var s := [Sent(topic, payload)];
    match OutcomeAt(os, k)
    case Delivered => Run(Ok(()), s, [], k + 1)
    case Fails(e) =>
      if !Retryable(e) || attempt == MaxAttempts then Run(Throws(e), s, [], k + 1)
      else After(s, [RetryDelay(attempt)], Attempts(os, k + 1, topic, payload, attempt + 1))
  }

  /** A retryable failure before the last attempt: one send, one wait, then the next attempt. */
  lemma AttemptsRetry(os: seq<SendOutcome>, k: nat, topic: string, payload: Json, attempt: nat)
    requires 1 <= attempt < MaxAttempts
    requires OutcomeAt(os, k).Fails? && Retryable(OutcomeAt(os, k).error)
    ensures Attempts(os, k, topic, payload, attempt) ==
      After([Sent(topic, payload)], [RetryDelay(attempt)], Attempts(os, k + 1, topic, payload, attempt + 1))
  {
  }

  lemma AfterAfter(s1: seq<Sent>, w1: seq<Ticks>, s2: seq<Sent>, w2: seq<Ticks>, run: Run)
    ensures After(s1, w1, After(s2, w2, run)) == After(s1 + s2, w1 + w2, run)
  {
    assert s1 + (s2 + run.sent) == (s1 + s2) + run.sent;
    assert w1 + (w2 + run.waits) == (w1 + w2) + run.waits;
  }

  /** A last attempt of the retry loop, seen from the sends and waits made before it. */
  lemma AttemptEnds(os: seq<SendOutcome>, k: nat, topic: string, payload: Json, attempt: nat, s: seq<Sent>, w: seq<Ticks>)
    requires 1 <= attempt <= MaxAttempts
    requires OutcomeAt(os, k).Fails? ==> !Retryable(OutcomeAt(os, k).error) || attempt == MaxAttempts
    ensures After(s, w, Attempts(os, k, topic, payload, attempt)) ==
      Run(if OutcomeAt(os, k).Delivered? then Ok(()) else Throws(OutcomeAt(os, k).error), s + [Sent(topic, payload)], w, k + 1)
  {
  }

  /** A retried attempt, seen from the sends and waits made before it. */
  lemma AttemptRetries(os: seq<SendOutcome>, k: nat, topic: string, payload: Json, attempt: nat, s: seq<Sent>, w: seq<Ticks>)
    requires 1 <= attempt < MaxAttempts
    requires OutcomeAt(os, k).Fails? && Retryable(OutcomeAt(os, k).error)
    ensures After(s, w, Attempts(os, k, topic, payload, attempt)) ==
      After(s + [Sent(topic, payload)], w + [RetryDelay(attempt)], Attempts(os, k + 1, topic, payload, attempt + 1))
  {
    AttemptsRetry(os, k, topic, payload, attempt);
    AfterAfter(s, w, [Sent(topic, payload)], [RetryDelay(attempt)], Attempts(os, k + 1, topic, payload, attempt + 1));
  }

  /** The envelope published for a payload whose sends all failed with `e`. */
  function DeadLetter(originalTopic: string, payload: Json, e: Exception, now: Ticks): Json {
    DeadLetterDoc(DeadLetterEnvelope(originalTopic, payload, e.message, now, e.typeName))
  }

  /** The Kafka message PublishToDeadLetterQueue sends: the envelope to "dlq",
      with the "original-topic", "failure-reason" and "timestamp" headers. */
  function DeadLetterMessage(originalTopic: string, payload: Json, e: Exception, now: Ticks): (m: Sent)
    ensures m.topic == DeadLetterQueueTopic && m.payload.DeadLetterDoc?
    ensures var env := m.payload.envelope;
      env.originalTopic == originalTopic && env.originalPayload == payload && env.failureReason == e.message &&
      env.timestamp == now && env.exceptionType == e.typeName &&
      m.headers == [Header("original-topic", Text(env.originalTopic)),
                    Header("failure-reason", Text(env.failureReason)),
                    Header("timestamp", Instant(env.timestamp))]
  {
    Sent(DeadLetterQueueTopic, DeadLetter(originalTopic, payload, e, now),
         [Header("original-topic", Text(originalTopic)),
          Header("failure-reason", Text(e.message)),
          Header("timestamp", Instant(now))])
  }

  /** ProduceAsync(topic, payload): the retried send, then the dead-letter
      publication when the send failed with a ProduceException. */
  function ProduceRun(os: seq<SendOutcome>, k: nat, topic: string, payload: Json, now: Ticks): Run {
    var a := Attempts(os, k, topic, payload, 1);
    if a.result.Throws? && Retryable(a.result.error) then
      var dlq := [DeadLetterMessage(topic, payload, a.result.error, now)];
      match OutcomeAt(os, a.next)
      case Delivered => Run(Ok(()), a.sent + dlq, a.waits, a.next + 1)
      case Fails(e) => Run(Throws(e), a.sent + dlq, a.waits, a.next + 1)
    else a
  }

  class KafkaEventProducer {
    /** The broker's answer to each send, in order. */
    const outcomes: seq<SendOutcome>
    /** The index of the oracle entry that answers the next send. */
    var next: nat
    /** Every message handed to the broker, in order. */
    var sent: seq<Sent>
    /** Every backoff the retry policy waited, in order. */
    var waits: seq<Ticks>

    constructor (outcomes: seq<SendOutcome>)
      ensures this.outcomes == outcomes && next == 0 && sent == [] && waits == []
    {
      this.outcomes := outcomes;
      next := 0;
      sent := [];
      waits := [];
    }

    /** One send to the broker. */
    method Send(topic: string, payload: Json, headers: seq<Header> := []) returns (o: SendOutcome)
      modifies this
      ensures o == OutcomeAt(outcomes, old(next)) && next == old(next) + 1
      ensures sent == old(sent) + [Sent(topic, payload, headers)] && waits == old(waits)
    {
      o := OutcomeAt(outcomes, next);
      sent := sent + [Sent(topic, payload, headers)];
      next := next + 1;
    }

    /** One attempt of the retry policy: the send, then either the end of the
        policy or its wait before the next attempt. */
    method TryAttempt(topic: string, payload: Json, attempt: nat, ghost sent0: seq<Sent>, ghost waits0: seq<Ticks>,
                      ghost s: seq<Sent>, ghost w: seq<Ticks>)
      returns (done: bool, r: Try<()>, ghost s': seq<Sent>, ghost w': seq<Ticks>)
      requires 1 <= attempt <= MaxAttempts
      requires sent == sent0 + s && waits == waits0 + w
      modifies this
      ensures sent == sent0 + s' && waits == waits0 + w'
      ensures done ==> After(s, w, Attempts(outcomes, old(next), topic, payload, attempt)) == Run(r, s', w', next)
      ensures !done ==> attempt < MaxAttempts
      ensures !done ==> After(s, w, Attempts(outcomes, old(next), topic, payload, attempt)) ==
                        After(s', w', Attempts(outcomes, next, topic, payload, attempt + 1))
    {
      ghost var k := next;
      var o := Send(topic, payload);
      Associative(sent0, s, [Sent(topic, payload)]);
      s' := s + [Sent(topic, payload)];
      w' := w;
      if o.Delivered? {
        AttemptEnds(outcomes, k, topic, payload, attempt, s, w);
        return true, Ok(()), s', w';
      } else if !Retryable(o.error) || attempt == MaxAttempts {
        AttemptEnds(outcomes, k, topic, payload, attempt, s, w);
        return true, Throws(o.error), s', w';
      }
      AttemptRetries(outcomes, k, topic, payload, attempt, s, w);
      Associative(waits0, w, [RetryDelay(attempt)]);
      waits := waits + [RetryDelay(attempt)];
      w' := w + [RetryDelay(attempt)];
      done, r := false, Ok(());
    }

    /** _retryPolicy.ExecuteAsync around the send. */
    method ExecuteWithRetry(topic: string, payload: Json) returns (r: Try<()>)
      modifies this
      ensures var run := Attempts(outcomes, old(next), topic, payload, 1);
        r == run.result && sent == old(sent) + run.sent && waits == old(waits) + run.waits && next == run.next
    {
      ghost var whole := Attempts(outcomes, next, topic, payload, 1);
      ghost var sent0, waits0 := sent, waits;
      ghost var s: seq<Sent>, w: seq<Ticks> := [], [];
      var attempt := 1;
      while true
        invariant 1 <= attempt <= MaxAttempts
        invariant sent == sent0 + s && waits == waits0 + w
        invariant whole == After(s, w, Attempts(outcomes, next, topic, payload, attempt))
        decreases MaxAttempts - attempt
      {
        var done;
        done, r, s, w := TryAttempt(topic, payload, attempt, sent0, waits0, s, w);
        if done {
          return;
        }
        attempt := attempt + 1;
      }
    }

    /** PublishToDeadLetterQueue(originalTopic, payload, exception): one send
        of the envelope and its metadata headers to "dlq", no retry; its
        failure is rethrown. */
    method PublishToDeadLetterQueue(originalTopic: string, payload: Json, e: Exception, now: Ticks) returns (r: Try<()>)
      modifies this
      ensures sent == old(sent) + [DeadLetterMessage(originalTopic, payload, e, now)]
      ensures waits == old(waits) && next == old(next) + 1
      ensures r == (match OutcomeAt(outcomes, old(next)) case Delivered => Ok(()) case Fails(f) => Throws(f))
    {
      var m := DeadLetterMessage(originalTopic, payload, e, now);
      var o := Send(m.topic, m.payload, m.headers);
      if o.Fails? {
        return Throws(o.error);
      }
      return Ok(());
    }

    /** ProduceAsync(topic, jsonPayload). A failure that is not a
        ProduceException is not retried and not caught: it propagates. */
    method ProduceAsync(topic: string, payload: Json, now: Ticks) returns (r: Try<()>)
      modifies this
      ensures var run := ProduceRun(outcomes, old(next), topic, payload, now);
        r == run.result && sent == old(sent) + run.sent && waits == old(waits) + run.waits && next == run.next
    {
      r := ExecuteWithRetry(topic, payload);
      if r.Throws? && Retryable(r.error) {
        r := PublishToDeadLetterQueue(topic, payload, r.error, now);
      }
    }
  }

  /** The retried send: every message goes to the topic with the payload, at
      most MaxAttempts - attempt + 1 of them, one oracle entry each, and one
      wait fewer than sends, the i-th being 2^(attempt + i) seconds. */
  lemma AttemptsShape(os: seq<SendOutcome>, k: nat, topic: string, payload: Json, attempt: nat)
    requires 1 <= attempt <= MaxAttempts
    ensures var a := Attempts(os, k, topic, payload, attempt);
      1 <= |a.sent| <= MaxAttempts - attempt + 1 && a.next == k + |a.sent| &&
      (forall i :: 0 <= i < |a.sent| ==> a.sent[i] == Sent(topic, payload)) &&
      |a.waits| == |a.sent| - 1 &&
      (forall i :: 0 <= i < |a.waits| ==> a.waits[i] == RetryDelay(attempt + i))
  {
    AttemptsSends(os, k, topic, payload, attempt);
    AttemptsWaits(os, k, topic, payload, attempt);
  }

  /** The sends of the retried send: 1 to MaxAttempts - attempt + 1 copies of
      the payload to the topic, one oracle entry each. */
  lemma {:induction false} AttemptsSends(os: seq<SendOutcome>, k: nat, topic: string, payload: Json, attempt: nat)
    requires 1 <= attempt <= MaxAttempts
    ensures var a := Attempts(os, k, topic, payload, attempt);
      1 <= |a.sent| <= MaxAttempts - attempt + 1 && a.next == k + |a.sent| &&
      (forall i :: 0 <= i < |a.sent| ==> a.sent[i] == Sent(topic, payload))
    decreases MaxAttempts - attempt
  {
    match OutcomeAt(os, k)
    case Delivered =>
    case Fails(e) =>
      if Retryable(e) && attempt < MaxAttempts {
        AttemptsSends(os, k + 1, topic, payload, attempt + 1);
      }
  }

  /** The waits of the retried send: one fewer than the sends, the i-th being
      2^(attempt + i) seconds. */
  lemma {:induction false} AttemptsWaits(os: seq<SendOutcome>, k: nat, topic: string, payload: Json, attempt: nat)
    requires 1 <= attempt <= MaxAttempts
    ensures var a := Attempts(os, k, topic, payload, attempt);
      |a.waits| == |a.sent| - 1 &&
      (forall i :: 0 <= i < |a.waits| ==> a.waits[i] == RetryDelay(attempt + i))
    decreases MaxAttempts - attempt
  {
    match OutcomeAt(os, k)
    case Delivered =>
    case Fails(e) =>
      if Retryable(e) && attempt < MaxAttempts {
        AttemptsRetry(os, k, topic, payload, attempt);
        AttemptsWaits(os, k + 1, topic, payload, attempt + 1);
        var rest := Attempts(os, k + 1, topic, payload, attempt + 1);
        var a := Attempts(os, k, topic, payload, attempt);
        assert a.waits == [RetryDelay(attempt)] + rest.waits && |a.sent| == 1 + |rest.sent|;
        assert forall i :: 1 <= i < |a.waits| ==> a.waits[i] == rest.waits[i - 1];
      }
  }

  /** The retried send stops at the first delivery: it succeeds exactly when
      its last send was delivered, every earlier send failed with a
      ProduceException, and a failure is the last send's exception. */
  lemma {:induction false} AttemptsOutcome(os: seq<SendOutcome>, k: nat, topic: string, payload: Json, attempt: nat)
    requires 1 <= attempt <= MaxAttempts
    ensures var a := Attempts(os, k, topic, payload, attempt);
      a.next > k &&
      (forall j :: k <= j < a.next - 1 ==> OutcomeAt(os, j).Fails? && Retryable(OutcomeAt(os, j).error)) &&
      (a.result.Ok? <==> OutcomeAt(os, a.next - 1).Delivered?) &&
      (a.result.Throws? ==> a.result.error == OutcomeAt(os, a.next - 1).error)
    decreases MaxAttempts - attempt
  {
    match OutcomeAt(os, k)
    case Delivered =>
    case Fails(e) =>
      if Retryable(e) && attempt < MaxAttempts {
        AttemptsRetry(os, k, topic, payload, attempt);
        AttemptsOutcome(os, k + 1, topic, payload, attempt + 1);
        var rest := Attempts(os, k + 1, topic, payload, attempt + 1);
        var a := Attempts(os, k, topic, payload, attempt);
        assert a.result == rest.result && a.next == rest.next;
      }
  }

  /** A message delivered at once is sent once, with no wait and no dead letter. */
  lemma FirstDeliveryEnds(os: seq<SendOutcome>, k: nat, topic: string, payload: Json, now: Ticks)
    requires OutcomeAt(os, k).Delivered?
    ensures ProduceRun(os, k, topic, payload, now) == Run(Ok(()), [Sent(topic, payload)], [], k + 1)
  {
  }

  /** Four ProduceException failures in a row: four sends, waits of 2, 4 and 8
      seconds, then one dead-letter envelope carrying the topic, the payload,
      the last failure's message and type, and the instant; the result is the
      envelope send's outcome. */
  lemma {:induction false} ExhaustedRetriesDeadLetter(os: seq<SendOutcome>, k: nat, topic: string, payload: Json, now: Ticks)
    requires forall j :: k <= j < k + MaxAttempts ==> OutcomeAt(os, j).Fails? && Retryable(OutcomeAt(os, j).error)
    ensures var run := ProduceRun(os, k, topic, payload, now);
      var last := OutcomeAt(os, k + 3).error;
      run.sent == [Sent(topic, payload), Sent(topic, payload), Sent(topic, payload), Sent(topic, payload),
                   DeadLetterMessage(topic, payload, last, now)] &&
      run.waits == [2 * TicksPerSecond, 4 * TicksPerSecond, 8 * TicksPerSecond] &&
      run.next == k + 5 &&
      (run.result.Ok? <==> OutcomeAt(os, k + 4).Delivered?)
  {
    assert OutcomeAt(os, k).Fails? && OutcomeAt(os, k + 1).Fails? && OutcomeAt(os, k + 2).Fails? && OutcomeAt(os, k + 3).Fails?;
    var a4 := Attempts(os, k + 3, topic, payload, 4);
    assert a4 == Run(Throws(OutcomeAt(os, k + 3).error), [Sent(topic, payload)], [], k + 4);
    var a3 := Attempts(os, k + 2, topic, payload, 3);
    assert a3.sent == [Sent(topic, payload)] + a4.sent;
    var a2 := Attempts(os, k + 1, topic, payload, 2);
    var a1 := Attempts(os, k, topic, payload, 1);
    assert a1.waits == [RetryDelay(1), RetryDelay(2), RetryDelay(3)];
    assert Pow2(3) == 8 && Pow2(2) == 4 && Pow2(1) == 2;
  }

  /** Exactly one envelope goes to "dlq", after the retried sends and only
      when they ended in a ProduceException; any other failure propagates
      unchanged with no envelope. For a topic other than "dlq" the envelope is
      the only send to "dlq". */
  lemma {:induction false} DeadLetterOnlyForProduceException(os: seq<SendOutcome>, k: nat, topic: string, payload: Json, now: Ticks)
    ensures var a := Attempts(os, k, topic, payload, 1);
      var run := ProduceRun(os, k, topic, payload, now);
      var dlqSends := set i | 0 <= i < |run.sent| && run.sent[i].topic == DeadLetterQueueTopic;
      (forall i :: 0 <= i < |a.sent| ==> run.sent[i] == Sent(topic, payload)) &&
      (a.result.Throws? && Retryable(a.result.error) ==>
         (|run.sent| == |a.sent| + 1 &&
          run.sent[|a.sent|] == DeadLetterMessage(topic, payload, a.result.error, now) &&
          (topic != DeadLetterQueueTopic ==> dlqSends == {|run.sent| - 1}))) &&
      (!(a.result.Throws? && Retryable(a.result.error)) ==>
         run.sent == a.sent && run.result == a.result && (topic != DeadLetterQueueTopic ==> dlqSends == {}))
  {
    AttemptsShape(os, k, topic, payload, 1);
    var a := Attempts(os, k, topic, payload, 1);
    var run := ProduceRun(os, k, topic, payload, now);
    assert forall i :: 0 <= i < |a.sent| ==> run.sent[i] == a.sent[i];
  }

  /** When the dead-letter send itself fails, ProduceAsync throws that failure:
      the message is reported lost rather than dropped silently. */
  lemma DeadLetterFailureRethrown(os: seq<SendOutcome>, k: nat, topic: string, payload: Json, now: Ticks)
    requires var a := Attempts(os, k, topic, payload, 1);
      a.result.Throws? && Retryable(a.result.error) && OutcomeAt(os, a.next).Fails?
    ensures var a := Attempts(os, k, topic, payload, 1);
      ProduceRun(os, k, topic, payload, now).result == Throws(OutcomeAt(os, a.next).error)
  {
  }
}
