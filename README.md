# Fraud rule engine — a Dafny model

This project models the decision logic of a fraud-detection system made of three services that talk over Kafka:

- **Transactions API.** It accepts a `CreateTransactionCommand`, checks it with a field validator, and creates a `Transaction` aggregate idempotently on its `ExternalId`. A pipeline behaviour then turns the aggregate's pending domain events into outbox rows, and one save persists the transaction together with its outbox rows. A background publisher drains the outbox one batch per tick. It publishes each row verbatim and marks it processed only after the publish returns.
- **Evaluations worker.** It consumes `TransactionReceived` messages and runs a `CompositeRulePipeline` of three rules:
  - `HighAmountRule`: amount strictly above a threshold;
  - `ForeignCountryRule`: a case-insensitive country mismatch, where a missing key counts as compliant;
  - `VelocityRule`: the count of recent checks, inclusive.

  Any other `IFraudRule`, such as a test double, is modelled by its name, its declared requests and its evaluation function, so the pipeline's promises hold for every rule list.

  The velocity count is resolved through a `RuleDataMediator` that caches handlers. The worker persists one `FraudCheck` and publishes `FraudAssessed`, or sends the original message to the `dlq` topic.
- **Reporting API.** It projects each `FraudAssessed` into a per-transaction summary and a per-rule, per-day heatmap with a running mean. It answers daily-statistics and top-rules queries.
- **Transport.** The Kafka producer retries up to 3 times with waits of 2, 4 and 8 seconds, then sends one dead-letter envelope and rethrows if that send fails. The consumer commits an offset only after its handler returns normally.

Modelling conventions:

- Identifiers (`Guid`) are naturals, and fresh ones arrive as parameters.
- Times are integer ticks, with `now` passed in.
- `decimal` values are exact reals.
- Exceptions are values (`Base.Exception`), and an operation that may throw returns `Base.Try`.
- Brokers, handlers and database faults are oracles: sequences of outcomes, or `Option<Exception>` parameters.
- JSON documents are a datatype with one constructor per contract, so serialising is construction and deserialising is a match.
- Number and identifier formatting inside reason texts goes through a `Rules.Formatter` parameter.
- Each database table is a `seq` field of a class that holds both its saved rows and its staged rows. Its unique indexes are checked at `SaveChanges` and kept as class invariants.

Files follow the program's structure:

- `result.dfy`, `base.dfy`, `contracts.dfy`: shared values.
- `rules.dfy`, `pipeline.dfy`: the rule engine.
- `fraud_checks.dfy`, `mediator.dfy`, `evaluation_service.dfy`, `worker.dfy`: the evaluations worker.
- `producer.dfy`, `consumer.dfy`: transport.
- `validation.dfy`, `transactions.dfy`, `ingestion.dfy`, `unit_of_work.dfy`, `outbox_publisher.dfy`: the transactions API.
- `reporting.dfy`: the read side.
- `stats.dfy`, `sorting.dfy`: mean and stable-sort helpers.

## Model

| member | source | states |
|---|---|---|
| Results.Result.Error | src/FraudRuleEngine.Shared/Common/Result.cs:3-17 | Error is absent exactly on success, and a failure carries its message |
| Results.Factories | src/FraudRuleEngine.Shared/Common/Result.cs:15-33 | Success(v) is a success with value v and no error. Failure(e) is a failure with error e and no value, and IsFailure is always the negation of IsSuccess |
| Base.DateOf | src/FraudRuleEngine.Reporting.Api/Data/Repositories/FraudSummaryRepository.cs:23 | DateTime.Date: the truncated day is a whole-day boundary at or before the instant, less than a day earlier |
| Base.DateOfWithinDay | src/FraudRuleEngine.Reporting.Api/Data/Repositories/FraudSummaryRepository.cs:23-28 | Every instant inside a day's window truncates to that day |
| Base.DateOfIdempotent | src/FraudRuleEngine.Reporting.Api/Services/Queries/GetDailyStatsQueryHandler.cs:19 | Truncating an already truncated date changes nothing |
| EvaluationResults.RuleNotTriggered | src/FraudRuleEngine.Core/Domain/ValueObjects/FraudRuleEvaluationResult.cs:10-16 | Keeps the rule name, not triggered, score 0, reason "Rule did not trigger" |
| EvaluationResults.RuleTriggered | src/FraudRuleEngine.Core/Domain/ValueObjects/FraudRuleEvaluationResult.cs:18-24 | Keeps the rule name, score and reason verbatim, triggered |
| EvaluationResults.FactoriesDiffer | src/FraudRuleEngine.Core/Domain/ValueObjects/FraudRuleEvaluationResult.cs:13-21 | The Triggered flag tells the two factories apart: no not-triggered result equals a triggered one |
| DataRequests.FromTransaction | src/FraudRuleEngine.Core/Domain/DataRequests/RecentTransactionCountRequest.cs:25-29 | Copies AccountId. Since + window is the timestamp, or `now` when the timestamp is the default |
| DataRequests.SinceNotAfterTimestamp | src/FraudRuleEngine.Core/Domain/DataRequests/RecentTransactionCountRequest.cs:27 | For a set timestamp and a non-negative window, Since is not after the timestamp |
| DataRequests.FromTransactionClock | src/FraudRuleEngine.Core/Domain/DataRequests/RecentTransactionCountRequest.cs:27 | A set timestamp makes the request independent of the clock. A default one makes it depend on the clock |
| Specifications.HighRiskCharacterised | src/FraudRuleEngine.Core/Domain/Specifications/HighRiskSpecification.cs:14-17 | Untriggered results never qualify. Triggered ones qualify iff their score reaches the threshold |
| Specifications.HighRiskMonotone | src/FraudRuleEngine.Core/Domain/Specifications/HighRiskSpecification.cs:16 | Satisfied at threshold t implies satisfied at every lower threshold |
| Rules.DataRequirements | src/FraudRuleEngine.Core/Domain/Rules/VelocityRule.cs:23-28 | Only the velocity rule declares data: exactly one request, with RequestId "RecentTransactionCount". The other two rules declare none |
| Rules.Evaluate | src/FraudRuleEngine.Core/Domain/Rules/HighAmountRule.cs:26-40 | A production rule's result carries the rule's name, and its untriggered result is exactly RuleNotTriggered. The high-amount and country rules never fail. Any other IFraudRule answers what its own EvaluateAsync answers |
| Rules.HighAmountSpec | src/FraudRuleEngine.Core/Domain/Rules/HighAmountRule.cs:26-40 | Triggers iff amount > threshold (strict). When triggered: score 0.7, and the reason shows the amount and the threshold. Otherwise score 0 |
| Rules.ForeignCountrySpec | src/FraudRuleEngine.Core/Domain/Rules/ForeignCountryRule.cs:26-42 | A missing Country never triggers. Triggers iff the observed country differs from the allowed one ignoring case. When triggered: score 0.6, and the reason names the country |
| Rules.ForeignCountryIgnoresCase | src/FraudRuleEngine.Core/Domain/Rules/ForeignCountryRule.cs:33 | "rsa", "Rsa", "RsA" and "RSA" do not trigger against the default "RSA" |
| Text.EqualsIgnoreCaseCharwise | src/FraudRuleEngine.Core/Domain/Rules/ForeignCountryRule.cs:33 | OrdinalIgnoreCase equality holds iff the strings have the same length and agree letter by letter after ASCII upper-casing |
| Rules.VelocitySpec | src/FraudRuleEngine.Core/Domain/Rules/VelocityRule.cs:30-49 | Resolves the FromTransaction request, and a resolver failure propagates. Triggers iff count >= max (inclusive). When triggered: score 0.8, and the reason shows the account, count, window and limit |
| Rules.VelocityReasonMentions | src/FraudRuleEngine.Core/Domain/Rules/VelocityRule.cs:30-49 | The velocity reason names the account, the count, the window and the limit |
| Rules.EvaluateUsesOnlyDeclaredData | src/FraudRuleEngine.Core/Domain/Rules/VelocityRule.cs:26-35 | Two data contexts that agree on the declared requests give the same evaluation. The high-amount and country rules ignore the data context |
| Pipeline.AllDataRequirementsConcat | src/FraudRuleEngine.Core/Domain/CompositeRulePipeline.cs:26-29 | The requirements of a+b are those of a followed by those of b |
| Pipeline.AllDataRequirementsMembers | src/FraudRuleEngine.Core/Domain/CompositeRulePipeline.cs:26-29 | A request is required iff some rule of the list declares it |
| Pipeline.ProductionRequirements | src/FraudRuleEngine.Core/Domain/CompositeRulePipeline.cs:26-29 | HighAmount+Velocity+ForeignCountry require exactly one request, the velocity request |
| Pipeline.EvaluateEachThrowsExtends | src/FraudRuleEngine.Core/Domain/CompositeRulePipeline.cs:36-41 | Once a prefix of the rules throws, later rules change nothing |
| Pipeline.EvaluateAll | src/FraudRuleEngine.Core/Domain/CompositeRulePipeline.cs:31-53 | The foreach loop computes the specification: every rule evaluated in order, then filtered by the specification when there is one |
| Pipeline.EvaluateEachInOrder | src/FraudRuleEngine.Core/Domain/CompositeRulePipeline.cs:38-41 | On success, one result per rule, in rule order, each being that rule's evaluation. On failure, the first failing rule's exception, with every earlier rule succeeding |
| Pipeline.KeepIsFilter | src/FraudRuleEngine.Core/Domain/CompositeRulePipeline.cs:42-49 | The kept results are exactly the inputs the specification admits. With no specification, every result is kept |
| Pipeline.KeepConcat | src/FraudRuleEngine.Core/Domain/CompositeRulePipeline.cs:42-45 | Filtering preserves relative order (it distributes over concatenation) |
| Pipeline.EvaluateAsync | src/FraudRuleEngine.Core/Domain/CompositeRulePipeline.cs:55-73 | Propagates an evaluation failure. Otherwise RuleResults is the filtered list, and the score and flag are aggregated from that list alone |
| Pipeline.TriggeredScoresProperties | src/FraudRuleEngine.Core/Domain/CompositeRulePipeline.cs:61-63 | No triggered scores iff nothing triggered. Bounds on the triggered scores carry over to the list of scores |
| Pipeline.AggregateScore | src/FraudRuleEngine.Core/Domain/CompositeRulePipeline.cs:60-72 | Flagged iff score >= 0.5. With nothing triggered, the score is 0 and not flagged. Otherwise the score lies between the lowest and highest triggered score |
| Pipeline.AggregateExample | src/FraudRuleEngine.Core/Domain/CompositeRulePipeline.cs:61-65 | Triggered 0.7 and 0.6 plus an untriggered result give 0.65, flagged |
| Pipeline.EmptyPipeline | src/FraudRuleEngine.Core/Domain/CompositeRulePipeline.cs:36-65 | No rules give no results, score 0, not flagged |
| Pipeline.HighRiskPipelineFlags | src/FraudRuleEngine.Core/Domain/CompositeRulePipeline.cs:42-65 | With the high-risk specification at threshold >= 0.5, every returned result is triggered with score >= threshold, and a non-empty list is flagged |
| RulesEngineData.HasDuplicateKey | src/FraudRuleEngine.Evaluations.Worker/Data/RulesEngineDbContext.cs:23-24 | Detects a violation of the unique FraudCheckId index or the unique (AccountId, EvaluatedAt) index |
| RulesEngineData.SaveOutcome | src/FraudRuleEngine.Evaluations.Worker/Data/Repositories/FraudCheckRepository.cs:19-22 | A save succeeds iff there is no fault and the unique indexes hold. An index violation is a DbUpdateException wrapping a PostgresException |
| RulesEngineData.RulesEngineDb.Add | src/FraudRuleEngine.Evaluations.Worker/Data/Repositories/FraudCheckRepository.cs:14-17 | Stages the check at the end and leaves the saved table unchanged |
| RulesEngineData.RulesEngineDb.SaveChanges | src/FraudRuleEngine.Evaluations.Worker/Data/Repositories/FraudCheckRepository.cs:19-22 | All staged checks are appended together, or nothing changes. The unique indexes are preserved |
| History.CountRecent | src/FraudRuleEngine.Evaluations.Worker/Data/Repositories/TransactionHistoryRepository.cs:14-21 | The count never exceeds the number of rows |
| History.CountRecentSnoc | src/FraudRuleEngine.Evaluations.Worker/Data/Repositories/TransactionHistoryRepository.cs:18-20 | A new row adds one exactly when it has the account and EvaluatedAt >= since (inclusive) |
| History.CountRecentZero | src/FraudRuleEngine.Evaluations.Worker/Data/Repositories/TransactionHistoryRepository.cs:18-20 | The count is 0 iff no row matches the account and window |
| History.CountRecentAntitone | src/FraudRuleEngine.Evaluations.Worker/Data/Repositories/TransactionHistoryRepository.cs:19 | An earlier `since` never yields a smaller count |
| History.CountRecentConcat | src/FraudRuleEngine.Evaluations.Worker/Data/Repositories/TransactionHistoryRepository.cs:18-20 | Counting is additive over concatenated tables |
| Mediator.Resolve | src/FraudRuleEngine.Evaluations.Worker/Services/RuleDataMediator.cs:20-49 | Fails iff the (request, response) key is unregistered or the handler's count query faults. An unregistered key gives an InvalidOperationException with the no-handler message; a query fault propagates unchanged. Otherwise returns the handler's count of recent checks |
| Mediator.NoHandlerMessageNamesRequest | src/FraudRuleEngine.Evaluations.Worker/Services/RuleDataMediator.cs:31-36 | The missing-handler message names the request type |
| Mediator.RuleDataMediator.ResolveAsync | src/FraudRuleEngine.Evaluations.Worker/Services/RuleDataMediator.cs:20-49 | Answers Resolve. Asks the provider only on a cache miss. A registered handler is cached and invoked exactly once. A missing one leaves the cache unchanged and invokes nothing |
| Mediator.CacheOnlyGrows | src/FraudRuleEngine.Evaluations.Worker/Services/RuleDataMediator.cs:13-38 | A resolve never removes or replaces a cache entry |
| Mediator.RegisteredResolvesCount | src/FraudRuleEngine.Evaluations.Worker/Services/RuleDataMediator.cs:47-48 | With the handler registered, the answer is the recent-transaction count, or the count query's exception when it faults |
| EvaluationService.ToRuleResults | src/FraudRuleEngine.Evaluations.Worker/Services/FraudEvaluationService.cs:43-47 | An order-preserving, field-for-field copy of the pipeline's results |
| EvaluationService.NewFraudCheck | src/FraudRuleEngine.Evaluations.Worker/Services/FraudEvaluationService.cs:49-54 | Fresh id and EvaluatedAt = now. Transaction and account come from the message, and flag and score from the pipeline |
| EvaluationService.EvaluationOutcome | src/FraudRuleEngine.Evaluations.Worker/Services/FraudEvaluationService.cs:28-60 | An evaluation failure, including a fault of the history query, propagates. Otherwise the new check is returned iff its save succeeds, and a save fault propagates |
| EvaluationService.FraudEvaluationService.EvaluateAsync | src/FraudRuleEngine.Evaluations.Worker/Services/FraudEvaluationService.cs:28-60 | A failed evaluation adds nothing. Otherwise exactly one check is staged and then saved, and the returned check is the one persisted |
| EvaluationService.FraudCheckCopiesResults | src/FraudRuleEngine.Evaluations.Worker/Services/FraudEvaluationService.cs:43-54 | Each persisted rule result equals the pipeline's, and the check is flagged iff its score >= 0.5 |
| Contracts.DeserializeTransactionReceived | src/FraudRuleEngine.Shared/Messaging/KafkaEventConsumer.cs:61 | Unparsable text throws a JsonException, and a JSON null gives null. A serialised TransactionReceivedEvent reads back as the same transaction data |
| Producer.AttemptsRetry | src/FraudRuleEngine.Shared/Messaging/KafkaEventProducer.cs:35-48 | A ProduceException before the last attempt sends once, waits 2^attempt seconds and tries again |
| Producer.ProduceRun | src/FraudRuleEngine.Shared/Messaging/KafkaEventProducer.cs:62-97 | Specification of one ProduceAsync call: the retried sends, then a dead-letter envelope only after the retries are exhausted on a ProduceException |
| Producer.KafkaEventProducer.Send | src/FraudRuleEngine.Shared/Messaging/KafkaEventProducer.cs:70-90 | One broker call: records the message and consumes one oracle answer |
| Producer.DeadLetterMessage | src/FraudRuleEngine.Shared/Messaging/KafkaEventProducer.cs:101-123 | The dead-letter message goes to "dlq". Its envelope holds the original topic and payload, the exception's message and type, and the instant. Its headers "original-topic", "failure-reason" and "timestamp", in that order, carry the same topic, message and instant |
| Producer.KafkaEventProducer.TryAttempt | src/FraudRuleEngine.Shared/Messaging/KafkaEventProducer.cs:35-48 | One pass of the retry policy: one send, then either the end of the policy with its answer, or (only before the 4th attempt) the 2^attempt-second wait before the next, so that the whole run still equals the attempts specification |
| Producer.KafkaEventProducer.ExecuteWithRetry | src/FraudRuleEngine.Shared/Messaging/KafkaEventProducer.cs:35-48 | The retry loop sends and waits exactly as the attempts specification says |
| Producer.KafkaEventProducer.PublishToDeadLetterQueue | src/FraudRuleEngine.Shared/Messaging/KafkaEventProducer.cs:99-138 | Sends exactly the DeadLetterMessage, envelope and three metadata headers, once with no retry. A failure is rethrown |
| Producer.KafkaEventProducer.ProduceAsync | src/FraudRuleEngine.Shared/Messaging/KafkaEventProducer.cs:62-97 | Result, sends, waits and oracle position are those of ProduceRun |
| Producer.AttemptsShape | src/FraudRuleEngine.Shared/Messaging/KafkaEventProducer.cs:35-48 | 1 to 4 sends, each the payload verbatim to the original topic. The wait before retry n is 2^n seconds |
| Producer.AttemptsSends | src/FraudRuleEngine.Shared/Messaging/KafkaEventProducer.cs:35-48 | 1 to 4 sends, each the payload verbatim to the original topic, one broker answer each |
| Producer.AttemptsWaits | src/FraudRuleEngine.Shared/Messaging/KafkaEventProducer.cs:35-48 | One wait fewer than sends. The wait before retry n is 2^n seconds |
| Producer.AttemptsOutcome | src/FraudRuleEngine.Shared/Messaging/KafkaEventProducer.cs:35-90 | Every attempt but the last failed with a ProduceException. The result is the last attempt's answer |
| Producer.FirstDeliveryEnds | src/FraudRuleEngine.Shared/Messaging/KafkaEventProducer.cs:70-90 | A first successful send ends the call: one send, no wait, nothing to the DLQ |
| Producer.ExhaustedRetriesDeadLetter | src/FraudRuleEngine.Shared/Messaging/KafkaEventProducer.cs:35-137 | Four failed ProduceExceptions give four sends, waits 2, 4 and 8 s, then exactly one "dlq" message, envelope and headers, for the last error. The call succeeds iff that send does |
| Producer.DeadLetterOnlyForProduceException | src/FraudRuleEngine.Shared/Messaging/KafkaEventProducer.cs:36-96 | The retried sends come first, then exactly one "dlq" envelope iff the attempts ended in a ProduceException. Other exceptions propagate with nothing sent after the attempts. For any topic other than "dlq", the envelope is the only "dlq" send |
| Producer.DeadLetterFailureRethrown | src/FraudRuleEngine.Shared/Messaging/KafkaEventProducer.cs:131-137 | A failing DLQ send makes the call throw that failure |
| Consumer.KafkaEventConsumer.ConsumeAsync | src/FraudRuleEngine.Shared/Messaging/KafkaEventConsumer.cs:33-80 | Subscribes once. The poll loop, including a failing commit, ends as ConsumeFrom specifies, and the consumer is closed on every exit |
| Consumer.KafkaEventConsumer.PollOnce | src/FraudRuleEngine.Shared/Messaging/KafkaEventConsumer.cs:41-74 | One loop iteration advances exactly as StepAt says. A record is committed only after the handler returns and only if Commit succeeds. A failure of either meets the ConsumeException catch clause |
| Consumer.ConsumeOnlyAppends | src/FraudRuleEngine.Shared/Messaging/KafkaEventConsumer.cs:39-74 | Commits, handled messages and delays only grow, and the handler is invoked once per handled message |
| Consumer.CommitsFollowHandler | src/FraudRuleEngine.Shared/Messaging/KafkaEventConsumer.cs:62-66 | Every commit is of a deliverable record, in increasing order, and there are no more commits than handler calls |
| Consumer.HandlerFailureStops | src/FraudRuleEngine.Shared/Messaging/KafkaEventConsumer.cs:64-74 | A handler exception ends the loop with that exception, leaving the message handled but not committed |
| Consumer.CommitFailureStops | src/FraudRuleEngine.Shared/Messaging/KafkaEventConsumer.cs:62-74 | A Commit that throws an exception other than ConsumeException ends the loop with it, after the handler ran, and the record stays uncommitted |
| Consumer.UnparsableRecordStops | src/FraudRuleEngine.Shared/Messaging/KafkaEventConsumer.cs:61 | A deserialisation error ends the loop without handling or committing |
| Consumer.SkipsEmpty | src/FraudRuleEngine.Shared/Messaging/KafkaEventConsumer.cs:43-62 | A null poll or a null message is skipped: no handler call, no commit |
| Consumer.ConsumeExceptionBacksOff | src/FraudRuleEngine.Shared/Messaging/KafkaEventConsumer.cs:68-73 | A ConsumeException adds one 5-second delay, commits nothing, and the loop continues |
| Consumer.AllHandledAllCommitted | src/FraudRuleEngine.Shared/Messaging/KafkaEventConsumer.cs:39-74 | When no poll, handler call or commit fails, every deliverable record is committed and the run ends normally |
| Worker.ToFraudAssessed | src/FraudRuleEngine.Evaluations.Worker/Workers/FraudEvaluationWorker.cs:39-52 | Copies ids, flag and score from the check, and its rule results in order, field for field |
| Worker.FraudEvaluationWorker.HandleMessage | src/FraudRuleEngine.Evaluations.Worker/Workers/FraudEvaluationWorker.cs:28-68 | Evaluates, then routes per HandleRun: FraudAssessed on success, the original message to "dlq" on any failure. A failed pipeline adds nothing to the database. Otherwise the new check is saved with the staged ones, or stays staged when the save fails |
| Worker.FailedEvaluationDeadLettered | src/FraudRuleEngine.Evaluations.Worker/Workers/FraudEvaluationWorker.cs:62-67 | A failed evaluation sends the original message to "dlq" first |
| Worker.AssessmentPublished | src/FraudRuleEngine.Evaluations.Worker/Workers/FraudEvaluationWorker.cs:39-54 | When the broker accepts, exactly one FraudAssessed goes to "fraud.assessed", and the handler returns normally |
| Worker.HandlerOutcome | src/FraudRuleEngine.Evaluations.Worker/Workers/FraudEvaluationWorker.cs:54-67 | A normal return means the assessment or the DLQ copy was sent. An escaping exception means the DLQ publish was attempted |
| Validation.Validate | src/FraudRuleEngine.Transactions.Api/Services/Commands/Validators/CreateTransactionCommandValidator.cs:11-52 | No failures iff every field rule holds: non-empty ids, amount in (0, 999999999999999.99], a 3-letter A–Z currency, timestamp within the window, ExternalId non-blank and ≤ 255, metadata limits |
| Validation.ReportedFromEmpty | src/FraudRuleEngine.Transactions.Api/Services/Commands/Validators/CreateTransactionCommandValidator.cs:11-52 | No failure is reported from a rule onwards iff each of those rules passes |
| Validation.ReportedFromMembers | src/FraudRuleEngine.Transactions.Api/Services/Commands/Validators/CreateTransactionCommandValidator.cs:11-52 | A failure is reported iff the rule that owns it fails |
| Validation.RuleFailuresDistinct | src/FraudRuleEngine.Transactions.Api/Services/Commands/Validators/CreateTransactionCommandValidator.cs:11-52 | Distinct rules report distinct (property, message) failures |
| Validation.ValidateReports | src/FraudRuleEngine.Transactions.Api/Services/Commands/Validators/CreateTransactionCommandValidator.cs:11-52 | Each rule's failure appears iff that rule fails |
| Validation.FourLetterCurrencyRejected | src/FraudRuleEngine.Transactions.Api/Services/Commands/Validators/CreateTransactionCommandValidator.cs:27-31 | "ZARR" is rejected with a currency message mentioning "3 uppercase letters" |
| Validation.ErrorLines | src/FraudRuleEngine.Transactions.Api/Services/Behaviours/ValidationBehaviour.cs:47-49 | One "{PropertyName}: {ErrorMessage}" line per failure, in order |
| Text.Join | src/FraudRuleEngine.Transactions.Api/Services/Behaviours/ValidationBehaviour.cs:66 | string.Join gives "" for no parts and the part itself for one part |
| Text.JoinContainsParts | src/FraudRuleEngine.Transactions.Api/Services/Behaviours/ValidationBehaviour.cs:66 | Every part occurs in the joined string |
| Validation.HandleValidation | src/FraudRuleEngine.Transactions.Api/Services/Behaviours/ValidationBehaviour.cs:25-75 | With no validators, or no failures, next runs exactly once and its answer is returned. Otherwise next never runs, and the answer is a failure Result of the space-joined lines, or a ValidationException for other response types |
| Validation.FailuresGatheredFromEvery | src/FraudRuleEngine.Transactions.Api/Services/Behaviours/ValidationBehaviour.cs:37-43 | Every failure of every validator is gathered, not only the first failing validator's |
| Validation.FailuresEmptyIff | src/FraudRuleEngine.Transactions.Api/Services/Behaviours/ValidationBehaviour.cs:37-45 | There are no failures iff every validator reports none |
| Validation.ErrorNamesEveryFailure | src/FraudRuleEngine.Transactions.Api/Services/Behaviours/ValidationBehaviour.cs:45-67 | The failure Result's error contains the line of each failure |
| Validation.ZarrCurrencyAnsweredWithFailure | src/FraudRuleEngine.Transactions.Api/Services/Behaviours/ValidationBehaviour.cs:45-67 | With the validator in front, "ZARR" is answered with a failure mentioning "3 uppercase letters", without calling the handler |
| Transactions.Transaction.Create | src/FraudRuleEngine.Transactions.Api/Data/Models/Transaction.cs:46-75 | Stores the fields unchanged, with a fresh id and CreatedAt = now. Exactly one pending TransactionReceivedEvent, mirroring the transaction |
| Transactions.Transaction.AddDomainEvent | src/FraudRuleEngine.Transactions.Api/Data/Models/Transaction.cs:77-80 | Appends the event at the end |
| Transactions.Transaction.ClearDomainEvents | src/FraudRuleEngine.Transactions.Api/Data/Models/Transaction.cs:82-85 | Empties the pending events |
| Transactions.OutboxRowFor | src/FraudRuleEngine.Transactions.Api/Services/Messaging/OutboxService.cs:21-31 | EventType "TransactionReceivedEvent", CreatedAt = now, ProcessedAt null. The payload deserialises back to the event's transaction data |
| Transactions.OutboxRows | src/FraudRuleEngine.Transactions.Api/Services/Behaviours/DomainEventBehaviour.cs:41-46 | One outbox row per event, in event order |
| Transactions.EventLists | src/FraudRuleEngine.Transactions.Api/Services/Behaviours/DomainEventBehaviour.cs:35-39 | The pending events of each tracked entity, in tracking order |
| Transactions.Marked | src/FraudRuleEngine.Transactions.Api/Services/Messaging/OutboxPublisher.cs:49-58 | Exactly the marked rows get their ProcessedAt set. Every other row is unchanged |
| Transactions.HasDuplicateKey | src/FraudRuleEngine.Transactions.Api/Data/TransactionDbContext.cs:23-24 | Detects a violation of the unique TransactionId or ExternalId index |
| Transactions.SaveOutcome | src/FraudRuleEngine.Transactions.Api/Data/Repositories/TransactionRepository.cs:32-35 | A save succeeds iff there is no fault, every currency fits varchar(3), and the unique indexes hold. Otherwise a fault propagates, or the currency or duplicate-key error is raised |
| Transactions.FirstWhere | src/FraudRuleEngine.Transactions.Api/Data/Repositories/TransactionRepository.cs:15-25 | FirstOrDefault: none iff no row matches, otherwise the first matching row |
| Transactions.TransactionDb.AddedRecords | src/FraudRuleEngine.Transactions.Api/Data/Repositories/TransactionRepository.cs:27-30 | The records of the staged entities, in staging order |
| Transactions.TransactionDb.AddTransaction | src/FraudRuleEngine.Transactions.Api/Data/Repositories/TransactionRepository.cs:27-30 | Begins tracking the entity, once. Nothing is saved |
| Transactions.TransactionDb.AddOutboxMessage | src/FraudRuleEngine.Transactions.Api/Services/Messaging/OutboxService.cs:30 | Stages one outbox row at the end. Nothing is saved |
| Transactions.TransactionDb.MarkProcessed | src/FraudRuleEngine.Transactions.Api/Services/Messaging/OutboxPublisher.cs:50 | Records ProcessedAt on one tracked row, pending the next save |
| Transactions.TransactionDb.SaveChanges | src/FraudRuleEngine.Transactions.Api/Data/Repositories/TransactionRepository.cs:32-35 | Persists every staged transaction, staged outbox row and ProcessedAt mark together, or nothing. The unique indexes are preserved |
| Transactions.TransactionRepository.AddAsync | src/FraudRuleEngine.Transactions.Api/Data/Repositories/TransactionRepository.cs:27-30 | Only stages the row: the saved tables are unchanged |
| Transactions.LookupsFindTheSavedRow | src/FraudRuleEngine.Transactions.Api/Data/Repositories/TransactionRepository.cs:15-25 | A saved row is found by its TransactionId and by its ExternalId, and only saved rows are found |
| Transactions.OutboxService.AddToOutbox | src/FraudRuleEngine.Transactions.Api/Services/Messaging/OutboxService.cs:21-31 | Stages exactly one OutboxMessage for the event |
| Ingestion.HandleCommand | src/FraudRuleEngine.Transactions.Api/Services/Commands/CreateTransactionCommandHandler.cs:22-55 | Failure iff the lookup throws, with the retry message. A known ExternalId returns the existing id and stages nothing. Otherwise one new record carrying the request, with a fresh id and null metadata replaced by empty |
| Ingestion.Innermost | src/FraudRuleEngine.Transactions.Api/Services/Behaviours/DomainEventBehaviour.cs:105-108 | The innermost exception of the chain |
| Ingestion.ExtractDatabaseErrorMessage | src/FraudRuleEngine.Transactions.Api/Services/Behaviours/DomainEventBehaviour.cs:102-132 | The inner-exception loop classifies the innermost message: too long for varying(3), too long, duplicate key, not-null, otherwise generic |
| Ingestion.FailureMessage | src/FraudRuleEngine.Transactions.Api/Services/Behaviours/DomainEventBehaviour.cs:54-99 | A DbUpdateException gets the classified message. Any other exception gets the generic save message |
| Ingestion.RequestOutcome | src/FraudRuleEngine.Transactions.Api/Services/Behaviours/DomainEventBehaviour.cs:22-100 | A handler failure is returned unchanged. A handler success is returned iff the single save succeeds |
| Ingestion.SavedResult | src/FraudRuleEngine.Transactions.Api/Services/Behaviours/DomainEventBehaviour.cs:50-74 | Success with the handler's id iff the save succeeded |
| Ingestion.CreateTransactionCommandHandler.Handle | src/FraudRuleEngine.Transactions.Api/Services/Commands/CreateTransactionCommandHandler.cs:22-55 | Answers HandleCommand. On creation, one fresh entity is staged, carrying its single pending event. The handler never saves |
| Ingestion.DomainEventBehaviour.StageOutboxRows | src/FraudRuleEngine.Transactions.Api/Services/Behaviours/DomainEventBehaviour.cs:41-46 | Stages one outbox row per event, in order |
| Ingestion.DomainEventBehaviour.StageEntity | src/FraudRuleEngine.Transactions.Api/Services/Behaviours/DomainEventBehaviour.cs:41-47 | Stages the entity's events as outbox rows, then clears them |
| Ingestion.DomainEventBehaviour.StagePendingEvents | src/FraudRuleEngine.Transactions.Api/Services/Behaviours/DomainEventBehaviour.cs:35-48 | Every pending event of every tracked Transaction is staged in order, and afterwards none has pending events |
| Ingestion.DomainEventBehaviour.SaveStaged | src/FraudRuleEngine.Transactions.Api/Services/Behaviours/DomainEventBehaviour.cs:35-74 | One save persists the transactions with their outbox rows, or neither |
| Ingestion.DomainEventBehaviour.Handle | src/FraudRuleEngine.Transactions.Api/Services/Behaviours/DomainEventBehaviour.cs:22-100 | Runs the handler once. A failure is returned with no outbox rows and no save. Otherwise the transaction and its outbox rows are saved together, or neither is and a failure is returned |
| Ingestion.DomainEventBehaviour.RunHandler | src/FraudRuleEngine.Transactions.Api/Services/Behaviours/DomainEventBehaviour.cs:24 | The inner handler's call: its result, plus at most one new tracked entity with one pending event |
| Ingestion.StagedInOrder | src/FraudRuleEngine.Transactions.Api/Services/Behaviours/DomainEventBehaviour.cs:41-46 | Staging entity by entity yields the rows of all events flattened in order |
| Ingestion.TrackedAfterHandler | src/FraudRuleEngine.Transactions.Api/Services/Behaviours/DomainEventBehaviour.cs:35-39 | After the handler, the pending events are the earlier ones plus the new entity's single event. A duplicate adds none |
| Ingestion.ResubmissionReturnsOriginal | src/FraudRuleEngine.Transactions.Api/Services/Commands/CreateTransactionCommandHandler.cs:26-31 | Resubmitting an ExternalId, even with other fields, returns the original id and stages nothing |
| Ingestion.CurrencyErrorClassified | src/FraudRuleEngine.Transactions.Api/Services/Behaviours/DomainEventBehaviour.cs:111-116 | The database's varying(3) overflow becomes the currency-length message |
| Ingestion.DuplicateErrorClassified | src/FraudRuleEngine.Transactions.Api/Services/Behaviours/DomainEventBehaviour.cs:120-123 | A unique-index violation becomes the already-exists message |
| Ingestion.DuplicateKeyNotTooLong | src/FraudRuleEngine.Transactions.Api/Services/Behaviours/DomainEventBehaviour.cs:111-123 | The duplicate-key text is not mistaken for a length error |
| Ingestion.RegisteredPipelineAnswersZarr | src/FraudRuleEngine.Transactions.Api/Program.cs:46 | As registered, "ZARR" reaches the database and is answered with the column-length message, which does not mention "3 uppercase letters" |
| Ingestion.CurrencyMessageSaysCharacters | src/FraudRuleEngine.Transactions.Api/Services/Behaviours/DomainEventBehaviour.cs:115 | The currency-length message does not contain "3 uppercase letters" |
| Ingestion.ValidatedRequestOutcome | src/FraudRuleEngine.Transactions.Api/Services/Behaviours/ValidationBehaviour.cs:25-75 | With the validator in front: an acceptable command runs the pipeline exactly once; any other is refused with a failure and no handler call |
| Ingestion.ValidatedPipelineRejectsZarr | tests/FraudRuleEngine.Transactions.Api.Tests/Integration/TransactionRollbackTests.cs:25-48 | With the validator in front, "ZARR" is refused before the handler with a message mentioning "3 uppercase letters" |
| UnitOfWork.Execute | src/FraudRuleEngine.Transactions.Api/Data/UnitOfWork/TransactionUnitOfWork.cs:24-52 | A null operation throws ArgumentNullException before Begin. Commit happens iff the operation succeeded, and then its result is returned. A failure result is rolled back and returned. An exception is rolled back and becomes the persist-failed message |
| UnitOfWork.DatabaseFacade.BeginTransaction | src/FraudRuleEngine.Transactions.Api/Data/UnitOfWork/TransactionUnitOfWork.cs:30 | Logs Begin, or throws and logs nothing |
| UnitOfWork.DatabaseFacade.CommitTransaction | src/FraudRuleEngine.Transactions.Api/Data/UnitOfWork/TransactionUnitOfWork.cs:42 | Logs Commit, or throws and logs nothing |
| UnitOfWork.DatabaseFacade.RollbackTransaction | src/FraudRuleEngine.Transactions.Api/Data/UnitOfWork/TransactionUnitOfWork.cs:38-49 | Logs Rollback |
| UnitOfWork.TransactionUnitOfWork.ExecuteAsync | src/FraudRuleEngine.Transactions.Api/Data/UnitOfWork/TransactionUnitOfWork.cs:24-52 | The begin/commit/rollback steps and the result are those of Execute |
| OutboxPublisher.TopicForEventType | src/FraudRuleEngine.Transactions.Api/Services/Messaging/OutboxPublisher.cs:64-71 | "TransactionReceivedEvent" maps to "transaction.received". Every other type maps to "dead-letter" |
| OutboxPublisher.Pending | src/FraudRuleEngine.Transactions.Api/Services/Messaging/OutboxPublisher.cs:37-38 | Exactly the rows with a null ProcessedAt |
| OutboxPublisher.BatchFromPending | src/FraudRuleEngine.Transactions.Api/Services/Messaging/OutboxPublisher.cs:37-41 | The batch has min(pending, 100) rows, all unprocessed |
| OutboxPublisher.BatchOldestFirst | src/FraudRuleEngine.Transactions.Api/Services/Messaging/OutboxPublisher.cs:37-41 | The batch is in ascending CreatedAt, and no pending row left out is older than any row taken |
| OutboxPublisher.PublishStep | src/FraudRuleEngine.Transactions.Api/Services/Messaging/OutboxPublisher.cs:43-56 | One loop step: the row's payload goes to its topic, and it is accepted iff the produce call returns normally |
| OutboxPublisher.AcceptedFromBatch | src/FraudRuleEngine.Transactions.Api/Services/Messaging/OutboxPublisher.cs:43-56 | Only batch rows are accepted, at most one per batch entry |
| OutboxPublisher.MarkAllMarks | src/FraudRuleEngine.Transactions.Api/Services/Messaging/OutboxPublisher.cs:50 | Exactly the accepted rows are marked with `now`. Earlier marks are kept |
| OutboxPublisher.OutboxPublisher.PublishOne | src/FraudRuleEngine.Transactions.Api/Services/Messaging/OutboxPublisher.cs:45-55 | Publishes the row verbatim through ProduceAsync. ProcessedAt is set only after a normal return, and a throwing publish leaves it unmarked |
| OutboxPublisher.OutboxPublisher.PublishNext | src/FraudRuleEngine.Transactions.Api/Services/Messaging/OutboxPublisher.cs:43-56 | One turn of the foreach: what is done so far, followed by publishing the rest of the batch, stays the whole publication |
| OutboxPublisher.OutboxPublisher.PublishBatch | src/FraudRuleEngine.Transactions.Api/Services/Messaging/OutboxPublisher.cs:43-56 | The foreach publishes every batch row in order and marks exactly the accepted ones |
| OutboxPublisher.OutboxPublisher.PublishOutboxMessages | src/FraudRuleEngine.Transactions.Api/Services/Messaging/OutboxPublisher.cs:31-62 | One tick: publishes the batch, then saves once and only when the batch is non-empty. A failed save loses the marks, so the rows stay pending |
| OutboxPublisher.TickOutcome | src/FraudRuleEngine.Transactions.Api/Services/Messaging/OutboxPublisher.cs:37-61 | After a saved tick a row is processed iff it was published successfully. Rows outside the batch are untouched |
| Reporting.FindSummary | src/FraudRuleEngine.Reporting.Api/Services/Projections/FraudAssessedProjection.cs:29-31 | The first summary with the TransactionId, or none iff there is none |
| Reporting.FindHeatmap | src/FraudRuleEngine.Reporting.Api/Services/Projections/FraudAssessedProjection.cs:57-59 | A heatmap row with the rule name and date, or none iff there is none |
| Reporting.HeatmapIsRunningMean | src/FraudRuleEngine.Reporting.Api/Services/Projections/FraudAssessedProjection.cs:61-78 | A first trigger gives count 1 and average = score. A later one keeps count = number of scores and average = the mean of all scores |
| Reporting.TrackTriggers | src/FraudRuleEngine.Reporting.Api/Services/Projections/FraudAssessedProjection.cs:54-79 | The loop keeps counts positive and never changes a loaded row's (rule, date) key |
| Reporting.ReportingSaveOutcome | src/FraudRuleEngine.Reporting.Api/Data/FraudReportingDbContext.cs:21-37 | A save succeeds iff there is no connection fault and both unique indexes hold: one summary per TransactionId and one heatmap per (rule, date). A fault is rethrown, and an index violation is the DbUpdateException naming that index |
| Reporting.FraudReportingDb.SaveChanges | src/FraudRuleEngine.Reporting.Api/Services/Projections/FraudAssessedProjection.cs:81 | Answers ReportingSaveOutcome. On success both tables are replaced together, on failure neither changes, and the unique indexes are kept |
| Reporting.UpsertKeepsOnePerTransaction | src/FraudRuleEngine.Reporting.Api/Data/FraudReportingDbContext.cs:21 | The upsert keeps at most one summary per TransactionId |
| Reporting.UpsertSummaryContents | src/FraudRuleEngine.Reporting.Api/Services/Projections/FraudAssessedProjection.cs:29-50 | The message's flag, score and now are stored. An existing row keeps its FraudCheckId and CreatedAt, a new one takes the message's. Other summaries are unchanged |
| Reporting.TrackTriggerEffect | src/FraudRuleEngine.Reporting.Api/Services/Projections/FraudAssessedProjection.cs:54-79 | An untriggered result changes nothing. A triggered one bumps the saved (rule, today) row, or adds a first-trigger row |
| Reporting.UntouchedRowsKept | src/FraudRuleEngine.Reporting.Api/Services/Projections/FraudAssessedProjection.cs:54-79 | A heatmap row of another day, or of a rule that did not trigger, is unchanged |
| Reporting.AddedRowsAreFirstTriggers | src/FraudRuleEngine.Reporting.Api/Services/Projections/FraudAssessedProjection.cs:61-71 | Every added row is today's, with count 1 and the score of a triggered result of that rule |
| Reporting.DistinctRulesSave | src/FraudRuleEngine.Reporting.Api/Services/Projections/FraudAssessedProjection.cs:26-83 | When the triggered rule names are distinct and the database answers, the projection saves successfully |
| Reporting.ProjectAllOrNothing | src/FraudRuleEngine.Reporting.Api/Services/Projections/FraudAssessedProjection.cs:26-83 | The projection saves iff the database answers and the heatmap keeps one row per (rule, date). On success the upserted summary and the tracked heatmap are saved together; on failure both tables are as before, and a fault is rethrown |
| Reporting.DistinctRulesTracked | src/FraudRuleEngine.Reporting.Api/Services/Projections/FraudAssessedProjection.cs:54-79 | With distinct triggered rule names, the loop produces at most one row per (rule, date) |
| Reporting.FraudAssessedProjection.ProjectAsync | src/FraudRuleEngine.Reporting.Api/Services/Projections/FraudAssessedProjection.cs:26-83 | The upsert, the heatmap loop and the single save produce exactly Project's result and tables, and the unique indexes are kept |
| Reporting.TrackHeatmaps | src/FraudRuleEngine.Reporting.Api/Services/Projections/FraudAssessedProjection.cs:53-79 | The foreach over the triggered results computes the specification's tracked rows. Every row it adds has a trigger count of 1 |
| Reporting.GetByTransactionId | src/FraudRuleEngine.Reporting.Api/Data/Repositories/FraudSummaryRepository.cs:15-19 | A summary with that TransactionId, or none iff there is none |
| Reporting.GetByTransactionIdUnique | src/FraudRuleEngine.Reporting.Api/Data/Repositories/FraudSummaryRepository.cs:15-19 | Under the unique index, the lookup returns the stored summary |
| Reporting.EvaluatedOn | src/FraudRuleEngine.Reporting.Api/Data/Repositories/FraudSummaryRepository.cs:23-28 | Only rows of the table with EvaluatedAt in [day, day + 1 day), and no more of them than the table has |
| Reporting.EvaluatedOnExactly | src/FraudRuleEngine.Reporting.Api/Data/Repositories/FraudSummaryRepository.cs:23-28 | Each row in the window appears as often as the table holds it, and no other row appears. The length is the number of in-window row positions |
| Reporting.CountFlagged | src/FraudRuleEngine.Reporting.Api/Data/Repositories/FraudSummaryRepository.cs:34 | The number of positions whose row is flagged, never more than the rows |
| Reporting.Scores | src/FraudRuleEngine.Reporting.Api/Data/Repositories/FraudSummaryRepository.cs:35 | One score per row, each the row's OverallRiskScore, in order |
| Reporting.GetDailyStatistics | src/FraudRuleEngine.Reporting.Api/Data/Repositories/FraudSummaryRepository.cs:21-38 | Null iff no row falls in the day. Otherwise Date is the truncated date; TotalEvaluations is the number of rows in the day; FlaggedCount is the number of those rows that are flagged; AverageRiskScore is the sum of their scores divided by TotalEvaluations; and flagged ≤ total ≤ rows |
| Reporting.DailyAverageBounds | src/FraudRuleEngine.Reporting.Api/Data/Repositories/FraudSummaryRepository.cs:33-35 | The daily average lies within any bounds of the scores |
| Reporting.SameDaySameStatistics | src/FraudRuleEngine.Reporting.Api/Data/Repositories/FraudSummaryRepository.cs:23 | Any time of the same day gives the same statistics |
| Reporting.HandleDailyStats | src/FraudRuleEngine.Reporting.Api/Services/Queries/GetDailyStatsQueryHandler.cs:17-33 | Always Success for the truncated date. The repository's stats are returned unchanged, and a null becomes zero totals |
| Reporting.TopRowsOrdered | src/FraudRuleEngine.Reporting.Api/Data/Repositories/FraudReportingRepository.cs:18-19 | The ordering is a permutation. The kept rows are non-increasing in TriggerCount and beat every row after them |
| Reporting.TopRowsBeatLeftOut | src/FraudRuleEngine.Reporting.Api/Data/Repositories/FraudReportingRepository.cs:17-19 | The kept rows are a sub-multiset of all rows, and each beats every row left out |
| Reporting.TopRulesProperties | src/FraudRuleEngine.Reporting.Api/Data/Repositories/FraudReportingRepository.cs:15-28 | A negative `top` makes the query throw, as the database refuses a negative LIMIT. Otherwise at most `top` entries, across all dates. They are non-increasing in TriggerCount, each copies one heatmap row, and none is beaten by a row left out |

## Left out

- Asynchrony, cancellation tokens and concurrency are left out. This covers Task.WhenAll in the validation behaviour, the mediator's ConcurrentDictionary, the outbox Timer with its overlapping ticks, and the consumer's cancellation loop. Everything is modelled sequentially, and the consumer runs until its poll oracle is exhausted.
- Clocks and identifiers are parameters: one `now` per call or tick, and fresh Guids given by the caller. `AddYears(-10)` in the validator is passed in as the earliest allowed time.
- Arithmetic uses exact reals in place of `decimal`. The 28-digit rounding and the numeric(5,2) and numeric(18,2) column rounding are not modelled.
- Reason texts use a Formatter parameter for culture-specific number and Guid formatting. Case-insensitive comparison folds ASCII letters only.
- Validation.Validate measures the ExternalId and metadata key and value lengths in Dafny characters. FluentValidation's MaximumLength and `string.Length` count UTF-16 code units, so a string with characters outside the Basic Multilingual Plane is longer in the source than in the model.
- Null strings and null collections are not modelled, apart from command metadata and the null JSON document. The DateTime range limits are not modelled.
- JSON is a datatype of documents, not text. A serialise/deserialise round trip holds by construction.
- Infrastructure is left out: logging, tracing, metrics (FraudMetrics, ReportingMetrics and the reporting metrics timer), hosting, DI composition, HTTP controllers, Kafka configuration and trace headers.
- RequestWrapper and the mediator's reflection on HandleAsync are modelled as a direct call to the registered handler.
- Only the message shapes of FluentValidation are modelled. Its rule ordering follows the validator file.
- Postgres is modelled only to the extent of the unique indexes and the varchar(3) currency column. The MaxLength limits of the other columns and the order in which Postgres checks constraints are not modelled. DbUpdateException subclasses are not distinguished.
- UnitOfWork.TransactionUnitOfWork.ExecuteAsync records only the begin/commit/rollback log, not the rows the operation writes. A fault raised by the rollback itself is not modelled.
- The `throw;` branches of DomainEventBehaviour are not modelled. The behaviour is registered open-generic, so it wraps every request of the transactions API: CreateTransactionCommand answers Result<Guid> and GetTransactionQuery answers Result<TransactionDto?>. Both are a Result<T>, so the response-type checks always pass and the `throw;` branches are unreachable. Only the command path is modelled. The same branch in ValidationBehaviour is modelled as a ValidationException.
- Reporting.Project requires every saved heatmap count to be at least 1. FraudReportingDb.Valid guarantees this, and every row this code writes keeps it. The update increments the count before dividing, so a count of 0 would divide by 1. Only a count of -1 would divide by zero.
- Reporting.FraudAssessedProjection.ProjectAsync: the heatmap lookup sees only saved rows, matching the query in the source. A rule that triggers twice with no saved row adds two rows, the save then fails on the unique index, and nothing is saved.
- Reporting.TopRulesProperties orders ties stably by input position. The source leaves tie order unspecified, so this fixes one admissible order.
- OutboxPublisher.OutboxPublisher.PublishOutboxMessages returns the outcome of its one save. In the source a save fault escapes the `async void` timer callback and ends the process; the model does not capture that. A fault of the pending-batch query is not modelled either.
- OutboxPublisher.BatchOldestFirst orders rows with equal CreatedAt by table position. The SQL ordering leaves their order unspecified, so this fixes one admissible order.
- Reporting.ReportingSaveOutcome checks the fraud_summary index before the heatmap index. Which violation Postgres reports first is not modelled. Faults of the projection's lookup queries are not modelled, only a fault of the save.
- Producer.KafkaEventProducer.PublishToDeadLetterQueue reads one instant, `now`, for both the envelope's Timestamp and the "timestamp" header. The source reads DateTime.UtcNow twice, so the two can differ slightly. The header's UTF-8 encoding and its "O" text format are not modelled. A header value is text or an instant.
- Message keys are not modelled. The source gives every Kafka message, ordinary or dead-letter, a fresh Guid key.
- C# `int` width is not modelled: TriggerCount, TotalEvaluations, FlaggedCount and the velocity history count are unbounded. TriggerCount++ in FraudAssessedProjection.cs:75 would wrap at 2^31 - 1.
- Mediator.Resolve takes one query fault per evaluation: every count query of that evaluation answers or raises the same fault. The production pipeline has one velocity rule, so it makes one count query.

## Findings

| source | as written | input that shows it | evidently intended | confidence | as-written member | corrected member |
|---|---|---|---|---|---|---|
| src/FraudRuleEngine.Transactions.Api/Program.cs:46 | Only DomainEventBehaviour is registered as a pipeline behaviour. ValidationBehaviour never runs, so the validator's currency rule (three uppercase letters) is not applied | A new command with Currency "ZARR". It reaches the database, and the varchar(3) overflow is answered with "Currency must be exactly 3 characters (ISO 4217 format).", which lacks the "3 uppercase letters" that TransactionRollbackTests.cs:46-48 expects | ValidationBehaviour runs in front of the handler and refuses "ZARR" before anything is staged, with the validator's message | not executed | Ingestion.RegisteredPipelineAnswersZarr | Ingestion.ValidatedPipelineRejectsZarr |
