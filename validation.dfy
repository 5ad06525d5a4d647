/**
 * Ingestion input checks: the field rules of CreateTransactionCommandValidator
 * and ValidationBehaviour, the pipeline step that runs every validator of a
 * request and either answers with the gathered failures or calls the next
 * step.
 */
module Validation {
  import opened Base
  import opened Text
  import opened Results

  /** The command the transactions endpoint sends; Metadata may be null. */
  datatype CreateTransactionCommand = CreateTransactionCommand(
    accountId: Guid,
    amount: real,
    merchantId: Guid,
    currency: string,
    timestamp: Ticks,
    externalId: string,
    metadata: Option<map<string, string>>)

  /** One failed rule: the property it is about and its message. */
  datatype ValidationFailure = ValidationFailure(propertyName: string, errorMessage: string)

  const MaxAmount: real := 999999999999999.99
  const MaxExternalIdLength := 255
  const MaxMetadataPairs := 50
  const MaxMetadataKeyLength := 100
  const MaxMetadataValueLength := 1000

  const AccountIdRequired := "Account ID is required."
  const AmountNotPositive := "Transaction amount must be greater than zero."
  const AmountTooLarge := "Transaction amount exceeds maximum allowed value."
  const MerchantIdRequired := "Merchant ID is required."
  const CurrencyRequired := "Currency is required."
  const CurrencyFormat := "Currency must be exactly " + "3 uppercase letters" + " (ISO 4217 format, e.g., USD, EUR, ZAR)."
  const TimestampRequired := "Transaction timestamp is required."
  const TimestampInFuture := "Transaction timestamp cannot be more than 5 minutes in the future."
  const TimestampTooOld := "Transaction timestamp cannot be more than 10 years in the past."
  const ExternalIdRequired := "External ID is required."
  const ExternalIdTooLong := "External ID cannot exceed 255 characters."
  const MetadataTooManyPairs := "Metadata cannot contain more than 50 key-value pairs."
  const MetadataTooLong := "Metadata keys must be 100 characters or less, and values must be 1000 characters or less."

  /** A validator instance: the time bounds it read from the clock when it was
      constructed, five minutes after and ten years before that instant. */
  datatype CreateTransactionCommandValidator = CreateTransactionCommandValidator(latest: Ticks, earliest: Ticks)

  /** The validator constructed at `now`; `tenYearsBefore` is now.AddYears(-10). */
  function ValidatorAt(now: Ticks, tenYearsBefore: Ticks): CreateTransactionCommandValidator {
    CreateTransactionCommandValidator(now + 5 * TicksPerMinute, tenYearsBefore)
  }

  /** Matches ^[A-Z]{3}$ with length exactly 3. */
  predicate IsIsoCurrency(c: string) {
    |c| == 3 && forall i :: 0 <= i < |c| ==> 'A' <= c[i] <= 'Z'
  }

  predicate MetadataCountOk(m: Option<map<string, string>>) {
    m.None? || |m.value| <= MaxMetadataPairs
  }

  predicate MetadataLengthsOk(m: Option<map<string, string>>) {
    m.None? || forall k :: k in m.value ==> |k| <= MaxMetadataKeyLength && |m.value[k]| <= MaxMetadataValueLength
  }

  /** Every field rule at once: what a command must satisfy to be accepted. */
  predicate Acceptable(v: CreateTransactionCommandValidator, cmd: CreateTransactionCommand) {
    cmd.accountId != EmptyGuid &&
    0.0 < cmd.amount <= MaxAmount &&
    cmd.merchantId != EmptyGuid &&
    IsIsoCurrency(cmd.currency) &&
    cmd.timestamp != DefaultTicks && v.earliest <= cmd.timestamp <= v.latest &&
    !IsBlank(cmd.externalId) && |cmd.externalId| <= MaxExternalIdLength &&
    MetadataCountOk(cmd.metadata) && MetadataLengthsOk(cmd.metadata)
  }

  /** The number of checks the validator declares. */
  const RuleCount := 13

  /** The failure each check reports, in declaration order. */
  function RuleFailure(k: nat): ValidationFailure
    requires k < RuleCount
  {
    match k
    case 0 => ValidationFailure("AccountId", AccountIdRequired)
    case 1 => ValidationFailure("Amount", AmountNotPositive)
    case 2 => ValidationFailure("Amount", AmountTooLarge)
    case 3 => ValidationFailure("MerchantId", MerchantIdRequired)
    case 4 => ValidationFailure("Currency", CurrencyRequired)
    case 5 => ValidationFailure("Currency", CurrencyFormat)
    case 6 => ValidationFailure("Timestamp", TimestampRequired)
    case 7 => ValidationFailure("Timestamp", TimestampInFuture)
    case 8 => ValidationFailure("Timestamp", TimestampTooOld)
    case 9 => ValidationFailure("ExternalId", ExternalIdRequired)
    case 10 => ValidationFailure("ExternalId", ExternalIdTooLong)
    case 11 => ValidationFailure("Metadata", MetadataTooManyPairs)
    case _ => ValidationFailure("Metadata", MetadataTooLong)
  }

  /** Whether check k passes: NotEmpty on a Guid or a DateTime is "not the
      default value", on a string "not null, empty or white space". */
  predicate Passes(v: CreateTransactionCommandValidator, cmd: CreateTransactionCommand, k: nat)
    requires k < RuleCount
  {
    match k
    case 0 => cmd.accountId != EmptyGuid
    case 1 => cmd.amount > 0.0
    case 2 => cmd.amount <= MaxAmount
    case 3 => cmd.merchantId != EmptyGuid
    case 4 => !IsBlank(cmd.currency)
    case 5 => IsIsoCurrency(cmd.currency)
    case 6 => cmd.timestamp != DefaultTicks
    case 7 => cmd.timestamp <= v.latest
    case 8 => cmd.timestamp >= v.earliest
    case 9 => !IsBlank(cmd.externalId)
    case 10 => |cmd.externalId| <= MaxExternalIdLength
    case 11 => MetadataCountOk(cmd.metadata)
    case _ => MetadataLengthsOk(cmd.metadata)
  }

  /** The failures of checks k and later, in order. */
  function ReportedFrom(v: CreateTransactionCommandValidator, cmd: CreateTransactionCommand, k: nat): seq<ValidationFailure>
    decreases RuleCount - k
  {
    if k >= RuleCount then []
    else (if Passes(v, cmd, k) then [] else [RuleFailure(k)]) + ReportedFrom(v, cmd, k + 1)
  }

  /** The failures the validator reports, rule by rule in declaration order;
      within a rule every failing check is reported (the cascade continues). */
  function Validate(v: CreateTransactionCommandValidator, cmd: CreateTransactionCommand): (failures: seq<ValidationFailure>)
    ensures failures == [] <==> Acceptable(v, cmd)
  {
    ReportedFromEmpty(v, cmd, 0);
    assert (forall k :: 0 <= k < RuleCount ==> Passes(v, cmd, k)) <==> Acceptable(v, cmd) by {
      if IsIsoCurrency(cmd.currency) {
        assert 'A' <= cmd.currency[0] <= 'Z';
      }
      if !Acceptable(v, cmd) {
        assert !Passes(v, cmd, 0) || !Passes(v, cmd, 1) || !Passes(v, cmd, 2) || !Passes(v, cmd, 3) ||
               !Passes(v, cmd, 5) || !Passes(v, cmd, 6) || !Passes(v, cmd, 7) || !Passes(v, cmd, 8) ||
               !Passes(v, cmd, 9) || !Passes(v, cmd, 10) || !Passes(v, cmd, 11) || !Passes(v, cmd, 12);
      }
    }
    ReportedFrom(v, cmd, 0)
  }

  lemma {:induction false} ReportedFromEmpty(v: CreateTransactionCommandValidator, cmd: CreateTransactionCommand, k: nat)
    ensures ReportedFrom(v, cmd, k) == [] <==> forall j :: k <= j < RuleCount ==> Passes(v, cmd, j)
    decreases RuleCount - k
  {
    if k < RuleCount {
      ReportedFromEmpty(v, cmd, k + 1);
    }
  }

  lemma {:induction false} ReportedFromMembers(v: CreateTransactionCommandValidator, cmd: CreateTransactionCommand, k: nat, f: ValidationFailure)
    ensures f in ReportedFrom(v, cmd, k) <==> exists j :: k <= j < RuleCount && !Passes(v, cmd, j) && RuleFailure(j) == f
    decreases RuleCount - k
  {
    if k < RuleCount {
      ReportedFromMembers(v, cmd, k + 1, f);
      var head := if Passes(v, cmd, k) then [] else [RuleFailure(k)];
      assert ReportedFrom(v, cmd, k) == head + ReportedFrom(v, cmd, k + 1);
      if f in head {
        assert k <= k < RuleCount && !Passes(v, cmd, k) && RuleFailure(k) == f;
      }
    }
  }

  /** No two checks report the same failure. */
  lemma RuleFailuresDistinct(i: nat, j: nat)
    requires i < j < RuleCount
    ensures RuleFailure(i) != RuleFailure(j)
  {
  }

  /** Each failure is reported exactly when its check fails. */
  lemma ValidateReports(v: CreateTransactionCommandValidator, cmd: CreateTransactionCommand, k: nat)
    requires k < RuleCount
    ensures RuleFailure(k) in Validate(v, cmd) <==> !Passes(v, cmd, k)
  {
    ReportedFromMembers(v, cmd, 0, RuleFailure(k));
    if RuleFailure(k) in Validate(v, cmd) {
      var j :| 0 <= j < RuleCount && !Passes(v, cmd, j) && RuleFailure(j) == RuleFailure(k);
      if j < k {
        RuleFailuresDistinct(j, k);
      } else if k < j {
        RuleFailuresDistinct(k, j);
      }
    }
  }

  /** A four-letter currency such as "ZARR" is rejected with the message about
      three upper-case letters. */
  lemma FourLetterCurrencyRejected(v: CreateTransactionCommandValidator, cmd: CreateTransactionCommand)
    requires cmd.currency == "ZARR"
    ensures ValidationFailure("Currency", CurrencyFormat) in Validate(v, cmd)
    ensures Contains(CurrencyFormat, "3 uppercase letters")
  {
    ValidateReports(v, cmd, 5);
    ContainsConcat("Currency must be exactly ", "3 uppercase letters", " (ISO 4217 format, e.g., USD, EUR, ZAR).");
  }

  /** Every failure the validators of a request report, validator by
      validator, in order (Where(!IsValid).SelectMany(Errors)). */
  function Failures<Req>(validators: seq<Req -> seq<ValidationFailure>>, request: Req): seq<ValidationFailure>
    decreases |validators|
  {
    if validators == [] then [] else validators[0](request) + Failures(validators[1..], request)
  }

  /** "{PropertyName}: {ErrorMessage}". */
  function ErrorLine(f: ValidationFailure): string {
    f.propertyName + ": " + f.errorMessage
  }

  function ErrorLines(fs: seq<ValidationFailure>): (lines: seq<string>)
    ensures |lines| == |fs| && forall i :: 0 <= i < |fs| ==> lines[i] == ErrorLine(fs[i])
  {
    seq(|fs|, i requires 0 <= i < |fs| => ErrorLine(fs[i]))
  }

  /** The message FluentValidation gives a ValidationException built from
      failures: one "-- {PropertyName}: {ErrorMessage} Severity: Error" line each. */
  function ValidationFailedMessage(fs: seq<ValidationFailure>): string
    decreases |fs|
  {
    if fs == [] then "Validation failed: "
    else ValidationFailedMessage(fs[..|fs| - 1]) + "\n -- " + ErrorLine(fs[|fs| - 1]) + " Severity: Error"
  }

  /** What the behaviour returns, and how many times it called next(). */
  datatype Handled<R> = Handled(response: Try<R>, nextCalls: nat)

  /** ValidationBehaviour.Handle. `next` is what next() would return;
      `failureFactory` is Result<T>.Failure when the response type is a
      Result<T>, and absent for any other response type. */
  function HandleValidation<Req, R>(validators: seq<Req -> seq<ValidationFailure>>, request: Req,
                                    next: Try<R>, failureFactory: Option<string -> R>): (h: Handled<R>)
    ensures validators == [] ==> h == Handled(next, 1)
    ensures h.nextCalls == 1 <==> Failures(validators, request) == []
    ensures h.nextCalls == 1 ==> h.response == next
    ensures h.nextCalls != 1 ==>
      (h.nextCalls == 0 &&
       var fs := Failures(validators, request);
       (failureFactory.Some? ==> h.response == Ok(failureFactory.value(Join(" ", ErrorLines(fs))))) &&
       (failureFactory.None? ==> h.response.Throws? && h.response.error.typeName == ValidationExceptionType))
  {
    if validators == [] then Handled(next, 1)
    else
      var fs := Failures(validators, request);
      if fs == [] then Handled(next, 1)
      else if failureFactory.Some? then Handled(Ok(failureFactory.value(Join(" ", ErrorLines(fs)))), 0)
      else Handled(Throws(Exception(ValidationExceptionType, ValidationFailedMessage(fs), None)), 0)
  }

  /** A failure reported by any one of the validators is among the gathered
      ones, so a later validator is consulted even after an earlier one failed. */
  lemma {:induction false} FailuresGatheredFromEvery<Req>(validators: seq<Req -> seq<ValidationFailure>>, request: Req, k: nat, f: ValidationFailure)
    requires k < |validators| && f in validators[k](request)
    ensures f in Failures(validators, request)
    decreases |validators|
  {
    if k > 0 {
      FailuresGatheredFromEvery(validators[1..], request, k - 1, f);
    }
  }

  /** The request passes exactly when no validator reports a failure. */
  lemma {:induction false} FailuresEmptyIff<Req>(validators: seq<Req -> seq<ValidationFailure>>, request: Req)
    ensures Failures(validators, request) == [] <==> forall k :: 0 <= k < |validators| ==> validators[k](request) == []
    decreases |validators|
  {
    if validators != [] {
      FailuresEmptyIff(validators[1..], request);
      assert forall k :: 1 <= k < |validators| ==> validators[k] == validators[1..][k - 1];
    }
  }

  /** With a Result<T> response, the error text holds every reported failure
      as "{PropertyName}: {ErrorMessage}". */
  lemma ErrorNamesEveryFailure<Req, T>(validators: seq<Req -> seq<ValidationFailure>>, request: Req,
                                       next: Try<Result<T>>, k: nat, f: ValidationFailure)
    requires k < |validators| && f in validators[k](request)
    ensures var h := HandleValidation(validators, request, next, Some((e: string) => Failure(e)));
      h.nextCalls == 0 && h.response.Ok? && h.response.value.Failure? &&
      Contains(h.response.value.error, ErrorLine(f))
  {
    FailuresGatheredFromEvery(validators, request, k, f);
    var fs := Failures(validators, request);
    var i :| 0 <= i < |fs| && fs[i] == f;
    JoinContainsParts(" ", ErrorLines(fs), i);
  }

  /** The create-transaction validator in front of a handler returning
      Result<Guid>: a "ZARR" currency is answered with a failure mentioning
      "3 uppercase letters", and the handler is never called. */
  lemma ZarrCurrencyAnsweredWithFailure(v: CreateTransactionCommandValidator, cmd: CreateTransactionCommand, next: Try<Result<Guid>>)
    requires cmd.currency == "ZARR"
    ensures var h := HandleValidation([(c: CreateTransactionCommand) => Validate(v, c)], cmd, next, Some((e: string) => Failure(e)));
      h.nextCalls == 0 && h.response.Ok? && h.response.value.Failure? &&
      Contains(h.response.value.error, "3 uppercase letters")
  {
    var validators := [(c: CreateTransactionCommand) => Validate(v, c)];
    var f := ValidationFailure("Currency", CurrencyFormat);
    FourLetterCurrencyRejected(v, cmd);
    ErrorNamesEveryFailure(validators, cmd, next, 0, f);
    var h := HandleValidation(validators, cmd, next, Some((e: string) => Failure(e)));
    ContainsSuffix("Currency" + ": ", CurrencyFormat, "3 uppercase letters");
    ContainsTransitive(h.response.value.error, ErrorLine(f), "3 uppercase letters");
  }
}
