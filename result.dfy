/**
 * Result and Result<T>: the success-or-error value returned by command
 * handlers and pipeline behaviours. The setters are private, so a result is
 * an immutable value; the non-generic Result is Result<()>.
 */
module Results {
  import opened Base

  datatype Result<+T> = Success(value: T) | Failure(error: string)
  {
    predicate IsSuccess() { this.Success? }

    predicate IsFailure() { !IsSuccess() }

    /** The Error property: null on success, the given text on failure. */
    function Error(): (e: Option<string>)
      ensures e.None? <==> IsSuccess()
      ensures IsFailure() ==> e == Some(this.error)
    {
      if this.Success? then None else Some(this.error)
    }

    /** The Value property: the value on success, default (null) on failure. */
    function Value(): (v: Option<T>)
      ensures v.Some? <==> IsSuccess()
      ensures IsSuccess() ==> v == Some(this.value)
    {
      if this.Success? then Some(this.value) else None
    }
  }

  /** The non-generic Result: Success() and Failure(error). */
  type Outcome = Result<()>

  /** The factories are told apart by IsSuccess, and each keeps what it was given:
      Success(v) has no error and value v, Failure(e) has error e and no value. */
  lemma Factories<T>(v: T, e: string)
    ensures Success(v).IsSuccess() && !Success(v).IsFailure()
    ensures Success(v).Error() == None && Success(v).Value() == Some(v)
    ensures var f: Result<T> := Failure(e);
      f.IsFailure() && !f.IsSuccess() && f.Error() == Some(e) && f.Value() == None
  {
  }
}
