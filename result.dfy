/** The value a submission hands back to its caller: a validity flag, the reason
    for a rejection, and the future of the submitted task. */
module Results {

  /** Why a submission was rejected, or `Valid` when it was accepted. */
  datatype ResultErrorInfo =
    | TaskQueueFull
    | TimeOut
    | Closed
    | InvalidFuture
    | Valid

  /** A submission's result. `future` stands for the value the task's future
      delivers once the task has run. A rejected submission destroys its task
      on the early return, so its future would only report a broken promise;
      `getValue` never reads the future of an invalid result, so the model
      keeps the task's value there without anything observable depending on it. */
  datatype Result<T> = Result(isValid: bool, info: ResultErrorInfo, future: T)

  /** The exception `getValue` throws on an invalid result. */
  datatype InvalidResult = InvalidResult(msg: string)

  /** What a call of `getValue` does: return the future's value or throw. */
  datatype Outcome<T> = Returned(value: T) | Threw(exception: InvalidResult)

  /** The message of every `InvalidResult`: the stringizing macro is applied
      to the token `info`, so the text is that name and not the reason. */
  const INVALID_RESULT_MESSAGE: string := "info"

  /** A result whose flag and reason agree: valid exactly when the reason is `Valid`. */
  predicate Consistent<T>(r: Result<T>)
  {
    r.isValid <==> r.info == Valid
  }

  /** The constructor from a task's future: a valid result holding that future. */
  function FromFuture<T>(future: T): (r: Result<T>)
    ensures r.isValid && Consistent(r)
    ensures r.future == future
  {
    Result(true, Valid, future)
  }

  /** Marks a result as rejected for `reason`, keeping its future. */
  function Reject<T>(r: Result<T>, reason: ResultErrorInfo): (r': Result<T>)
    requires reason != Valid
    ensures !r'.isValid && r'.info == reason && Consistent(r')
    ensures r'.future == r.future
  {
    r.(isValid := false, info := reason)
  }

  /** `getValue`: an invalid result throws without reading its future; a valid
      one yields the future's value. */
  function GetValue<T>(r: Result<T>): (o: Outcome<T>)
    ensures o.Threw? <==> !r.isValid
    ensures o.Threw? ==> o.exception.msg == INVALID_RESULT_MESSAGE
    ensures o.Returned? ==> o.value == r.future
  {
    if !r.isValid then Threw(InvalidResult(INVALID_RESULT_MESSAGE)) else Returned(r.future)
  }

  /** The exception's message does not depend on the recorded reason: two
      invalid results that differ only in their reason throw the same exception. */
  lemma MessageIgnoresReason<T>(r: Result<T>, s: Result<T>)
    requires !r.isValid && !s.isValid
    ensures GetValue(r) == GetValue(s) == Threw(InvalidResult("info"))
  {
  }
}
