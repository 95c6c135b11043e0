/** The `Failure` record nested in `OutputGuardrailResult`: one reason why an
    output guardrail rejected a model response, with the guardrail it is
    attributed to and whether the model may be asked again. */
module GuardrailFailures {
  import opened Wrappers

  /** An opaque stand-in for the `Throwable` that caused a failure. */
  datatype Cause = Cause(id: nat)

  /** A stand-in for `Class<? extends Guardrail>`: the only thing the record
      observes of a class is its name. */
  datatype GuardrailClass = GuardrailClass(name: string)

  /** The message that replaces a retryable failure's own once retrying is blocked. */
  const BlockedRetryMessage := "Retry or reprompt is not allowed after a rewritten output"

  /** The two constant pieces of `Failure.toString()`. */
  const GuardrailPrefix := "The guardrail "
  const MessageInfix := " failed with this message: "

  /** The five record components; `None` is a `null` reference. */
  datatype Failure = Failure(
    message: string,
    cause: Option<Cause>,
    guardrailClass: Option<GuardrailClass>,
    retry: bool,
    reprompt: Option<string>)
  {
    /** `withGuardrailClass`: a copy attributed to `g`, every other component kept. */
    function WithGuardrailClass(g: Option<GuardrailClass>): (f: Failure)
      ensures f.guardrailClass == g
      ensures f.message == message && f.cause == cause
      ensures f.retry == retry && f.reprompt == reprompt
    {
      Failure(message, cause, g, retry, reprompt)
    }

    /** `blockRetry`: a retryable failure becomes a non-retryable one with the
        fixed blocking message; a non-retryable failure is returned as it is. */
    function BlockRetry(): (f: Failure)
      ensures !f.retry
      ensures retry ==> f.message == BlockedRetryMessage
      ensures !retry ==> f == this
      ensures f.cause == cause && f.guardrailClass == guardrailClass && f.reprompt == reprompt
    {
      if retry then Failure(BlockedRetryMessage, cause, guardrailClass, false, reprompt) else this
    }

    /** `toString`: names the attributed guardrail class and quotes the message;
        a failure not yet attributed throws, because the class is `null`. */
    function ToString(): (s: Try<string>)
      ensures s.Throw? <==> guardrailClass.None?
      ensures s.Throw? ==> s.error == NullPointer
      ensures s.Ok? ==> |s.value| == |GuardrailPrefix| + |guardrailClass.value.name| + |MessageInfix| + |message|
      ensures s.Ok? ==> s.value[..|GuardrailPrefix|] == GuardrailPrefix
      ensures s.Ok? ==> s.value[|GuardrailPrefix|..|GuardrailPrefix| + |guardrailClass.value.name|] == guardrailClass.value.name
      ensures s.Ok? ==> s.value[|GuardrailPrefix| + |guardrailClass.value.name|..|s.value| - |message|] == MessageInfix
      ensures s.Ok? ==> s.value[|s.value| - |message|..] == message
    {
      match guardrailClass
      case None => Throw(NullPointer)
      case Some(g) => Ok(GuardrailPrefix + g.name + MessageInfix + message)
    }
  }

  /** `Failure(String message)`: not retryable, no cause, no reprompt, not attributed. */
  function MessageFailure(message: string): (f: Failure)
    ensures !f.retry && f.message == message && f.cause.None?
    ensures f.guardrailClass.None? && f.reprompt.None?
  {
    CausedFailure(message, None)
  }

  /** `Failure(String message, Throwable cause)`: not retryable. */
  function CausedFailure(message: string, cause: Option<Cause>): (f: Failure)
    ensures !f.retry && f.message == message && f.cause == cause
    ensures f.guardrailClass.None? && f.reprompt.None?
  {
    RetryableFailure(message, cause, false)
  }

  /** `Failure(String message, Throwable cause, boolean retry)`: no reprompt. */
  function RetryableFailure(message: string, cause: Option<Cause>, retry: bool): (f: Failure)
    ensures f.retry == retry && f.message == message && f.cause == cause
    ensures f.guardrailClass.None? && f.reprompt.None?
  {
    Failure(message, cause, None, retry, None)
  }

  /** `Failure(String message, Throwable cause, boolean retry, String reprompt)`. */
  function RepromptingFailure(message: string, cause: Option<Cause>, retry: bool, reprompt: Option<string>): (f: Failure)
    ensures f.retry == retry && f.message == message && f.cause == cause && f.reprompt == reprompt
    ensures f.guardrailClass.None?
  {
    Failure(message, cause, None, retry, reprompt)
  }

  /** Blocking a retry twice is the same as blocking it once. */
  lemma BlockRetryIdempotent(f: Failure)
    ensures f.BlockRetry().BlockRetry() == f.BlockRetry()
  {
  }

  /** Attribution and retry blocking touch disjoint components, so the order
      in which a guardrail chain applies them does not matter. */
  lemma BlockRetryCommutesWithAttribution(f: Failure, g: Option<GuardrailClass>)
    ensures f.WithGuardrailClass(g).BlockRetry() == f.BlockRetry().WithGuardrailClass(g)
  {
  }

  /** A later attribution replaces an earlier one. */
  lemma AttributionOverrides(f: Failure, g: Option<GuardrailClass>, h: Option<GuardrailClass>)
    ensures f.WithGuardrailClass(g).WithGuardrailClass(h) == f.WithGuardrailClass(h)
  {
  }

  /** Once a failure is attributed, its text can always be produced, and it
      tells the attributed class and the message apart: two attributed
      failures with the same class name and the same text carry the same message. */
  lemma ToStringRecoversMessage(f1: Failure, f2: Failure)
    requires f1.guardrailClass.Some? && f1.guardrailClass == f2.guardrailClass
    ensures f1.ToString().Ok?
    ensures f1.ToString() == f2.ToString() ==> f1.message == f2.message
  {
  }
}
