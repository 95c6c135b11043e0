# Output guardrail results

A Dafny model of `OutputGuardrailResult`, the value an output guardrail of the
Quarkus LangChain4j integration returns after checking a chat model's
response, and which the guardrail chain reads to decide whether to accept,
rewrite, retry or reprompt.

- `wrappers.dfy` (module `Wrappers`): `Option` for a Java reference that may be
  `null`, `Try` for a call that returns or throws, and the three unchecked
  exceptions the record can raise (`IndexOutOfBounds`, `IllegalArgument`,
  `NullPointer`).
- `failure.dfy` (module `GuardrailFailures`): the nested `Failure` record
  (message, cause, attributed guardrail class, retry flag, reprompt text), its
  four convenience constructors, the copy-with-change operations
  `WithGuardrailClass` and `BlockRetry`, and `ToString`. A `Throwable` cause is
  an opaque `Cause` value; a guardrail class is a `GuardrailClass` carrying
  only its name.
- `output_guardrail_result.dfy` (module `OutputGuardrails`): the four-way
  outcome tag `Result`, the walks over the failure list (`AnyRetry`,
  `FirstReprompt`, `JoinFailureTexts`), and the class `OutputGuardrailResult`.
  The tag and the rewritten response are `const` fields; the failure list is a
  `var` field, because `blockRetry` and `validatedBy` overwrite its element 0
  in place and return the same object. Their methods say exactly what the new
  list is and what that does to `IsRetry` and `GetReprompt`.

Where the code does not do what its own documentation says, the model follows
the code:

- The record's Javadoc describes `failures` as "empty if the validation
  succeeded" (`OutputGuardrailResult.java:11`), which reads as: a result has
  failures exactly when it is a failure. The code does not enforce this.
  `failure(List.of())` and the public canonical constructor both build a
  failure with an empty list, and the canonical constructor also accepts a
  success with failures. The model allows both, and `BlockRetry` on an empty
  list throws `IndexOutOfBounds`.
- `isRetry()` does not look at the tag beyond "not a success". A `FATAL`
  result whose failures ask for a retry therefore answers `true` to both
  `isFatal()` and `isRetry()`. `IsRetry` keeps that behaviour.
- `blockRetry()` blocks only element 0 of the list.
  `BlockingFirstLeavesLaterRetry` shows that a list whose second failure is
  retryable still asks for a retry afterwards. A caller that first calls
  `validatedBy`, which admits exactly one failure, and then `blockRetry` gets a
  result that never asks for a retry: `AttributedThenBlockedNeverRetries` and
  `ValidateThenBlock` prove this. Whether every caller follows that order
  depends on code that is not part of this model.
- Blocking a retry keeps the failure's reprompt text, although its new message
  says a reprompt is not allowed. `RepromptAfterBlockingFirst` proves that
  `getReprompt()` is unchanged by `blockRetry()`.

## Model

| member | source | states |
|---|---|---|
| `GuardrailFailures.Failure.WithGuardrailClass` | core/runtime/src/main/java/io/quarkiverse/langchain4j/guardrails/OutputGuardrailResult.java:114-117 | the copy is attributed to the given class and keeps message, cause, retry flag and reprompt |
| `GuardrailFailures.Failure.BlockRetry` | core/runtime/src/main/java/io/quarkiverse/langchain4j/guardrails/OutputGuardrailResult.java:119-124 | the result is never retryable; a retryable failure gets the fixed blocking message; a non-retryable one is returned unchanged; cause, class and reprompt are kept |
| `GuardrailFailures.Failure.ToString` | core/runtime/src/main/java/io/quarkiverse/langchain4j/guardrails/OutputGuardrailResult.java:126-129 | throws a null-pointer error exactly when no class is attributed; otherwise the text starts with "The guardrail ", then the class name, then " failed with this message: ", and ends with the message |
| `GuardrailFailures.MessageFailure` | core/runtime/src/main/java/io/quarkiverse/langchain4j/guardrails/OutputGuardrailResult.java:98-100 | a failure with just a message is not retryable and has no cause, class or reprompt |
| `GuardrailFailures.CausedFailure` | core/runtime/src/main/java/io/quarkiverse/langchain4j/guardrails/OutputGuardrailResult.java:102-104 | a failure with a message and cause is not retryable and has no class or reprompt |
| `GuardrailFailures.RetryableFailure` | core/runtime/src/main/java/io/quarkiverse/langchain4j/guardrails/OutputGuardrailResult.java:106-108 | the retry flag is as given; there is no class and no reprompt |
| `GuardrailFailures.RepromptingFailure` | core/runtime/src/main/java/io/quarkiverse/langchain4j/guardrails/OutputGuardrailResult.java:110-112 | retry flag and reprompt are as given; no class is attributed yet |
| `GuardrailFailures.BlockRetryIdempotent` | core/runtime/src/main/java/io/quarkiverse/langchain4j/guardrails/OutputGuardrailResult.java:119-124 | blocking a retry twice is the same as blocking it once |
| `GuardrailFailures.BlockRetryCommutesWithAttribution` | core/runtime/src/main/java/io/quarkiverse/langchain4j/guardrails/OutputGuardrailResult.java:114-124 | attributing and blocking give the same failure in either order |
| `GuardrailFailures.AttributionOverrides` | core/runtime/src/main/java/io/quarkiverse/langchain4j/guardrails/OutputGuardrailResult.java:114-117 | a later attribution replaces an earlier one |
| `GuardrailFailures.ToStringRecoversMessage` | core/runtime/src/main/java/io/quarkiverse/langchain4j/guardrails/OutputGuardrailResult.java:126-129 | an attributed failure always has a text, and two failures of the same class with the same text have the same message |
| `OutputGuardrails.AnyRetry` | core/runtime/src/main/java/io/quarkiverse/langchain4j/guardrails/OutputGuardrailResult.java:53 | the front-to-back scan is true exactly when some failure in the list is retryable |
| `OutputGuardrails.Join` | core/runtime/src/main/java/io/quarkiverse/langchain4j/guardrails/OutputGuardrailResult.java:93 | the reference for `joining(", ")`: no parts give "", one part gives itself, and two or more parts give a text at least as long as the first part, one separator and the last part together |
| `OutputGuardrails.JoinCons` | core/runtime/src/main/java/io/quarkiverse/langchain4j/guardrails/OutputGuardrailResult.java:93 | in the reference join, one part put in front of a non-empty list is followed by one separator and the join of the rest |
| `OutputGuardrails.JoinAppend` | core/runtime/src/main/java/io/quarkiverse/langchain4j/guardrails/OutputGuardrailResult.java:93 | the reference join of two non-empty lists one after the other is the join of each with one separator between them |
| `OutputGuardrails.FailureTexts` | core/runtime/src/main/java/io/quarkiverse/langchain4j/guardrails/OutputGuardrailResult.java:93 | one text per failure, in list order, each the failure's own `toString` text |
| `OutputGuardrails.FailureTextsAppend` | core/runtime/src/main/java/io/quarkiverse/langchain4j/guardrails/OutputGuardrailResult.java:93 | the texts of two lists one after the other are the texts of the first list followed by those of the second |
| `OutputGuardrails.FirstReprompt` | core/runtime/src/main/java/io/quarkiverse/langchain4j/guardrails/OutputGuardrailResult.java:63-67 | the result is none exactly when no failure has a reprompt; otherwise it is the reprompt of a failure with no earlier failure having one |
| `OutputGuardrails.JoinFailureTexts` | core/runtime/src/main/java/io/quarkiverse/langchain4j/guardrails/OutputGuardrailResult.java:93 | throws exactly when some failure has no class; an empty list gives ""; a single failure gives its own text; the joined text begins with the first failure's text |
| `OutputGuardrails.JoinFailureTextsIsJoin` | core/runtime/src/main/java/io/quarkiverse/langchain4j/guardrails/OutputGuardrailResult.java:93 | on a fully attributed list, the text is exactly the failures' texts in list order joined with ", " |
| `OutputGuardrails.JoinFailureTextsAppend` | core/runtime/src/main/java/io/quarkiverse/langchain4j/guardrails/OutputGuardrailResult.java:93 | for two non-empty, fully attributed lists, the text of the whole is the text of the first, ", ", then the text of the second |
| `OutputGuardrails.OutputGuardrailResult.constructor` | core/runtime/src/main/java/io/quarkiverse/langchain4j/guardrails/OutputGuardrailResult.java:13-14 | the canonical record constructor stores every component as given |
| `OutputGuardrails.OutputGuardrailResult.Succeeded` | core/runtime/src/main/java/io/quarkiverse/langchain4j/guardrails/OutputGuardrailResult.java:16-20 | the success instance has tag SUCCESS, no rewritten response and no failures |
| `OutputGuardrails.OutputGuardrailResult.Rewritten` | core/runtime/src/main/java/io/quarkiverse/langchain4j/guardrails/OutputGuardrailResult.java:22-24 | tag SUCCESS_WITH_RESULT, the rewritten response as given, no failures |
| `OutputGuardrails.OutputGuardrailResult.Failed` | core/runtime/src/main/java/io/quarkiverse/langchain4j/guardrails/OutputGuardrailResult.java:26-28 | the tag is FATAL exactly when `fatal` holds and FAILURE otherwise; no rewritten response; the list is kept as given |
| `OutputGuardrails.OutputGuardrailResult.Success` | core/runtime/src/main/java/io/quarkiverse/langchain4j/guardrails/OutputGuardrailResult.java:30-32 | a SUCCESS with no rewrite and no failures: it is a success that is not rewritten, not fatal and not a retry, has no reprompt, and prints "success" |
| `OutputGuardrails.OutputGuardrailResult.SuccessWith` | core/runtime/src/main/java/io/quarkiverse/langchain4j/guardrails/OutputGuardrailResult.java:34-36 | a SUCCESS_WITH_RESULT carrying the rewritten response: a success and rewritten, not fatal, not a retry, no reprompt |
| `OutputGuardrails.OutputGuardrailResult.FailureOf` | core/runtime/src/main/java/io/quarkiverse/langchain4j/guardrails/OutputGuardrailResult.java:38-40 | always a non-fatal FAILURE with the given list; it asks for a retry exactly when some failure is retryable |
| `OutputGuardrails.OutputGuardrailResult.IsSuccess` | core/runtime/src/main/java/io/quarkiverse/langchain4j/guardrails/OutputGuardrailResult.java:42-45 | true exactly when the tag is neither FAILURE nor FATAL |
| `OutputGuardrails.OutputGuardrailResult.IsRewrittenResult` | core/runtime/src/main/java/io/quarkiverse/langchain4j/guardrails/OutputGuardrailResult.java:47-50 | true exactly for SUCCESS_WITH_RESULT; a rewritten result is a success |
| `OutputGuardrails.OutputGuardrailResult.IsFatal` | core/runtime/src/main/java/io/quarkiverse/langchain4j/guardrails/OutputGuardrailResult.java:72-75 | true exactly for FATAL; a fatal result is never a success |
| `OutputGuardrails.OutputGuardrailResult.IsRetry` | core/runtime/src/main/java/io/quarkiverse/langchain4j/guardrails/OutputGuardrailResult.java:52-54 | true exactly when the result is not a success and some failure is retryable; a success never asks for a retry |
| `OutputGuardrails.OutputGuardrailResult.GetReprompt` | core/runtime/src/main/java/io/quarkiverse/langchain4j/guardrails/OutputGuardrailResult.java:61-70 | none for a success; for a non-success, the reprompt of the first failure in list order that has one, or none when no failure has one |
| `OutputGuardrails.OutputGuardrailResult.ToString` | core/runtime/src/main/java/io/quarkiverse/langchain4j/guardrails/OutputGuardrailResult.java:88-94 | "success" for both successes; otherwise it throws, always a null-pointer error, exactly when a failure has no class, a single failure prints as itself, and a fully attributed list prints as its failures' texts in order joined with ", " |
| `OutputGuardrails.OutputGuardrailResult.BlockRetry` | core/runtime/src/main/java/io/quarkiverse/langchain4j/guardrails/OutputGuardrailResult.java:56-59 | throws on an empty list; otherwise only element 0 is replaced by its blocked copy and the same object is returned; afterwards it retries exactly when a later failure does; the reprompt is unchanged |
| `OutputGuardrails.OutputGuardrailResult.ValidatedBy` | core/runtime/src/main/java/io/quarkiverse/langchain4j/guardrails/OutputGuardrailResult.java:77-86 | a success is unchanged; a non-success without exactly one failure throws IllegalArgument; otherwise the single failure is attributed to the class and the same object is returned; retry and reprompt are unchanged |
| `OutputGuardrails.RetryAfterBlockingFirst` | core/runtime/src/main/java/io/quarkiverse/langchain4j/guardrails/OutputGuardrailResult.java:52-59 | after blocking element 0, the list asks for a retry exactly when its tail does |
| `OutputGuardrails.RepromptAfterBlockingFirst` | core/runtime/src/main/java/io/quarkiverse/langchain4j/guardrails/OutputGuardrailResult.java:56-70 | blocking element 0 leaves the first reprompt of the list unchanged |
| `OutputGuardrails.AttributedThenBlockedNeverRetries` | core/runtime/src/main/java/io/quarkiverse/langchain4j/guardrails/OutputGuardrailResult.java:56-86 | a single failure that is attributed and then blocked never asks for a retry; it keeps its reprompt and its attribution |
| `OutputGuardrails.BlockingFirstLeavesLaterRetry` | core/runtime/src/main/java/io/quarkiverse/langchain4j/guardrails/OutputGuardrailResult.java:52-59 | if the second failure is retryable, the list still asks for a retry after blocking element 0 |
| `OutputGuardrails.ValidateThenBlock` | core/runtime/src/main/java/io/quarkiverse/langchain4j/guardrails/OutputGuardrailResult.java:56-86 | calling `validatedBy` and then `blockRetry` on one object leaves a non-success with one failure attributed to the class; it no longer asks for a retry, and its reprompt is unchanged |

## Left out

- `OutputGuardrails.OutputGuardrailResult.Success`: allocates a new object on each call. In the code, `success()` returns one shared instance, and the model does not capture that identity.
- The shared instance's list is `Collections.emptyList()`, which cannot be changed. Calling `blockRetry` on it throws at `get(0)`, which the model covers. `validatedBy` leaves a success alone.
- Aliasing of the failure list is not modelled. `failure(fs)` keeps the caller's list, so the in-place update is visible through other references. The model copies the list as a value.
- An immutable list passed to `failure(fs)` (for example from `List.of`) is not modelled. In the code, updating it throws `UnsupportedOperationException`; the model treats every non-empty list as changeable.
- A `null` failure list and `null` elements inside the list are not modelled; the model's list is a value whose elements are always failures. In the code a `null` is only reached when an operation actually touches it, and none of the success checks touches the list (`OutputGuardrailResult.java:53`, `:62`, `:79`, `:90`). On a non-success with a `null` list, `isRetry`, `getReprompt`, `toString`, `blockRetry` and `validatedBy` (at `failures.size()`) throw `NullPointerException`. A `null` element throws only when it is reached: `isRetry` stops at the first retryable failure and `getReprompt` at the first reprompt, `blockRetry` reads element 0 only, and `toString` throws at the first `null` it prints.
- A `null` outcome tag, which the public canonical constructor accepts (`OutputGuardrailResult.java:13`), is not modelled. Such a result answers false to `isSuccess`, `isRewrittenResult` and `isFatal`, so it matches none of the four tags, and the model's `Result` has no value for it.
- `null` for a message or for the argument of `successWith` is not modelled. Both are plain strings in the model. Causes, guardrail classes, reprompts and the stored rewritten response are optional.
- Java's generated record `equals`, `hashCode` and accessors are not modelled. The unchecked cast in `failure(...)` is not modelled either.
- `Class.getName()` is reduced to the `name` component of `GuardrailClass`. The `Throwable` cause is an opaque identifier.
- The guardrail chain executor, its retry and reprompt loop, the model invocation, prompt template rendering and the parameter-to-variable binding are not part of this model. Their code is not among the files modelled here.
