/** `OutputGuardrailResult`: what one output guardrail returns after checking a
    model response. A four-way outcome tag, an optional rewritten response and
    a list of failures; the list is the one part that is changed in place, by
    `blockRetry` and `validatedBy`. */
module OutputGuardrails {
  import opened Wrappers
  import opened GuardrailFailures

  /** The outcome tag (the nested `Result` enum). */
  datatype Result = Success | SuccessWithResult | Failure | Fatal

  /** The text `toString()` gives for every success. */
  const SuccessText := "success"

  /** The separator `toString()` puts between the texts of two failures. */
  const FailureSeparator := ", "

  // ---------------------------------------------------------------------------
  // Walks over the failure list
  // ---------------------------------------------------------------------------

  /** `failures.stream().anyMatch(Failure::retry)`, scanning from the front. */
  function AnyRetry(fs: seq<Failure>): (b: bool)
    ensures b <==> exists i :: 0 <= i < |fs| && fs[i].retry
  {
    if fs == [] then false
    else if fs[0].retry then true
    else AnyRetry(fs[1..])
  }

  /** The loop of `getReprompt`: the reprompt of the first failure, in list
      order, that has one. */
  function FirstReprompt(fs: seq<Failure>): (r: Option<string>)
    ensures r.None? <==> forall i :: 0 <= i < |fs| ==> fs[i].reprompt.None?
    ensures r.Some? ==> exists i :: 0 <= i < |fs| && fs[i].reprompt == r
                                    && forall j :: 0 <= j < i ==> fs[j].reprompt.None?
  {
    if fs == [] then None
    else if fs[0].reprompt.Some? then fs[0].reprompt
    else FirstReprompt(fs[1..])
  }

  /** Reference definition of joining texts with a separator, built from the
      back: every part but the last is joined, then the separator and the last
      part follow. */
  function Join(parts: seq<string>, sep: string): (s: string)
    ensures parts == [] ==> s == ""
    ensures |parts| == 1 ==> s == parts[0]
    ensures |parts| >= 2 ==> |s| >= |parts[0]| + |sep| + |parts[|parts| - 1]|
  {
    if parts == [] then ""
    else if |parts| == 1 then parts[0]
    else Join(parts[..|parts| - 1], sep) + sep + parts[|parts| - 1]
  }

  /** Joining a part in front of a non-empty list puts one separator between
      that part and the join of the rest. */
  lemma {:induction false} JoinCons(head: string, tail: seq<string>, sep: string)
    requires tail != []
    ensures Join([head] + tail, sep) == head + sep + Join(tail, sep)
  {
    var parts := [head] + tail;
    if |tail| > 1 {
      var front := tail[..|tail| - 1];
      assert parts[..|parts| - 1] == [head] + front;
      JoinCons(head, front, sep);
    } else {
      assert parts[..|parts| - 1] == [head];
    }
  }

  /** Joining two non-empty lists of parts one after the other is joining
      each and putting one separator between the two. */
  lemma {:induction false} JoinAppend(x: seq<string>, y: seq<string>, sep: string)
    requires x != [] && y != []
    ensures Join(x + y, sep) == Join(x, sep) + sep + Join(y, sep)
  {
    var xy, n := x + y, |y| - 1;
    assert xy[|xy| - 1] == y[n];
    if n == 0 {
      assert xy[..|xy| - 1] == x;
    } else {
      var front := y[..n];
      assert xy[..|xy| - 1] == x + front;
      JoinAppend(x, front, sep);
      assert Join(xy, sep) == Join(x + front, sep) + sep + y[n];
      assert Join(y, sep) == Join(front, sep) + sep + y[n];
    }
  }

  /** The text of every failure of a fully attributed list, in list order. */
  function FailureTexts(fs: seq<Failure>): (ts: seq<string>)
    requires forall i :: 0 <= i < |fs| ==> fs[i].guardrailClass.Some?
    ensures |ts| == |fs|
    ensures forall i :: 0 <= i < |fs| ==> fs[i].ToString() == Ok(ts[i])
  {
    if fs == [] then [] else [fs[0].ToString().value] + FailureTexts(fs[1..])
  }

  /** `failures.stream().map(Failure::toString).collect(joining(", "))`: the
      texts of the failures in list order, separated by ", "; the first
      failure without an attributed guardrail class throws. */
  function JoinFailureTexts(fs: seq<Failure>): (s: Try<string>)
    ensures s.Throw? <==> exists i :: 0 <= i < |fs| && fs[i].guardrailClass.None?
    ensures s.Throw? ==> s.error == NullPointer
    ensures fs == [] ==> s == Ok("")
    ensures |fs| == 1 ==> s == fs[0].ToString()
    ensures s.Ok? && fs != [] ==> |fs[0].ToString().value| <= |s.value|
                                  && s.value[..|fs[0].ToString().value|] == fs[0].ToString().value
  {
    if fs == [] then Ok("")
    else
      match fs[0].ToString()
      case Throw(e) => Throw(e)
      case Ok(head) =>
        if |fs| == 1 then Ok(head)
        else
          match JoinFailureTexts(fs[1..])
          case Throw(e) => Throw(e)
          case Ok(tail) => Ok(head + FailureSeparator + tail)
  }

  /** On a fully attributed list the joined text is exactly the reference
      join of the failures' texts with ", ". */
  lemma {:induction false} JoinFailureTextsIsJoin(fs: seq<Failure>)
    requires forall i :: 0 <= i < |fs| ==> fs[i].guardrailClass.Some?
    ensures JoinFailureTexts(fs) == Ok(Join(FailureTexts(fs), FailureSeparator))
  {
    if |fs| > 1 {
      JoinFailureTextsIsJoin(fs[1..]);
      JoinCons(fs[0].ToString().value, FailureTexts(fs[1..]), FailureSeparator);
    }
  }

  // ---------------------------------------------------------------------------
  // The record, with its failure list updated in place
  // ---------------------------------------------------------------------------

  class OutputGuardrailResult {
    const result: Result
    const successfulResult: Option<string>
    var failures: seq<Failure>

    /** The canonical record constructor: every component as given. */
    constructor (result: Result, successfulResult: Option<string>, failures: seq<Failure>)
      ensures this.result == result && this.successfulResult == successfulResult
      ensures this.failures == failures
    {
      this.result := result;
      this.successfulResult := successfulResult;
      this.failures := failures;
    }

    /** The private no-argument constructor behind the shared success instance. */
    constructor Succeeded()
      ensures result == Result.Success && successfulResult == None && failures == []
    {
      result := Result.Success;
      successfulResult := None;
      failures := [];
    }

    /** The private constructor of a success that rewrites the response. */
    constructor Rewritten(rewritten: string)
      ensures result == SuccessWithResult && successfulResult == Some(rewritten) && failures == []
    {
      result := SuccessWithResult;
      successfulResult := Some(rewritten);
      failures := [];
    }

    /** The package-private failure constructor: fatal or not, the list as given. */
    constructor Failed(fs: seq<Failure>, fatal: bool)
      ensures result == (if fatal then Fatal else Result.Failure)
      ensures successfulResult == None && failures == fs
    {
      result := if fatal then Fatal else Result.Failure;
      successfulResult := None;
      failures := fs;
    }

    /** `success()`: a plain success, which asks for nothing more. */
    static method Success() returns (r: OutputGuardrailResult)
      ensures fresh(r)
      ensures r.result == Result.Success && r.successfulResult == None && r.failures == []
      ensures r.IsSuccess() && !r.IsRewrittenResult() && !r.IsFatal() && !r.IsRetry()
      ensures r.GetReprompt() == None && r.ToString() == Ok(SuccessText)
    {
      r := new OutputGuardrailResult.Succeeded();
    }

    /** `successWith(s)`: a success that replaces the response with `s`. */
    static method SuccessWith(rewritten: string) returns (r: OutputGuardrailResult)
      ensures fresh(r)
      ensures r.result == SuccessWithResult && r.successfulResult == Some(rewritten) && r.failures == []
      ensures r.IsSuccess() && r.IsRewrittenResult() && !r.IsFatal() && !r.IsRetry()
      ensures r.GetReprompt() == None && r.ToString() == Ok(SuccessText)
    {
      r := new OutputGuardrailResult.Rewritten(rewritten);
    }

    /** `failure(fs)`: always a non-fatal failure carrying `fs`. */
    static method FailureOf(fs: seq<Failure>) returns (r: OutputGuardrailResult)
      ensures fresh(r)
      ensures r.result == Result.Failure && r.successfulResult == None && r.failures == fs
      ensures !r.IsSuccess() && !r.IsRewrittenResult() && !r.IsFatal()
      ensures r.IsRetry() <==> exists i :: 0 <= i < |fs| && fs[i].retry
    {
      r := new OutputGuardrailResult.Failed(fs, false);
    }

    /** `isSuccess()`: both kinds of success, and neither kind of failure. */
    function IsSuccess(): (b: bool)
      ensures b <==> !result.Failure? && !result.Fatal?
    {
      result == Result.Success || result == SuccessWithResult
    }

    /** `isRewrittenResult()`: a success that replaces the response. */
    function IsRewrittenResult(): (b: bool)
      ensures b ==> IsSuccess()
      ensures b <==> result.SuccessWithResult?
    {
      result == SuccessWithResult
    }

    /** `isFatal()`: the failure that must never be retried. */
    function IsFatal(): (b: bool)
      ensures b ==> !IsSuccess()
      ensures b <==> result.Fatal?
    {
      result == Fatal
    }

    /** `isRetry()`: a failure (fatal or not) of which some entry asks for a retry. */
    function IsRetry(): (b: bool)
      reads this
      ensures b ==> !IsSuccess()
      ensures b <==> !IsSuccess() && exists i :: 0 <= i < |failures| && failures[i].retry
    {
      !IsSuccess() && AnyRetry(failures)
    }

    /** `getReprompt()`: the first reprompt found in the failures of a
        non-success; none for a success or when no failure has one. */
    function GetReprompt(): (r: Option<string>)
      reads this
      ensures IsSuccess() ==> r.None?
      ensures !IsSuccess() && r.None? ==> forall i :: 0 <= i < |failures| ==> failures[i].reprompt.None?
      ensures r.Some? ==> exists i :: 0 <= i < |failures| && failures[i].reprompt == r
                                      && forall j :: 0 <= j < i ==> failures[j].reprompt.None?
    {
      if IsSuccess() then None else FirstReprompt(failures)
    }

    /** `toString()`: "success" for both successes, otherwise the failures'
        texts joined; throws when a failure has no attributed guardrail class. */
    function ToString(): (s: Try<string>)
      reads this
      ensures IsSuccess() ==> s == Ok(SuccessText)
      ensures s.Throw? ==> s.error == NullPointer
      ensures s.Throw? <==> !IsSuccess() && exists i :: 0 <= i < |failures| && failures[i].guardrailClass.None?
      ensures !IsSuccess() && |failures| == 1 ==> s == failures[0].ToString()
      ensures !IsSuccess() && (forall i :: 0 <= i < |failures| ==> failures[i].guardrailClass.Some?) ==>
                s == Ok(Join(FailureTexts(failures), FailureSeparator))
    {
      if IsSuccess() then Ok(SuccessText)
      else
        assert (forall i :: 0 <= i < |failures| ==> failures[i].guardrailClass.Some?) ==>
                 JoinFailureTexts(failures) == Ok(Join(FailureTexts(failures), FailureSeparator)) by {
          if forall i :: 0 <= i < |failures| ==> failures[i].guardrailClass.Some? {
            JoinFailureTextsIsJoin(failures);
          }
        }
        JoinFailureTexts(failures)
    }

    /** `blockRetry()`: replaces the first failure by its retry-blocked copy and
        returns this same object; throws on an empty failure list. */
    method BlockRetry() returns (r: Try<OutputGuardrailResult>)
      modifies this
      ensures old(failures) == [] ==> r == Throw(IndexOutOfBounds) && failures == old(failures)
      ensures old(failures) != [] ==>
                r == Ok(this) && failures == old(failures)[0 := old(failures)[0].BlockRetry()]
      ensures old(failures) != [] ==> (IsRetry() <==> !IsSuccess() && AnyRetry(old(failures)[1..]))
      ensures GetReprompt() == old(GetReprompt())
    {
      if failures == [] {
        return Throw(IndexOutOfBounds);
      }
      failures := failures[0 := failures[0].BlockRetry()];
      r := Ok(this);
    }

    /** `validatedBy(g)`: attributes the single failure of a non-success to `g`
        and returns this same object; a success is left alone, and a
        non-success whose failure count is not one throws. */
    method ValidatedBy(g: Option<GuardrailClass>) returns (r: Try<OutputGuardrailResult>)
      modifies this
      ensures IsSuccess() ==> r == Ok(this) && failures == old(failures)
      ensures !IsSuccess() && |old(failures)| != 1 ==> r == Throw(IllegalArgument) && failures == old(failures)
      ensures !IsSuccess() && |old(failures)| == 1 ==>
                r == Ok(this) && failures == [old(failures)[0].WithGuardrailClass(g)]
      ensures IsRetry() == old(IsRetry()) && GetReprompt() == old(GetReprompt())
      ensures r.Ok? && g.Some? ==> ToString().Ok?
    {
      if !IsSuccess() {
        if |failures| != 1 {
          return Throw(IllegalArgument);
        }
        failures := failures[0 := failures[0].WithGuardrailClass(g)];
      }
      r := Ok(this);
    }
  }

  // ---------------------------------------------------------------------------
  // What the in-place updates do to the queries
  // ---------------------------------------------------------------------------

  /** Blocking the first failure removes only its own retry request: the list
      still asks for a retry exactly when a later failure does. */
  lemma RetryAfterBlockingFirst(fs: seq<Failure>)
    requires fs != []
    ensures AnyRetry(fs[0 := fs[0].BlockRetry()]) <==> AnyRetry(fs[1..])
  {
  }

  /** Blocking keeps the reprompt, so the reprompt found in the list does not change. */
  lemma RepromptAfterBlockingFirst(fs: seq<Failure>)
    requires fs != []
    ensures FirstReprompt(fs[0 := fs[0].BlockRetry()]) == FirstReprompt(fs)
  {
  }

  /** Attributing a single failure and then blocking its retry: the result
      never asks for a retry, but keeps its reprompt and its attribution. */
  lemma AttributedThenBlockedNeverRetries(f: Failure, g: Option<GuardrailClass>)
    ensures !AnyRetry([f.WithGuardrailClass(g).BlockRetry()])
    ensures FirstReprompt([f.WithGuardrailClass(g).BlockRetry()]) == f.reprompt
    ensures [f.WithGuardrailClass(g).BlockRetry()][0].guardrailClass == g
  {
  }

  /** Blocking the first failure is not enough to stop a retry once the list
      holds a second retryable failure: blocking acts on element 0 only. */
  lemma BlockingFirstLeavesLaterRetry(fs: seq<Failure>)
    requires |fs| >= 2 && fs[1].retry
    ensures AnyRetry(fs[0 := fs[0].BlockRetry()])
  {
  }

  /** The texts of two lists one after the other are the texts of each. */
  lemma {:induction false} FailureTextsAppend(a: seq<Failure>, b: seq<Failure>)
    requires forall i :: 0 <= i < |a| ==> a[i].guardrailClass.Some?
    requires forall i :: 0 <= i < |b| ==> b[i].guardrailClass.Some?
    ensures forall i :: 0 <= i < |a + b| ==> (a + b)[i].guardrailClass.Some?
    ensures FailureTexts(a + b) == FailureTexts(a) + FailureTexts(b)
  {
    if a == [] {
      assert a + b == b;
    } else {
      assert (a + b)[0] == a[0];
      assert (a + b)[1..] == a[1..] + b;
      FailureTextsAppend(a[1..], b);
    }
  }

  /** Joining the texts of two fully attributed, non-empty lists one after the
      other is joining each list and putting one separator between the two. */
  lemma JoinFailureTextsAppend(a: seq<Failure>, b: seq<Failure>)
    requires a != [] && b != []
    requires forall i :: 0 <= i < |a| ==> a[i].guardrailClass.Some?
    requires forall i :: 0 <= i < |b| ==> b[i].guardrailClass.Some?
    ensures JoinFailureTexts(a + b) == Ok(JoinFailureTexts(a).value + FailureSeparator + JoinFailureTexts(b).value)
  {
    var ab := a + b;
    assert forall i :: 0 <= i < |ab| ==> ab[i].guardrailClass.Some?;
    JoinFailureTextsIsJoin(a);
    JoinFailureTextsIsJoin(b);
    JoinFailureTextsIsJoin(ab);
    FailureTextsAppend(a, b);
    JoinAppend(FailureTexts(a), FailureTexts(b), FailureSeparator);
  }

  /** A caller that attributes a result's failure with `ValidatedBy` and then
      blocks its retry with `BlockRetry`, on the same object: a non-success
      with exactly one failure ends up attributed and never asks for a retry,
      and its reprompt is what it was. */
  method ValidateThenBlock(r: OutputGuardrailResult, g: Option<GuardrailClass>)
    modifies r
    ensures !r.IsSuccess() && |old(r.failures)| == 1 ==>
              |r.failures| == 1 && r.failures[0].guardrailClass == g
              && !r.IsRetry() && r.GetReprompt() == old(r.GetReprompt())
  {
    var validated := r.ValidatedBy(g);
    if validated.Ok? && r.failures != [] {
      var blocked := r.BlockRetry();
    }
  }
}
