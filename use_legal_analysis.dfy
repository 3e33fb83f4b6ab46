/**
 The `useLegalAnalysis` hook (`src/hooks/use-legal-analysis.ts`): four pieces
 of state and the three callbacks that change them. One `analyzeCase` call is
 split at its `await`: `Begin` is what runs before the advice call and returns
 the request it sends, `Complete` is what runs once the call has settled.
 */
module UseLegalAnalysis {
  import opened Base
  import opened JsString
  import opened LegalAdvice

  /** `retry` stops counting at this many retries. */
  const MaxRetries: nat := 3

  /** The message stored in `error` when the advice call throws. */
  function FailureMessage(language: Language): (r: string)
    ensures language == En <==> IsAscii(r)
  {
    // Written in pieces: the verifier reads the characters of short literals only.
    if language == En then "An error occurred while " + "processing your case. Please " + "try again."
    else
      var r := "آپ کے کیس کو پروسیس کرتے وقت " + "خرابی ہوئی۔ براہ کرم دوبارہ " + "کوشش کریں۔";
      assert r[0] == 'آ';
      r
  }

  class LegalAnalysis {
    var isLoading: bool
    var result: Option<Advice>
    var error: Option<string>
    var retryCount: nat
    /** The language of the `analyzeCase` call in flight (or of the last one), which its `catch` uses. */
    var pendingLanguage: Language

    /**
     What every callback preserves: the retry counter never passes its cap,
     a result and an error are never shown together, and while a call is in
     flight neither is shown.
     */
    ghost predicate Valid()
      reads this
    {
      && retryCount <= MaxRetries
      && !(result.Some? && error.Some?)
      && (isLoading ==> result == None && error == None)
    }

    /** The `useState` initial values. */
    constructor ()
      ensures Valid()
      ensures !isLoading && result == None && error == None && retryCount == 0
      ensures pendingLanguage == En
    {
      isLoading := false;
      result := None;
      error := None;
      retryCount := 0;
      pendingLanguage := En;
    }

    /** `analyzeCase` up to its `await`: loading starts, old result and error go. */
    method Begin(query: string, language: Language) returns (input: AdviceInput)
      requires Valid()
      modifies this
      ensures Valid()
      ensures isLoading && result == None && error == None
      ensures retryCount == old(retryCount) && pendingLanguage == language
      ensures input == AdviceInput(Trim(query), Some(language))
    {
      pendingLanguage := language;
      isLoading := true;
      error := None;
      result := None;
      input := AdviceInput(Trim(query), Some(language));
    }

    /**
     `analyzeCase` after its `await`: on success the advice is stored and the
     retry counter reset; on failure the message in the language of the same
     call is stored and the counter kept; either way loading ends.
     */
    method Complete(outcome: Outcome)
      requires Valid() && isLoading
      modifies this
      ensures Valid()
      ensures !isLoading && pendingLanguage == old(pendingLanguage)
      ensures outcome.Success? ==>
        result == Some(outcome.advice) && error == None && retryCount == 0
      ensures outcome.Failure? ==>
        result == None && error == Some(FailureMessage(old(pendingLanguage))) && retryCount == old(retryCount)
    {
      match outcome {
        case Success(advice) =>
          result := Some(advice);
          retryCount := 0;
        case Failure =>
          error := Some(FailureMessage(pendingLanguage));
      }
      isLoading := false;
    }

    /** One whole `analyzeCase` call whose advice call ends with `outcome`. */
    method AnalyzeCase(query: string, language: Language, outcome: Outcome) returns (input: AdviceInput)
      requires Valid()
      modifies this
      ensures Valid()
      ensures input == AdviceInput(Trim(query), Some(language))
      ensures !isLoading && pendingLanguage == language
      ensures outcome.Success? ==>
        result == Some(outcome.advice) && error == None && retryCount == 0
      ensures outcome.Failure? ==>
        result == None && error == Some(FailureMessage(language)) && retryCount == old(retryCount)
    {
      input := Begin(query, language);
      Complete(outcome);
    }

    /** `retry`: counts one more retry while under the cap; resubmits nothing. */
    method Retry()
      requires Valid()
      modifies this
      ensures Valid()
      ensures retryCount == if old(retryCount) < MaxRetries then old(retryCount) + 1 else old(retryCount)
      ensures isLoading == old(isLoading) && result == old(result) && error == old(error)
      ensures pendingLanguage == old(pendingLanguage)
    {
      if retryCount < MaxRetries {
        retryCount := retryCount + 1;
      }
    }

    /** `clear`: drops result and error and resets the counter; loading is left alone. */
    method Clear()
      requires Valid()
      modifies this
      ensures Valid()
      ensures result == None && error == None && retryCount == 0
      ensures isLoading == old(isLoading) && pendingLanguage == old(pendingLanguage)
    {
      result := None;
      error := None;
      retryCount := 0;
    }
  }
}
