/**
 * `components/TextInput.tsx`: the text box, its submit guard and the
 * character counter. As in the upload component, `loading` belongs to the
 * parent and is kept here as the value last set or given, and
 * `handleSubmit` is split at its `await` into `HandleSubmit` and
 * `CompleteSubmit`.
 */
module TextInputForm {
  import opened Wrappers
  import opened Strings
  import opened Remote

  /** The fewest UTF-16 code units, once trimmed, that may be analysed. */
  const MinLength: nat := 10

  const TooShortError: string := "Please enter at least 10 characters of text to analyze"
  const SubmitFailed: string := "Analysis failed. Please try again."

  /**
   * The guard of `handleSubmit`: nothing but whitespace, or fewer than 10
   * UTF-16 code units once trimmed (JavaScript's `.length`). The test for an
   * empty trimmed text adds nothing to the length test, and a text that is
   * short before trimming is short after it.
   */
  function TooShort(text: string): (short: bool)
    ensures short <==> Utf16Length(Strip(JavaScript, text)) < MinLength
    ensures Utf16Length(text) < MinLength ==> short
    ensures AllSpace(JavaScript, text) ==> short
  {
    StripUtf16Length(JavaScript, text);
    Strip(JavaScript, text) == [] || Utf16Length(Strip(JavaScript, text)) < MinLength
  }

  /**
   * The `disabled` expression of the submit button: while loading it is
   * always disabled, and otherwise exactly for the texts `handleSubmit`
   * refuses.
   */
  function SubmitDisabled(loading: bool, text: string): (disabled: bool)
    ensures loading ==> disabled
    ensures !loading ==> (disabled <==> TooShort(text))
  {
    loading || Utf16Length(Strip(JavaScript, text)) < MinLength
  }

  /**
   * The counter under the text box: `text.length`, in UTF-16 code units, of
   * the text as typed. It is never below the trimmed length the guard uses,
   * and a character outside the Basic Multilingual Plane counts twice.
   */
  function CharacterCount(text: string): (n: nat)
    ensures |text| <= n <= 2 * |text|
    ensures Utf16Length(Strip(JavaScript, text)) <= n
  {
    StripUtf16Length(JavaScript, text);
    Utf16Length(text)
  }

  /**
   * The button and the handler agree: while nothing is loading, the button
   * is enabled exactly for the texts the handler accepts.
   */
  lemma ButtonMatchesGuard(text: string)
    ensures !SubmitDisabled(false, text) <==> !TooShort(text)
  {
  }

  /** The counter counts what trimming removes, so it can read 10 or more while the button stays disabled. */
  lemma CounterIsUntrimmed(pad: string, word: string)
    requires AllSpace(JavaScript, pad) && |pad| >= MinLength
    requires IsStripped(JavaScript, word) && 0 < |word| && Utf16Length(word) < MinLength
    ensures CharacterCount(pad + word) == Utf16Length(pad) + Utf16Length(word) >= MinLength
    ensures Strip(JavaScript, pad + word) == word
    ensures SubmitDisabled(false, pad + word) && TooShort(pad + word)
  {
    assert pad + word + [] == pad + word;
    StripPadded(JavaScript, pad, word, []);
    Utf16LengthAppend(pad, word);
  }

  /** Five emoji are ten code units: the text is long enough and the counter reads 10. */
  lemma SurrogatePairsCount()
    ensures var grins := "\U{1F600}\U{1F600}\U{1F600}\U{1F600}\U{1F600}";
      && |grins| == 5
      && CharacterCount(grins) == 10
      && !TooShort(grins)
  {
    var grins := "\U{1F600}\U{1F600}\U{1F600}\U{1F600}\U{1F600}";
    StripStripped(JavaScript, grins);
    assert grins[1..][1..][1..][1..][1..] == [];
  }

  class TextInput {
    var text: string
    var error: Option<string>
    var loading: bool

    /** An empty text box, given the parent's `loading`. */
    constructor (loading: bool)
      ensures text == [] && error == None && this.loading == loading
    {
      text := [];
      error := None;
      this.loading := loading;
    }

    /** The text box's `onChange`. */
    method SetText(value: string)
      modifies this
      ensures text == value && error == old(error) && loading == old(loading)
    {
      text := value;
    }

    /**
     * `handleSubmit` up to its `await`: a short text sets the error and
     * makes no call; otherwise the error is cleared, `loading` is set and
     * the text is sent untrimmed.
     */
    method HandleSubmit() returns (sent: Option<string>)
      modifies this
      ensures text == old(text)
      ensures TooShort(text) ==> sent == None && error == Some(TooShortError) && loading == old(loading)
      ensures !TooShort(text) ==> sent == Some(text) && error == None && loading
    {
      var trimmed := Strip(JavaScript, text);
      if trimmed == [] || Utf16Length(trimmed) < MinLength {
        error := Some(TooShortError);
        sent := None;
        return;
      }
      error := None;
      loading := true;
      sent := Some(text);
    }

    /** `handleSubmit` after its `await`: a result goes to `onAnalysisComplete`, a failure is shown and clears `loading`. */
    method CompleteSubmit(outcome: Outcome<AnalysisResult>) returns (delivered: Option<AnalysisResult>)
      modifies this
      ensures text == old(text)
      ensures outcome.Success? ==> delivered == Some(outcome.value) && error == old(error) && loading == old(loading)
      ensures outcome.Failure? ==>
        delivered == None && error == Some(FailureMessage(outcome.detail, SubmitFailed)) && !loading
    {
      match outcome {
        case Success(result) =>
          delivered := Some(result);
        case Failure(detail) =>
          delivered := None;
          error := Some(FailureMessage(detail, SubmitFailed));
          loading := false;
      }
    }
  }
}
