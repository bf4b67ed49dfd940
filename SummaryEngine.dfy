/**
 * The guards and the preview of `generate_summary` in the backend. The
 * chat-completion call is an input (a `ChatCompletion.Reply`): the model
 * says what user message the call would carry, and what the engine makes
 * of the reply.
 */
module SummaryEngine {
  import opened Wrappers
  import opened Strings
  import opened ChatCompletion

  const NotConfigured: string :=
    "\U{26A0}\U{FE0F} OpenAI API key not configured. Summary generation requires OPENAI_API_KEY environment variable."

  const TooShort: string := "Document is too short to summarize."

  /** The shortest stripped text that is summarized. */
  const MinLength: nat := 50

  /** How many characters of the document are sent. */
  const PreviewLength: nat := 4000

  const RequestIntro: string := "Please provide a comprehensive summary of this legal document:\n\n"

  const ErrorIntro: string := "Unable to generate summary: "

  /** What Python reports when `.strip()` is called on a missing content. */
  const NoContentError: string := "'NoneType' object has no attribute 'strip'"

  /** One run of `generate_summary`: the string it returns and the user message of the call, if one is made. */
  datatype SummaryRun = SummaryRun(summary: string, request: Option<string>)

  /** `text[:4000]`. */
  function Preview(text: string): (p: string)
    ensures p <= text
    ensures |p| == if |text| < PreviewLength then |text| else PreviewLength
  {
    if |text| <= PreviewLength then text else text[..PreviewLength]
  }

  /** The user message: the fixed request with the preview after it, never more than 4000 characters of the text. */
  function SummaryRequest(text: string): (m: string)
    ensures RequestIntro <= m
    ensures m[|RequestIntro|..] <= text
    ensures |m| == |RequestIntro| + (if |text| < PreviewLength then |text| else PreviewLength)
  {
    RequestIntro + Preview(text)
  }

  /**
   * The text is empty, or shorter than 50 characters once stripped. The
   * emptiness test adds nothing to the length test, so a text is too short
   * exactly when its stripped length is below 50; in particular every text
   * of fewer than 50 characters is.
   */
  function IsTooShort(text: string): (short: bool)
    ensures short <==> |Strip(Python, text)| < MinLength
    ensures |text| < MinLength ==> short
  {
    StripLength(Python, text);
    text == [] || |Strip(Python, text)| < MinLength
  }

  /**
   * What the engine makes of the reply: the content with whitespace
   * stripped from both ends, or the error it catches after a fixed prefix.
   */
  function SummaryFromReply(reply: Reply): (s: string)
    ensures reply.Content? && reply.text.Some? ==>
      IsStripped(Python, s) && (s == [] <==> AllSpace(Python, reply.text.value))
    ensures !(reply.Content? && reply.text.Some?) ==> ErrorIntro <= s
  {
    match reply
    case Content(Some(text)) => Strip(Python, text)
    case Content(None) => ErrorIntro + NoContentError
    case Raised(message) => ErrorIntro + message
  }

  /**
   * `generate_summary(text)`: the client check comes first, then the length
   * check; only then is a request made, and its reply decides the result.
   */
  function GenerateSummary(hasClient: bool, text: string, reply: Reply): (r: SummaryRun)
    ensures !hasClient ==> r == SummaryRun(NotConfigured, None)
    ensures hasClient && IsTooShort(text) ==> r == SummaryRun(TooShort, None)
    ensures r.request.Some? <==> hasClient && !IsTooShort(text)
    ensures r.request.Some? ==> r.request.value == RequestIntro + Preview(text) && r.summary == SummaryFromReply(reply)
  {
    if !hasClient then SummaryRun(NotConfigured, None)
    else if IsTooShort(text) then SummaryRun(TooShort, None)
    else SummaryRun(SummaryFromReply(reply), Some(SummaryRequest(text)))
  }

  /** Without a client the text does not matter, not even an empty one: the client check comes first. */
  lemma NoClientFirst(text: string, other: string, reply: Reply, otherReply: Reply)
    ensures GenerateSummary(false, text, reply) == GenerateSummary(false, other, otherReply)
    ensures GenerateSummary(false, text, reply).summary == NotConfigured
  {
  }

  /** Text of 50 characters or more around which only whitespace was stripped is long enough. */
  lemma LongEnoughText(text: string)
    requires |Strip(Python, text)| >= MinLength
    ensures !IsTooShort(text)
    ensures |text| >= MinLength
  {
    var a := StripSlice(Python, text);
  }

  /** A whitespace-only text is too short, whatever its length. */
  lemma BlankTooShort(text: string, reply: Reply)
    requires AllSpace(Python, text)
    ensures GenerateSummary(true, text, reply) == SummaryRun(TooShort, None)
  {
  }

  /** The preview is the whole text up to 4000 characters, and only the first 4000 characters reach it. */
  lemma PreviewPrefix(text: string, more: string)
    ensures |text| <= PreviewLength ==> Preview(text) == text
    ensures |text| >= PreviewLength ==> Preview(text + more) == Preview(text)
    ensures Preview(Preview(text)) == Preview(text)
  {
    if |text| >= PreviewLength {
      assert (text + more)[..PreviewLength] == text[..PreviewLength];
    }
  }

  /** The request starts with the fixed sentence and ends with the preview. */
  lemma RequestLayout(text: string)
    ensures var m := SummaryRequest(text);
      && m[..|RequestIntro|] == RequestIntro
      && m[|RequestIntro|..] == Preview(text)
      && |m| <= |RequestIntro| + PreviewLength
  {
  }

  /** A summary taken from the reply is stripped, and stripping it again changes nothing. */
  lemma SummaryStripped(text: string)
    ensures IsStripped(Python, SummaryFromReply(Content(Some(text))))
    ensures Strip(Python, SummaryFromReply(Content(Some(text)))) == SummaryFromReply(Content(Some(text)))
  {
    StripStripped(Python, Strip(Python, text));
  }

  /** Every failure of the call, and a missing content, is reported after the same prefix. */
  lemma FailureReported(reply: Reply)
    requires !reply.Content? || reply.text.None?
    ensures var s := SummaryFromReply(reply);
      && |ErrorIntro| <= |s|
      && s[..|ErrorIntro|] == ErrorIntro
      && (reply.Raised? ==> s[|ErrorIntro|..] == reply.message)
      && (reply == Content(None) ==> s[|ErrorIntro|..] == NoContentError)
  {
  }
}
