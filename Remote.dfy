/**
 * The records the frontend receives from the backend, and the outcome of a
 * call through `services/api.ts`. The transport itself is not modelled:
 * each call's outcome is an input to the handler step that consumes it.
 */
module Remote {
  import opened Wrappers

  /** A detected risk (`Risk` in `AnalysisNew.tsx`); the text positions are left out. */
  datatype Risk = Risk(
    id: string,
    clause: string,
    riskType: string,
    severity: string,
    explanation: string,
    originalText: string,
    suggestedRewrite: Option<string>)

  /** The response of `getDocument` as `loadDocument` reads it; absent fields are `None`. */
  datatype DocumentData = DocumentData(
    originalText: string,
    editedText: Option<string>,
    summary: Option<string>,
    risks: Option<seq<Risk>>)

  /** The response of `analyzeDocument` / `analyzeText` as `AnalysisNew` reads it. */
  datatype AnalyzeResponse = AnalyzeResponse(
    text: string,
    summary: Option<string>,
    risks: Option<seq<Risk>>,
    documentId: int)

  /** The result the upload and text components hand to `onAnalysisComplete`, with the fields `Results` shows. */
  datatype AnalysisResult = AnalysisResult(
    documentName: string,
    textLength: int,
    risksFound: int,
    analysisId: int,
    risks: seq<Risk>)

  /** A file as the browser describes it: its MIME type and its size in bytes. */
  datatype FileInfo = FileInfo(mimeType: string, size: nat)

  /** How an awaited call ended: its data, or a rejection carrying `err.response?.data?.detail`. */
  datatype Outcome<T> = Success(value: T) | Failure(detail: Option<string>)

  /** JavaScript truthiness of an optional string: present and not empty. */
  predicate Truthy(s: Option<string>) {
    s.Some? && s.value != []
  }

  /** `s || fallback` on an optional string. */
  function OrElse(s: Option<string>, fallback: string): (r: string)
    ensures Truthy(s) ==> r == s.value
    ensures !Truthy(s) ==> r == fallback
  {
    if Truthy(s) then s.value else fallback
  }

  /** `risks || []`: an array is truthy even when empty, so only a missing list becomes `[]`. */
  function RisksOrEmpty(risks: Option<seq<Risk>>): (r: seq<Risk>)
    ensures risks.Some? ==> r == risks.value
    ensures risks.None? ==> r == []
  {
    if risks.Some? then risks.value else []
  }

  /**
   * The message shown for a failed call, `err.response?.data?.detail || fallback`.
   * It is the same `||` as `OrElse`, named for the error paths that use it:
   * a non-empty server `detail` wins, a missing or empty one gives `fallback`.
   */
  function FailureMessage(detail: Option<string>, fallback: string): (m: string)
    ensures Truthy(detail) ==> m == detail.value
    ensures !Truthy(detail) ==> m == fallback
    ensures fallback != [] ==> m != []
  {
    OrElse(detail, fallback)
  }
}
