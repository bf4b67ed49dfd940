/**
 * `pages/AnalysisNew.tsx`: the analysis page's state and handlers. Each
 * asynchronous handler is split at its `await` into a start step, which
 * returns what it would send, and a complete step, which takes the call's
 * outcome; `finally` becomes the last assignment of the complete step.
 */
module AnalysisPage {
  import opened Wrappers
  import opened Strings
  import opened Remote

  datatype Tab = Summary | Ask | Risks
  datatype Mode = Upload | Text

  /** The body of `updateDocument(currentDocId, editedText)`. */
  datatype DocumentUpdate = DocumentUpdate(documentId: int, editedText: string)

  /** All state fields of the page at once. */
  datatype PageState = PageState(
    tab: Tab,
    mode: Mode,
    documentText: string,
    editedText: string,
    summary: string,
    risks: seq<Risk>,
    isLoading: bool,
    hasAnalysis: bool,
    currentDocId: Option<int>,
    selectedRisk: Option<Risk>,
    error: string)

  const LoadFailed: string := "Failed to load document"
  const UploadFailed: string := "Failed to analyze document"
  const TextFailed: string := "Failed to analyze text"
  const NoText: string := "Please enter some text to analyze"
  const SavedAlert: string := "Document saved successfully!"
  const SaveFailedAlert: string := "Failed to save document"

  const HighClass: string := "bg-red-500/20 text-red-400 border-red-500/50"
  const MediumClass: string := "bg-yellow-500/20 text-yellow-400 border-yellow-500/50"
  const LowClass: string := "bg-blue-500/20 text-blue-400 border-blue-500/50"
  const DefaultClass: string := "bg-gray-500/20 text-gray-400 border-gray-500/50"

  /** This page's `getSeverityColor`: the severity is matched as it is, without lower-casing. */
  function SeverityColor(severity: string): (c: string)
    ensures c == HighClass <==> severity == "high"
    ensures c == MediumClass <==> severity == "medium"
    ensures c == LowClass <==> severity == "low"
    ensures c == DefaultClass <==> severity !in {"high", "medium", "low"}
  {
    match severity
    case "high" => HighClass
    case "medium" => MediumClass
    case "low" => LowClass
    case _ => DefaultClass
  }

  /** Unlike the result view, this page shows `"HIGH"` in gray. */
  lemma SeverityColorCaseSensitive()
    ensures SeverityColor("HIGH") == DefaultClass
    ensures SeverityColor("high") == HighClass
  {
    assert "HIGH" != "high";
  }

  /** The click handler of a risk card: the selected risk is deselected, any other is selected. */
  function ToggleRisk(selected: Option<Risk>, risk: Risk): (r: Option<Risk>)
    ensures r == None <==> selected.Some? && selected.value.id == risk.id
    ensures r != None ==> r == Some(risk)
  {
    if selected.Some? && selected.value.id == risk.id then None else Some(risk)
  }

  /** Clicking a risk twice leaves nothing selected, unless a risk with its id was selected before. */
  lemma ClickTwice(selected: Option<Risk>, risk: Risk)
    requires selected.None? || selected.value.id != risk.id
    ensures ToggleRisk(ToggleRisk(selected, risk), risk) == None
  {
  }

  /** Clicking one risk and then another selects the other. */
  lemma ClickThenOther(selected: Option<Risk>, x: Risk, y: Risk)
    requires x.id != y.id
    ensures ToggleRisk(ToggleRisk(selected, x), y) == Some(y)
  {
  }

  /**
   * The rewrite of a card is shown when its risk has the selected risk's id
   * and a rewrite: never with nothing selected, never for a card whose id is
   * not the selected one, never without a rewrite. Only ids are compared, so
   * a different record with the selected id shows its rewrite too.
   */
  function RewriteShown(selected: Option<Risk>, risk: Risk): (shown: bool)
    ensures selected == None ==> !shown
    ensures selected.Some? && selected.value.id != risk.id ==> !shown
    ensures !Truthy(risk.suggestedRewrite) ==> !shown
    ensures selected.Some? && selected.value.id == risk.id && Truthy(risk.suggestedRewrite) ==> shown
  {
    selected.Some? && selected.value.id == risk.id && Truthy(risk.suggestedRewrite)
  }

  /** At most the cards that share the selected risk's id show their rewrite, and a click on a shown one hides it. */
  lemma RewriteShownByClick(selected: Option<Risk>, risk: Risk, other: Risk)
    requires Truthy(risk.suggestedRewrite)
    ensures RewriteShown(ToggleRisk(selected, risk), risk) <==> !(selected.Some? && selected.value.id == risk.id)
    ensures RewriteShown(ToggleRisk(selected, risk), other) ==> other.id == risk.id
  {
  }

  /** The `disabled` expression of the "Analyze Text" button: loading, or a text that is all whitespace. */
  function AnalyzeTextDisabled(isLoading: bool, documentText: string): (disabled: bool)
    ensures disabled <==> isLoading || AllSpace(JavaScript, documentText)
  {
    isLoading || Strip(JavaScript, documentText) == []
  }

  /** The id test of `handleSave`: `null` and `0` are falsy, every other number is truthy. */
  function HasDocument(id: Option<int>): (has: bool)
    ensures id == None ==> !has
    ensures id == Some(0) ==> !has
    ensures id.Some? && id.value != 0 ==> has
  {
    id.Some? && id.value != 0
  }

  /** The alert `handleSave` raises once the update has ended. */
  function SaveAlert(succeeded: bool): (a: string)
    ensures a == SavedAlert <==> succeeded
  {
    if succeeded then SavedAlert else SaveFailedAlert
  }

  class AnalysisNew {
    var tab: Tab
    var mode: Mode
    var documentText: string
    var editedText: string
    var summary: string
    var risks: seq<Risk>
    var isLoading: bool
    var hasAnalysis: bool
    var currentDocId: Option<int>
    var selectedRisk: Option<Risk>
    var error: string

    function State(): PageState
      reads this
    {
      PageState(tab, mode, documentText, editedText, summary, risks,
        isLoading, hasAnalysis, currentDocId, selectedRisk, error)
    }

    /**
     * While the page shows the upload or text form (no analysis), no summary,
     * risk list or document id is left over from an earlier analysis.
     */
    predicate Valid()
      reads this
    {
      !hasAnalysis ==> summary == [] && risks == [] && currentDocId == None
    }

    /** The initial values of the `useState` hooks. */
    constructor ()
      ensures State() == PageState(Summary, Upload, [], [], [], [], false, false, None, None, [])
      ensures Valid()
    {
      tab := Summary;
      mode := Upload;
      documentText := [];
      editedText := [];
      summary := [];
      risks := [];
      isLoading := false;
      hasAnalysis := false;
      currentDocId := None;
      selectedRisk := None;
      error := [];
    }

    /** `loadDocument(docId)` up to `await getDocument(docId)`: loading is set and `docId` is requested. */
    method StartLoad(docId: int) returns (sent: int)
      modifies this
      ensures sent == docId
      ensures State() == old(State()).(isLoading := true)
      ensures old(Valid()) ==> Valid()
    {
      isLoading := true;
      sent := docId;
    }

    /**
     * `loadDocument` after the call: the document and its analysis are shown,
     * the edited text falling back to the original; a failure only sets the
     * error. Either way loading ends.
     */
    method CompleteLoad(docId: int, outcome: Outcome<DocumentData>)
      modifies this
      ensures outcome.Success? ==> State() == old(State()).(
        documentText := outcome.value.originalText,
        editedText := OrElse(outcome.value.editedText, outcome.value.originalText),
        summary := OrElse(outcome.value.summary, ""),
        risks := RisksOrEmpty(outcome.value.risks),
        hasAnalysis := true,
        currentDocId := Some(docId),
        isLoading := false)
      ensures outcome.Failure? ==> State() == old(State()).(error := LoadFailed, isLoading := false)
      ensures old(Valid()) ==> Valid()
    {
      match outcome {
        case Success(data) =>
          documentText := data.originalText;
          editedText := OrElse(data.editedText, data.originalText);
          summary := OrElse(data.summary, "");
          risks := RisksOrEmpty(data.risks);
          hasAnalysis := true;
          currentDocId := Some(docId);
        case Failure(_) =>
          error := LoadFailed;
      }
      isLoading := false;
    }

    /** `handleFileUpload` up to its call: without a file nothing happens; the first file is sent unchecked. */
    method StartFileUpload(files: seq<FileInfo>) returns (sent: Option<FileInfo>)
      modifies this
      ensures files == [] ==> sent == None && State() == old(State())
      ensures files != [] ==> sent == Some(files[0]) && State() == old(State()).(isLoading := true, error := "")
      ensures old(Valid()) ==> Valid()
    {
      if files == [] {
        return None;
      }
      isLoading := true;
      error := "";
      sent := Some(files[0]);
    }

    /** `handleFileUpload` after the call: both texts become the extracted text and the summary tab opens. */
    method CompleteFileUpload(outcome: Outcome<AnalyzeResponse>)
      modifies this
      ensures outcome.Success? ==> State() == old(State()).(
        documentText := outcome.value.text,
        editedText := outcome.value.text,
        summary := OrElse(outcome.value.summary, ""),
        risks := RisksOrEmpty(outcome.value.risks),
        hasAnalysis := true,
        currentDocId := Some(outcome.value.documentId),
        tab := Summary,
        isLoading := false)
      ensures outcome.Failure? ==>
        State() == old(State()).(error := FailureMessage(outcome.detail, UploadFailed), isLoading := false)
      ensures old(Valid()) ==> Valid()
    {
      match outcome {
        case Success(result) =>
          documentText := result.text;
          editedText := result.text;
          summary := OrElse(result.summary, "");
          risks := RisksOrEmpty(result.risks);
          hasAnalysis := true;
          currentDocId := Some(result.documentId);
          tab := Summary;
        case Failure(detail) =>
          error := FailureMessage(detail, UploadFailed);
      }
      isLoading := false;
    }

    /** `handleTextAnalyze` up to its call: blank text sets the error and sends nothing. */
    method StartTextAnalyze() returns (sent: Option<string>)
      modifies this
      ensures Strip(JavaScript, old(documentText)) == [] ==> sent == None && State() == old(State()).(error := NoText)
      ensures Strip(JavaScript, old(documentText)) != [] ==>
        sent == Some(old(documentText)) && State() == old(State()).(isLoading := true, error := "")
      ensures old(Valid()) ==> Valid()
    {
      if Strip(JavaScript, documentText) == [] {
        error := NoText;
        return None;
      }
      isLoading := true;
      error := "";
      sent := Some(documentText);
    }

    /**
     * `handleTextAnalyze` after the call: the edited text is the text that
     * was submitted, not anything the server returns; the document text is
     * left as it is.
     */
    method CompleteTextAnalyze(submitted: string, outcome: Outcome<AnalyzeResponse>)
      modifies this
      ensures outcome.Success? ==> State() == old(State()).(
        editedText := submitted,
        summary := OrElse(outcome.value.summary, ""),
        risks := RisksOrEmpty(outcome.value.risks),
        hasAnalysis := true,
        currentDocId := Some(outcome.value.documentId),
        tab := Summary,
        isLoading := false)
      ensures outcome.Failure? ==>
        State() == old(State()).(error := FailureMessage(outcome.detail, TextFailed), isLoading := false)
      ensures old(Valid()) ==> Valid()
    {
      match outcome {
        case Success(result) =>
          editedText := submitted;
          summary := OrElse(result.summary, "");
          risks := RisksOrEmpty(result.risks);
          hasAnalysis := true;
          currentDocId := Some(result.documentId);
          tab := Summary;
        case Failure(detail) =>
          error := FailureMessage(detail, TextFailed);
      }
      isLoading := false;
    }

    /** `handleSave`: one update with the current id and edited text, or none without a document; no state changes. */
    method HandleSave() returns (update: Option<DocumentUpdate>)
      ensures update.None? <==> !HasDocument(currentDocId)
      ensures Valid() && !hasAnalysis ==> update == None
      ensures update.Some? ==> update.value == DocumentUpdate(currentDocId.value, editedText)
    {
      if !HasDocument(currentDocId) {
        return None;
      }
      update := Some(DocumentUpdate(currentDocId.value, editedText));
    }

    /** The X button: back to the empty form; tab, mode, error and the selected risk stay as they were. */
    method Reset()
      modifies this
      ensures State() == old(State()).(
        hasAnalysis := false,
        documentText := "",
        editedText := "",
        summary := "",
        risks := [],
        currentDocId := None)
      ensures Valid()
    {
      hasAnalysis := false;
      documentText := "";
      editedText := "";
      summary := "";
      risks := [];
      currentDocId := None;
    }

    /** A click on the card of `risk`. */
    method ClickRisk(risk: Risk)
      modifies this
      ensures State() == old(State()).(selectedRisk := ToggleRisk(old(selectedRisk), risk))
      ensures old(Valid()) ==> Valid()
    {
      selectedRisk := if selectedRisk.Some? && selectedRisk.value.id == risk.id then None else Some(risk);
    }

    /** The mode buttons. */
    method SetMode(m: Mode)
      modifies this
      ensures State() == old(State()).(mode := m)
      ensures old(Valid()) ==> Valid()
    {
      mode := m;
    }

    /** The tab buttons. */
    method SetTab(t: Tab)
      modifies this
      ensures State() == old(State()).(tab := t)
      ensures old(Valid()) ==> Valid()
    {
      tab := t;
    }

    /** The text area of the text mode. */
    method SetDocumentText(value: string)
      modifies this
      ensures State() == old(State()).(documentText := value)
      ensures old(Valid()) ==> Valid()
    {
      documentText := value;
    }

    /** The editor of the analysis view. */
    method SetEditedText(value: string)
      modifies this
      ensures State() == old(State()).(editedText := value)
      ensures old(Valid()) ==> Valid()
    {
      editedText := value;
    }
  }

  /** In the form view of a valid page there is no document, so saving sends nothing. */
  lemma NothingToSaveInForm(page: AnalysisNew)
    requires page.Valid() && !page.hasAnalysis
    ensures !HasDocument(page.currentDocId)
    ensures page.currentDocId == None && page.summary == [] && page.risks == []
  {
  }

  /** The "Analyze Text" button is enabled, when nothing is loading, exactly when the text has a non-whitespace character. */
  lemma AnalyzeButtonEnabled(documentText: string)
    ensures !AnalyzeTextDisabled(false, documentText)
        <==> exists i :: 0 <= i < |documentText| && !IsSpace(JavaScript, documentText[i])
  {
  }

  /**
   * The selection outlives a reset: nothing but a click writes it. After a
   * risk is clicked, the page reset and a new file analysed, a new risk with
   * the same id shows its rewrite without being clicked.
   */
  method SelectionSurvivesReset(clicked: Risk, later: Risk, text: string, documentId: int)
    returns (shown: bool)
    requires later.id == clicked.id && Truthy(later.suggestedRewrite)
    ensures shown
  {
    var page := new AnalysisNew();
    page.ClickRisk(clicked);
    page.Reset();
    page.CompleteFileUpload(Success(AnalyzeResponse(text, None, Some([later]), documentId)));
    shown := RewriteShown(page.selectedRisk, later);
  }
}
