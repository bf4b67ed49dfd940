/**
 * `components/FileUpload.tsx`: the drop zone and its file check. The
 * component's state is `dragActive` and `error`; `loading` belongs to the
 * parent and is changed through `setLoading`, so it is kept here as the
 * value the component last set or was given. `handleFile` is split at its
 * `await`: `HandleFile` runs up to the call of `analyzeDocument` and
 * returns the file it would send, `CompleteFile` runs on the call's outcome.
 */
module FileUploadForm {
  import opened Wrappers
  import opened Remote

  const PdfType: string := "application/pdf"
  const DocxType: string := "application/vnd.openxmlformats-officedocument.wordprocessingml.document"
  const TextType: string := "text/plain"

  /** The MIME types the component accepts. */
  const ValidTypes: seq<string> := [PdfType, DocxType, TextType]

  /** 10 MiB: the largest accepted size, in bytes. */
  const MaxSize: nat := 10 * 1024 * 1024

  const TypeError: string := "Please upload a PDF, DOCX, or TXT file"
  const SizeError: string := "File size must be less than 10MB"
  const UploadFailed: string := "Analysis failed. Please try again."

  /** The browser's drag event types the handler reacts to; the others are `Other`. */
  datatype DragKind = DragEnter | DragOver | DragLeave | Other

  /** Why a file is refused, the type check first: `None` when it is accepted. */
  function Rejection(file: FileInfo): (r: Option<string>)
    ensures r == None <==> file.mimeType in ValidTypes && file.size <= MaxSize
    ensures file.mimeType !in ValidTypes ==> r == Some(TypeError)
    ensures file.mimeType in ValidTypes && file.size > MaxSize ==> r == Some(SizeError)
  {
    if file.mimeType !in ValidTypes then Some(TypeError)
    else if file.size > MaxSize then Some(SizeError)
    else None
  }

  /** Exactly 10485760 bytes pass; one byte more does not. */
  lemma SizeBoundary(mimeType: string)
    requires mimeType in ValidTypes
    ensures Rejection(FileInfo(mimeType, 10485760)) == None
    ensures Rejection(FileInfo(mimeType, 10485761)) == Some(SizeError)
  {
  }

  /** An oversized file of the wrong type is told about its type. */
  lemma TypeCheckedFirst(file: FileInfo)
    requires file.mimeType !in ValidTypes && file.size > MaxSize
    ensures Rejection(file) == Some(TypeError)
  {
  }

  /** What a drag event makes of `dragActive`. */
  function DragStep(active: bool, kind: DragKind): (next: bool)
    ensures kind == DragEnter || kind == DragOver ==> next
    ensures kind == DragLeave ==> !next
    ensures kind == Other ==> next == active
  {
    match kind
    case DragEnter => true
    case DragOver => true
    case DragLeave => false
    case Other => active
  }

  /** `dragActive` after a run of drag events: the last enter, over or leave decides. */
  function DragAfter(active: bool, kinds: seq<DragKind>): bool
    decreases |kinds|
  {
    if kinds == [] then active else DragAfter(DragStep(active, kinds[0]), kinds[1..])
  }

  /** After the last enter, over or leave of a run, only ignored events follow: that last one decides. */
  lemma {:induction false} DragAfterLast(active: bool, kinds: seq<DragKind>, last: DragKind, rest: seq<DragKind>)
    requires last != Other
    requires forall j :: 0 <= j < |rest| ==> rest[j] == Other
    ensures DragAfter(active, kinds + [last] + rest) == (last != DragLeave)
    decreases |kinds|
  {
    var all := kinds + [last] + rest;
    if kinds == [] {
      assert all == [last] + rest;
      assert all[1..] == rest;
      OthersKeep(DragStep(active, last), rest);
    } else {
      assert all[1..] == kinds[1..] + [last] + rest;
      DragAfterLast(DragStep(active, kinds[0]), kinds[1..], last, rest);
    }
  }

  /** Events the handler ignores leave `dragActive` as it was. */
  lemma {:induction false} OthersKeep(active: bool, rest: seq<DragKind>)
    requires forall j :: 0 <= j < |rest| ==> rest[j] == Other
    ensures DragAfter(active, rest) == active
    decreases |rest|
  {
    if rest != [] {
      OthersKeep(active, rest[1..]);
    }
  }

  class FileUpload {
    var dragActive: bool
    var error: Option<string>
    var loading: bool

    /** A fresh drop zone, given the parent's `loading`. */
    constructor (loading: bool)
      ensures !dragActive && error == None && this.loading == loading
    {
      dragActive := false;
      error := None;
      this.loading := loading;
    }

    /**
     * `handleFile` up to its `await`: a missing file does nothing, a refused
     * file sets the error and returns early, an accepted one clears the error,
     * sets `loading` and is sent as it is.
     */
    method HandleFile(file: Option<FileInfo>) returns (sent: Option<FileInfo>)
      modifies this
      ensures dragActive == old(dragActive)
      ensures file.None? ==> sent == None && error == old(error) && loading == old(loading)
      ensures file.Some? && Rejection(file.value).Some? ==>
        sent == None && error == Rejection(file.value) && loading == old(loading)
      ensures file.Some? && Rejection(file.value).None? ==>
        sent == file && error == None && loading
    {
      sent := None;
      if file.None? {
        return;
      }
      var f := file.value;
      if f.mimeType !in ValidTypes {
        error := Some(TypeError);
        return;
      }
      if f.size > MaxSize {
        error := Some(SizeError);
        return;
      }
      error := None;
      loading := true;
      sent := Some(f);
    }

    /**
     * `handleFile` after its `await`: a result is handed to
     * `onAnalysisComplete` (and `loading` is left to the parent); a failure
     * shows the server's detail or the fallback and clears `loading`.
     */
    method CompleteFile(outcome: Outcome<AnalysisResult>) returns (delivered: Option<AnalysisResult>)
      modifies this
      ensures dragActive == old(dragActive)
      ensures outcome.Success? ==> delivered == Some(outcome.value) && error == old(error) && loading == old(loading)
      ensures outcome.Failure? ==>
        delivered == None && error == Some(FailureMessage(outcome.detail, UploadFailed)) && !loading
    {
      match outcome {
        case Success(result) =>
          delivered := Some(result);
        case Failure(detail) =>
          delivered := None;
          error := Some(FailureMessage(detail, UploadFailed));
          loading := false;
      }
    }

    /** `handleDrag`. */
    method HandleDrag(kind: DragKind)
      modifies this
      ensures dragActive == DragStep(old(dragActive), kind)
      ensures error == old(error) && loading == old(loading)
    {
      if kind == DragEnter || kind == DragOver {
        dragActive := true;
      } else if kind == DragLeave {
        dragActive := false;
      }
    }

    /** `handleDrop`: the zone goes inactive and only the first dropped file is handled. */
    method HandleDrop(files: seq<FileInfo>) returns (sent: Option<FileInfo>)
      modifies this
      ensures !dragActive
      ensures files == [] ==> sent == None && error == old(error) && loading == old(loading)
      ensures files != [] && Rejection(files[0]).Some? ==>
        sent == None && error == Rejection(files[0]) && loading == old(loading)
      ensures files != [] && Rejection(files[0]).None? ==>
        sent == Some(files[0]) && error == None && loading
    {
      dragActive := false;
      sent := None;
      if files != [] {
        sent := HandleFile(Some(files[0]));
      }
    }

    /** `handleChange` of the file input: only the first selected file is handled. */
    method HandleChange(files: seq<FileInfo>) returns (sent: Option<FileInfo>)
      modifies this
      ensures dragActive == old(dragActive)
      ensures files == [] ==> sent == None && error == old(error) && loading == old(loading)
      ensures files != [] && Rejection(files[0]).Some? ==>
        sent == None && error == Rejection(files[0]) && loading == old(loading)
      ensures files != [] && Rejection(files[0]).None? ==>
        sent == Some(files[0]) && error == None && loading
    {
      sent := None;
      if files != [] {
        sent := HandleFile(Some(files[0]));
      }
    }
  }
}
