# DocIQ core in Dafny

DocIQ analyses legal documents. A user uploads a file or pastes some text. The backend extracts the text, finds risky clauses and asks an OpenAI model for a summary and for safer rewrites. The frontend shows the results.

This project models the logic of that core that can be written down without the network:

- **Backend.** `RewriteEngine` and `SummaryEngine` model the engines:
  - the batch prompt that `_build_rewrite_prompt` assembles;
  - the parser `_parse_rewrites`, which cuts the model's answer at `REWRITE <digits>:` markers, keeps the non-blank stripped pieces, falls back to the whole answer, and pads or cuts to the expected count;
  - the guards of `rewrite_clauses` and `generate_summary`, the 4000-character preview, and what each engine makes of the reply or of a failed call.
- **Frontend.** `FileUploadForm`, `TextInputForm`, `ResultsView` and `AnalysisPage` model:
  - the upload form's type and size checks and its drag state;
  - the text form's length guard;
  - the decisions the result view makes (severity classes, the no-risk panel, cards, rewrite blocks);
  - the analysis page's state and handlers.

`Strings` holds the whitespace stripping, with the whitespace of each runtime (`str.strip()` in Python, `String.prototype.trim()` in JavaScript). It also holds JavaScript's `.length` in UTF-16 code units, the lower-casing and the decimal numerals these need. `Remote` holds the records exchanged with the backend and the outcome of an awaited call. `ChatCompletion` holds the reply of a chat-completion call.

Where the source updates state step by step, the model does too:

- The prompt builder and the parser loops are methods with loops. Each is proved equal to a function (`RewritePrompt`, `Survivors`, `Fit`, `ParsedRewrites`) whose properties are proved as lemmas.
- The React components are classes whose fields are the component state.
- Each asynchronous handler is split at its `await` into two methods:
  - a start step, which returns what would be sent;
  - a complete step, which takes the call's outcome as a parameter.
  A `finally` block becomes the last assignment of the complete step.
- The loops of `_parse_rewrites` are two helper methods, `CollectRewrites` and `PadRewrites`, which `ParseRewrites` calls. The loop of `_build_rewrite_prompt` uses the helper lemma `ClauseBlocksStep`.

The centre of the backend model is the round trip `RewriteEngine.FormattedRoundTrip`. An answer written in the format the prompt asks for (`REWRITE 1: ...`, `REWRITE 2: ...`) parses back to exactly the rewrites it was written from. The lemmas beside it cover the other cases:

- a non-blank answer without markers becomes the first rewrite, stripped (`UnmarkedAnswer`);
- a blank answer gives only fillers (`BlankAnswer`);
- a preface before the first marker is dropped whenever some marked piece survives (`PrefaceDiscarded`). Otherwise the whole stripped answer, preface and markers included, is the fallback (`BlankPiecesFallBack`);
- every returned rewrite is stripped and non-blank, for any answer (`ParsedRewritesClean`).

Where the documentation and the code disagree, the model follows the code:

- The docstring of `generate_summary` says it returns `None` when no client is configured. The code returns a warning message instead, and so does `SummaryEngine.GenerateSummary`.
- The analysis page's `handleFileUpload` sends the chosen file without the type and size checks that the upload component makes. `AnalysisPage.AnalysisNew.StartFileUpload` does the same.
- `handleTextAnalyze` sets the edited text to the text that was submitted. It does not set the document text from the response, unlike the file path. The model keeps that difference.
- The page's `getSeverityColor` compares the severity case-sensitively. The one in `Results.tsx` lower-cases it first. Both are modelled: `AnalysisPage.SeverityColorCaseSensitive` and `ResultsView.SeverityColorExamples` show the difference.
- The analysis page never clears `selectedRisk`: only a card's click writes it, and a reset or a new analysis leaves it as it was. Its cards compare ids only. So after a reset, a risk from a new analysis with the id of the risk selected before shows its rewrite without a click. `AnalysisPage.SelectionSurvivesReset` shows this.
- The result view chooses between the no-risk panel and the card list by `risks_found`, not by the length of `risks`. `ResultsView.BranchFollowsCount` states this.

## Model

| member | source | states |
|---|---|---|
| Strings.Strip | backend/rewrite_engine.py:87 | The result has no whitespace at either end. It is empty exactly when the input is all whitespace. Whitespace is that of the runtime: Python `str.isspace` (including U+001C..U+001F and U+0085) or ECMAScript `trim()` (including U+FEFF). |
| Strings.StripSlice | backend/rewrite_engine.py:87 | Stripping only removes whitespace: the result is a slice of the input with only whitespace before and after it. |
| Strings.StripPadded | frontend/src/components/TextInput.tsx:19 | Whitespace around a stripped string is exactly what stripping removes. |
| Strings.StripStripped | backend/summary_engine.py:51 | Stripping is idempotent on stripped text. |
| Strings.StripRuntimesDiffer | frontend/src/components/TextInput.tsx:19 | `str.strip()` removes U+001C, which `trim()` keeps, and `trim()` removes U+FEFF, which `str.strip()` keeps. |
| Strings.Utf16Length | frontend/src/components/TextInput.tsx:52 | JavaScript `.length`: between the number of characters and twice it, and equal to it when no character lies above U+FFFF. |
| Strings.StripUtf16Length | frontend/src/components/TextInput.tsx:19 | Trimming never makes a text longer in UTF-16 code units. |
| Strings.ToLower | frontend/src/components/Results.tsx:11 | Same length, and each character is lower-cased on its own (ASCII letters). |
| Strings.NatToString | backend/rewrite_engine.py:68 | The numeral `f"{i}"` is non-empty and made only of decimal digits. |
| Strings.NatToStringRoundTrip | backend/rewrite_engine.py:68 | Reading the numeral of `n` back as digits gives `n`. |
| RewriteEngine.BuildRewritePrompt | backend/rewrite_engine.py:62-75 | The `+=` loop builds exactly `RewritePrompt(clauses)`: the header, the numbered clause blocks in input order, then the format footer. |
| RewriteEngine.RewritePrompt | backend/rewrite_engine.py:62-75 | The prompt starts with the header, ends with the format footer, and is exactly as long as header, clause blocks and footer together. |
| RewriteEngine.ClauseBlocksPrefix | backend/rewrite_engine.py:67-68 | The blocks of the first `j` clauses are a prefix of the blocks of all clauses, so later clauses never change earlier blocks. |
| RewriteEngine.PromptLayout | backend/rewrite_engine.py:64-73 | The prompt starts with the header and ends with the footer. Block `i + 1` (`CLAUSE i+1:` and clause `i`) stands right after the blocks of the clauses before it. |
| RewriteEngine.DigitRunSpan | backend/rewrite_engine.py:83 | The digit run measured for `\d+` is all digits and is maximal (greedy). |
| RewriteEngine.DigitRunExact | backend/rewrite_engine.py:83 | A run of digits that ends at a non-digit is exactly the run measured. |
| RewriteEngine.HasWordAtSlice | backend/rewrite_engine.py:83 | A letter-by-letter match of the word equals slice equality. |
| RewriteEngine.MarkerLength | backend/rewrite_engine.py:83 | The marker found at the front of a text lies within it and is at least 10 characters long (`REWRITE `, a digit, `:`). |
| RewriteEngine.MarkerSound | backend/rewrite_engine.py:83 | What is reported as a marker matches `REWRITE \d+:`. |
| RewriteEngine.MarkerComplete | backend/rewrite_engine.py:83 | Any match of `REWRITE \d+:` at the front of a text is the reported one, so the match is unique. |
| RewriteEngine.MarkerStart | backend/rewrite_engine.py:83 | A marker begins with `R`, so text starting with whitespace holds none there. |
| RewriteEngine.MarkerSpan | backend/rewrite_engine.py:83 | A marker contains no line break. |
| RewriteEngine.MarkerWindow | backend/rewrite_engine.py:83 | A marker depends only on its own characters: the same characters elsewhere are the same marker. |
| RewriteEngine.MarkerCut | backend/rewrite_engine.py:83 | Text after a line break cannot extend a marker. |
| RewriteEngine.NoMarkerStarts | backend/rewrite_engine.py:83 | In a text that contains no match, no marker starts at any position. |
| RewriteEngine.MarkerSoundAt | backend/rewrite_engine.py:83 | A marker reported at position `k` of a text matches the pattern there. |
| RewriteEngine.Split | backend/rewrite_engine.py:83 | `re.split` always returns at least one piece. `SplitRejoin`, `SplitRest` and `SplitPieceUnmarked` state what the pieces are: the text cut at every match and nowhere else. |
| RewriteEngine.SplitRejoin | backend/rewrite_engine.py:83 | There is one marker fewer than pieces. Every marker cut at is a match of `REWRITE \d+:`. The pieces with the markers between them give back the text, so nothing is lost or invented. |
| RewriteEngine.SplitFirstUnmarked | backend/rewrite_engine.py:83 | Piece 0 is a prefix of the text in which no marker starts: the split happens at the leftmost match. |
| RewriteEngine.SplitRest | backend/rewrite_engine.py:83 | After the first cut, the later pieces and markers are exactly the split of the text that follows piece 0 and the first marker. |
| RewriteEngine.SplitPieceUnmarked | backend/rewrite_engine.py:83 | Every piece, not only the first, stands in the text at some offset with no marker starting inside it. So every match of `REWRITE \d+:` is cut. |
| RewriteEngine.SplitUnmarkedPrefix | backend/rewrite_engine.py:83 | Text in which no marker starts joins the first piece, and the later pieces stay as they were. |
| RewriteEngine.SplitUnmarked | backend/rewrite_engine.py:83 | A text without a marker splits into itself alone. |
| RewriteEngine.Survivors | backend/rewrite_engine.py:86-89 | The loop keeps at most as many rewrites as there are pieces. |
| RewriteEngine.SurvivorsClean | backend/rewrite_engine.py:86-89 | Every kept rewrite is non-blank and stripped. |
| RewriteEngine.SurvivorsAppend | backend/rewrite_engine.py:86-89 | The kept rewrites keep the pieces' order: the survivors of `a + b` are those of `a`, then those of `b`. |
| RewriteEngine.SurvivorsSnoc | backend/rewrite_engine.py:86-89 | One more piece appends its stripped text, unless the piece is blank. |
| RewriteEngine.KeptPart | backend/rewrite_engine.py:87-89 | A piece is dropped exactly when it is all whitespace. Otherwise it gives one rewrite, non-blank and stripped. |
| RewriteEngine.Fillers | backend/rewrite_engine.py:96-97 | `n` fillers. |
| RewriteEngine.FillersAll | backend/rewrite_engine.py:96-97 | Each filler is "Unable to generate rewrite for this clause.". |
| RewriteEngine.Fit | backend/rewrite_engine.py:96-99 | Padding and slicing give exactly `count` entries. |
| RewriteEngine.FitShape | backend/rewrite_engine.py:96-99 | Entry `k` is the `k`-th rewrite found when there is one, else the filler. |
| RewriteEngine.FitExact | backend/rewrite_engine.py:96-99 | A list of exactly the expected length is neither padded nor cut. |
| RewriteEngine.ParsedRewrites | backend/rewrite_engine.py:77-99 | `_parse_rewrites` returns exactly `expected_count` rewrites. |
| RewriteEngine.ParsedRewritesClean | backend/rewrite_engine.py:77-99 | Every returned rewrite, found or filler, is non-blank and stripped. |
| RewriteEngine.ParseRewrites | backend/rewrite_engine.py:77-99 | The split-loop-fallback-pad-slice procedure computes `ParsedRewrites`. |
| RewriteEngine.CollectRewrites | backend/rewrite_engine.py:86-89 | The `for` loop over the pieces after the first marker computes `Survivors`. |
| RewriteEngine.PadRewrites | backend/rewrite_engine.py:96-99 | The `while` loop and the final slice compute `Fit`. |
| RewriteEngine.Candidates | backend/rewrite_engine.py:85-93 | An answer that is not blank always yields at least one rewrite, and there are never more rewrites than pieces. |
| RewriteEngine.UnmarkedAnswer | backend/rewrite_engine.py:92-97 | A non-blank answer without markers gives its stripped text first, then fillers. |
| RewriteEngine.BlankPiecesFallBack | backend/rewrite_engine.py:86-97 | When every piece after a marker is blank but the answer is not, the whole stripped answer, markers included, becomes the first rewrite, followed by fillers. |
| RewriteEngine.BareMarker | backend/rewrite_engine.py:86-93 | The answer `REWRITE 1:` parses to itself as the one rewrite. |
| RewriteEngine.BlankAnswer | backend/rewrite_engine.py:92-97 | A blank answer gives only fillers. |
| RewriteEngine.PrefaceDiscarded | backend/rewrite_engine.py:85-86 | Text before the first marker is skipped: when a later piece survives, a marker-free preface does not change the result. |
| RewriteEngine.Bodies | backend/rewrite_engine.py:71-73 | A formatted answer has one body per rewrite, in order. |
| RewriteEngine.BodyUnmarked | backend/rewrite_engine.py:83 | No marker starts inside the body of a marker-free rewrite, whatever follows it. |
| RewriteEngine.FormatMarker | backend/rewrite_engine.py:71-72 | The marker `REWRITE n:` that the requested format writes matches the split pattern. |
| RewriteEngine.SplitFormatted | backend/rewrite_engine.py:83 | Splitting an answer in the requested format gives an empty first piece and then the bodies, one per rewrite. |
| RewriteEngine.SplitBodyFirst | backend/rewrite_engine.py:83 | A body placed before a formatted rest joins that rest's empty first piece. |
| RewriteEngine.SurvivingBodies | backend/rewrite_engine.py:86-89 | The bodies of non-blank stripped rewrites survive the loop as exactly those rewrites. |
| RewriteEngine.FormattedRoundTrip | backend/rewrite_engine.py:70-99 | An answer in the format the prompt requests parses back to exactly the rewrites it was written from. |
| RewriteEngine.ParsedBodies | backend/rewrite_engine.py:85-99 | An answer that splits into an empty piece and the bodies of the rewrites parses to those rewrites. |
| RewriteEngine.RewriteClauses | backend/rewrite_engine.py:16-60 | Without a client: `None` and no call. With no clauses: `[]` and no call. Otherwise the built prompt is sent; a content reply gives the parsed rewrites, one per clause; a missing content or a raised exception gives `None`. |
| SummaryEngine.Preview | backend/summary_engine.py:32 | `text[:4000]` is a prefix of the text of length `min(len, 4000)`. |
| SummaryEngine.PreviewPrefix | backend/summary_engine.py:32 | A text of up to 4000 characters is sent whole. Characters after position 4000 never reach the request. The preview is idempotent. |
| SummaryEngine.SummaryRequest | backend/summary_engine.py:43 | The user message is the fixed sentence, then a prefix of the text of length `min(len, 4000)`. |
| SummaryEngine.IsTooShort | backend/summary_engine.py:28 | A text is too short exactly when its stripped length is below 50. The emptiness test adds nothing, and every text of fewer than 50 characters is too short. |
| SummaryEngine.SummaryFromReply | backend/summary_engine.py:50-55 | A content reply gives a stripped summary, empty exactly when the content is all whitespace. A failure gives a text starting "Unable to generate summary: ". |
| SummaryEngine.GenerateSummary | backend/summary_engine.py:15-55 | No client: the warning and no call. Empty text or stripped length below 50: the too-short message and no call. A request is made iff neither holds; it carries the fixed sentence and the preview, and the result is what the reply gives. |
| SummaryEngine.NoClientFirst | backend/summary_engine.py:25-26 | Without a client the text and the reply do not matter. |
| SummaryEngine.LongEnoughText | backend/summary_engine.py:28 | A stripped length of 50 or more passes the guard, and the text itself then has at least 50 characters. |
| SummaryEngine.BlankTooShort | backend/summary_engine.py:28-29 | A whitespace-only text is too short, however long it is. |
| SummaryEngine.RequestLayout | backend/summary_engine.py:43 | The user message is the fixed sentence followed by the preview, at most 4000 characters more. |
| SummaryEngine.SummaryStripped | backend/summary_engine.py:50-51 | A successful summary is stripped, and stripping it again changes nothing. |
| SummaryEngine.FailureReported | backend/summary_engine.py:53-55 | A raised exception gives "Unable to generate summary: " followed by its message. A missing content gives the same prefix followed by the error Python raises for `.strip()` on `None`. |
| Remote.OrElse | frontend/src/pages/AnalysisNew.tsx:45-46 | `s \|\| fallback`: the value when it is a non-empty string, else the fallback. |
| Remote.RisksOrEmpty | frontend/src/pages/AnalysisNew.tsx:47 | `risks \|\| []`: a present list, even an empty one, is kept; a missing one becomes empty. |
| Remote.FailureMessage | frontend/src/components/FileUpload.tsx:37 | `detail \|\| fallback`: a non-empty server detail is shown, a missing or empty one gives the fallback, and the message is never empty when the fallback is not. |
| ResultsView.SeverityColor | frontend/src/components/Results.tsx:10-21 | Each of the four classes is chosen exactly when the lower-cased severity is high, medium, low or none of these. |
| ResultsView.SeverityColorIgnoresCase | frontend/src/components/Results.tsx:11 | Severities that differ only in letter case get the same class. |
| ResultsView.SeverityColorExamples | frontend/src/components/Results.tsx:10-21 | "HIGH" and "High" get the red class. An unknown severity gets gray. |
| ResultsView.LowerCaseUnchanged | frontend/src/components/Results.tsx:11 | Text without capital letters is its own lower case. |
| ResultsView.SeverityIcon | frontend/src/components/Results.tsx:23-31 | Every severity gets the alert triangle (both branches of the switch return it). |
| ResultsView.CardOf | frontend/src/components/Results.tsx:86-128 | A card shows its risk's severity class. It shows the rewrite block exactly when `suggested_rewrite` is truthy, and then that rewrite. |
| ResultsView.Cards | frontend/src/components/Results.tsx:86 | One card per risk, in array order. |
| ResultsView.Render | frontend/src/components/Results.tsx:47-139 | The disclaimer is always shown. The count is red iff `risks_found > 0`. The no-risk panel is shown iff `risks_found === 0`; otherwise the heading shows the count and the cards of all risks follow. |
| ResultsView.BranchFollowsCount | frontend/src/components/Results.tsx:72-86 | A count of 0 hides every card. Any other count shows a card for every listed risk. |
| ResultsView.CardShowsRisk | frontend/src/components/Results.tsx:86-121 | Card `k` shows risk `k`'s clause, type and class, and its rewrite exactly when that risk has one. |
| FileUploadForm.Rejection | frontend/src/components/FileUpload.tsx:19-28 | A file is accepted iff its type is PDF, DOCX or plain text and it has at most 10 MiB. The type error wins over the size error. |
| FileUploadForm.SizeBoundary | frontend/src/components/FileUpload.tsx:25 | 10485760 bytes pass; 10485761 bytes do not. |
| FileUploadForm.TypeCheckedFirst | frontend/src/components/FileUpload.tsx:19-28 | An oversized file of the wrong type is told about its type. |
| FileUploadForm.DragStep | frontend/src/components/FileUpload.tsx:42-50 | Enter and over activate the zone, leave deactivates it, and other events keep it as it was. |
| FileUploadForm.DragAfterLast | frontend/src/components/FileUpload.tsx:42-50 | After a run of drag events, the last enter, over or leave decides whether the zone is active. |
| FileUploadForm.OthersKeep | frontend/src/components/FileUpload.tsx:42-50 | Ignored events never change the drag state. |
| FileUploadForm.FileUpload.constructor | frontend/src/components/FileUpload.tsx:13-14 | The zone starts inactive with no error. |
| FileUploadForm.FileUpload.HandleFile | frontend/src/components/FileUpload.tsx:16-32 | A missing file does nothing. A refused file sets its error and sends nothing. An accepted file clears the error, sets loading and is sent. |
| FileUploadForm.FileUpload.CompleteFile | frontend/src/components/FileUpload.tsx:33-39 | A result is delivered and loading is left to the parent. A failure shows the detail or the fallback and clears loading. |
| FileUploadForm.FileUpload.HandleDrag | frontend/src/components/FileUpload.tsx:42-50 | The drag state follows `DragStep`; nothing else changes. |
| FileUploadForm.FileUpload.HandleDrop | frontend/src/components/FileUpload.tsx:52-60 | The zone goes inactive, and only the first dropped file is handled. |
| FileUploadForm.FileUpload.HandleChange | frontend/src/components/FileUpload.tsx:62-67 | Only the first selected file is handled; the drag state is unchanged. |
| TextInputForm.ButtonMatchesGuard | frontend/src/components/TextInput.tsx:19-56 | When nothing is loading, the submit button is enabled exactly for the texts the handler accepts. |
| TextInputForm.TooShort | frontend/src/components/TextInput.tsx:19 | A text is refused exactly when its trimmed length, in UTF-16 code units, is below 10. A text that is short before trimming, or all whitespace, is refused. |
| TextInputForm.SubmitDisabled | frontend/src/components/TextInput.tsx:56 | The button is disabled while loading. Otherwise it is disabled exactly for the texts `TooShort` refuses. |
| TextInputForm.CharacterCount | frontend/src/components/TextInput.tsx:52 | The counter shows the UTF-16 length of the untrimmed text. It lies between the number of characters and twice it, and is never below the trimmed length. |
| TextInputForm.SurrogatePairsCount | frontend/src/components/TextInput.tsx:19-56 | Five characters outside the Basic Multilingual Plane count 10: the counter reads 10 and the text is accepted. |
| TextInputForm.CounterIsUntrimmed | frontend/src/components/TextInput.tsx:19-56 | The counter counts the untrimmed UTF-16 code units, so it can show 10 or more while the text is still too short. |
| TextInputForm.TextInput.constructor | frontend/src/components/TextInput.tsx:13-14 | An empty text and no error. |
| TextInputForm.TextInput.SetText | frontend/src/components/TextInput.tsx:45 | The text becomes the typed value; nothing else changes. |
| TextInputForm.TextInput.HandleSubmit | frontend/src/components/TextInput.tsx:16-26 | A text shorter than 10 UTF-16 code units once trimmed sets the error and sends nothing. Otherwise the error is cleared, loading is set and the untrimmed text is sent. |
| TextInputForm.TextInput.CompleteSubmit | frontend/src/components/TextInput.tsx:27-33 | A result is delivered. A failure shows the detail or the fallback and clears loading. |
| AnalysisPage.SeverityColor | frontend/src/pages/AnalysisNew.tsx:127-134 | Each of the four classes is chosen exactly when the severity, as written, is high, medium, low or none of these. |
| AnalysisPage.SeverityColorCaseSensitive | frontend/src/pages/AnalysisNew.tsx:127-134 | "HIGH" gets the gray class on this page, and "high" gets the red one. |
| AnalysisPage.ToggleRisk | frontend/src/pages/AnalysisNew.tsx:350 | A click deselects exactly when the clicked risk's id is selected; otherwise the clicked risk is selected. |
| AnalysisPage.ClickTwice | frontend/src/pages/AnalysisNew.tsx:350 | Clicking a risk that was not selected twice leaves nothing selected. |
| AnalysisPage.ClickThenOther | frontend/src/pages/AnalysisNew.tsx:350 | Clicking one risk and then another selects the other. |
| AnalysisPage.RewriteShownByClick | frontend/src/pages/AnalysisNew.tsx:350-371 | A click shows a card's rewrite iff that card was not selected. Only cards with the clicked id can then show theirs. |
| AnalysisPage.RewriteShown | frontend/src/pages/AnalysisNew.tsx:371 | A card shows its rewrite exactly when its risk has the selected risk's id and a truthy rewrite: never with nothing selected, for another id, or without a rewrite. |
| AnalysisPage.SelectionSurvivesReset | frontend/src/pages/AnalysisNew.tsx:250-257 | After a click on a risk, a reset and a new file analysis, a new risk with the same id and a rewrite shows that rewrite without a click, because the selection is never cleared. |
| AnalysisPage.AnalyzeTextDisabled | frontend/src/pages/AnalysisNew.tsx:210 | The button is disabled exactly while loading or when the text is all whitespace. |
| AnalysisPage.HasDocument | frontend/src/pages/AnalysisNew.tsx:105 | `null` and `0` are falsy, so they mean no document. Every other id is truthy. |
| AnalysisPage.SaveAlert | frontend/src/pages/AnalysisNew.tsx:109-111 | The success alert is raised iff the update succeeded. |
| AnalysisPage.AnalysisNew.constructor | frontend/src/pages/AnalysisNew.tsx:20-30 | The initial values of every state hook. The page invariant holds. |
| AnalysisPage.AnalysisNew.StartLoad | frontend/src/pages/AnalysisNew.tsx:40-43 | The given id is the one requested; only loading is set. |
| AnalysisPage.AnalysisNew.CompleteLoad | frontend/src/pages/AnalysisNew.tsx:40-55 | Success shows the document, with the edited text falling back to the original and missing fields blank, and records the id. Failure only sets the error. Loading always ends, and the invariant is kept. |
| AnalysisPage.AnalysisNew.StartFileUpload | frontend/src/pages/AnalysisNew.tsx:57-62 | No file: no change. Otherwise the first file is sent unchecked, loading is set and the error cleared. |
| AnalysisPage.AnalysisNew.CompleteFileUpload | frontend/src/pages/AnalysisNew.tsx:64-77 | Success makes both texts the extracted text, records the id and opens the summary tab. Failure shows the detail or "Failed to analyze document". Loading ends, and the invariant is kept. |
| AnalysisPage.AnalysisNew.StartTextAnalyze | frontend/src/pages/AnalysisNew.tsx:80-88 | A blank text sets the error and sends nothing. Otherwise loading is set, the error cleared and the text sent. |
| AnalysisPage.AnalysisNew.CompleteTextAnalyze | frontend/src/pages/AnalysisNew.tsx:89-101 | Success sets the edited text to the submitted text and leaves the document text alone, records the id and opens the summary tab. Failure shows the detail or "Failed to analyze text". Loading ends. |
| AnalysisPage.AnalysisNew.HandleSave | frontend/src/pages/AnalysisNew.tsx:104-108 | An update is sent iff the id is present and non-zero, with that id and the edited text; no state changes. On a page that keeps its invariant, the form view never sends one. |
| AnalysisPage.AnalysisNew.Reset | frontend/src/pages/AnalysisNew.tsx:250-257 | The analysis, texts, summary, risks and id are cleared, and the rest is kept. The invariant holds afterwards. |
| AnalysisPage.AnalysisNew.ClickRisk | frontend/src/pages/AnalysisNew.tsx:350 | Only the selection changes, as `ToggleRisk` says. |
| AnalysisPage.AnalysisNew.SetMode | frontend/src/pages/AnalysisNew.tsx:147-158 | Only the mode changes. |
| AnalysisPage.AnalysisNew.SetTab | frontend/src/pages/AnalysisNew.tsx:277-297 | Only the tab changes. |
| AnalysisPage.AnalysisNew.SetDocumentText | frontend/src/pages/AnalysisNew.tsx:203 | Only the document text changes. |
| AnalysisPage.AnalysisNew.SetEditedText | frontend/src/pages/AnalysisNew.tsx:267 | Only the edited text changes. |
| AnalysisPage.NothingToSaveInForm | frontend/src/pages/AnalysisNew.tsx:105 | On a page that keeps its invariant and shows the form, there is no document id, summary or risk list, so there is nothing to save. |
| AnalysisPage.AnalyzeButtonEnabled | frontend/src/pages/AnalysisNew.tsx:210 | While nothing is loading, "Analyze Text" is enabled iff the text has a non-whitespace character. |

## Left out

- The HTTP layer in `frontend/src/services/api.ts`, and the FastAPI endpoints behind it, are not part of this model. Each awaited call's outcome is a parameter of the step that consumes it: an `Outcome` holding the data or the rejection's `detail`.
- The OpenAI client:
  - its construction from `OPENAI_API_KEY` is a boolean `hasClient`;
  - the chat-completion call is a `Reply` parameter: the first choice's content, or the text of the exception raised;
  - the model names, system messages, `temperature` and `max_tokens` are not modelled;
  - `print` of the error is left out.
- RewriteEngine.RewriteClauses: every exception inside the `try` becomes `None`. A missing content is modelled as one, because `re.split` raises on `None`. The model does not distinguish which step raised.
- SummaryEngine.GenerateSummary: the text of a caught exception is a parameter, `str(e)`. For a missing content the model uses the message Python gives for `.strip()` on `None`.
- Strings.Strip: the whitespace sets are those of Unicode 15. Python's `str.isspace` covers tab to carriage return, U+001C..U+001F, space, U+0085, U+00A0, U+1680, U+2000..U+200A, U+2028, U+2029, U+202F, U+205F and U+3000. ECMAScript's `trim()` covers the same characters without U+001C..U+001F and U+0085, and adds U+FEFF. A later Unicode version that adds a space separator is not modelled.
- RewriteEngine.MarkerLength: `\d` is modelled as the ASCII digits 0-9. Python's `re` also matches other Unicode decimal digits, such as the Arabic-Indic ones, in a `str` pattern.
- Strings.ToLower: lower-cases A-Z only. No other character lower-cases to exactly one of the ASCII letters of "high", "medium" and "low", so the result view's class choice is the same as with full `toLowerCase()`. This is argued here, not proved in the model.
- Strings.Utf16Length: Dafny strings hold Unicode scalar values. A JavaScript string with an unpaired surrogate cannot be written in the model.
- The file in the frontend is a MIME type and a size. Reading its contents and the server-side text extraction are left out.
- The `AnalysisResult` type of `frontend/src/pages/Analysis.tsx` is not part of this model. Its fields are taken from their uses in `Results.tsx`. The text positions of a `Risk` are left out.
- `loading` in `FileUpload` and `TextInput` belongs to the parent. The model keeps it as a field holding the value last set or given.
- React's asynchronous rendering is left out: interleaved handlers, stale responses arriving after a reset, and batching of state updates.
- `handleDownload` in `AnalysisNew.tsx` (blob, object URL, a synthetic click) is left out: it is browser I/O with no decision in it.
- The `useEffect` that reads `?doc=` and calls `parseInt` is left out. `loadDocument` is modelled from the id it receives, and a `NaN` id is not modelled.
- `alert()` after a save: the model gives its text (`SaveAlert`). The awaited update itself is a parameter.
- `err.response?.data?.detail` is modelled as an optional string. A detail that is not a string (an object or list from the server) is not modelled.
- JSX layout and styles beyond the decisions listed in the table are left out. So is the icon colour of the analysis page's cards.
- RewriteEngine.FormattedRoundTrip: stated for any first number, which covers the numbering from 1 that the prompt asks for. It requires rewrites that contain no marker, are non-blank and are stripped. Others cannot round-trip under `re.split`.
