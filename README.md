# Data-capture studio: a Dafny model of its export, dispatch and defaulting logic

The data-capture app is a single page. On it a user uploads an image or a
document, asks a question, or uses the webcam. Server actions send the captured
data to generative-AI flows. Each action wraps the answer in an `ActionResult`
envelope. The document flow fills in the parts of its table the model left
out. The page can export an extracted table as CSV or as a paginated PDF.

This project models that logic in Dafny and proves properties of it:

- `wrappers.dfy`: `Option`, `Result` and `Thrown` (what a JavaScript call can throw).
- `tables.dfy` (`Tables`): the loose table shape the page holds, and the guard both exporters apply.
- `csv.dfy` (`Csv`): `escapeCSVCell` and the text `handleDownloadCSV` builds. A CSV reader is its partner. Escaping a cell and reading it back gives the cell. Reading an exported file gives its header and rows.
- `pdf.dfy` (`Pdf`): the cursor and page-break arithmetic of `handleDownloadPDF`. Lengths are in half-millimetres, so `lineHeight * 1.5` stays whole. The PDF library's text wrapping enters as two line-count functions.
- `actions.dfy` (`Actions`): the five server actions. Each flow is a function parameter returning `Result<output, Thrown>`. Each action also reports the request it passed to its flow, so "the flow is not called" and "the flow is called once, with this input" can be stated.
- `document_flow.dfy` (`DocumentFlow`): the output object of the document flow as classes. The in-place defaulting is a method. `Defaulted` is its value-level specification.
- `capture_page.dfy` (`CapturePage`): the page's view-state as a class. It covers the query box, the five-entry history, the output panel and the camera state machine.

Behaviours of the code that the model makes explicit:

- The page-break test compares only the cursor with `pageHeight - margin - 2*lineHeight` (`src/app/page.tsx:469`). It does not look at the height of the row about to be drawn, so a tall row can run past the page bottom. `Pdf.TallRowOverrunsPage` shows this. `Pdf.RowStartBound` states what the test does guarantee.
- Each action has its own default error text for a thrown value that is not an `Error` (`src/app/actions.ts:24`, `:37`, `:51`, `:64`).
- The no-table branch of the PDF export (`src/app/page.tsx:493-496`) cannot be reached. The guard at `src/app/page.tsx:438-441` has already refused such a table.
- The empty-query check sits in the page's `handleSearch` (`src/app/page.tsx:149`). `handleTextQuery` itself checks nothing.
- `handleDocumentUpload` returns the output's `analysisResult` (`src/app/actions.ts:47`). The output schema does not declare that field. So for an output that follows the schema, the extracted table is never handed on (`Actions.DocumentDataIsUndeclaredField`).
- `handleImageUpload` returns the heading/value array `result.table`. The page keeps that array as its content. The array has neither a `table` nor an `extractedTable` property, so both exports refuse it (`Tables.ImageContentForExport`).
- A row with no cells is exported as a bare line feed. It reads back as one empty field (`Csv.RecordRoundTrip`).

## Model

| member | source | states |
|---|---|---|
| `Tables.ImageContentForExport` | src/app/page.tsx:404-411 | the heading/value array an image analysis leaves as page content never passes the export guard |
| `Csv.EscapeText` | src/app/page.tsx:397-401 | a string with no comma, line feed or double quote is returned unchanged; any other is wrapped in double quotes |
| `Csv.EscapeCell` | src/app/page.tsx:395-396 | null and undefined become the empty string; a present cell becomes exactly `EscapeText` of its string |
| `Csv.EscapeExample` | src/app/page.tsx:395-401 | `1,2` becomes `"1,2"`, `x"y` becomes `"x""y"`, `A` stays `A` |
| `Csv.FieldRoundTrip` | src/app/page.tsx:398-399 | reading an escaped cell back, with any separator after it, gives the original string: inner quotes are doubled and the quoting is undone exactly |
| `Csv.RecordRoundTrip` | src/app/page.tsx:414-416 | any row, escaped, joined with commas and ended by a line feed, reads back as its cells' texts in order, whatever text follows. A row with no cells, written as a bare line feed, reads back as one empty field |
| `Csv.LinesRoundTrip` | src/app/page.tsx:415-417 | the row records read back as the rows, one record per row, in order, with nothing added; this holds for every row, including rows with no cells |
| `Csv.CsvRoundTrip` | src/app/page.tsx:413-417 | for any headers and rows, the whole file reads back as the header texts followed by the row texts. Null cells come back as empty strings, and a row with no cells as one empty field |
| `Csv.DownloadCsv` | src/app/page.tsx:404-417 | no data gives nothing. A missing table source, missing or empty `headers`, or missing or empty `rows` is refused, with the source being `table` if present, else `extractedTable`. Otherwise the text is the header record and then each row's record, built by the loop |
| `Csv.ExportExample` | src/app/page.tsx:413-417 | headers `A`,`B` with row `1,2`,`x"y` export as `A,B` and `"1,2","x""y"`, each line ended by a line feed |
| `Pdf.HeaderHeight` | src/app/page.tsx:466 | the header row is exactly one line height times the number of lines its joined text wraps to, or one line height when that number is 0 |
| `Pdf.RowHeightOf` | src/app/page.tsx:482-489 | a row's height is the greatest of one line height and each cell's wrapped-line count times the line height |
| `Pdf.RowHeight` | src/app/page.tsx:482-489 | the loop over the cells computes exactly that maximum |
| `Pdf.LayOutTable` | src/app/page.tsx:461-491 | the row loop places every row and header row exactly as the layout specification does |
| `Pdf.DownloadPdf` | src/app/page.tsx:434-491 | the PDF export gives nothing for no data, refuses exactly the tables the CSV export refuses, and otherwise lays out the table |
| `Pdf.BreakRule` | src/app/page.tsx:468-490 | before data row i, a new page with a repeated header is started exactly when the cursor is past `pageHeight - margin - 2*lineHeight`. The row goes at the cursor or just under the new header row. The cursor then moves down by the row's height |
| `Pdf.RowStartBound` | src/app/page.tsx:469 | a row that does not start a page starts at or above the break line, so only a row at most two lines tall is sure to end above the bottom margin |
| `Pdf.NextRow` | src/app/page.tsx:468-490 | from one row to the next, either the page stays and the next row starts right under the previous one, or the page number goes up by one |
| `Pdf.TopsIncreaseWithinPage` | src/app/page.tsx:482-490 | page numbers never decrease, and rows on the same page are drawn strictly top to bottom |
| `Pdf.HeaderOnEveryPage` | src/app/page.tsx:469-481 | the report has one page more than it has page breaks, and every page a row lands on has its header row |
| `Pdf.TallRowOverrunsPage` | src/app/page.tsx:469 | on an A4 page, a first row whose cell wraps to 60 lines stays on page 1 and ends past the page bottom |
| `Actions.ErrorText` | src/app/actions.ts:22-25 | a thrown `Error` yields its message, any other thrown value the action's default text |
| `Actions.Dispatch` | src/app/actions.ts:32-38 | the flow is called once with the request. Its output becomes a success with the picked field and the tag. What it throws becomes a failure with no data or tag |
| `Actions.HandleTextQuery` | src/app/actions.ts:18-26 | the assistant is always called once. A success carries `response` tagged `text`. A failure carries the message or "An unknown error occurred with AI assistant." |
| `Actions.HandleImageUpload` | src/app/actions.ts:28-39 | a URI that is empty or does not start with `data:image` fails with "Invalid image data URI." and no flow call. Otherwise the flow is called once with the URI. A success carries `table` tagged `imageAnalysis`. A failure carries the message or "Failed to analyze image." |
| `Actions.HandleDocumentUpload` | src/app/actions.ts:41-53 | a URI that is empty or does not start with `data:` fails with "Invalid document data URI." and no flow call. Otherwise a success carries the output's undeclared `analysisResult` tagged `documentAnalysis`, and a failure carries the message or "Failed to analyze document." |
| `Actions.HandleHandwritingTranscription` | src/app/actions.ts:55-66 | a URI that is not an image data URI fails with its own message and no flow call. A success carries `transcribedText` tagged `handwritingTranscription`. A failure carries the message or "Failed to transcribe handwriting from image." |
| `Actions.HandleVoiceData` | src/app/actions.ts:71-75 | always fails with "Voice processing flow not implemented yet." |
| `Actions.ImageUriIsDataUri` | src/app/actions.ts:28-44 | every URI the image check accepts, the document check accepts too |
| `Actions.EmptyUriRefused` | src/app/actions.ts:28-58 | the empty string is refused by all three checking actions without a flow call |
| `Actions.DocumentDataIsUndeclaredField` | src/app/actions.ts:46-47 | a successful document analysis whose output has no undeclared `analysisResult` carries no data |
| `DocumentFlow.Defaulted` | src/ai/flows/analyze-uploaded-document.ts:72-78 | afterwards the table, headers and rows are all present. A missing table becomes the empty table. A missing `headers` or `rows` becomes `[]`. Present ones and all other fields are unchanged |
| `DocumentFlow.DefaultedKeepsWellShaped` | src/ai/flows/analyze-uploaded-document.ts:24-32 | an output already in the schema's shape is returned unchanged |
| `DocumentFlow.DefaultedIdempotent` | src/ai/flows/analyze-uploaded-document.ts:72-78 | defaulting twice gives the same output as defaulting once |
| `DocumentFlow.FillDefaults` | src/ai/flows/analyze-uploaded-document.ts:72-78 | in place, the output becomes `Defaulted` of what it was. A missing table is replaced by a fresh object, and a present table object is kept and updated |
| `DocumentFlow.FlowBody` | src/ai/flows/analyze-uploaded-document.ts:70-80 | a missing output makes `output!.extractedTable` throw a TypeError. Otherwise the same object is returned, defaulted, in the schema's shape |
| `CapturePage.Pushed` | src/app/page.tsx:72-74 | the new item comes first, followed by at most four earlier items in their order, five entries at most |
| `CapturePage.HistoryKeepsMostRecent` | src/app/page.tsx:72-74 | after a series of additions the history is the latest items, newest first, followed by the older entries, cut to five |
| `CapturePage.DataCapturePage.RecentHistory` | src/app/page.tsx:72-74 | on a page whose history keeps its five-entry bound, a series of `addToHistory` calls leaves the newest items first, then the entries already shown; its length is the total, capped at five |
| `CapturePage.Trim` | src/app/page.tsx:149 | the trimmed query is empty exactly when every character is JavaScript white space or a line terminator |
| `CapturePage.AfterPause` | src/app/page.tsx:302-307 | pausing turns `active` into `paused` and leaves every other state as it is |
| `CapturePage.AfterResume` | src/app/page.tsx:309-318 | resuming turns `paused` into `active` and leaves every other state as it is |
| `CapturePage.PauseResumeInverse` | src/app/page.tsx:302-318 | pause then resume gives back a running camera, resume then pause a paused one, and an inactive camera stays inactive |
| `CapturePage.DataCapturePage.constructor` | src/app/page.tsx:55-60 | the page starts with an empty query and history, no output, the camera inactive, and permission not yet asked |
| `CapturePage.DataCapturePage.EditInput` | src/app/page.tsx:813 | typing replaces the query and changes nothing else |
| `CapturePage.DataCapturePage.AddToHistory` | src/app/page.tsx:72-74 | the history becomes `Pushed` of the old one; nothing else changes |
| `CapturePage.DataCapturePage.Search` | src/app/page.tsx:148-163 | a blank query sends nothing and changes nothing. Any other query is logged as `Search: <query>` and sent once. The answer or error is shown and the box is cleared |
| `CapturePage.DataCapturePage.PauseCamera` | src/app/page.tsx:302-307 | the camera state becomes `AfterPause` of the old one; nothing else changes |
| `CapturePage.DataCapturePage.ResumeCamera` | src/app/page.tsx:309-318 | the camera state becomes `AfterResume` of the old one; nothing else changes |
| `CapturePage.DataCapturePage.ResumeRejected` | src/app/page.tsx:311-316 | when resumed playback fails, the camera becomes inactive and permission false |
| `CapturePage.DataCapturePage.StopCamera` | src/app/page.tsx:321-331 | from any state the camera becomes inactive and permission returns to not asked |

## Left out

- Rendering: the JSX of the page and `src/components/DataTable.tsx` are presentation only. So are toasts, `console` logging and the loading flags that disable buttons.
- Browser APIs: speech recognition, `getUserMedia` and `startCamera`, `takePhoto` and its canvas capture, `FileReader` and `handleFileChange`, `handleImageAnalysis`, Blob and object-URL downloads, and `window.location.reload`. All are I/O outside the model.
- The Firebase Storage upload and its `Date.now()` file names: I/O and a clock.
- The generative-AI prompts and flows. They are the function parameters of the actions. Whether genkit validates a prompt's output against its schema is not modelled. The image flow `src/ai/flows/extract-structured-data-from-image.ts` is a pass-through and appears only as the shape `ImageExtraction`.
- `CapturePage.DataCapturePage.StopCamera`: stopping the stream's tracks and clearing `srcObject` act on browser objects. The model keeps only the camera state and the permission.
- `CapturePage.DataCapturePage.PauseCamera`, `ResumeCamera`: the `videoRef.current` guard is folded into the state check. The video element is rendered exactly when the camera is not inactive (`src/app/page.tsx:824-831`).
- `CapturePage.DataCapturePage.Search`: the handler is modelled as running to completion. Its intermediate states (loading flag set, output cleared), and other handlers interleaving across its `await`, are not modelled.
- `CapturePage.DataCapturePage`: only the text and error outputs that search produces are modelled. The image, document and preview outputs are set by the left-out browser handlers.
- PDF drawing: font sizes, horizontal cell positions (`margin + index * colWidth`), the text itself, the final `yPos += lineHeight`, and `splitTextToSize`. Line counts are function parameters. Page heights that are not a whole number of half-millimetres are not modelled.
- Cells are strings or null/undefined. `String(cellData)` on numbers or objects is not modelled.
- `DocumentFlow.Json` numbers are integers. Floating point is not modelled.
- `DocumentFlow.NullOutputError` is the JavaScript engine's TypeError text. Its exact wording depends on the engine.
