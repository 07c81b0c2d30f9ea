/**
 * The server actions of the data-capture app: each checks its data URI,
 * forwards it to one generative-AI flow and wraps what comes back, or what
 * the flow threw, in an `ActionResult` envelope. The flows themselves are
 * parameters: functions from a request to what the flow returns or throws.
 */
module Actions {
  import opened Wrappers
  import opened Tables
  import DocumentFlow

  /** The `type` tags an envelope can carry. */
  datatype ResultType = Text | Table | ImageAnalysis | DocumentAnalysis | HandwritingTranscription

  /** `ActionResult`: `data`, `error` and `type` are optional fields. */
  datatype ActionResult<D> = ActionResult(success: bool, data: Option<D>, error: Option<string>, kind: Option<ResultType>)

  /** A flow's outcome: its output, or what it threw. */
  type FlowResult<T> = Result<T, Thrown>

  /** An envelope together with the request the action forwarded to its flow, if it called it. */
  datatype Handled<Req, D> = Handled(result: ActionResult<D>, request: Option<Req>)

  // The flows' inputs and the parts of their outputs the actions read.
  datatype AssistantInput = AssistantInput(query: string)
  datatype AssistantOutput = AssistantOutput(response: string)
  datatype PhotoInput = PhotoInput(photoDataUri: string)
  datatype ImageExtraction = ImageExtraction(table: seq<HeadingValueRow>, fullText: string)
  datatype DocumentInput = DocumentInput(documentDataUri: string)
  datatype Transcription = Transcription(transcribedText: string)

  const ImagePrefix: string := "data:image"
  const DataPrefix: string := "data:"

  /** `s.startsWith(prefix)`. */
  predicate StartsWith(s: string, prefix: string)
  {
    |prefix| <= |s| && s[..|prefix|] == prefix
  }

  /** `!uri || !uri.startsWith('data:image')` fails: an image data URI. */
  predicate IsImageDataUri(uri: string)
  {
    |uri| > 0 && StartsWith(uri, ImagePrefix)
  }

  /** `!uri || !uri.startsWith('data:')` fails: any data URI. */
  predicate IsDataUri(uri: string)
  {
    |uri| > 0 && StartsWith(uri, DataPrefix)
  }

  /** The envelope of a rejected request or a failed flow. */
  function Failed<D>(message: string): (r: ActionResult<D>)
    ensures !r.success && r.error == Some(message)
  {
    ActionResult(false, None, Some(message), None)
  }

  /** Every envelope the actions build: on success data and a tag and no error, on failure an error alone. */
  predicate WellFormed<D>(r: ActionResult<D>)
  {
    if r.success then r.error.None? && r.kind.Some?
    else r.error.Some? && r.data.None? && r.kind.None?
  }

  /** `error instanceof Error ? error.message : fallback`. */
  function ErrorText(e: Thrown, fallback: string): (m: string)
    ensures e.ErrorInstance? ==> m == e.message
    ensures e.NonError? ==> m == fallback
  {
    match e
    case ErrorInstance(message) => message
    case NonError => fallback
  }

  /**
   * The `try { ... } catch (error) { ... }` around one flow call: the flow's
   * output becomes a success carrying the `pick`ed field and the tag `kind`,
   * anything it throws becomes a failure.
   */
  function Dispatch<Req, Out, D>(req: Req, flow: Req -> FlowResult<Out>, pick: Out -> Option<D>,
                                 kind: ResultType, fallback: string): (h: Handled<Req, D>)
    ensures h.request == Some(req)
    ensures WellFormed(h.result)
    ensures h.result.success <==> flow(req).Success?
    ensures flow(req).Success? ==> h.result.data == pick(flow(req).value) && h.result.kind == Some(kind)
    ensures flow(req).Failure? ==> h.result == Failed(ErrorText(flow(req).error, fallback))
  {
    match flow(req)
    case Success(out) => Handled(ActionResult(true, pick(out), None, Some(kind)), Some(req))
    case Failure(e) => Handled(Failed(ErrorText(e, fallback)), Some(req))
  }

  /** `handleTextQuery`: no check; the assistant's `response` is the data. */
  function HandleTextQuery(query: string, assistant: AssistantInput -> FlowResult<AssistantOutput>): (h: Handled<AssistantInput, string>)
    ensures h.request == Some(AssistantInput(query))
    ensures WellFormed(h.result)
    ensures h.result.success <==> assistant(AssistantInput(query)).Success?
    ensures h.result.success ==>
      h.result.data == Some(assistant(AssistantInput(query)).value.response) && h.result.kind == Some(Text)
    ensures !h.result.success ==>
      h.result.error == Some(ErrorText(assistant(AssistantInput(query)).error, "An unknown error occurred with AI assistant."))
  {
    Dispatch(AssistantInput(query), assistant, (o: AssistantOutput) => Some(o.response), Text,
             "An unknown error occurred with AI assistant.")
  }

  /** `handleImageUpload`: an image data URI only; the heading/value `table` is the data. */
  function HandleImageUpload(uri: string, extract: PhotoInput -> FlowResult<ImageExtraction>): (h: Handled<PhotoInput, seq<HeadingValueRow>>)
    ensures WellFormed(h.result)
    ensures h.request.Some? <==> IsImageDataUri(uri)
    ensures h.request.Some? ==> h.request.value == PhotoInput(uri)
    ensures !IsImageDataUri(uri) ==> h.result == Failed("Invalid image data URI.")
    ensures h.result.success <==> IsImageDataUri(uri) && extract(PhotoInput(uri)).Success?
    ensures h.result.success ==>
      h.result.data == Some(extract(PhotoInput(uri)).value.table) && h.result.kind == Some(ImageAnalysis)
    ensures IsImageDataUri(uri) && !h.result.success ==>
      h.result.error == Some(ErrorText(extract(PhotoInput(uri)).error, "Failed to analyze image."))
  {
    if !IsImageDataUri(uri) then Handled(Failed("Invalid image data URI."), None)
    else Dispatch(PhotoInput(uri), extract, (o: ImageExtraction) => Some(o.table), ImageAnalysis,
                  "Failed to analyze image.")
  }

  /**
   * `handleDocumentUpload`: any data URI; the data is the output's
   * `analysisResult`, a field the flow's output schema does not declare.
   */
  function HandleDocumentUpload(uri: string, analyze: DocumentInput -> FlowResult<DocumentFlow.OutputValue>)
    : (h: Handled<DocumentInput, DocumentFlow.Json>)
    ensures WellFormed(h.result)
    ensures h.request.Some? <==> IsDataUri(uri)
    ensures h.request.Some? ==> h.request.value == DocumentInput(uri)
    ensures !IsDataUri(uri) ==> h.result == Failed("Invalid document data URI.")
    ensures h.result.success <==> IsDataUri(uri) && analyze(DocumentInput(uri)).Success?
    ensures h.result.success ==>
      h.result.data == DocumentFlow.Field(analyze(DocumentInput(uri)).value, "analysisResult")
      && h.result.kind == Some(DocumentAnalysis)
    ensures IsDataUri(uri) && !h.result.success ==>
      h.result.error == Some(ErrorText(analyze(DocumentInput(uri)).error, "Failed to analyze document."))
  {
    if !IsDataUri(uri) then Handled(Failed("Invalid document data URI."), None)
    else Dispatch(DocumentInput(uri), analyze, (o: DocumentFlow.OutputValue) => DocumentFlow.Field(o, "analysisResult"),
                  DocumentAnalysis, "Failed to analyze document.")
  }

  /** `handleHandwritingTranscription`: an image data URI only; the `transcribedText` is the data. */
  function HandleHandwritingTranscription(uri: string, transcribe: PhotoInput -> FlowResult<Transcription>)
    : (h: Handled<PhotoInput, string>)
    ensures WellFormed(h.result)
    ensures h.request.Some? <==> IsImageDataUri(uri)
    ensures h.request.Some? ==> h.request.value == PhotoInput(uri)
    ensures !IsImageDataUri(uri) ==> h.result == Failed("Invalid image data URI for handwriting transcription.")
    ensures h.result.success <==> IsImageDataUri(uri) && transcribe(PhotoInput(uri)).Success?
    ensures h.result.success ==>
      h.result.data == Some(transcribe(PhotoInput(uri)).value.transcribedText)
      && h.result.kind == Some(HandwritingTranscription)
    ensures IsImageDataUri(uri) && !h.result.success ==>
      h.result.error == Some(ErrorText(transcribe(PhotoInput(uri)).error, "Failed to transcribe handwriting from image."))
  {
    if !IsImageDataUri(uri) then Handled(Failed("Invalid image data URI for handwriting transcription."), None)
    else Dispatch(PhotoInput(uri), transcribe, (o: Transcription) => Some(o.transcribedText), HandwritingTranscription,
                  "Failed to transcribe handwriting from image.")
  }

  /** `handleVoiceData`: a placeholder that always fails and calls nothing. */
  function HandleVoiceData(): (r: ActionResult<()>)
    ensures WellFormed(r) && !r.success
    ensures r.error == Some("Voice processing flow not implemented yet.")
  {
    Failed("Voice processing flow not implemented yet.")
  }

  /** Every image data URI is also a data URI: what the image check accepts, the document check accepts. */
  lemma ImageUriIsDataUri(uri: string)
    ensures IsImageDataUri(uri) ==> IsDataUri(uri)
  {
    if IsImageDataUri(uri) {
      assert uri[..|DataPrefix|] == uri[..|ImagePrefix|][..|DataPrefix|];
    }
  }

  /**
   * The empty string is refused by every action that checks its URI, and
   * none of them calls its flow for it.
   */
  lemma EmptyUriRefused(extract: PhotoInput -> FlowResult<ImageExtraction>,
                        analyze: DocumentInput -> FlowResult<DocumentFlow.OutputValue>,
                        transcribe: PhotoInput -> FlowResult<Transcription>)
    ensures HandleImageUpload("", extract) == Handled(Failed("Invalid image data URI."), None)
    ensures HandleDocumentUpload("", analyze) == Handled(Failed("Invalid document data URI."), None)
    ensures HandleHandwritingTranscription("", transcribe)
         == Handled(Failed("Invalid image data URI for handwriting transcription."), None)
  {
  }

  /**
   * The document action never hands on the extracted table: as long as the
   * model's output has no undeclared `analysisResult` field, a successful
   * analysis carries no data at all.
   */
  lemma DocumentDataIsUndeclaredField(uri: string, analyze: DocumentInput -> FlowResult<DocumentFlow.OutputValue>)
    requires IsDataUri(uri) && analyze(DocumentInput(uri)).Success?
    requires "analysisResult" !in analyze(DocumentInput(uri)).value.undeclared
    ensures HandleDocumentUpload(uri, analyze).result.success
    ensures HandleDocumentUpload(uri, analyze).result.data.None?
  {
  }
}
