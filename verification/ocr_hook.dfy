/** `useOcr` of frontend/src/hooks/useOcr.ts: validating an uploaded image,
    sending it for OCR and shaping the answer.  The backend call is split into
    the request it sends (`BeginProcessOcr`) and the outcome it gets back
    (`FinishProcessOcr`). */
module OcrHook {
  import opened Options
  import opened Text
  import opened JsValues
  import BackendUrl

  const MAX_SIZE := 10 * 1024 * 1024
  const NOT_AN_IMAGE_MESSAGE := "画像ファイルを選択してください"
  const TOO_LARGE_MESSAGE := "ファイルサイズが大きすぎます（最大10MB）"
  const NO_LATEX_MESSAGE := "LaTeXコードの生成に失敗しました"
  const OCR_FAILED_MESSAGE := "OCR処理中にエラーが発生しました"

  /** The uploaded `File`: its MIME type and size in bytes. */
  datatype UploadFile = UploadFile(mimeType: string, size: nat)

  /** The form data sent to `createOcrAction`. */
  datatype OcrRequest = OcrRequest(image: UploadFile, problemId: string)

  /** What `createOcrAction` returns; absent or empty strings are falsy. */
  datatype OcrResponse = OcrResponse(latexCode: Option<string>, latexDocumentId: Option<string>, pdfUrl: Option<string>)

  datatype OcrResult = OcrResult(latexCode: string, latexDocumentId: Option<string>, pdfUrl: Option<string>)

  /** The validation message for a file, checked type first, then size. */
  function FileProblem(file: UploadFile): (m: Option<string>)
    ensures m.None? <==> StartsWith(file.mimeType, "image/") && file.size <= MAX_SIZE
    ensures !StartsWith(file.mimeType, "image/") ==> m == Some(NOT_AN_IMAGE_MESSAGE)
  {
    if !StartsWith(file.mimeType, "image/") then Some(NOT_AN_IMAGE_MESSAGE)
    else if file.size > MAX_SIZE then Some(TOO_LARGE_MESSAGE)
    else None
  }

  /** The result for a response, or the error it sets. */
  function ShapeResponse(base: string, r: OcrResponse): (out: Result)
    ensures out.Accepted? <==> r.latexCode.Some? && r.latexCode.value != []
    ensures out.Accepted? ==> out.result.latexCode == r.latexCode.value
    ensures out.Accepted? ==> out.result.pdfUrl == BackendUrl.NormalizeBackendUrl(base, r.pdfUrl)
    ensures out.Accepted? ==> out.result.latexDocumentId == OrNull(r.latexDocumentId)
    ensures out.Accepted? && out.result.latexDocumentId.Some? ==> out.result.latexDocumentId.value != []
  {
    if r.latexCode.Some? && r.latexCode.value != [] then
      Accepted(OcrResult(r.latexCode.value, OrNull(r.latexDocumentId),
                         BackendUrl.NormalizeBackendUrl(base, OrNull(r.pdfUrl))))
    else Rejected(NO_LATEX_MESSAGE)
  }

  datatype Result = Accepted(result: OcrResult) | Rejected(message: string)

  class Ocr {
    const projectId: string
    /** `API_BASE_URL`, used to normalise the PDF URL. */
    const base: string
    var isProcessing: bool
    var error: Option<string>

    constructor(projectId: string, base: string)
      ensures this.projectId == projectId && this.base == base
      ensures !isProcessing && error.None?
    {
      this.projectId := projectId;
      this.base := base;
      isProcessing := false;
      error := None;
    }

    /** The synchronous part of `processOcr(file)`: a rejected file sets the error
        and sends nothing; an accepted one raises the processing flag, clears the
        error and yields the one request to send. */
    method BeginProcessOcr(file: UploadFile) returns (request: Option<OcrRequest>)
      modifies this
      ensures request.None? <==> FileProblem(file).Some?
      ensures request.None? ==> error == FileProblem(file) && isProcessing == old(isProcessing)
      ensures request.Some? ==> request.value == OcrRequest(file, projectId) && isProcessing && error.None?
    {
      if !StartsWith(file.mimeType, "image/") {
        error := Some(NOT_AN_IMAGE_MESSAGE);
        return None;
      }
      if file.size > MAX_SIZE {
        error := Some(TOO_LARGE_MESSAGE);
        return None;
      }
      isProcessing := true;
      error := None;
      request := Some(OcrRequest(file, projectId));
    }

    /** The rest of `processOcr` once the call settled: the `finally` lowers the
        processing flag whatever happened. */
    method FinishProcessOcr(outcome: Completion<OcrResponse>) returns (result: Option<OcrResult>)
      modifies this
      ensures !isProcessing
      ensures outcome.Normal? && ShapeResponse(base, outcome.value).Accepted?
           ==> result == Some(ShapeResponse(base, outcome.value).result) && error == old(error)
      ensures outcome.Normal? && ShapeResponse(base, outcome.value).Rejected?
           ==> result.None? && error == Some(NO_LATEX_MESSAGE)
      ensures outcome.Abrupt?
           ==> result.None? && error == Some(ErrorMessageOr(outcome.thrown, OCR_FAILED_MESSAGE))
    {
      match outcome {
        case Normal(response) =>
          var shaped := ShapeResponse(base, response);
          if shaped.Accepted? {
            result := Some(shaped.result);
          } else {
            error := Some(shaped.message);
            result := None;
          }
        case Abrupt(thrown) =>
          error := Some(ErrorMessageOr(thrown, OCR_FAILED_MESSAGE));
          result := None;
      }
      isProcessing := false;
    }

    /** `processOcr(file)` from start to end, `outcome` being how the backend call
        would settle.  The call is made only for an accepted file. */
    method ProcessOcr(file: UploadFile, outcome: Completion<OcrResponse>)
      returns (called: bool, result: Option<OcrResult>)
      modifies this
      ensures called <==> FileProblem(file).None?
      ensures !called ==> result.None? && error == FileProblem(file) && isProcessing == old(isProcessing)
      ensures called ==> !isProcessing
      ensures result.Some? ==> (called && error.None? && outcome.Normal? &&
                                ShapeResponse(base, outcome.value).Accepted? &&
                                result.value == ShapeResponse(base, outcome.value).result)
      ensures called && outcome.Normal? && ShapeResponse(base, outcome.value).Accepted?
           ==> result == Some(ShapeResponse(base, outcome.value).result)
      ensures called && outcome.Normal? && ShapeResponse(base, outcome.value).Rejected?
           ==> result.None? && error == Some(NO_LATEX_MESSAGE)
      ensures called && outcome.Abrupt?
           ==> result.None? && error == Some(ErrorMessageOr(outcome.thrown, OCR_FAILED_MESSAGE))
    {
      var request := BeginProcessOcr(file);
      called := request.Some?;
      result := None;
      if called {
        result := FinishProcessOcr(outcome);
      }
    }

    /** `clearError()`. */
    method ClearError()
      modifies this
      ensures error.None? && isProcessing == old(isProcessing)
    {
      error := None;
    }
  }

  /** An image is accepted exactly up to ten mebibytes inclusive: one of exactly
      that size passes, any larger one gets the size message. */
  lemma SizeLimitIsInclusive(mimeType: string, size: nat)
    requires StartsWith(mimeType, "image/")
    ensures FileProblem(UploadFile(mimeType, size)).None? <==> size <= MAX_SIZE
    ensures size > MAX_SIZE ==> FileProblem(UploadFile(mimeType, size)) == Some(TOO_LARGE_MESSAGE)
    ensures FileProblem(UploadFile(mimeType, MAX_SIZE)).None?
    ensures FileProblem(UploadFile(mimeType, MAX_SIZE + 1)) == Some(TOO_LARGE_MESSAGE)
  {
  }
}
