/** `useLatexCompile` of frontend/src/hooks/useLatexCompile.ts: the compile
    button's loading and error state around `renderLatexAction`. */
module LatexCompileHook {
  import opened Options
  import opened JsValues
  import BackendUrl

  const COMPILE_FAILED_MESSAGE := "PDF生成中にエラーが発生しました"

  datatype DocumentMode = Problem | Explanation

  /** The arguments of `renderLatexAction`. */
  datatype RenderRequest = RenderRequest(latexCode: string, projectId: string, mode: DocumentMode, latexDocumentId: Option<string>)

  /** What `renderLatexAction` returns. */
  datatype RenderResponse = RenderResponse(latexDocumentId: Option<string>, pdfUrl: Option<string>)

  datatype CompileResult = CompileResult(latexDocumentId: Option<string>, pdfUrl: Option<string>)

  class LatexCompile {
    const projectId: string
    const mode: DocumentMode
    const base: string
    var isCompiling: bool
    var error: Option<string>

    constructor(projectId: string, mode: DocumentMode, base: string)
      ensures this.projectId == projectId && this.mode == mode && this.base == base
      ensures !isCompiling && error.None?
    {
      this.projectId := projectId;
      this.mode := mode;
      this.base := base;
      isCompiling := false;
      error := None;
    }

    /** The synchronous part of `compile(latexCode, latexDocumentId)`: an empty id
        is sent as absent. */
    method BeginCompile(latexCode: string, latexDocumentId: Option<string>) returns (request: RenderRequest)
      modifies this
      ensures isCompiling && error.None?
      ensures request == RenderRequest(latexCode, projectId, mode, OrNull(latexDocumentId))
      ensures request.latexDocumentId.Some? ==> request.latexDocumentId.value != []
    {
      isCompiling := true;
      error := None;
      request := RenderRequest(latexCode, projectId, mode, OrNull(latexDocumentId));
    }

    /** The rest of `compile` once the call settled. */
    method FinishCompile(outcome: Completion<RenderResponse>) returns (result: Option<CompileResult>)
      modifies this
      ensures !isCompiling
      ensures result.Some? <==> outcome.Normal?
      ensures outcome.Normal? ==> error == old(error)
      ensures outcome.Normal? ==> result.value.latexDocumentId == OrNull(outcome.value.latexDocumentId)
      ensures outcome.Normal? ==> result.value.pdfUrl == BackendUrl.NormalizeBackendUrl(base, outcome.value.pdfUrl)
      ensures outcome.Abrupt? ==> error == Some(ErrorMessageOr(outcome.thrown, COMPILE_FAILED_MESSAGE))
    {
      match outcome {
        case Normal(response) =>
          result := Some(CompileResult(OrNull(response.latexDocumentId),
                                       BackendUrl.NormalizeBackendUrl(base, OrNull(response.pdfUrl))));
        case Abrupt(thrown) =>
          error := Some(ErrorMessageOr(thrown, COMPILE_FAILED_MESSAGE));
          result := None;
      }
      isCompiling := false;
    }

    /** `compile` from start to end: a success leaves no error behind. */
    method Compile(latexCode: string, latexDocumentId: Option<string>, outcome: Completion<RenderResponse>)
      returns (request: RenderRequest, result: Option<CompileResult>)
      modifies this
      ensures !isCompiling
      ensures request == RenderRequest(latexCode, projectId, mode, OrNull(latexDocumentId))
      ensures result.Some? <==> error.None?
      ensures result.Some? <==> outcome.Normal?
      ensures outcome.Normal? ==>
        result == Some(CompileResult(OrNull(outcome.value.latexDocumentId),
                                     BackendUrl.NormalizeBackendUrl(base, outcome.value.pdfUrl)))
      ensures outcome.Abrupt? ==> error == Some(ErrorMessageOr(outcome.thrown, COMPILE_FAILED_MESSAGE))
    {
      request := BeginCompile(latexCode, latexDocumentId);
      result := FinishCompile(outcome);
    }

    /** `clearError()`. */
    method ClearError()
      modifies this
      ensures error.None? && isCompiling == old(isCompiling)
    {
      error := None;
    }
  }
}
