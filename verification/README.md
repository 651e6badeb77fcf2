# PRINTEX core, modelled in Dafny

PRINTEX turns a photographed maths problem into LaTeX, lets the user edit and
compile it to PDF, and keeps every edit of the problem document and of its
generated explanation as a numbered version inside a project. A project can
be moved to the trash, restored, or deleted for good. LaTeX templates wrap
the edited code through a `{children}` placeholder, and each user has at
most one default template.

This project models the deterministic core of that system and proves what
it promises.

- **Frontend helpers.** The project-list search and stable sort, backend-URL
  normalisation, the `Result` type, the error taxonomy with its
  user-facing messages, and the two HTTP-error classifiers with the
  cookie/CSRF header assembly.
- **Frontend hooks.** Each hook is a class whose fields are the hook's
  state: the confirm-dialog guard, the split-pane resizer, OCR upload
  validation, the compile flags, the PDF-URL holder, the template form and
  the preview panel's zoom and notes. An asynchronous call is split into a
  `Begin…` method, which returns the request it would send, and a
  `Finish…` method, which takes the call's outcome as a parameter.
- **Backend string logic.** Cleaning the LaTeX body out of a model answer,
  `{children}` wrapping, storage URLs and file names, and the PDF path
  guard.
- **Backend record store.** Each table is a sequence of records, in
  insertion order, in one `Database` object. The models include:
  - the project lifecycle (active, trashed, restored, gone), with the 404
    check running before the 403 check;
  - the document versions (next version = highest + 1), the choice of an
    explanation's source document, and confirmation;
  - the template endpoints, serializer and model, which keep the
    single-default rule;
  - the `0011` data migration and its reverse.

Each view is a method over the `Database` object. Its `ensures` gives the
new tables as a function of the old ones, together with the reply.
Lemmas about those functions carry the rest of the properties:
- uniqueness of keys and of (project, version) pairs;
- the single default template;
- strictly decreasing history;
- versions that rise in insertion order;
- a migration round trip;
- "nothing else changes".

The model follows the code where the code and its written description
differ:
- `save()` without `update_fields` runs `auto_now`. Moving a project to the
  trash, restoring it, confirming a version and setting a default
  therefore also move that row's `updated_at`.
- The bulk `update()` that clears the other defaults does not touch their
  `updated_at`.
- The render view looks its project up without a `deleted_at` filter, so
  a project in the trash still receives new versions.

## Model

| member | source | states |
|---|---|---|
| ApiClient.GetApiClientHeaders | frontend/src/shared/lib/api/client.ts:14-38 | the `Cookie` header joins `sessionid=…` and `csrftoken=…` with `"; "` and is absent when neither cookie is present; `X-CSRFToken` is the CSRF cookie's value |
| ApiClient.StatusFailureMessage | frontend/src/shared/lib/api/client.ts:48 | the synthesised message starts with `API request failed with status ` |
| ApiClient.ResponseErrorMessage | frontend/src/shared/lib/api/client.ts:44-64 | a non-empty `error` in the JSON body is the message; otherwise a non-empty `message`; otherwise (both absent or empty, or a body that is not JSON) the status message; the result is never empty |
| ApiClient.HandleApiError | frontend/src/shared/lib/api/client.ts:40-81 | an error with a `Response` keeps its status and response and takes the body's message; an object with a string `message` is a `500` with that message; a non-object is `Unknown error occurred`/`500`; no input ever yields a `NetworkError`, because every `Error` has a string `message` and is caught by the earlier branch |
| ApiClient.ApiRequest | frontend/src/shared/lib/api/client.ts:83-150 | success exactly when the request completes with no `error` and with `data`, and then the result is that data; a thrown value or an `error` goes through `handleApiError`; missing data is `No data received from API`/`500` |
| ApiClient.ApiDelete | frontend/src/shared/lib/api/client.ts:152-171 | success exactly when the request completes with no `error`, whether or not there is data |
| ApiClient.DeleteAgreesWithRequest | frontend/src/shared/lib/api/client.ts:83-171 | with data, a delete answers like the other requests; a delete succeeds where they fail only when the body is empty |
| BackendUrl.ApiBaseUrl | frontend/src/lib/api/utils.ts:1 | a set, non-empty environment value is used, otherwise `http://localhost:8000`; never empty |
| BackendUrl.SplitAllEmpty | frontend/src/lib/api/utils.ts:12 | `split('/').filter(Boolean)` is empty exactly when the string is made of slashes only |
| BackendUrl.RootOnlyIffSlashes | frontend/src/lib/api/utils.ts:12 | the root-path test holds of a non-empty trimmed URL exactly when it is only slashes |
| BackendUrl.NormalizeBackendUrl | frontend/src/lib/api/utils.ts:3-33 | a non-null result is non-empty |
| BackendUrl.TrimmedNullIff | frontend/src/lib/api/utils.ts:12-14 | on a non-empty trimmed URL the result is `null` exactly when the URL is only slashes |
| BackendUrl.NormalizeNullIff | frontend/src/lib/api/utils.ts:5-14 | the result is `null` exactly for a missing or blank URL and for one that is only slashes once trimmed |
| BackendUrl.DefaultBaseWellFormed | frontend/src/lib/api/utils.ts:1 | the default base is trimmed, not only slashes, and not a prefix or extension of either local address other than itself |
| BackendUrl.LocalPrefixesExclusive | frontend/src/lib/api/utils.ts:17 | no URL starts with both `http://localhost:8000` and `https://localhost:8000` |
| BackendUrl.BaseDecidesLocal | frontend/src/lib/api/utils.ts:17-18 | `base + rest` starts with a local address only when the base is that address |
| BackendUrl.TrimmedPrefixedFixed | frontend/src/lib/api/utils.ts:17-32 | after trimming, a URL that already starts with a well-formed base is returned unchanged |
| BackendUrl.PrefixedFixed | frontend/src/lib/api/utils.ts:3-33 | normalising `base + rest` gives it back when the base is well formed |
| BackendUrl.NormalizeIdempotent | frontend/src/lib/api/utils.ts:3-33 | with a well-formed base, normalising twice is normalising once |
| ConfirmModalHook.ConfirmModal.constructor | frontend/src/hooks/useConfirmModal.ts:4-5 | no pending id, not processing |
| ConfirmModalHook.ConfirmModal.OpenConfirm | frontend/src/hooks/useConfirmModal.ts:7-9 | the pending id becomes the given one, replacing any other; the processing flag is kept |
| ConfirmModalHook.ConfirmModal.CloseConfirm | frontend/src/hooks/useConfirmModal.ts:11-15 | while processing, the pending id is kept; otherwise it is cleared; the flag never changes |
| ConfirmModalHook.ConfirmModal.StartProcessing | frontend/src/hooks/useConfirmModal.ts:17-19 | processing starts and the pending id is kept |
| ConfirmModalHook.ConfirmModal.StopProcessing | frontend/src/hooks/useConfirmModal.ts:21-23 | processing stops and the pending id is kept |
| ConfirmModalHook.ConfirmModal.Reset | frontend/src/hooks/useConfirmModal.ts:25-28 | back to the initial state in one step, even while processing |
| ConfirmModalHook.CloseWhileProcessing | frontend/src/hooks/useConfirmModal.ts:11-15 | any number of close attempts while processing keep the target and the processing flag |
| ConfirmModalHook.ProcessingProtectsTarget | frontend/src/hooks/useConfirmModal.ts:7-23 | open, start, close keeps the target (asserted in the body); stopping and closing again clears it |
| JsValues.ErrorMessageOr | frontend/src/hooks/useLatexCompile.ts:36-39 | an `Error` gives its own message, anything else thrown gives the fallback |
| JsValues.OrNull | frontend/src/hooks/useLatexCompile.ts:32 | `s` or else `null`: a present result is the input and is non-empty; a non-empty input is kept |
| Errors.ToAppError | frontend/src/shared/lib/errors.ts:68-81 | an `AppError` is returned as it is; anything else becomes an `AppError` with code `UNKNOWN_ERROR` and no status, whose message is the `Error`'s message, the string itself, or `予期しないエラーが発生しました` |
| Errors.ToAppErrorIdempotent | frontend/src/shared/lib/errors.ts:68-81 | normalising an already normalised error changes nothing |
| Errors.OrIfEmpty | frontend/src/shared/lib/errors.ts:100 | the message or else the fallback: a non-empty message wins; a non-empty fallback makes the result non-empty |
| Errors.FriendlyMessage | frontend/src/shared/lib/errors.ts:83-123 | the user-facing message is never empty |
| Errors.FixedTextIgnoresMessage | frontend/src/shared/lib/errors.ts:105-118 | for network, authentication, authorization and not-found codes the text does not depend on the error's message |
| Errors.StatusTextsAgreeWithSubclasses | frontend/src/shared/lib/errors.ts:86-118 | an `ApiError` with status 401, 403 or 404 reads exactly like `AuthenticationError`, `AuthorizationError` or `NotFoundError`, whatever either message is |
| Errors.NonErrorMessages | frontend/src/shared/lib/errors.ts:77-80 | a thrown non-`Error` reaches the user as its own text when it is a non-empty string, and as one of the two generic fallbacks otherwise |
| Errors.ErrorToResult | frontend/src/shared/lib/errors.ts:125-130 | always a failure carrying the normalised error |
| Errors.ToResult | frontend/src/shared/lib/errors.ts:132-141 | `Ok` exactly when the promise fulfils, with its value; a rejection carries the normalised error |
| LatexCompileHook.LatexCompile.constructor | frontend/src/hooks/useLatexCompile.ts:12-14 | not compiling, no error |
| LatexCompileHook.LatexCompile.BeginCompile | frontend/src/hooks/useLatexCompile.ts:16-29 | compiling starts with the error cleared; the request carries the code, project and mode, and an empty document id is sent as absent |
| LatexCompileHook.LatexCompile.FinishCompile | frontend/src/hooks/useLatexCompile.ts:30-44 | the flag always drops; a result exactly when the call returned, with the id made `null` when empty and the PDF URL normalised; a thrown value sets the error to its message or `PDF生成中にエラーが発生しました` |
| LatexCompileHook.LatexCompile.Compile | frontend/src/hooks/useLatexCompile.ts:16-45 | from start to end: the request carries the code, the hook's project and mode and the id with an empty one sent as absent; a result exactly when the call returned, and exactly when no error is left; the result holds the null-normalised id and the normalised PDF URL; a thrown value leaves its message or `PDF生成中にエラーが発生しました` |
| LatexCompileHook.LatexCompile.ClearError | frontend/src/hooks/useLatexCompile.ts:47-49 | clears the error and keeps the flag |
| OcrHook.FileProblem | frontend/src/hooks/useOcr.ts:21-33 | no message exactly for an `image/` type of at most 10 MiB; a wrong type is reported before the size |
| OcrHook.ShapeResponse | frontend/src/hooks/useOcr.ts:45-55 | accepted exactly when the LaTeX code is non-empty; then the code is kept, the document id is kept with an absent or empty one becoming `null`, and the PDF URL is normalised |
| OcrHook.SizeLimitIsInclusive | frontend/src/hooks/useOcr.ts:28-33 | an image is accepted exactly when its size is at most 10 MiB (inclusive); a larger one is refused with the size message |
| OcrHook.Ocr.constructor | frontend/src/hooks/useOcr.ts:16-18 | not processing, no error |
| OcrHook.Ocr.BeginProcessOcr | frontend/src/hooks/useOcr.ts:20-41 | a refused file sets its message and sends nothing; an accepted one starts processing, clears the error and sends the file with the project id |
| OcrHook.Ocr.FinishProcessOcr | frontend/src/hooks/useOcr.ts:43-66 | the flag always drops; an accepted response is the result with the error untouched; an empty code sets `LaTeXコードの生成に失敗しました`; a thrown value sets its message or `OCR処理中にエラーが発生しました` |
| OcrHook.Ocr.ProcessOcr | frontend/src/hooks/useOcr.ts:20-67 | the backend is called exactly for an accepted file, and a refused one leaves its message; after a call, an accepted response gives its shaped result with no error left, an empty code gives no result and `LaTeXコードの生成に失敗しました`, and a thrown value gives no result and its message or `OCR処理中にエラーが発生しました` |
| OcrHook.Ocr.ClearError | frontend/src/hooks/useOcr.ts:69-71 | clears the error and keeps the flag |
| PdfUrlHook.PdfUrl.constructor | frontend/src/hooks/usePdfUrl.ts:4-10 | the initial URL is `null` for a falsy input and its normalisation otherwise; the stored value is always a normalisation |
| PdfUrlHook.PdfUrl.UpdatePdfUrl | frontend/src/hooks/usePdfUrl.ts:12-19 | the stored URL becomes the normalisation of the new one, `null` included; handing back the stored URL changes nothing when the base is well formed |
| PreviewPanelState.ZoomIn | frontend/src/components/features/editor/PreviewPanel.tsx:44-48 | below 200 the zoom rises by 10 capped at 200; at or above 200 nothing changes; a zoom in [50, 200] stays there and does not fall |
| PreviewPanelState.ZoomOut | frontend/src/components/features/editor/PreviewPanel.tsx:50-54 | above 50 the zoom falls by 10 floored at 50; at or below 50 nothing changes; a zoom in [50, 200] stays there and does not rise |
| PreviewPanelState.ZoomStaysInRange | frontend/src/components/features/editor/PreviewPanel.tsx:44-54 | from inside [50, 200] no sequence of presses leaves the range |
| PreviewPanelState.ZoomInReachesMax | frontend/src/components/features/editor/PreviewPanel.tsx:44-48 | enough zoom-ins (one per 10 points of distance) reach exactly 200 |
| PreviewPanelState.PreviewPanel.constructor | frontend/src/components/features/editor/PreviewPanel.tsx:24-38 | the zoom prop defaults to 100 and seeds the local zoom; the notes start as the saved ones or `''`; no message is shown |
| PreviewPanelState.PreviewPanel.SetZoomProp | frontend/src/components/features/editor/PreviewPanel.tsx:25 | a new `zoom` prop changes only the external zoom |
| PreviewPanelState.PreviewPanel.HandleZoomIn | frontend/src/components/features/editor/PreviewPanel.tsx:41-48 | with a callback, the new zoom is emitted exactly when the zoom is below 200 and local state is untouched; without one, the local zoom takes the new value |
| PreviewPanelState.PreviewPanel.HandleZoomOut | frontend/src/components/features/editor/PreviewPanel.tsx:41-54 | with a callback, the new zoom is emitted exactly when the zoom is above 50; without one, the local zoom takes the new value |
| PreviewPanelState.PreviewPanel.ChangeSolutionNotes | frontend/src/components/features/editor/PreviewPanel.tsx:56-60 | the notes take the new text and both messages are cleared |
| PreviewPanelState.PreviewPanel.BeginSaveNotes | frontend/src/components/features/editor/PreviewPanel.tsx:62-66 | both messages are cleared and the current notes are sent |
| PreviewPanelState.PreviewPanel.FinishSaveNotes | frontend/src/components/features/editor/PreviewPanel.tsx:66-81 | success shows the success message and notifies the parent with the notes; a failure sets the error to its message or `保存に失敗しました` and notifies nobody |
| PreviewPanelState.PreviewPanel.SuccessTimerFires | frontend/src/components/features/editor/PreviewPanel.tsx:72-74 | the success message is hidden and nothing else changes |
| ProjectFilter.ComparatorIsPreorder | frontend/src/shared/lib/utils/filter.ts:18-23 | the sort comparator, in either direction and on either key, is a total preorder |
| Text.LowerAt | frontend/src/shared/lib/utils/filter.ts:12-14 | lower-casing maps each character in place and keeps the length |
| ProjectFilter.Selected | frontend/src/shared/lib/utils/filter.ts:12-15 | every item whose lower-cased title contains the lower-cased query is kept as often as it occurs, and no other |
| ProjectFilter.FilterAndSortProjects | frontend/src/shared/lib/utils/filter.ts:1-26 | a blank query keeps a permutation of the items, any other exactly the matching ones; the result is ordered by the chosen key ascending or descending, and items of equal key keep their relative order |
| ProjectFilter.EqualKeysKeepOrder | frontend/src/shared/lib/utils/filter.ts:18-23 | items of equal key come out in the order they went in (a stable sort) |
| ProjectFilter.EquivalenceIsSameKey | frontend/src/shared/lib/utils/filter.ts:18-23 | the items the comparator treats as equal to one are exactly those with the same key |
| ProjectFilter.NoMatchEmpty | frontend/src/shared/lib/utils/filter.ts:11-15 | a non-blank query that no title contains leaves nothing |
| ResizerHook.ClampHeight | frontend/src/hooks/useResizer.ts:14-20 | the height is raised to 100, then lowered to the container height minus 100: inside that range when it is non-empty, the mouse's offset when that is in range |
| ResizerHook.Resizer.constructor | frontend/src/hooks/useResizer.ts:3-5 | the given height, not dragging, no listeners |
| ResizerHook.Resizer.Default | frontend/src/hooks/useResizer.ts:3-5 | without an initial height the pane starts at the default 300, not dragging, no listeners |
| ResizerHook.Resizer.RunEffect | frontend/src/hooks/useResizer.ts:7-42 | listeners are registered exactly while dragging, and dragging sets the `row-resize` cursor and disables selection |
| ResizerHook.Resizer.StartResizing | frontend/src/hooks/useResizer.ts:44-46 | dragging starts, the listeners are registered, the body gets the `row-resize` cursor and `user-select: none`; the height is kept |
| ResizerHook.Resizer.MouseUp | frontend/src/hooks/useResizer.ts:25-29 | heard only while listening; then dragging stops, listeners are removed and the body styles are reset |
| ResizerHook.Resizer.MouseMove | frontend/src/hooks/useResizer.ts:10-23 | while dragging with the container attached the height becomes the clamped mouse offset; otherwise the height is kept; dragging, listeners and body styles never change |
| ResizerHook.Resizer.Unmount | frontend/src/hooks/useResizer.ts:38-41 | the listeners are removed whatever the state; height, dragging flag and body styles are kept |
| ResizerHook.Resizer.SetTopPaneHeight | frontend/src/hooks/useResizer.ts:4 | the exposed setter sets the height; dragging, listeners and body styles are kept |
| Results.Match | frontend/src/shared/lib/result.ts:27-37 | a success goes to `onSuccess` with its data, a failure to `onError` with its error |
| Results.Unwrap | frontend/src/shared/lib/result.ts:39-41 | data exactly for a success; agrees with `match` choosing the data or `undefined` |
| Results.UnwrapOr | frontend/src/shared/lib/result.ts:43-45 | the data of a success, otherwise the default; agrees with `unwrap` and with `match` |
| Results.UnwrapOrThrow | frontend/src/shared/lib/result.ts:47-52 | returns exactly for a success, with its data; what is thrown is always an `Error`, and an `Error` held by the failure is thrown as it is |
| Results.UnwrapOrThrowWith | frontend/src/shared/lib/result.ts:54-62 | returns exactly for a success, with its data; a failure throws what `createError` makes of its error |
| ServerApi.HandleServerApiError | frontend/src/lib/api/server.ts:93-128 | a status exactly when the object carries a `Response`, with that status and the body's message; message and response always agree with the client's classification |
| ServerApi.ServerGet | frontend/src/lib/api/server.ts:32-80 | each fetcher throws exactly when openapi-fetch reports an error, the classified error; otherwise it returns the data, possibly absent |
| TemplateFormHook.DefaultContentHasPlaceholder | frontend/src/hooks/useTemplateForm.ts:11-18 | the default template content contains `{children}` |
| TemplateFormHook.FormProblem | frontend/src/hooks/useTemplateForm.ts:63-75 | no message exactly when the name is not blank and the content contains `{children}`; a blank name is reported first |
| TemplateFormHook.SaveDecision | frontend/src/hooks/useTemplateForm.ts:84-95 | an update exactly when a template is being edited, with its id and its default flag (`false` when absent); a creation is never default; name and content are sent as they are |
| TemplateFormHook.ResetFormNeedsOnlyName | frontend/src/hooks/useTemplateForm.ts:11-40 | a reset form fails validation only on its empty name, and any non-blank name makes it valid |
| TemplateFormHook.TemplateForm.constructor | frontend/src/hooks/useTemplateForm.ts:25-31 | empty name, default content, nothing being edited, no error |
| TemplateFormHook.TemplateForm.ResetForm | frontend/src/hooks/useTemplateForm.ts:33-40 | the initial state again |
| TemplateFormHook.TemplateForm.SetEditingTemplateData | frontend/src/hooks/useTemplateForm.ts:42-56 | a loaded template fills the form, becomes the one being edited and clears the error; a failure sets `テンプレートの取得に失敗しました`, keeps the form and is re-thrown |
| TemplateFormHook.TemplateForm.UpdateFormData | frontend/src/hooks/useTemplateForm.ts:58-61 | only the supplied fields change and the error clears |
| TemplateFormHook.TemplateForm.ValidateForm | frontend/src/hooks/useTemplateForm.ts:63-75 | valid exactly when there is no form problem; an invalid form sets that problem as the error; the form is unchanged |
| TemplateFormHook.TemplateForm.BeginSaveTemplate | frontend/src/hooks/useTemplateForm.ts:77-95 | an invalid form makes no call and shows its problem; a valid one clears the error and makes the call `SaveDecision` picks |
| TemplateFormHook.TemplateForm.FinishSaveTemplate | frontend/src/hooks/useTemplateForm.ts:86-100 | a failed call sets `保存に失敗しました` and is re-thrown; a success changes nothing |
| FileStorage.GetFileUrl | backend/app/utils/file_storage.py:41-49 | a `.pdf` path is served under `/api/latex/pdf/` with its leading slashes removed; any other path is appended to the media URL unchanged |
| FileStorage.PdfUrlTail | backend/app/utils/file_storage.py:44-47 | what follows the endpoint in a PDF URL still ends in `.pdf` and does not start with `/` |
| FileStorage.PathJoin | backend/app/utils/file_storage.py:13 | `os.path.join` of two components: an absolute second component replaces the first, and the result always ends with the second |
| FileStorage.FileName | backend/app/utils/file_storage.py:11-12 | `{prefix}_{timestamp}.{ext}` when a prefix is given, `{timestamp}.{ext}` otherwise |
| FileStorage.SavedPdfPath | backend/app/utils/file_storage.py:30-39 | a PDF saved in the default folder is stored at `pdfs/` followed by its file name |
| FileStorage.SavedPdfUrl | backend/app/utils/file_storage.py:30-49 | such a PDF's URL is the PDF endpoint followed by exactly its stored path |
| FileStorage.MediaStorage.constructor | backend/app/utils/file_storage.py:15 | a storage rooted at `MEDIA_ROOT` holding the given files |
| FileStorage.MediaStorage.Save | backend/app/utils/file_storage.py:11-17 | the returned relative path is the folder joined with the built file name when that is free, otherwise the storage's alternative name (`_` and the random string of the draw that found a free name, inserted before the extension); the returned path was free, so no stored file is overwritten; the file under it is now on disk and nothing else changes |
| FileStorage.MediaStorage.SaveImage | backend/app/utils/file_storage.py:9-17 | a `.png` is stored under the requested name, or the alternative name when that is taken, and the path used is returned; it was free, so nothing is overwritten |
| FileStorage.MediaStorage.SaveLatexFile | backend/app/utils/file_storage.py:19-28 | a `.tex` file is stored under the requested name, or the alternative name when that is taken, and the path used is returned; it was free, so nothing is overwritten |
| FileStorage.MediaStorage.SavePdf | backend/app/utils/file_storage.py:30-39 | a `.pdf` is stored under the requested name, or the alternative name when that is taken, and the path used is returned; it was free, so nothing is overwritten |
| FileStorage.MediaStorage.DeleteFile | backend/app/utils/file_storage.py:58-68 | fails exactly when the file is there and its removal raises `OSError`, leaving the disk unchanged; an empty path touches nothing; on success the file is gone afterwards, whether or not it was there |
| PdfView.CheckPath | backend/api/latex/views/pdf_view.py:14-19 | after the leading slashes are stripped, accepted exactly when the path has no `..` and ends in `.pdf`; `Invalid file path` is checked before `Only PDF files are allowed` |
| PdfView.SlashCheckNeverFires | backend/api/latex/views/pdf_view.py:14-15 | after the strip the path never starts with `/`, so that half of the first test never fires |
| PdfView.AcceptedStaysUnderRoot | backend/api/latex/views/pdf_view.py:15-21 | an accepted path joined to the media root starts with the root |
| PdfView.Get | backend/api/latex/views/pdf_view.py:13-31 | a refused path keeps its message; an accepted one is served exactly when the joined file exists, and is `PDF file not found` otherwise |
| PdfView.StoredPdfUrlAccepted | backend/api/latex/views/pdf_view.py:14-19 | the tail of any URL `get_file_url` builds for a `.pdf` path without `..` passes every check and names that path without its leading slashes |
| LatexExtraction.FindFence | backend/api/explanation/services/explanation_service.py:17-18 | the first occurrence of ```` ``` ```` at or after the start position, or none when there is none |
| LatexExtraction.NoFenceInTag | backend/api/explanation/services/explanation_service.py:17 | no fence starts inside the `latex` tag after an opening fence, so skipping the tag cannot skip a closing fence |
| LatexExtraction.FencedBlock | backend/api/explanation/services/explanation_service.py:17-22 | a block exactly when an opening fence is followed by a later, non-overlapping one; the block is stripped text |
| LatexExtraction.CommandsExclusive | backend/api/explanation/services/explanation_service.py:47-64 | no line can start with both `\begin{document}` and `\end{document}`, or with either and a preamble command |
| LatexExtraction.KindTests | backend/api/explanation/services/explanation_service.py:45-65 | a line is classed as preamble, begin or end exactly when the corresponding case-insensitive `re.match` succeeds on the stripped line |
| LatexExtraction.Kinds | backend/api/explanation/services/explanation_service.py:41-42 | one kind per line, in order: the i-th kind is the kind of the i-th line |
| LatexExtraction.ClassifyLine | backend/api/explanation/services/explanation_service.py:42-65 | the tests of the loop body on a stripped line give exactly that line's kind |
| LatexExtraction.ExtractDocumentBody | backend/api/explanation/services/explanation_service.py:32-81 | the result is the document body: an empty input comes back as it is; otherwise the kept lines joined and stripped, or the stripped input when nothing is kept or the join strips to nothing |
| LatexExtraction.ScanLines | backend/api/explanation/services/explanation_service.py:36-69 | the loop over the lines, with its two flags, keeps exactly the lines of the recursive scan |
| LatexExtraction.ScanFromIsScanBody | backend/api/explanation/services/explanation_service.py:41-69 | the loop's scan from a line index agrees with the scan of the remaining lines |
| LatexExtraction.ExtractLatexFromResponse | backend/api/explanation/services/explanation_service.py:11-30 | `None` and `""` come back unchanged; any other answer gives a string |
| LatexExtraction.FirstOfKind | backend/api/explanation/services/explanation_service.py:41-65 | the index of the first line of a kind, or the line count when there is none |
| LatexExtraction.BodyIsPrefix | backend/api/explanation/services/explanation_service.py:63-69 | inside the document, every line before the first `\end{document}` is kept verbatim, preamble commands included |
| LatexExtraction.PreambleDropped | backend/api/explanation/services/explanation_service.py:45-61 | before the document, lines up to and including the first `\begin{document}` are dropped; an `\end{document}` first, or no `\begin{document}`, keeps nothing |
| LatexExtraction.ScanIsSlice | backend/api/explanation/services/explanation_service.py:36-69 | the kept lines are exactly those strictly between the first `\begin{document}` line and the next `\end{document}` line |
| LatexExtraction.ScanBodyKeepsLines | backend/api/explanation/services/explanation_service.py:67-69 | every kept line is a line of the input |
| LatexExtraction.DocumentBodyEmptyIff | backend/api/explanation/services/explanation_service.py:71-81 | the body is empty exactly when the input is blank |
| LatexExtraction.ExtractEmptyIff | backend/api/explanation/services/explanation_service.py:11-30 | a non-empty answer cleans up to `""` exactly when its fenced block is empty, or, without a block, when the answer is blank |
| LatexExtraction.TrimIdempotentOnBlock | backend/api/explanation/services/explanation_service.py:22 | the extracted block is already stripped |
| SerializerFields.CharField | backend/api/project/serializers/project_serializer.py:9-12 | a missing key is `This field is required.` when required and absent otherwise; a blank value is `""` when blanks are allowed and `This field may not be blank.` otherwise; any other value is accepted, trimmed, exactly when the trimmed length is within `max_length` and it holds no NUL character; a value within the limit that holds one gets `Null characters are not allowed.`; an accepted value never holds one |
| SerializerFields.ErrorsOf | backend/api/template/serializers/template_serializer.py:5-50 | a field contributes an error to the `400` body exactly when it is invalid |
| SerializerFields.ValueOf | backend/api/template/serializers/template_serializer.py:5-50 | a validated value exactly when the field produced one |
| ProjectSerializer.ValidateTitle | backend/api/project/serializers/project_serializer.py:14-20 | a title is refused with `プロジェクトタイトルは必須です` exactly when it is empty or blank; an accepted one is returned stripped and non-empty |
| ProjectSerializer.TitleField | backend/api/project/serializers/project_serializer.py:5-20 | accepted exactly when sent, not blank, at most 200 characters once trimmed and free of NUL characters; then the stripped title; the field is never absent |
| ProjectSerializer.TitleMessageNeverReached | backend/api/project/serializers/project_serializer.py:9-20 | the field checks run first and hand `validate_title` a stripped non-empty value, so its message is never produced: a refusal is always one of DRF's four field messages (required, blank, too long, null character) |
| ProjectSerializer.SolutionNotesField | backend/api/project/serializers/project_serializer.py:23-31 | optional, may be blank: absent exactly when not sent; refused, with DRF's null-character message, exactly when the trimmed notes hold a NUL character; otherwise the trimmed notes |
| ProjectSerializer.Summary | backend/api/project/serializers/project_serializer.py:34-51 | the project's id, title and both timestamps |
| ProjectSerializer.ToView | backend/api/project/serializers/project_serializer.py:54-75 | `pdf_url` is `None` exactly for a document without a PDF, otherwise the file's URL; the other fields are the document's |
| TemplateSerializer.ValidateContent | backend/api/template/serializers/template_serializer.py:19-27 | accepted exactly when the model's `clean()` would accept the content, unchanged; otherwise the placeholder message |
| TemplateSerializer.ContentField | backend/api/template/serializers/template_serializer.py:11-27 | an accepted content is the trimmed value and holds `{children}`; a non-blank value is accepted exactly when its trimmed form holds it and no NUL character |
| TemplateSerializer.Validate | backend/api/template/serializers/template_serializer.py:29-50 | refused exactly when `is_default` is sent as true and another template of the caller, not the instance being updated, is already default |
| TemplateSerializer.ValidateRequest | backend/api/template/serializers/template_serializer.py:5-50 | accepted exactly when no field check fails and `validate` passes; `is_default` is passed through |
| TemplateSerializer.AcceptedFields | backend/api/template/serializers/template_serializer.py:5-50 | accepted fields are trimmed, non-blank, within 200 characters, the content holds the placeholder, every field is present unless the update is partial, and a default request has no rival default |
| TemplateSerializer.Apply | backend/api/template/serializers/template_serializer.py:5-17 | saving on an instance replaces exactly the validated fields and keeps id, owner and creation time |
| TemplateSerializer.NewRow | backend/api/template/serializers/template_serializer.py:5-17 | a new row belongs to the caller, with the validated fields and `is_default` false when not sent |
| TemplateSerializer.AcceptedCreatePassesFullClean | backend/api/template/serializers/template_serializer.py:5-50 | whatever the serializer accepts for a new template passes the model's `full_clean()` |
| TemplateSerializer.AcceptedUpdatePassesFullClean | backend/api/template/serializers/template_serializer.py:5-50 | the same for an update, full or partial, of one of the caller's templates |
| TemplateModel.Clean | backend/app/models/latex_template.py:50-57 | refused exactly when the content lacks `{children}`, with the placeholder message |
| TemplateModel.FullClean | backend/app/models/latex_template.py:21-63 | no error exactly when the row's fields are valid and no other row of the same user is already default; the placeholder and duplicate-default errors are reported exactly when those checks fail |
| TemplateModel.Stamped | backend/app/models/latex_template.py:32-33 | `updated_at` is always the save time; `created_at` is the save time for a new row and kept for an existing one; nothing else changes |
| TemplateModel.Upsert | backend/app/models/latex_template.py:59-64 | the row is stored, every other row is kept and nothing else appears; an existing key is updated in place, a new key appended |
| TemplateModel.SaveTemplate | backend/app/models/latex_template.py:59-64 | `full_clean()` first; the stamped row is written exactly when it passes; no other table changes |
| TemplateModel.SaveKeepsValid | backend/app/models/latex_template.py:41-64 | a row that passes `full_clean()` keeps the table valid: distinct ids and at most one default per user |
| TemplateModel.Str | backend/app/models/latex_template.py:66-69 | `LatexTemplate {name} by {owner}`, the owner being the username or `System`, then ` (デフォルト)` for a default template |
| TemplateService.ReplaceAllLength | backend/api/template/services/template_service.py:16-17 | `str.replace` changes the length by the replacement's excess once per non-overlapping occurrence |
| TemplateService.Wrap | backend/api/template/services/template_service.py:16-17 | every `{children}` of the content is replaced by the code: the wrapped length is the content's plus, per placeholder, the code's length minus 10; content without `{children}` comes back unchanged whatever the code |
| TemplateService.ReplaceAllAbsent | backend/api/template/services/template_service.py:16-17 | text without an occurrence comes back unchanged |
| TemplateService.NoneBeforeTail | backend/api/template/services/template_service.py:16-17 | dropping the first character of an occurrence-free prefix keeps it occurrence-free |
| TemplateService.ReplaceAllSkipsPrefix | backend/api/template/services/template_service.py:16-17 | a stretch before the first occurrence is copied unchanged by the replacement |
| TemplateService.ReplaceFirstSkipsPrefix | frontend/src/hooks/useTemplateLoader.ts:32 | the same holds for JavaScript's replace-first |
| TemplateService.WrapSinglePlaceholder | backend/api/template/services/template_service.py:16-17 | with exactly one placeholder, wrapping puts the code in its place and keeps both sides |
| TemplateService.ReplaceFirstAgreesOnSinglePlaceholder | frontend/src/hooks/useTemplateLoader.ts:32 | on a template with one placeholder, the frontend's replace-first and the backend's replace-all agree |
| TemplateService.ReplaceFirstDiffersOnTwoPlaceholders | frontend/src/hooks/useTemplateLoader.ts:32 | with two placeholders they differ whenever the code is not itself `{children}` |
| TemplateService.GetUserTemplate | backend/api/template/services/template_service.py:5-9 | a found template is the user's default; `None` exactly when the user has no default |
| TemplateService.UserTemplateNeverMultiple | backend/api/template/services/template_service.py:5-9 | under the single-default constraint the lookup never raises `MultipleObjectsReturned` |
| TemplateService.DefaultsOfUser | backend/api/template/services/template_service.py:5-9 | under that constraint a user has at most one default template |
| TemplateService.GetSystemDefaultTemplate | backend/api/template/services/template_service.py:12-13 | a found template has no user and is named `システムデフォルト`; missing exactly when there is no such template |
| TemplateViews.ListOrderIsPreorder | backend/api/template/views/template_view.py:29-31 | `order_by("-is_default", "-created_at")` is a total preorder |
| TemplateViews.List | backend/api/template/views/template_view.py:25-33 | exactly the caller's templates, each as often as stored, never a system template; defaults first, then newest first |
| TemplateViews.Lookup | backend/api/template/views/template_view.py:64-72 | the position of the caller's template with that key; `None` exactly when the caller has none with it |
| TemplateViews.Retrieve | backend/api/template/views/template_view.py:79-91 | `200` with the template exactly when the caller owns one with that key; otherwise `404` with `テンプレートが見つかりません` |
| TemplateViews.UpsertStored | backend/api/template/views/template_view.py:113-114 | with distinct keys, saving a row with a stored key rewrites that position only and keeps its creation time |
| TemplateViews.FreshTemplate | backend/api/template/views/template_view.py:50 | a row under a fresh key is appended, stamped with the save time for both timestamps |
| TemplateViews.Create | backend/api/template/views/template_view.py:41-55 | a rejected request is `400` with its errors and changes nothing; an accepted one appends the caller's new template under a fresh key and answers `201` with it; the table stays valid and other tables do not change |
| TemplateViews.Update | backend/api/template/views/template_view.py:99-150 | unknown or foreign key: `404`, nothing changes; rejected request: `400`, nothing changes; otherwise the template is rewritten in place with the sent fields and a new `updated_at` and returned with `200`; the table stays valid |
| TemplateViews.UnsentFieldsKept | backend/api/template/views/template_view.py:127-150 | a partial update keeps every field that was not sent, and sent fields take their trimmed values; id, owner and creation time never change |
| TemplateViews.Delete | backend/api/template/views/template_view.py:157-170 | unknown or foreign key: `404`; otherwise that one row is removed and the answer is `204`; the table stays valid |
| TemplateViews.DeleteRemovesOnlyTarget | backend/api/template/views/template_view.py:168 | the rows left are exactly the rows with another key |
| TemplateViews.PicksKeepValid | backend/api/template/views/template_view.py:168 | a table made of some rows of a valid table, in order, is valid |
| TemplateViews.RemoveKeepsValid | backend/api/template/views/template_view.py:168 | removing one row keeps the table valid |
| TemplateViews.SetDefaultRows | backend/api/template/views/template_view.py:196-201 | one row per stored row, each after the bulk clear and the target's save |
| TemplateViews.SetDefaultSingle | backend/api/template/views/template_view.py:196-201 | afterwards the target is the caller's one and only default |
| TemplateViews.SetDefaultFrame | backend/api/template/views/template_view.py:196-201 | nobody else's templates change, and of the caller's only `is_default` (and the target's `updated_at`) |
| TemplateViews.SetDefaultIdempotent | backend/api/template/views/template_view.py:184-205 | setting the same default twice is setting it once |
| TemplateViews.ClearOtherDefaults | backend/api/template/views/template_view.py:196-198 | the bulk `update(is_default=False)` clears the caller's other defaults row by row and touches nothing else |
| TemplateViews.SetDefault | backend/api/template/views/template_view.py:184-205 | unknown or foreign key: `404`, nothing changes; otherwise the table becomes `SetDefaultRows` and the target is answered with `200`; the table stays valid |
| TemplateViews.ClearedThenSaved | backend/api/template/views/template_view.py:196-201 | saving the target into the cleared table passes `full_clean()` and yields exactly `SetDefaultRows` |
| TemplateViews.SetDefaultKeepsValid | backend/api/template/views/template_view.py:196-201 | the table after `set_default` is valid |
| Records.Filter | backend/api/latex/views/latex_render_view.py:69-71 | `.filter(...)`: exactly the rows satisfying the condition, each as often as stored, in table order; empty exactly when no row satisfies it |
| Records.Get | backend/api/template/services/template_service.py:5-9 | `.get(...)`: `DoesNotExist` exactly when no row matches; a found row is the only match; `MultipleObjectsReturned` when more than one does |
| Records.Best | backend/api/latex/views/latex_render_view.py:102-110 | `.order_by('-version').first()`: a row exactly when one matches, and it has the highest version among the matches |
| Records.SourceFor | backend/api/latex/views/latex_render_view.py:102-110 | a source exactly when the project has a problem document; when one is confirmed, it is the latest confirmed one |
| Records.SourceForChoice | backend/api/latex/views/latex_render_view.py:102-110 | the source is a stored problem document of the project: a confirmed one of highest version among the confirmed when any is confirmed, otherwise one of highest version |
| Records.MaxVersion | backend/api/latex/views/latex_render_view.py:69-71 | `aggregate(Max('version'))['max_version'] or 0`: no version of the project exceeds it, some version equals it, and it is 0 for a project without documents |
| Records.FreshId | backend/app/models/problem_latex_document.py:11 | a key different from every key in use, standing for `uuid.uuid4()` |
| Records.FreshProblemKey | backend/app/models/problem.py:7 | the fresh key differs from every stored project's key |
| Records.FreshDocumentKey | backend/app/models/problem_latex_document.py:11 | the fresh key differs from every stored document's key |
| Records.Database.constructor | backend/app/models/problem_latex_document.py:32-39 | an empty database, which satisfies every table constraint |
| DocumentModels.NewDocument | backend/app/models/problem_latex_document.py:11-30 | `objects.create(...)`: the given fields, version 1 when not given, unconfirmed, no PDF, both timestamps the creation time |
| DocumentModels.WithoutPdf | backend/app/models/problem_latex_document.py:41-48 | the path is emptied and nothing else changes; a row without a path is unchanged |
| DocumentModels.WithoutPdfIdempotent | backend/app/models/explanation.py:51-58 | clearing twice is clearing once, and the keys never change |
| DocumentModels.RewriteKeepsValid | backend/app/models/problem_latex_document.py:32-39 | rewriting a row without touching its key, project, version or source keeps the primary keys, `unique_together` and every explanation source valid |
| DocumentModels.DeletePdfFile | backend/app/models/problem_latex_document.py:41-48 | with a path, the row's path is emptied (`save(update_fields=["pdf_path"])` leaves `updated_at` alone) and the file leaves the disk unless its removal fails, which is ignored; without one, nothing changes; no other row or table changes |
| DocumentModels.PdfExists | backend/app/models/problem_latex_document.py:50-56 | false for an empty path; otherwise exactly when the file is on disk |
| DocumentModels.ProjectCreatedAt | backend/app/models/problem.py:27 | with unique project keys, the creation time of the project a document points at, through which Django orders by the `problem` foreign key |
| DocumentModels.DefaultOrderIsPreorder | backend/app/models/problem_latex_document.py:34 | the ordering `["problem", "-version"]`, resolved as project creation time descending then version descending, is a total preorder |
| DocumentModels.OrderedCorrect | backend/app/models/explanation.py:43-44 | reading in the default ordering is a permutation, newest project first and, among rows of projects created at the same instant, highest version first (such projects' rows may interleave); under `unique_together` a project's versions strictly decrease |
| DocumentModels.DetachSources | backend/app/models/explanation.py:17-24 | `on_delete=SET_NULL`: explanations whose source was deleted lose it; nothing else changes |
| LatexRender.ValidateRender | backend/api/latex/serializers/latex_serializer.py:21-30 | accepted exactly when `problem_id` is sent, `document_type` is `problem` or `explanation` and `latex_code` is sent, not blank and free of NUL characters; then the trimmed code and the chosen table; a refusal carries DRF's required, blank, null-character or invalid-choice message |
| LatexRender.CheckDocumentId | backend/api/latex/views/latex_render_view.py:53-95 | no id sent: passes; an unknown id is refused as not found; a passing id names a row of the project; a refused linked id names a row of another project |
| LatexRender.CheckDocumentIdByOwner | backend/api/latex/views/latex_render_view.py:55-62 | with unique keys, an id passes exactly when its row belongs to the project, and is refused as unlinked exactly when it does not |
| LatexRender.IdRefusal | backend/api/latex/views/latex_render_view.py:58-95 | `400` with the table's not-linked message, or `404` with its not-found message |
| LatexRender.NextVersion | backend/api/latex/views/latex_render_view.py:69-72 | above every version of the project, one more than the highest, and 1 for a project without documents |
| LatexRender.NewRow | backend/api/latex/views/latex_render_view.py:74-117 | a fresh key and a new (project, version) pair, the project, the trimmed code and the next version; a problem document has no source, an explanation takes `SourceFor`; unconfirmed, no PDF |
| LatexRender.NextVersionKeepsRising | backend/api/latex/views/latex_render_view.py:69-78 | appending a row at the next version keeps each project's versions rising in insertion order |
| LatexRender.WithPdf | backend/api/latex/views/latex_render_view.py:129-130 | the path is recorded and `updated_at` moves to the save time; nothing else changes |
| LatexRender.AppendDocument | backend/api/latex/views/latex_render_view.py:74-78 | one row is appended to the chosen table and the database stays valid |
| LatexRender.AttachPdf | backend/api/latex/views/latex_render_view.py:129-130 | the row just appended to the chosen table gets its PDF path and timestamp, the rows before it and the other tables are unchanged, and the database stays valid |
| LatexRender.StoreAndCompile | backend/api/latex/views/latex_render_view.py:74-137 | the new row is appended before compiling; a compile failure keeps it without a PDF and answers `500` with the prefix; success records the PDF path on it and answers `200` with its id, PDF URL and version; the other document table is untouched |
| LatexRender.Render | backend/api/latex/views/latex_render_view.py:27-149 | a refused request is `500` with the prefix and the message; a missing or foreign project is refused before anything is written, even in the trash; a refused id is `400`/`404`; otherwise the new row is inserted, a compile failure is `500` and leaves the row without a PDF, and success records the PDF and answers `200` with the id, URL, version and time; the database stays valid |
| ProjectViews.Authorize | backend/api/project/views/project_view.py:114-127 | not found exactly when no row of that key is in the required trash state; granted only to the owner of such a row; forbidden only when such a row belongs to someone else |
| ProjectViews.AuthorizeByOwner | backend/api/project/views/project_view.py:114-127 | with unique keys, forbidden exactly when the row exists in that state and another user owns it, granted exactly when the caller owns it, and whether the row is found does not depend on who asks |
| ProjectViews.Refusal | backend/api/project/views/project_view.py:117-127 | a missing project answers 404 with its message, another user's project 403 with the access message |
| ProjectViews.Select | backend/api/project/views/project_view.py:36-39 | the selection holds each of the caller's rows in that state exactly as often as stored and no other row, sorted by the given order |
| ProjectViews.SummariesHold | backend/api/project/views/project_view.py:41-52 | a summary is in the response exactly when it is the summary of a listed row |
| ProjectViews.List | backend/api/project/views/project_view.py:32-54 | the list holds exactly the summaries of the caller's projects outside the trash, most recently updated first |
| ProjectViews.TrashRows | backend/api/project/views/project_view.py:409-412 | the trash rows are exactly the caller's trashed rows with their multiplicities, most recently deleted first |
| ProjectViews.TrashList | backend/api/project/views/project_view.py:405-427 | the trash list holds exactly the summaries of the caller's projects in the trash |
| ProjectViews.NewProblem | backend/api/project/views/project_view.py:78-82 | the created row has the caller, the title, no image, empty notes, is outside the trash, and both timestamps are the creation time |
| ProjectViews.Create | backend/api/project/views/project_view.py:69-96 | a valid title appends one project holding the stripped title with a fresh key and answers 201 with its summary; an invalid title answers 400 with the field error and changes nothing |
| ProjectViews.InsertProblem | backend/api/project/views/project_view.py:78-82 | the new row gets a key no existing project has, goes at the end of the table, and the database stays valid |
| ProjectViews.AddProblemKeepsValid | backend/api/project/views/project_view.py:78-82 | adding a project with an unused key keeps keys unique and every document pointing at an existing project |
| ProjectViews.Detail | backend/api/project/views/project_view.py:129-182 | the image URL and the notes are None exactly when empty; each latest document is present exactly when the project has one of that kind, and then it is the view of a row of the highest version |
| ProjectViews.Retrieve | backend/api/project/views/project_view.py:110-187 | answers 200 with the detail exactly when the lookup is granted on a project outside the trash, otherwise the 404 or 403 refusal |
| ProjectViews.RewriteProblemKeepsValid | backend/api/project/views/project_view.py:237-239 | rewriting a project's fields other than its key keeps the database valid |
| ProjectViews.ReplaceProblem | backend/api/project/views/project_view.py:237-239 | saving a row with its key unchanged replaces that row alone, leaves the document and template tables as they were and keeps the database valid |
| ProjectViews.SaveNotes | backend/api/project/views/project_view.py:237-239 | validated notes are stored with a new update time; unsent notes leave the table as it was; the documents are untouched |
| ProjectViews.Update | backend/api/project/views/project_view.py:195-300 | a refused lookup changes nothing; notes holding a NUL character are refused with a `400` on `solution_notes` and change nothing; otherwise, with notes sent the project gets the stripped notes and a new update time, without notes nothing changes, and the call answers 200 with the detail of the saved row |
| ProjectViews.MovedToTrash | backend/api/project/views/project_view.py:327-328 | the row gets the deletion time and a new update time, every other field unchanged |
| ProjectViews.RestoredFromTrash | backend/api/project/views/project_view.py:376-377 | the row leaves the trash with a new update time, every other field unchanged |
| ProjectViews.RestoreUndoesMoveToTrash | backend/api/project/views/project_view.py:327-328 | restoring a trashed project gives back the project as it was, except for its update time |
| ProjectViews.SoftDelete | backend/api/project/views/project_view.py:307-342 | only the caller's project outside the trash is moved to it, answered with its summary; otherwise 404 or 403 and nothing changes; the documents are untouched |
| ProjectViews.Restore | backend/api/project/views/project_view.py:356-391 | only the caller's project in the trash is restored, answered with its summary; a project outside the trash is not found and nothing changes |
| ProjectViews.TrashMovesBetweenLists | backend/api/project/views/project_view.py:307-427 | a project moved to the trash appears in the trash list and, with unique keys, no longer in the project list; restoring does the reverse |
| ProjectViews.OnlyRowWithKey | backend/app/models/problem.py:7 | under unique keys the row found is the only one with its key |
| ProjectViews.DocumentKeysOf | backend/app/models/explanation.py:17-24 | the set holds exactly the keys of the project's problem documents |
| ProjectViews.RemoveProblem | backend/api/project/views/project_view.py:461-462 | removing one project keeps the keys unique and every other project present |
| ProjectViews.RemoveDocuments | backend/app/models/problem_latex_document.py:12-14 | dropping a project's documents with it (CASCADE) keeps the remaining documents pointing at remaining projects |
| ProjectViews.RemoveExplanations | backend/app/models/explanation.py:10-24 | dropping the project's explanations (CASCADE) and detaching sources that pointed at its documents (SET_NULL) keeps the rest valid |
| ProjectViews.DetachKeepsValid | backend/app/models/explanation.py:10-24 | clearing sources (SET_NULL) changes no key and no project reference, so the explanations stay valid |
| ProjectViews.DetachedSourcesRemain | backend/app/models/explanation.py:10-24 | after detaching the sources among the deleted documents, every remaining source names a problem document of another project |
| ProjectViews.PurgeKeepsValid | backend/api/project/views/project_view.py:461-462 | after the delete the keys stay unique, every document points at a remaining project, and every remaining source points at a remaining problem document |
| ProjectViews.SameKeysKeepUnique | backend/app/models/problem_latex_document.py:32-39 | rows rewritten without changing their keys keep them unique |
| ProjectViews.PermanentDelete | backend/api/project/views/project_view.py:441-468 | only the caller's project in the trash is deleted, together with its documents and explanations, while other explanations lose a source among its documents, answered 204; otherwise 404 or 403 and nothing changes |
| ProjectViews.Purge | backend/api/project/views/project_view.py:461-462 | `delete()` removes the row, the documents and explanations of the project, detaches sources among its documents from other explanations, leaves the templates and keeps the database valid |
| ProjectViews.PurgeLeavesNothing | backend/api/project/views/project_view.py:461-462 | after a permanent delete no project, document or explanation of that key remains, and no explanation's source is one of its documents |
| VersionHistory.VersionNotFoundMessage | backend/api/project/views/version_history_view.py:157-161 | a missing version answers with the problem-document message or the explanation message, by kind |
| VersionHistory.ByVersionDescIsPreorder | backend/api/project/views/version_history_view.py:48-50 | ordering by descending version is a total preorder |
| VersionHistory.HistoryRowsCorrect | backend/api/project/views/version_history_view.py:48-50 | the history is a permutation of the project's rows (each as often as stored, no other), highest version first |
| VersionHistory.HistoryStrictlyDecreasing | backend/app/models/problem_latex_document.py:32-39 | under the unique (problem, version) constraint the versions of the history strictly decrease |
| VersionHistory.History | backend/api/project/views/version_history_view.py:30-120 | a refused lookup answers 404 or 403; otherwise 200 with one view per history row, in history order |
| VersionHistory.Views | backend/api/project/views/version_history_view.py:52-65 | the loop builds exactly one response item per history row, in the rows' order, with `pdf_url` set only for a row with a PDF |
| VersionHistory.VersionIndex | backend/api/project/views/version_history_view.py:152-161 | none exactly when no row has that project and version, otherwise the index of such a row |
| VersionHistory.VersionIndexOnly | backend/app/models/problem_latex_document.py:32-39 | under the unique constraint the row found is the only one of that project and version |
| VersionHistory.Confirmed | backend/api/project/views/version_history_view.py:163-164 | the row becomes confirmed with a new update time, every other field unchanged |
| VersionHistory.ConfirmIdempotent | backend/api/project/views/version_history_view.py:163-164 | confirming twice is confirming once at the second time; confirming a confirmed row only bumps its update time |
| VersionHistory.ConfirmChangesOnlyTarget | backend/api/project/views/version_history_view.py:163-164 | a confirmation marks its row, changes no other row, never unconfirms one, and keeps every key and LaTeX code |
| VersionHistory.Confirm | backend/api/project/views/version_history_view.py:134-240 | refused lookup: 404 or 403, nothing changes; missing version: 404 with the kind's message, nothing changes; otherwise that row alone is confirmed and returned with 200, the other table untouched |
| DataMigration.ToDocument | backend/app/migrations/0011_migrate_data_to_new_models.py:17-26 | the copied row keeps the key, project, LaTeX code, PDF path, version, confirmation and both timestamps, with the given source (the intended behaviour: as written the copies carry the time of the run, see Findings) |
| DataMigration.ToLegacy | backend/app/migrations/0011_migrate_data_to_new_models.py:79-89 | the row copied back keeps every field and carries the given document type (the intended behaviour: as written the copies carry the time of the run, see Findings) |
| DataMigration.RowRoundTrip | backend/app/migrations/0011_migrate_data_to_new_models.py:17-26 | copying a row forward and back under its own type gives the same row (the intended behaviour) |
| DataMigration.ToDocumentAsWritten | backend/app/migrations/0011_migrate_data_to_new_models.py:17-26 | as written, the created row's timestamps are the time of the run (auto_now_add and auto_now), every other field copied |
| DataMigration.ToLegacyAsWritten | backend/app/migrations/0011_migrate_data_to_new_models.py:79-89 | as written, the row copied back is stamped with the time of the reverse run, every other field copied |
| DataMigration.AsWrittenRoundTrip | backend/app/models/problem_latex_document.py:29-30 | as written, a row survives forward and back exactly when both its timestamps equal the time of the reverse run |
| DataMigration.AsWrittenLosesCreationTime | backend/app/models/latex_document.py:30-31 | a row created at time 0 and migrated at time 10 comes out created at 10 and does not survive a reverse at 20 |
| DataMigration.ProblemRowsRoundTrip | backend/app/migrations/0011_migrate_data_to_new_models.py:14-26 | the problem rows copied forward and back are exactly the old rows tagged problem, in order (the intended behaviour: as written the copies carry the time of the run, see Findings) |
| DataMigration.ExplanationRowsRoundTrip | backend/app/migrations/0011_migrate_data_to_new_models.py:38-68 | the explanation rows copied forward and back are exactly the old rows tagged explanation, in order (the intended behaviour: as written the copies carry the time of the run, see Findings) |
| DataMigration.ForwardThenReverse | backend/app/migrations/0011_migrate_data_to_new_models.py:113-128 | when every old row carries one of the two tags, forward then reverse recreates exactly the old rows, each as often as stored (the intended behaviour: as written the copies carry the time of the run, see Findings) |
| DataMigration.TagsPartition | backend/app/migrations/0011_migrate_data_to_new_models.py:14-39 | when every old row carries one of the two tags, the rows of the two filters together are the whole old table, each row as often as stored |
| DataMigration.CopiesKeepUnique | backend/app/models/latex_document.py:39 | copies of valid old rows have distinct keys and distinct (project, version) pairs within each new table |
| DataMigration.TaggedCopiesUnique | backend/app/models/latex_document.py:39 | copies of rows of one tag that keep each row's key, project and version keep both constraints of the old table |
| DataMigration.ExplanationSourcesExist | backend/app/migrations/0011_migrate_data_to_new_models.py:44-55 | every source picked for an explanation names a migrated problem document |
| DataMigration.CreateEach | backend/app/migrations/0011_migrate_data_to_new_models.py:16-26 | the inserts succeed exactly when the table plus the new rows keeps both uniqueness constraints, and then the rows are appended; otherwise the table is left as it was |
| DataMigration.MigrateProblemDocuments | backend/app/migrations/0011_migrate_data_to_new_models.py:6-26 | succeeds exactly when the copies of the problem rows clash with nothing, and then appends them in table order; other tables untouched (the intended behaviour: as written the copies carry the time of the run, see Findings) |
| DataMigration.MigrateExplanations | backend/app/migrations/0011_migrate_data_to_new_models.py:29-68 | succeeds exactly when the explanation copies clash with nothing, and then appends them with the source chosen for each; other tables untouched (the intended behaviour: as written the copies carry the time of the run, see Findings) |
| DataMigration.Forward | backend/app/migrations/0011_migrate_data_to_new_models.py:113-128 | problem documents then explanations in one transaction; on success both tables gain the copies, on failure neither changes; into empty tables it always succeeds; the old rows stay (the intended behaviour: as written the copies carry the time of the run, see Findings) |
| DataMigration.FreshTablesAccept | backend/app/migrations/0011_migrate_data_to_new_models.py:6-68 | into empty new tables the copies of a valid old table clash with nothing, so both forward functions insert every row |
| DataMigration.Rollback | backend/app/migrations/0011_migrate_data_to_new_models.py:113-128 | a failed transaction leaves the problem documents as they were before it, and the tables stay valid |
| DataMigration.ReverseExplanations | backend/app/migrations/0011_migrate_data_to_new_models.py:92-110 | succeeds exactly when the explanations copied back keep the old table's constraints, and then appends them; otherwise nothing changes (the intended behaviour: as written the copies carry the time of the run, see Findings) |
| DataMigration.ReverseProblemDocuments | backend/app/migrations/0011_migrate_data_to_new_models.py:71-89 | succeeds exactly when the problem documents copied back keep the old table's constraints, and then appends them; otherwise nothing changes (the intended behaviour: as written the copies carry the time of the run, see Findings) |
| DataMigration.Reverse | backend/app/migrations/0011_migrate_data_to_new_models.py:119-128 | explanations back first, then problem documents, in one transaction: it succeeds exactly when the old table plus both copies is valid, and then holds them; otherwise nothing changes (the intended behaviour: as written the copies carry the time of the run, see Findings) |
| DataMigration.ReverseRightAfterForwardClashes | backend/app/migrations/0011_migrate_data_to_new_models.py:71-110 | since forward never deletes the old rows, a reverse run right after it clashes on a primary key |
| DataMigration.KeptRowClashes | backend/app/models/latex_document.py:12 | a row present twice breaks the primary key |
| Sorting.SortByCorrect | frontend/src/shared/lib/utils/filter.ts:18-23 | for a total preorder the sort is ordered, a permutation of its input, and stable: rows that compare equal keep their input order |
| Results.UnwrapOrThrowKeepsErrors | frontend/src/shared/lib/result.ts:47-52 | a success returns its data and a failure holding an `Error` throws that very error, so catching gives back the result |

## Left out

- PDF compilation (`PDFService.latex_to_pdf`: subprocess, temporary directories, timeouts, log reading) is external I/O. The render view takes its outcome, a stored path or a failure message, as a parameter.
- The OCR service, the OpenAI client and the `generate_explanation` wrapper are foreign calls. Only the clean-up of the model's answer (`_extract_latex_from_response`, `_extract_document_body`) is modelled.
- The OCR and explanation views are not part of this model. Their versioning and source-selection rules are the ones modelled from the render view.
- Authentication, sessions and CSRF plumbing are not part of this model. Neither are the openapi-fetch wrappers in `frontend/src/app/actions`, `frontend/src/entities/*/api.ts` and `frontend/src/lib/api/client.ts`.
- Rendering and event wiring of the React components and widgets is not modelled.
- React effect scheduling and asynchronous interleaving are not modelled: each hook call is one begin step and one finish step, run in sequence.
- Database transactions and concurrent version allocation are not modelled. Every request reads one clock value, passed in as `now`.
- Migrations other than `0011`, the URL configurations and the other serializers are declarative and not modelled. The old `LatexDocument` model appears only as the source rows of the migration.
- The thin hooks `useProjectListFilter`, `useProjectDetail` and `useTemplateLoader` are not modelled. The one rule of `useTemplateLoader` that matters, that it replaces only the first `{children}`, is modelled as `Text.ReplaceFirst` and compared with the backend's replace-all.
- Timestamps are integers and dates are not parsed: `new Date(v).getTime()` is the timestamp itself. Mouse coordinates are integers.
- UUID keys are natural numbers, and `FreshId` stands for `uuid4()`. A malformed UUID in a URL and DRF's type coercion of request values are not modelled.
- Text.Trim: the model removes space, tab, newline, carriage return, vertical tab and form feed only. Python `strip()` also removes the ASCII separators `\x1c` to `\x1f` and non-ASCII whitespace, and JavaScript `trim()` removes non-ASCII whitespace too.
- SerializerFields.CharField: a field is either not sent or a string. A value sent as JSON `null` (refused with `This field may not be null.`, since no field allows null) and a non-string value are not modelled. This covers `solution_notes` sent as `null`.
- SerializerFields.CharField: when a value is both too long and holds a NUL character, DRF reports both messages; the model reports the length message only. DRF's refusal of surrogate code points cannot arise, since a Dafny `char` is never a surrogate.
- ProjectSerializer.SolutionNotesField: notes sent as JSON `null` are refused by DRF; the model has no way to send `null`, see the `CharField` line above.
- JsValues.JsonBody: an error body is either not JSON or an object with optional string `error` and `message` fields. A JSON `null` body, a non-object body and non-string `error` or `message` values are not modelled.
- Text.Lower: `toLowerCase()` and Python's `.lower()` fold every Unicode letter; the model folds the ASCII letters only.
- The order of rows with equal sort keys in a database query is not fixed by the source. The model returns them in table order, a stable sort.
- Logging (`log_info`, `log_error`) and the `__str__` of the two document models are not modelled.
- Removing files from disk when a project is deleted for good is not modelled; the source does not remove them either.
- ServerApi: `getApiClient` in `frontend/src/lib/api/server.ts` builds the same headers as the client, so it is modelled once, as `ApiClient.GetApiClientHeaders`. The cookie store is a parameter.
- LatexRender.Render: for a refused request the text after the `500` prefix is the first field's message, not Python's rendering of the whole error dictionary.
- TemplateService.GetSystemDefaultTemplate: a missing system template is `Missing`. In the source it is an uncaught `DoesNotExist`.
- DataMigration.ToDocument: keeps both timestamps, as the migration intends; as written, `objects.create` stamps the copy with the time of the run. `DataMigration.ToDocumentAsWritten` models that.
- DataMigration.ToLegacy: keeps both timestamps, as the migration intends; as written, the copy back is stamped with the time of the reverse run. `DataMigration.ToLegacyAsWritten` models that.
- DataMigration.MigrateProblemDocuments: appends the intended copies (`ToDocument`); the rows as written differ only in their two timestamps, which no uniqueness constraint involves.
- DataMigration.MigrateExplanations: appends the intended copies (`ToDocument`); the rows as written differ only in their two timestamps.
- DataMigration.Forward: built on the intended copies; as written every new row carries the time of the run instead of its old timestamps.
- DataMigration.ReverseExplanations: appends the intended copies back (`ToLegacy`); as written they carry the time of the reverse run.
- DataMigration.ReverseProblemDocuments: appends the intended copies back (`ToLegacy`); as written they carry the time of the reverse run.
- DataMigration.Reverse: built on the intended copies back; as written every restored row carries the time of the reverse run.
- DataMigration.ForwardThenReverse: holds for the intended copies only; `DataMigration.AsWrittenRoundTrip` states when a row survives as written.
- DataMigration.MigrateExplanations: the problem table and the document-to-problem foreign key are not modelled. `if doc.problem:` is therefore always true, as it is for every stored row.
- DataMigration.Reverse: it appends the copied-back rows to the old table as it stands. Running it right after a forward run fails, because the forward run left the old rows in place; `ReverseRightAfterForwardClashes` proves this.

## Findings

| source | as written | input that shows it | evidently intended | confidence | as-written member | corrected member |
|---|---|---|---|---|---|---|
| backend/app/migrations/0011_migrate_data_to_new_models.py:17-26 | `objects.create(..., created_at=doc.created_at, updated_at=doc.updated_at)`, but both target fields are `auto_now_add`/`auto_now`, so the passed values are replaced by the time of the run (the same holds in the reverse, lines 79-89 and 100-110) | a row created at time 0, migrated at time 10 and reversed at time 20 comes out with both timestamps at 20 | every field of a row, both timestamps included, survives the copy forward and back | high, not executed | DataMigration.AsWrittenRoundTrip, DataMigration.AsWrittenLosesCreationTime | DataMigration.RowRoundTrip, DataMigration.ForwardThenReverse |
