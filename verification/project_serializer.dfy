/** backend/api/project/serializers/project_serializer.py: the request
    serializers of a project (the title on creation, the solution notes on
    update) and the shapes of the responses. */
module ProjectSerializer {
  import opened Options
  import opened Text
  import opened Records
  import opened SerializerFields
  import FileStorage

  /** `max_length` of the `title` field. */
  const TITLE_MAX_LENGTH := 200
  /** The message of `validate_title`. */
  const TITLE_REQUIRED_MESSAGE := "プロジェクトタイトルは必須です"

  /** `validate_title(value)`: an empty or blank title is refused; an accepted
      one is returned stripped. */
  function ValidateTitle(value: string): (r: FieldOutcome)
    ensures r.Value? <==> !AllSpace(value)
    ensures r.Value? ==> r.value == Trim(value) && r.value != []
    ensures r.Invalid? ==> r.message == TITLE_REQUIRED_MESSAGE
  {
    TrimEmptyIffAllSpace(value);
    if value == [] || Trim(value) == [] then Invalid(TITLE_REQUIRED_MESSAGE) else Value(Trim(value))
  }

  /** The `title` field: the `CharField` checks (required, not blank, at most
      200 characters once trimmed, no NUL character), then `validate_title`. */
  function TitleField(data: Option<string>): (r: FieldOutcome)
    ensures r.Value? <==> data.Some? && !AllSpace(data.value) && |Trim(data.value)| <= TITLE_MAX_LENGTH
                          && '\0' !in Trim(data.value)
    ensures r.Value? ==> r.value == Trim(data.value) && 0 < |r.value| <= TITLE_MAX_LENGTH && '\0' !in r.value
    ensures !r.Absent?
  {
    match CharField(data, true, false, Some(TITLE_MAX_LENGTH))
    case Value(v) =>
      TrimTrimmed(data.value);
      TrimEmptyIffAllSpace(v);
      ValidateTitle(v)
    case other => other
  }

  /** The field checks run first and hand `validate_title` a value that is
      already stripped and not empty, so its own message is never produced. */
  lemma TitleMessageNeverReached(data: Option<string>)
    ensures TitleField(data).Invalid? ==> TitleField(data).message != TITLE_REQUIRED_MESSAGE
    ensures TitleField(data).Invalid? ==>
      TitleField(data).message in {REQUIRED_MESSAGE, BLANK_MESSAGE, MaxLengthMessage(TITLE_MAX_LENGTH),
                                   NULL_CHARACTERS_MESSAGE}
  {
    var c := CharField(data, true, false, Some(TITLE_MAX_LENGTH));
    if !c.Value? {
      assert TitleField(data) == c;
    }
    TitleMessageDistinct();
  }

  /** The message of `validate_title` is none of the field messages. */
  lemma TitleMessageDistinct()
    ensures TITLE_REQUIRED_MESSAGE !in {REQUIRED_MESSAGE, BLANK_MESSAGE, MaxLengthMessage(TITLE_MAX_LENGTH),
                                        NULL_CHARACTERS_MESSAGE}
  {
    assert REQUIRED_MESSAGE[0] == 'T' && BLANK_MESSAGE[0] == 'T' && NULL_CHARACTERS_MESSAGE[0] == 'N';
    assert MaxLengthMessage(TITLE_MAX_LENGTH)[0] == 'E';
    assert TITLE_REQUIRED_MESSAGE[0] == 'プ';
  }

  /** The `solution_notes` field: optional, may be blank (then `""`), trimmed,
      refused only for a NUL character. */
  function SolutionNotesField(data: Option<string>): (r: FieldOutcome)
    ensures r.Invalid? <==> data.Some? && '\0' in Trim(data.value)
    ensures r.Invalid? ==> r.message == NULL_CHARACTERS_MESSAGE
    ensures r.Absent? <==> data.None?
    ensures r.Value? ==> r.value == Trim(data.value)
  {
    CharField(data, false, true, None)
  }

  /** `ProjectResponseSerializer` / `ProjectListResponseSerializer`. */
  datatype ProjectSummary = ProjectSummary(id: Id, title: string, createdAt: Time, updatedAt: Time)

  function Summary(p: Problem): (r: ProjectSummary)
    ensures r.id == p.id && r.title == p.title && r.createdAt == p.createdAt && r.updatedAt == p.updatedAt
  {
    ProjectSummary(p.id, p.title, p.createdAt, p.updatedAt)
  }

  /** `ProblemLatexDocumentSerializer` / `ExplanationDocumentSerializer`. */
  datatype DocView = DocView(id: Id, latexCode: string, pdfUrl: Option<string>, version: int,
                             isConfirmed: bool, createdAt: Time)

  /** The response data of one document: `pdf_url` is `None` when there is no
      PDF, otherwise the file's URL. */
  function ToView(mediaUrl: string, d: Document): (v: DocView)
    ensures v.pdfUrl.None? <==> d.pdfPath == []
    ensures v.pdfUrl.Some? ==> v.pdfUrl.value == FileStorage.GetFileUrl(mediaUrl, d.pdfPath)
    ensures v.id == d.id && v.latexCode == d.latexCode && v.version == d.version
    ensures v.isConfirmed == d.isConfirmed && v.createdAt == d.createdAt
  {
    var pdfUrl := if d.pdfPath != [] then Some(FileStorage.GetFileUrl(mediaUrl, d.pdfPath)) else None;
    DocView(d.id, d.latexCode, pdfUrl, d.version, d.isConfirmed, d.createdAt)
  }

  /** `ProjectDetailResponseSerializer`: the image URL, the notes and both
      latest documents may be `None`. */
  datatype ProjectDetail = ProjectDetail(
    id: Id, title: string, createdAt: Time, updatedAt: Time, imageUrl: Option<string>,
    solutionNotes: Option<string>, latestLatexDocument: Option<DocView>,
    latestExplanationDocument: Option<DocView>)
}
