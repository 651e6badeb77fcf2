/** backend/api/latex/views/latex_render_view.py with the request serializer of
    backend/api/latex/serializers/latex_serializer.py: every render stores
    the edited LaTeX as a new version of the project's problem document or
    explanation, then compiles it and records the PDF. */
module LatexRender {
  import opened Options
  import opened Text
  import opened Records
  import opened SerializerFields
  import opened DocumentModels
  import opened ProjectViews
  import FileStorage

  /** The prefix of every `500` reply. */
  const RENDER_ERROR_PREFIX := "PDF生成中にエラーが発生しました: "
  const PROBLEM_DOC_NOT_LINKED_MESSAGE := "問題LaTeXドキュメントがプロジェクトに紐づいていません"
  const PROBLEM_DOC_NOT_FOUND_MESSAGE := "問題LaTeXドキュメントが見つかりません"
  const EXPLANATION_NOT_LINKED_MESSAGE := "解説がプロジェクトに紐づいていません"
  const EXPLANATION_NOT_FOUND_MESSAGE := "解説が見つかりません"

  /** The request body: a key that was not sent (or `null`) is `None`. */
  datatype RenderRequest = RenderRequest(
    problemId: Option<Id>, documentType: Option<string>, latexDocumentId: Option<Id>, latexCode: Option<string>)

  /** The validated data of `LatexRenderRequestSerializer`. */
  datatype RenderParams = RenderParams(problemId: Id, kind: DocKind, latexDocumentId: Option<Id>, latexCode: string)

  datatype Validation = Checked(params: RenderParams) | Refused(message: string)

  /** DRF's message for a value outside a `ChoiceField`'s choices. */
  function InvalidChoiceMessage(input: string): string {
    "\"" + input + "\" is not a valid choice."
  }

  /** `is_valid(raise_exception=True)`: `problem_id` is required,
      `document_type` is `'problem'` or `'explanation'`, `latex_document_id`
      is optional, and `latex_code` is required, trimmed and not blank.  The
      refusal carries the message of the first field that fails. */
  function ValidateRender(request: RenderRequest): (r: Validation)
    ensures r.Checked? <==>
      request.problemId.Some? && request.documentType.Some? &&
      (request.documentType.value == "problem" || request.documentType.value == "explanation") &&
      request.latexCode.Some? && !AllSpace(request.latexCode.value) && '\0' !in Trim(request.latexCode.value)
    ensures r.Checked? ==>
      r.params.problemId == request.problemId.value &&
      (r.params.kind == ProblemDoc <==> request.documentType.value == "problem") &&
      r.params.latexDocumentId == request.latexDocumentId &&
      r.params.latexCode == Trim(request.latexCode.value) && r.params.latexCode != []
    ensures r.Refused? ==>
      r.message == REQUIRED_MESSAGE || r.message == BLANK_MESSAGE || r.message == NULL_CHARACTERS_MESSAGE ||
      (request.documentType.Some? && r.message == InvalidChoiceMessage(request.documentType.value))
  {
    if request.problemId.None? || request.documentType.None? then Refused(REQUIRED_MESSAGE)
    else if request.documentType.value != "problem" && request.documentType.value != "explanation" then
      Refused(InvalidChoiceMessage(request.documentType.value))
    else
      var kind := if request.documentType.value == "problem" then ProblemDoc else ExplanationDoc;
      match CharField(request.latexCode, true, false, None)
      case Value(code) => Checked(RenderParams(request.problemId.value, kind, request.latexDocumentId, code))
      case Invalid(message) => Refused(message)
      case Absent => Refused(REQUIRED_MESSAGE)
  }

  /** The outcome of looking up a supplied `latex_document_id`. */
  datatype IdCheck = IdPasses | IdOfOtherProject | IdUnknown

  function WithKey(id: Id): Document -> bool {
    (d: Document) => d.id == id
  }

  /** `objects.get(id=latex_document_id)` and `existing_doc.problem != problem`;
      an id that was not sent is not looked up. */
  function CheckDocumentId(docs: seq<Document>, pk: Id, documentId: Option<Id>): (r: IdCheck)
    ensures documentId.None? ==> r == IdPasses
    ensures documentId.Some? ==> (r == IdUnknown <==> !HasDocument(docs, documentId.value))
    ensures documentId.Some? && r == IdPasses ==>
      exists d :: d in docs && d.id == documentId.value && d.problem == pk
    ensures r == IdOfOtherProject ==>
      documentId.Some? && exists d :: d in docs && d.id == documentId.value && d.problem != pk
  {
    if documentId.None? then IdPasses
    else
      match FindIndex(docs, WithKey(documentId.value))
      case None => IdUnknown
      case Some(i) =>
        assert docs[i] in docs;
        if docs[i].problem == pk then IdPasses else IdOfOtherProject
  }

  /** With unique keys, a supplied id is refused as belonging to another
      project exactly when its row belongs to another project. */
  lemma CheckDocumentIdByOwner(docs: seq<Document>, pk: Id, id: Id)
    requires Unique(docs, DocumentKey)
    ensures forall d :: d in docs && d.id == id ==>
      (CheckDocumentId(docs, pk, Some(id)) == IdPasses <==> d.problem == pk) &&
      (CheckDocumentId(docs, pk, Some(id)) == IdOfOtherProject <==> d.problem != pk)
  {
    forall d | d in docs && d.id == id
      ensures CheckDocumentId(docs, pk, Some(id)) == IdPasses <==> d.problem == pk
    {
      var k :| 0 <= k < |docs| && docs[k] == d;
      var i := FindIndex(docs, WithKey(id)).value;
      UniqueKeyIndex(docs, DocumentKey, k, i);
    }
  }

  /** The `400`/`404` reply of a refused id. */
  function IdRefusal<T>(kind: DocKind, check: IdCheck): (r: Reply<T>)
    requires check != IdPasses
    ensures check == IdOfOtherProject ==>
      r == Error(400, if kind == ProblemDoc then PROBLEM_DOC_NOT_LINKED_MESSAGE else EXPLANATION_NOT_LINKED_MESSAGE)
    ensures check == IdUnknown ==>
      r == Error(404, if kind == ProblemDoc then PROBLEM_DOC_NOT_FOUND_MESSAGE else EXPLANATION_NOT_FOUND_MESSAGE)
  {
    if check == IdOfOtherProject then
      Error(400, if kind == ProblemDoc then PROBLEM_DOC_NOT_LINKED_MESSAGE else EXPLANATION_NOT_LINKED_MESSAGE)
    else
      Error(404, if kind == ProblemDoc then PROBLEM_DOC_NOT_FOUND_MESSAGE else EXPLANATION_NOT_FOUND_MESSAGE)
  }

  /** `(aggregate(Max('version'))['max_version'] or 0) + 1`: above every version
      of the project in that table, and 1 for the first. */
  function NextVersion(docs: seq<Document>, pk: Id): (v: int)
    ensures forall d :: d in docs && d.problem == pk ==> d.version < v
    ensures (forall d :: d in docs ==> d.problem != pk) ==> v == 1
    ensures (exists d :: d in docs && d.problem == pk) ==> exists d :: d in docs && d.problem == pk && d.version + 1 == v
  {
    MaxVersion(docs, pk) + 1
  }

  /** The row `objects.create(...)` inserts: a fresh key, the next version of
      the project, and for an explanation the source `SourceFor` picks. */
  function NewRow(kind: DocKind, docs: seq<Document>, problemDocs: seq<Document>, pk: Id, latexCode: string, now: Time): (d: Document)
    ensures forall x :: x in docs ==> x.id != d.id && VersionKey(x) != VersionKey(d)
    ensures d.problem == pk && d.latexCode == latexCode && d.version == NextVersion(docs, pk)
    ensures kind == ProblemDoc ==> d.source.None?
    ensures kind == ExplanationDoc ==> d.source == SourceFor(problemDocs, pk)
    ensures !d.isConfirmed && d.pdfPath == [] && d.createdAt == now && d.updatedAt == now
  {
    FreshDocumentKey(docs);
    var source := if kind == ProblemDoc then None else SourceFor(problemDocs, pk);
    NewDocument(FreshId(DocumentIds(docs)), pk, source, latexCode, Some(NextVersion(docs, pk)), now)
  }

  /** Under the rule "next version = maximum + 1", the versions of each
      project rise in insertion order. */
  ghost predicate VersionsRise(docs: seq<Document>) {
    forall i, j :: 0 <= i < j < |docs| && docs[i].problem == docs[j].problem ==> docs[i].version < docs[j].version
  }

  lemma NextVersionKeepsRising(docs: seq<Document>, d: Document)
    requires VersionsRise(docs)
    requires d.version == NextVersion(docs, d.problem)
    ensures VersionsRise(docs + [d])
  {
    var r := docs + [d];
    forall i, j | 0 <= i < j < |r| && r[i].problem == r[j].problem ensures r[i].version < r[j].version {
      assert r[i] == docs[i];
      if j == |docs| {
        assert docs[i] in docs;
      } else {
        assert r[j] == docs[j];
      }
    }
  }

  /** The body of the `200` reply. */
  datatype RenderResult = RenderResult(latexDocumentId: Id, pdfUrl: string, version: int, updatedAt: Time)

  /** What `PDFService().latex_to_pdf(latex_code, output_filename=f"latex_{id}")`
      returns: the stored PDF's path, or the text of the exception it raises. */
  datatype Compiled = Pdf(path: string) | CompileFailure(message: string)

  /** The row after `new_doc.pdf_path = pdf_path; new_doc.save()`. */
  function WithPdf(d: Document, path: string, now: Time): (r: Document)
    ensures r.pdfPath == path && r.updatedAt == now
    ensures r.(pdfPath := d.pdfPath, updatedAt := d.updatedAt) == d
  {
    d.(pdfPath := path, updatedAt := now)
  }

  /** `objects.create(...)`: one row appended to the `kind` table. */
  method AppendDocument(db: Database, kind: DocKind, d: Document)
    requires db.Valid()
    requires forall x :: x in db.Documents(kind) ==> x.id != d.id && VersionKey(x) != VersionKey(d)
    requires HasProblem(db.problems, d.problem)
    requires kind == ProblemDoc ==> d.source.None?
    requires kind == ExplanationDoc && d.source.Some? ==> HasDocument(db.problemDocs, d.source.value)
    modifies db
    ensures db.Valid()
    ensures db.Documents(kind) == old(db.Documents(kind)) + [d]
    ensures kind == ProblemDoc ==> db.explanations == old(db.explanations)
    ensures kind == ExplanationDoc ==> db.problemDocs == old(db.problemDocs)
    ensures db.problems == old(db.problems) && db.templates == old(db.templates)
  {
    var docs := db.Documents(kind);
    AppendKeepsUnique(docs, d, DocumentKey);
    AppendKeepsUnique(docs, d, VersionKey);
    if kind == ProblemDoc {
      forall e | e in db.explanations && e.source.Some? ensures HasDocument(docs + [d], e.source.value) {
        var x :| x in docs && x.id == e.source.value;
        assert x in docs + [d];
      }
      db.problemDocs := docs + [d];
    } else {
      db.explanations := docs + [d];
    }
  }

  /** Recording the compiled PDF on the row just appended. */
  method AttachPdf(db: Database, kind: DocKind, ghost rows: seq<Document>, d: Document, path: string, now: Time)
    requires db.Valid() && db.Documents(kind) == rows + [d]
    modifies db
    ensures db.Valid()
    ensures db.Documents(kind) == rows + [WithPdf(d, path, now)]
    ensures kind == ProblemDoc ==> db.explanations == old(db.explanations)
    ensures kind == ExplanationDoc ==> db.problemDocs == old(db.problemDocs)
    ensures db.problems == old(db.problems) && db.templates == old(db.templates)
  {
    var docs := db.Documents(kind);
    var n := |docs| - 1;
    var x := WithPdf(d, path, now);
    RewriteKeepsValid(db, kind, n, x);
    assert docs[n := x] == rows + [x];
    if kind == ProblemDoc {
      db.problemDocs := docs[n := x];
    } else {
      db.explanations := docs[n := x];
    }
  }

  /** The part of `LatexRenderView.post` after every check has passed: the new
      row is inserted before the compiler runs and stays when it fails; the
      PDF path is recorded only after a successful compilation. */
  method StoreAndCompile(db: Database, mediaUrl: string, pr: RenderParams,
                         compiler: (string, Id) -> Compiled, now: Time)
    returns (reply: Reply<RenderResult>)
    requires db.Valid() && HasProblem(db.problems, pr.problemId)
    modifies db
    ensures db.Valid()
    ensures db.problems == old(db.problems) && db.templates == old(db.templates)
    ensures var d := NewRow(pr.kind, old(db.Documents(pr.kind)), old(db.problemDocs), pr.problemId, pr.latexCode, now);
      (pr.kind == ProblemDoc ==> db.explanations == old(db.explanations)) &&
      (pr.kind == ExplanationDoc ==> db.problemDocs == old(db.problemDocs)) &&
      (compiler(pr.latexCode, d.id).CompileFailure? ==>
        db.Documents(pr.kind) == old(db.Documents(pr.kind)) + [d] &&
        reply == Error(500, RENDER_ERROR_PREFIX + compiler(pr.latexCode, d.id).message)) &&
      (compiler(pr.latexCode, d.id).Pdf? ==>
        var path := compiler(pr.latexCode, d.id).path;
        db.Documents(pr.kind) == old(db.Documents(pr.kind)) + [WithPdf(d, path, now)] &&
        reply == Ok(200, RenderResult(d.id, FileStorage.GetFileUrl(mediaUrl, path), d.version, now)))
  {
    var d := NewRow(pr.kind, db.Documents(pr.kind), db.problemDocs, pr.problemId, pr.latexCode, now);
    SourceForChoice(db.problemDocs, pr.problemId);
    AppendDocument(db, pr.kind, d);
    var outcome := compiler(pr.latexCode, d.id);
    if outcome.CompileFailure? {
      return Error(500, RENDER_ERROR_PREFIX + outcome.message);
    }
    AttachPdf(db, pr.kind, old(db.Documents(pr.kind)), d, outcome.path, now);
    reply := Ok(200, RenderResult(d.id, FileStorage.GetFileUrl(mediaUrl, outcome.path), d.version, now));
  }

  /** `LatexRenderView.post`.  The project is looked up whatever its state
      (a project in the trash still receives versions); only its owner may
      render.  A supplied document id is checked and never written.  The new
      row is inserted before the compiler runs and stays when it fails; the
      PDF path is recorded only after a successful compilation.  Every
      exception, a refused request included, is a `500` with the prefix. */
  method Render(db: Database, mediaUrl: string, caller: UserId, request: RenderRequest,
                compiler: (string, Id) -> Compiled, now: Time)
    returns (reply: Reply<RenderResult>)
    requires db.Valid()
    modifies db
    ensures db.Valid()
    ensures db.problems == old(db.problems) && db.templates == old(db.templates)
    ensures var v := ValidateRender(request);
      v.Refused? ==>
        reply == Error(500, RENDER_ERROR_PREFIX + v.message) &&
        db.problemDocs == old(db.problemDocs) && db.explanations == old(db.explanations)
    ensures var v := ValidateRender(request);
      v.Checked? && !Authorize(old(db.problems), v.params.problemId, caller, AnyState).Granted? ==>
        reply == Refusal(Authorize(old(db.problems), v.params.problemId, caller, AnyState)) &&
        db.problemDocs == old(db.problemDocs) && db.explanations == old(db.explanations)
    ensures var v := ValidateRender(request);
      v.Checked? && Authorize(old(db.problems), v.params.problemId, caller, AnyState).Granted? ==>
        var pr := v.params;
        var check := CheckDocumentId(old(db.Documents(pr.kind)), pr.problemId, pr.latexDocumentId);
        (check != IdPasses ==>
          reply == IdRefusal(pr.kind, check) &&
          db.problemDocs == old(db.problemDocs) && db.explanations == old(db.explanations)) &&
        (check == IdPasses ==>
          var d := NewRow(pr.kind, old(db.Documents(pr.kind)), old(db.problemDocs), pr.problemId, pr.latexCode, now);
          (pr.kind == ProblemDoc ==> db.explanations == old(db.explanations)) &&
          (pr.kind == ExplanationDoc ==> db.problemDocs == old(db.problemDocs)) &&
          (compiler(pr.latexCode, d.id).CompileFailure? ==>
            db.Documents(pr.kind) == old(db.Documents(pr.kind)) + [d] &&
            reply == Error(500, RENDER_ERROR_PREFIX + compiler(pr.latexCode, d.id).message)) &&
          (compiler(pr.latexCode, d.id).Pdf? ==>
            var path := compiler(pr.latexCode, d.id).path;
            db.Documents(pr.kind) == old(db.Documents(pr.kind)) + [WithPdf(d, path, now)] &&
            reply == Ok(200, RenderResult(d.id, FileStorage.GetFileUrl(mediaUrl, path), d.version, now))))
  {
    var v := ValidateRender(request);
    if v.Refused? {
      return Error(500, RENDER_ERROR_PREFIX + v.message);
    }
    var pr := v.params;
    var a := Authorize(db.problems, pr.problemId, caller, AnyState);
    if !a.Granted? {
      return Refusal(a);
    }
    var check := CheckDocumentId(db.Documents(pr.kind), pr.problemId, pr.latexDocumentId);
    if check != IdPasses {
      return IdRefusal(pr.kind, check);
    }
    assert db.problems[a.index] in db.problems;
    reply := StoreAndCompile(db, mediaUrl, pr, compiler, now);
  }
}
