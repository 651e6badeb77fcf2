/** backend/app/models/problem_latex_document.py and backend/app/models/explanation.py:
    the two document models share their fields (an explanation also links to
    the problem document it was generated from), their defaults, their
    `unique_together` pair, their default ordering, `delete_pdf_file` and
    `pdf_exists`. */
module DocumentModels {
  import opened Options
  import opened Records
  import opened Sorting
  import FileStorage

  /** The default of the `version` field. */
  const DEFAULT_VERSION := 1

  /** `objects.create(...)` of a document: the version given (1 when left to
      the default), not confirmed, no PDF yet, both timestamps the insert time. */
  function NewDocument(id: Id, problem: Id, source: Option<Id>, latexCode: string, version: Option<int>, now: Time): (d: Document)
    ensures d.id == id && d.problem == problem && d.source == source && d.latexCode == latexCode
    ensures d.version == version.GetOr(DEFAULT_VERSION)
    ensures !d.isConfirmed && d.pdfPath == []
    ensures d.createdAt == now && d.updatedAt == now
  {
    Document(id, problem, source, latexCode, "", version.GetOr(DEFAULT_VERSION), false, now, now)
  }

  /** The row after `delete_pdf_file()`: `pdf_path` emptied, every other field
      kept (the save names only `pdf_path`, so `updated_at` is not touched). */
  function WithoutPdf(d: Document): (r: Document)
    ensures r.pdfPath == []
    ensures r.(pdfPath := d.pdfPath) == d
    ensures d.pdfPath == [] ==> r == d
  {
    d.(pdfPath := "")
  }

  /** Clearing the path twice is clearing it once. */
  lemma WithoutPdfIdempotent(d: Document)
    ensures WithoutPdf(WithoutPdf(d)) == WithoutPdf(d)
    ensures DocumentKey(WithoutPdf(d)) == DocumentKey(d) && VersionKey(WithoutPdf(d)) == VersionKey(d)
  {
  }

  /** A row rewritten without touching its key, problem, version or source
      keeps the database valid. */
  lemma RewriteKeepsValid(db: Database, kind: DocKind, i: nat, x: Document)
    requires db.Valid()
    requires i < |db.Documents(kind)|
    requires x.id == db.Documents(kind)[i].id && x.problem == db.Documents(kind)[i].problem
    requires x.version == db.Documents(kind)[i].version && x.source == db.Documents(kind)[i].source
    ensures kind == ProblemDoc ==>
      DocumentsValid(db.problemDocs[i := x], db.problems) &&
      (forall d :: d in db.problemDocs[i := x] ==> d.source.None?) &&
      (forall e :: e in db.explanations && e.source.Some? ==> HasDocument(db.problemDocs[i := x], e.source.value))
    ensures kind == ExplanationDoc ==>
      DocumentsValid(db.explanations[i := x], db.problems) &&
      (forall e :: e in db.explanations[i := x] && e.source.Some? ==> HasDocument(db.problemDocs, e.source.value))
  {
    var docs := db.Documents(kind);
    var r := docs[i := x];
    UpdateKeepsUnique(docs, i, x, DocumentKey);
    UpdateKeepsUnique(docs, i, x, VersionKey);
    assert docs[i] in docs;
    forall d | d in r ensures d == x || d in docs {
      var k :| 0 <= k < |r| && r[k] == d;
      if k != i { assert r[k] == docs[k]; }
    }
    if kind == ProblemDoc {
      forall e | e in db.explanations && e.source.Some? ensures HasDocument(r, e.source.value) {
        var d :| d in docs && d.id == e.source.value;
        var k :| 0 <= k < |docs| && docs[k] == d;
        assert r[k].id == d.id;
      }
    }
  }

  /** `delete_pdf_file()` on the `i`-th row of the `kind` table: with a path, the
      file is removed from the disk and the path emptied; without one, nothing
      happens.  The path is emptied even when the removal fails (`removeFails`),
      since the result of `delete_file` is ignored. */
  method DeletePdfFile(db: Database, storage: FileStorage.MediaStorage, kind: DocKind, i: nat, removeFails: bool)
    requires db.Valid()
    requires i < |db.Documents(kind)|
    modifies db, storage
    ensures db.Valid()
    ensures db.Documents(kind) == old(db.Documents(kind))[i := WithoutPdf(old(db.Documents(kind))[i])]
    ensures kind == ProblemDoc ==> db.explanations == old(db.explanations)
    ensures kind == ExplanationDoc ==> db.problemDocs == old(db.problemDocs)
    ensures db.problems == old(db.problems) && db.templates == old(db.templates)
    ensures old(db.Documents(kind))[i].pdfPath == [] ==>
      db.Documents(kind) == old(db.Documents(kind)) && storage.files == old(storage.files)
    ensures old(db.Documents(kind))[i].pdfPath != [] && !removeFails ==>
      storage.files == old(storage.files) - {FileStorage.PathJoin(storage.root, old(db.Documents(kind))[i].pdfPath)}
    ensures removeFails ==> storage.files == old(storage.files)
  {
    var d := db.Documents(kind)[i];
    if d.pdfPath != [] {
      var _ := storage.DeleteFile(d.pdfPath, removeFails);
      RewriteKeepsValid(db, kind, i, WithoutPdf(d));
      if kind == ProblemDoc {
        db.problemDocs := db.problemDocs[i := WithoutPdf(d)];
      } else {
        db.explanations := db.explanations[i := WithoutPdf(d)];
      }
    } else {
      assert db.Documents(kind)[i := WithoutPdf(d)] == db.Documents(kind);
    }
  }

  /** `pdf_exists()`: an empty path is never there; otherwise the disk decides. */
  function PdfExists(storage: FileStorage.MediaStorage, d: Document): (r: bool)
    reads storage
    ensures d.pdfPath == [] ==> !r
    ensures r <==> storage.FileExists(d.pdfPath)
  {
    d.pdfPath != [] && storage.FileExists(d.pdfPath)
  }

  /** The creation time of the project a document belongs to (`0` for a key
      with no project, which a valid table does not hold). */
  function ProjectCreatedAt(problems: seq<Problem>, id: Id): (t: Time)
    ensures forall k :: 0 <= k < |problems| && problems[k].id == id && Unique(problems, ProblemKey) ==>
      t == problems[k].createdAt
  {
    match FindIndex(problems, (p: Problem) => p.id == id)
    case Some(k) =>
      assert forall j :: 0 <= j < |problems| && problems[j].id == id && Unique(problems, ProblemKey) ==> j == k;
      problems[k].createdAt
    case None => 0
  }

  /** The default ordering `["problem", "-version"]`: Django orders by the
      foreign key through `Problem.Meta.ordering = ["-created_at"]`, so rows
      come newest project first, then highest version first. */
  function DefaultOrder(problems: seq<Problem>): (Document, Document) -> bool {
    (a: Document, b: Document) =>
      var ca := ProjectCreatedAt(problems, a.problem);
      var cb := ProjectCreatedAt(problems, b.problem);
      ca > cb || (ca == cb && a.version >= b.version)
  }

  lemma DefaultOrderIsPreorder(problems: seq<Problem>)
    ensures TotalPreorder(DefaultOrder(problems))
  {
  }

  /** A table read in its default ordering. */
  function Ordered(docs: seq<Document>, problems: seq<Problem>): seq<Document> {
    SortBy(DefaultOrder(problems), docs)
  }

  /** Reading in the default ordering loses and adds no row, puts the rows of
      newer projects first and, among rows whose projects were created at the
      same instant, higher versions first; under `unique_together` the versions
      of one project strictly decrease. */
  lemma OrderedCorrect(docs: seq<Document>, problems: seq<Problem>)
    ensures multiset(Ordered(docs, problems)) == multiset(docs)
    ensures forall i, j :: 0 <= i < j < |Ordered(docs, problems)| ==>
      ProjectCreatedAt(problems, Ordered(docs, problems)[i].problem) > ProjectCreatedAt(problems, Ordered(docs, problems)[j].problem) ||
      (ProjectCreatedAt(problems, Ordered(docs, problems)[i].problem) == ProjectCreatedAt(problems, Ordered(docs, problems)[j].problem) &&
       Ordered(docs, problems)[i].version >= Ordered(docs, problems)[j].version)
    ensures DocumentsValid(docs, problems) ==>
      forall i, j :: 0 <= i < j < |Ordered(docs, problems)| && Ordered(docs, problems)[i].problem == Ordered(docs, problems)[j].problem ==>
        Ordered(docs, problems)[i].version > Ordered(docs, problems)[j].version
  {
    DefaultOrderIsPreorder(problems);
    SortByCorrect(DefaultOrder(problems), docs);
    var r := Ordered(docs, problems);
    if DocumentsValid(docs, problems) {
      UniquePermutation(docs, r, VersionKey);
    }
  }

  /** `on_delete=SET_NULL` of `source_problem_latex`: every explanation whose
      source is among the deleted problem documents loses its source; nothing
      else changes. */
  function DetachSources(explanations: seq<Document>, removed: set<Id>): (r: seq<Document>)
    ensures |r| == |explanations|
    ensures forall k :: 0 <= k < |r| ==> r[k].(source := explanations[k].source) == explanations[k]
    ensures forall k :: 0 <= k < |r| ==>
      r[k].source == (if explanations[k].source.Some? && explanations[k].source.value in removed then None else explanations[k].source)
  {
    seq(|explanations|, k requires 0 <= k < |explanations| =>
      var e := explanations[k];
      if e.source.Some? && e.source.value in removed then e.(source := None) else e)
  }
}
