/** backend/app/migrations/0011_migrate_data_to_new_models.py: the data
    migration that copies the rows of the old `LatexDocument` table, tagged
    by `document_type`, into the `ProblemLatexDocument` and `Explanation`
    tables, and its reverse. */
module DataMigration {
  import opened Options
  import opened Records

  const PROBLEM_TYPE := "problem"
  const EXPLANATION_TYPE := "explanation"

  /** A row of the old `LatexDocument` model (backend/app/models/latex_document.py). */
  datatype LegacyDocument = LegacyDocument(
    id: Id, problem: Id, documentType: string, latexCode: string, pdfPath: string,
    version: int, isConfirmed: bool, createdAt: Time, updatedAt: Time)

  function LegacyKey(d: LegacyDocument): Id { d.id }
  /** The triple of its `unique_together`. */
  function LegacyVersionKey(d: LegacyDocument): (Id, string, int) { (d.problem, d.documentType, d.version) }

  ghost predicate LegacyValid(rows: seq<LegacyDocument>) {
    Unique(rows, LegacyKey) && Unique(rows, LegacyVersionKey)
  }

  function Tagged(tag: string): LegacyDocument -> bool {
    (d: LegacyDocument) => d.documentType == tag
  }

  /** Primary keys, the `unique_together` constraints, and the
      `source_problem_latex` foreign key. */
  ghost predicate TablesValid(legacy: seq<LegacyDocument>, problemDocs: seq<Document>, explanations: seq<Document>) {
    LegacyValid(legacy) &&
    Unique(problemDocs, DocumentKey) && Unique(problemDocs, VersionKey) &&
    Unique(explanations, DocumentKey) && Unique(explanations, VersionKey) &&
    (forall e :: e in explanations && e.source.Some? ==> HasDocument(problemDocs, e.source.value))
  }

  /** The tables the migration reads and writes, at the schema of this
      migration. */
  class Tables {
    var legacy: seq<LegacyDocument>
    var problemDocs: seq<Document>
    var explanations: seq<Document>

    /** The constraints of the three tables. */
    ghost predicate Valid()
      reads this
    {
      TablesValid(legacy, problemDocs, explanations)
    }
  }

  /** The copy of one old row into a new table: every field kept, the source
      as given. */
  function ToDocument(doc: LegacyDocument, source: Option<Id>): (d: Document)
    ensures d.id == doc.id && d.problem == doc.problem && d.source == source
    ensures d.latexCode == doc.latexCode && d.pdfPath == doc.pdfPath && d.version == doc.version
    ensures d.isConfirmed == doc.isConfirmed && d.createdAt == doc.createdAt && d.updatedAt == doc.updatedAt
  {
    Document(doc.id, doc.problem, source, doc.latexCode, doc.pdfPath, doc.version, doc.isConfirmed,
             doc.createdAt, doc.updatedAt)
  }

  /** The copy of a new row back into the old table under a tag. */
  function ToLegacy(d: Document, tag: string): (doc: LegacyDocument)
    ensures doc.id == d.id && doc.problem == d.problem && doc.documentType == tag
    ensures doc.latexCode == d.latexCode && doc.pdfPath == d.pdfPath && doc.version == d.version
    ensures doc.isConfirmed == d.isConfirmed && doc.createdAt == d.createdAt && doc.updatedAt == d.updatedAt
  {
    LegacyDocument(d.id, d.problem, tag, d.latexCode, d.pdfPath, d.version, d.isConfirmed, d.createdAt, d.updatedAt)
  }

  /** Field by field, copying a row forward and back gives the row again. */
  lemma RowRoundTrip(doc: LegacyDocument, source: Option<Id>)
    ensures ToLegacy(ToDocument(doc, source), doc.documentType) == doc
  {
  }

  /** `objects.create(...)` stamps a field with `auto_now_add` or `auto_now`
      with the time of the insert, whatever value is passed for it; the
      historical models of a migration keep both options. */
  function ToDocumentAsWritten(doc: LegacyDocument, source: Option<Id>, now: Time): (d: Document)
    ensures d.createdAt == now && d.updatedAt == now
    ensures d.(createdAt := doc.createdAt, updatedAt := doc.updatedAt) == ToDocument(doc, source)
  {
    ToDocument(doc, source).(createdAt := now, updatedAt := now)
  }

  function ToLegacyAsWritten(d: Document, tag: string, now: Time): (doc: LegacyDocument)
    ensures doc.createdAt == now && doc.updatedAt == now
    ensures doc.(createdAt := d.createdAt, updatedAt := d.updatedAt) == ToLegacy(d, tag)
  {
    ToLegacy(d, tag).(createdAt := now, updatedAt := now)
  }

  /** As written, a row survives forward and back only when both of its
      timestamps happen to equal the time of the reverse run. */
  lemma AsWrittenRoundTrip(doc: LegacyDocument, source: Option<Id>, forwardAt: Time, reverseAt: Time)
    ensures ToLegacyAsWritten(ToDocumentAsWritten(doc, source, forwardAt), doc.documentType, reverseAt) == doc
      <==> doc.createdAt == reverseAt && doc.updatedAt == reverseAt
  {
    var back := ToLegacyAsWritten(ToDocumentAsWritten(doc, source, forwardAt), doc.documentType, reverseAt);
    if doc.createdAt == reverseAt && doc.updatedAt == reverseAt {
      RowRoundTrip(doc, source);
    }
  }

  /** A row created at time 0 and migrated at time 10 comes out created at
      time 10. */
  lemma AsWrittenLosesCreationTime()
    ensures var doc := LegacyDocument(1, 1, PROBLEM_TYPE, "x", "", 1, false, 0, 0);
      ToDocumentAsWritten(doc, None, 10).createdAt != doc.createdAt &&
      ToLegacyAsWritten(ToDocumentAsWritten(doc, None, 10), PROBLEM_TYPE, 20) != doc
  {
  }

  /** The rows the first forward function creates, in table order. */
  function ProblemRows(legacy: seq<LegacyDocument>): seq<Document> {
    var rows := Filter(legacy, Tagged(PROBLEM_TYPE));
    seq(|rows|, k requires 0 <= k < |rows| => ToDocument(rows[k], None))
  }

  /** The rows the second forward function creates, each with the source
      `SourceFor` finds among the problem documents migrated before it. */
  function ExplanationRows(legacy: seq<LegacyDocument>, problemDocs: seq<Document>): seq<Document> {
    var rows := Filter(legacy, Tagged(EXPLANATION_TYPE));
    seq(|rows|, k requires 0 <= k < |rows| => ToDocument(rows[k], SourceFor(problemDocs, rows[k].problem)))
  }

  /** The rows a reverse function creates. */
  function LegacyRows(docs: seq<Document>, tag: string): seq<LegacyDocument> {
    seq(|docs|, k requires 0 <= k < |docs| => ToLegacy(docs[k], tag))
  }

  /** Copying the rows of one tag forward and back gives exactly those rows. */
  lemma ProblemRowsRoundTrip(legacy: seq<LegacyDocument>)
    ensures LegacyRows(ProblemRows(legacy), PROBLEM_TYPE) == Filter(legacy, Tagged(PROBLEM_TYPE))
  {
    var ps := Filter(legacy, Tagged(PROBLEM_TYPE));
    var back := LegacyRows(ProblemRows(legacy), PROBLEM_TYPE);
    assert |back| == |ps|;
    forall k | 0 <= k < |ps| ensures back[k] == ps[k] {
      assert ps[k] in ps;
      assert ps[k].documentType == PROBLEM_TYPE;
      RowRoundTrip(ps[k], None);
    }
  }

  lemma ExplanationRowsRoundTrip(legacy: seq<LegacyDocument>, problemDocs: seq<Document>)
    ensures LegacyRows(ExplanationRows(legacy, problemDocs), EXPLANATION_TYPE) == Filter(legacy, Tagged(EXPLANATION_TYPE))
  {
    var es := Filter(legacy, Tagged(EXPLANATION_TYPE));
    var back := LegacyRows(ExplanationRows(legacy, problemDocs), EXPLANATION_TYPE);
    assert |back| == |es|;
    forall k | 0 <= k < |es| ensures back[k] == es[k] {
      assert es[k] in es;
      assert es[k].documentType == EXPLANATION_TYPE;
      RowRoundTrip(es[k], SourceFor(problemDocs, es[k].problem));
    }
  }

  /** What the reverse functions create after a forward run over `legacy`. */
  function RestoredRows(legacy: seq<LegacyDocument>): seq<LegacyDocument> {
    LegacyRows(ExplanationRows(legacy, ProblemRows(legacy)), EXPLANATION_TYPE) +
    LegacyRows(ProblemRows(legacy), PROBLEM_TYPE)
  }

  /** Migrating forward and back restores every old row with all its field
      values (the reverse creates the explanations first, then the problem
      documents), provided every row carries one of the two tags. */
  lemma ForwardThenReverse(legacy: seq<LegacyDocument>)
    requires forall d :: d in legacy ==> d.documentType == PROBLEM_TYPE || d.documentType == EXPLANATION_TYPE
    ensures multiset(RestoredRows(legacy)) == multiset(legacy)
  {
    var problemDocs := ProblemRows(legacy);
    ProblemRowsRoundTrip(legacy);
    ExplanationRowsRoundTrip(legacy, problemDocs);
    var ps := Filter(legacy, Tagged(PROBLEM_TYPE));
    var es := Filter(legacy, Tagged(EXPLANATION_TYPE));
    assert RestoredRows(legacy) == es + ps;
    TagsPartition(legacy);
  }

  /** When every row carries one of the two tags, the two tags' rows together
      are the whole table. */
  lemma TagsPartition(legacy: seq<LegacyDocument>)
    requires forall d :: d in legacy ==> d.documentType == PROBLEM_TYPE || d.documentType == EXPLANATION_TYPE
    ensures multiset(Filter(legacy, Tagged(EXPLANATION_TYPE)) + Filter(legacy, Tagged(PROBLEM_TYPE))) == multiset(legacy)
  {
    var ps := Filter(legacy, Tagged(PROBLEM_TYPE));
    var es := Filter(legacy, Tagged(EXPLANATION_TYPE));
    forall d ensures (multiset(es) + multiset(ps))[d] == multiset(legacy)[d] {
      if d in legacy {
        assert Tagged(PROBLEM_TYPE)(d) || Tagged(EXPLANATION_TYPE)(d);
      }
    }
    assert multiset(es) + multiset(ps) == multiset(legacy);
  }

  /** A row of the old table keeps its key and, within its tag, its
      `(problem, version)` pair in the new table. */
  lemma {:induction false} CopiesKeepUnique(legacy: seq<LegacyDocument>, problemDocs: seq<Document>)
    requires LegacyValid(legacy)
    ensures Unique(ProblemRows(legacy), DocumentKey) && Unique(ProblemRows(legacy), VersionKey)
    ensures Unique(ExplanationRows(legacy, problemDocs), DocumentKey) && Unique(ExplanationRows(legacy, problemDocs), VersionKey)
  {
    var ps := Filter(legacy, Tagged(PROBLEM_TYPE));
    var es := Filter(legacy, Tagged(EXPLANATION_TYPE));
    FilterKeepsUnique(legacy, Tagged(PROBLEM_TYPE), LegacyKey);
    FilterKeepsUnique(legacy, Tagged(PROBLEM_TYPE), LegacyVersionKey);
    FilterKeepsUnique(legacy, Tagged(EXPLANATION_TYPE), LegacyKey);
    FilterKeepsUnique(legacy, Tagged(EXPLANATION_TYPE), LegacyVersionKey);
    TaggedCopiesUnique(ps, PROBLEM_TYPE, ProblemRows(legacy));
    TaggedCopiesUnique(es, EXPLANATION_TYPE, ExplanationRows(legacy, problemDocs));
  }

  /** Copies of rows of one tag, keeping each row's key, problem and version,
      keep both constraints. */
  lemma TaggedCopiesUnique(rows: seq<LegacyDocument>, tag: string, copies: seq<Document>)
    requires Unique(rows, LegacyKey) && Unique(rows, LegacyVersionKey)
    requires forall d :: d in rows ==> d.documentType == tag
    requires |copies| == |rows|
    requires forall k :: 0 <= k < |rows| ==>
      copies[k].id == rows[k].id && copies[k].problem == rows[k].problem && copies[k].version == rows[k].version
    ensures Unique(copies, DocumentKey) && Unique(copies, VersionKey)
  {
    forall i, j | 0 <= i < j < |copies|
      ensures DocumentKey(copies[i]) != DocumentKey(copies[j]) && VersionKey(copies[i]) != VersionKey(copies[j])
    {
      assert rows[i] in rows && rows[j] in rows;
      assert LegacyKey(rows[i]) != LegacyKey(rows[j]) && LegacyVersionKey(rows[i]) != LegacyVersionKey(rows[j]);
    }
  }

  /** Into empty new tables both forward functions insert every row. */
  lemma FreshTablesAccept(legacy: seq<LegacyDocument>)
    requires LegacyValid(legacy)
    ensures var pr := [] + ProblemRows(legacy);
      Unique(pr, DocumentKey) && Unique(pr, VersionKey) &&
      Unique([] + ExplanationRows(legacy, pr), DocumentKey) && Unique([] + ExplanationRows(legacy, pr), VersionKey)
  {
    var pr := ProblemRows(legacy);
    assert [] + pr == pr;
    CopiesKeepUnique(legacy, pr);
    assert [] + ExplanationRows(legacy, pr) == ExplanationRows(legacy, pr);
  }

  /** Every source picked names a migrated problem document. */
  lemma ExplanationSourcesExist(legacy: seq<LegacyDocument>, problemDocs: seq<Document>)
    ensures forall e :: e in ExplanationRows(legacy, problemDocs) && e.source.Some? ==> HasDocument(problemDocs, e.source.value)
  {
    var es := Filter(legacy, Tagged(EXPLANATION_TYPE));
    var er := ExplanationRows(legacy, problemDocs);
    forall e | e in er && e.source.Some? ensures HasDocument(problemDocs, e.source.value) {
      var k :| 0 <= k < |er| && er[k] == e;
      SourceForChoice(problemDocs, es[k].problem);
    }
  }

  /** Under unique keys, `s + [x]` has unique keys exactly when `x`'s key is new. */
  lemma AppendUniqueIff<T, K>(s: seq<T>, x: T, key: T -> K)
    requires Unique(s, key)
    ensures Unique(s + [x], key) <==> forall y :: y in s ==> key(y) != key(x)
  {
    if Unique(s + [x], key) {
      forall y | y in s ensures key(y) != key(x) {
        var k :| 0 <= k < |s| && s[k] == y;
        assert (s + [x])[k] == y && (s + [x])[|s|] == x;
      }
    } else {
      forall k | 0 <= k < |s| ensures key(s[k]) != key(x) || !(forall y :: y in s ==> key(y) != key(x)) {
        assert s[k] in s;
      }
      if forall y :: y in s ==> key(y) != key(x) {
        AppendKeepsUnique(s, x, key);
      }
    }
  }

  /** Keys apart in a table are apart in each of its prefixes. */
  lemma PrefixUnique<T, K>(s: seq<T>, n: nat, key: T -> K)
    requires Unique(s, key) && n <= |s|
    ensures Unique(s[..n], key)
  {
    forall i, j | 0 <= i < j < n ensures key(s[..n][i]) != key(s[..n][j]) {
      assert s[..n][i] == s[i] && s[..n][j] == s[j];
    }
  }

  lemma PrefixNotUnique<T, K>(s: seq<T>, n: nat, key: T -> K)
    requires n <= |s| && !Unique(s[..n], key)
    ensures !Unique(s, key)
  {
    var i, j :| 0 <= i < j < n && key(s[..n][i]) == key(s[..n][j]);
    assert s[..n][i] == s[i] && s[..n][j] == s[j];
  }

  /** A row clashing with `x` on either constraint. */
  function Clashing<T, K1(==), K2(==)>(x: T, key: T -> K1, pair: T -> K2): T -> bool {
    (y: T) => key(y) == key(x) || pair(y) == pair(x)
  }

  /** The `for` loop of `objects.create(...)` calls inside the migration's
      transaction: each insert raises `IntegrityError` when its key or its
      `unique_together` value is already taken, and the transaction then
      leaves the table as it was. */
  method CreateEach<T, K1(==), K2(==)>(table: seq<T>, rows: seq<T>, key: T -> K1, pair: T -> K2)
    returns (ok: bool, result: seq<T>)
    requires Unique(table, key) && Unique(table, pair)
    ensures ok <==> Unique(table + rows, key) && Unique(table + rows, pair)
    ensures ok ==> result == table + rows
    ensures !ok ==> result == table
  {
    result := table;
    var k := 0;
    while k < |rows|
      invariant k <= |rows|
      invariant result == table + rows[..k]
      invariant Unique(result, key) && Unique(result, pair)
    {
      var x := rows[k];
      var clash := FindIndex(result, Clashing(x, key, pair));
      AppendUniqueIff(result, x, key);
      AppendUniqueIff(result, x, pair);
      assert table + rows[..k + 1] == result + [x];
      if clash.Some? {
        assert result[clash.value] in result;
        assert (table + rows)[..|table| + k + 1] == result + [x];
        if !Unique(result + [x], key) {
          PrefixNotUnique(table + rows, |table| + k + 1, key);
        } else {
          PrefixNotUnique(table + rows, |table| + k + 1, pair);
        }
        return false, table;
      }
      forall y | y in result ensures key(y) != key(x) && pair(y) != pair(x) {
        var m :| 0 <= m < |result| && result[m] == y;
      }
      result := result + [x];
      k := k + 1;
    }
    assert rows[..k] == rows;
    ok := true;
  }

  /** `migrate_latex_documents_to_problem_latex_documents`. */
  method MigrateProblemDocuments(t: Tables) returns (ok: bool)
    requires t.Valid()
    modifies t
    ensures t.Valid()
    ensures t.legacy == old(t.legacy) && t.explanations == old(t.explanations)
    ensures ok <==> Unique(old(t.problemDocs) + ProblemRows(t.legacy), DocumentKey) &&
                    Unique(old(t.problemDocs) + ProblemRows(t.legacy), VersionKey)
    ensures t.problemDocs == if ok then old(t.problemDocs) + ProblemRows(t.legacy) else old(t.problemDocs)
  {
    var created;
    ok, created := CreateEach(t.problemDocs, ProblemRows(t.legacy), DocumentKey, VersionKey);
    forall e | e in t.explanations && e.source.Some? ensures HasDocument(created, e.source.value) {
      var d :| d in t.problemDocs && d.id == e.source.value;
      assert ok ==> d in t.problemDocs + ProblemRows(t.legacy);
    }
    t.problemDocs := created;
  }

  /** `migrate_explanation_documents_to_explanations`: runs after the problem
      documents are in place, so the source lookup sees them. */
  method MigrateExplanations(t: Tables) returns (ok: bool)
    requires t.Valid()
    modifies t
    ensures t.Valid()
    ensures t.legacy == old(t.legacy) && t.problemDocs == old(t.problemDocs)
    ensures ok <==> Unique(old(t.explanations) + ExplanationRows(t.legacy, t.problemDocs), DocumentKey) &&
                    Unique(old(t.explanations) + ExplanationRows(t.legacy, t.problemDocs), VersionKey)
    ensures t.explanations ==
      if ok then old(t.explanations) + ExplanationRows(t.legacy, t.problemDocs) else old(t.explanations)
  {
    var rows := ExplanationRows(t.legacy, t.problemDocs);
    ExplanationSourcesExist(t.legacy, t.problemDocs);
    var created;
    ok, created := CreateEach(t.explanations, rows, DocumentKey, VersionKey);
    t.explanations := created;
  }

  /** The forward migration: problem documents first, then explanations, in
      one transaction; the old rows are never deleted. */
  method Forward(t: Tables) returns (ok: bool)
    requires t.Valid()
    modifies t
    ensures t.Valid()
    ensures t.legacy == old(t.legacy)
    ensures ok ==>
      t.problemDocs == old(t.problemDocs) + ProblemRows(t.legacy) &&
      t.explanations == old(t.explanations) + ExplanationRows(t.legacy, t.problemDocs)
    ensures !ok ==> t.problemDocs == old(t.problemDocs) && t.explanations == old(t.explanations)
    ensures old(t.problemDocs) == [] && old(t.explanations) == [] ==> ok
  {
    var before := t.problemDocs;
    if t.problemDocs == [] && t.explanations == [] {
      FreshTablesAccept(t.legacy);
    }
    ok := MigrateProblemDocuments(t);
    if !ok {
      return;
    }
    var second := MigrateExplanations(t);
    if !second {
      Rollback(t, before);
      ok := false;
    }
  }

  /** The end of a failed transaction: the problem documents it created are gone. */
  method Rollback(t: Tables, problemDocs: seq<Document>)
    requires TablesValid(t.legacy, problemDocs, t.explanations)
    modifies t
    ensures t.Valid()
    ensures t.problemDocs == problemDocs
    ensures t.legacy == old(t.legacy) && t.explanations == old(t.explanations)
  {
    t.problemDocs := problemDocs;
  }

  /** `reverse_migrate_explanations`. */
  method ReverseExplanations(t: Tables) returns (ok: bool)
    requires t.Valid()
    modifies t
    ensures t.Valid()
    ensures t.problemDocs == old(t.problemDocs) && t.explanations == old(t.explanations)
    ensures ok <==> LegacyValid(old(t.legacy) + LegacyRows(t.explanations, EXPLANATION_TYPE))
    ensures t.legacy == if ok then old(t.legacy) + LegacyRows(t.explanations, EXPLANATION_TYPE) else old(t.legacy)
  {
    var created;
    ok, created := CreateEach(t.legacy, LegacyRows(t.explanations, EXPLANATION_TYPE), LegacyKey, LegacyVersionKey);
    t.legacy := created;
  }

  /** `reverse_migrate_problem_latex_documents`. */
  method ReverseProblemDocuments(t: Tables) returns (ok: bool)
    requires t.Valid()
    modifies t
    ensures t.Valid()
    ensures t.problemDocs == old(t.problemDocs) && t.explanations == old(t.explanations)
    ensures ok <==> LegacyValid(old(t.legacy) + LegacyRows(t.problemDocs, PROBLEM_TYPE))
    ensures t.legacy == if ok then old(t.legacy) + LegacyRows(t.problemDocs, PROBLEM_TYPE) else old(t.legacy)
  {
    var created;
    ok, created := CreateEach(t.legacy, LegacyRows(t.problemDocs, PROBLEM_TYPE), LegacyKey, LegacyVersionKey);
    t.legacy := created;
  }

  /** The reverse migration: the operations are undone in reverse order, so
      the explanations go back first, then the problem documents, in one
      transaction.  The new tables are left as they are (the earlier
      migrations' reverses drop them). */
  method Reverse(t: Tables) returns (ok: bool)
    requires t.Valid()
    modifies t
    ensures t.Valid()
    ensures t.problemDocs == old(t.problemDocs) && t.explanations == old(t.explanations)
    ensures var all := old(t.legacy) + LegacyRows(t.explanations, EXPLANATION_TYPE) + LegacyRows(t.problemDocs, PROBLEM_TYPE);
      (ok <==> LegacyValid(all)) &&
      t.legacy == if ok then all else old(t.legacy)
  {
    var before := t.legacy;
    var all := before + LegacyRows(t.explanations, EXPLANATION_TYPE) + LegacyRows(t.problemDocs, PROBLEM_TYPE);
    var mid := before + LegacyRows(t.explanations, EXPLANATION_TYPE);
    assert all[..|mid|] == mid;
    if LegacyValid(all) {
      PrefixUnique(all, |mid|, LegacyKey);
      PrefixUnique(all, |mid|, LegacyVersionKey);
    }
    ok := ReverseExplanations(t);
    if !ok {
      return;
    }
    assert all == t.legacy + LegacyRows(t.problemDocs, PROBLEM_TYPE);
    ok := ReverseProblemDocuments(t);
    if !ok {
      t.legacy := before;
    }
  }

  /** The forward step leaves the old rows in place, so undoing it right
      after it ran clashes on the first copied-back key: the reverse fails
      and changes nothing. */
  lemma ReverseRightAfterForwardClashes(legacy: seq<LegacyDocument>, d: LegacyDocument)
    requires d in legacy && (d.documentType == PROBLEM_TYPE || d.documentType == EXPLANATION_TYPE)
    ensures !Unique(legacy + RestoredRows(legacy), LegacyKey)
  {
    var es := LegacyRows(ExplanationRows(legacy, ProblemRows(legacy)), EXPLANATION_TYPE);
    var ps := LegacyRows(ProblemRows(legacy), PROBLEM_TYPE);
    ProblemRowsRoundTrip(legacy);
    ExplanationRowsRoundTrip(legacy, ProblemRows(legacy));
    if d.documentType == EXPLANATION_TYPE {
      assert Tagged(EXPLANATION_TYPE)(d);
      assert d in es;
    } else {
      assert Tagged(PROBLEM_TYPE)(d);
      assert d in ps;
    }
    assert d in RestoredRows(legacy);
    KeptRowClashes(legacy, RestoredRows(legacy), d);
  }

  /** A row present twice breaks the primary key. */
  lemma KeptRowClashes(legacy: seq<LegacyDocument>, back: seq<LegacyDocument>, d: LegacyDocument)
    requires d in legacy && d in back
    ensures !Unique(legacy + back, LegacyKey)
  {
    var all := legacy + back;
    var i :| 0 <= i < |legacy| && legacy[i] == d;
    var m :| 0 <= m < |back| && back[m] == d;
    assert all[i] == d && all[|legacy| + m] == d;
    assert LegacyKey(all[i]) == LegacyKey(all[|legacy| + m]);
  }


}
