/** backend/api/project/views/version_history_view.py: the version history of
    either document kind of a project, newest version first, and marking one
    version as confirmed. */
module VersionHistory {
  import opened Options
  import opened Records
  import opened Sorting
  import opened ProjectSerializer
  import opened DocumentModels
  import opened ProjectViews

  const PROBLEM_VERSION_NOT_FOUND_MESSAGE := "指定したバージョンの問題LaTeXドキュメントが見つかりません"
  const EXPLANATION_VERSION_NOT_FOUND_MESSAGE := "指定したバージョンの解説が見つかりません"

  /** The `404` text of a confirm whose version is missing. */
  function VersionNotFoundMessage(kind: DocKind): (m: string)
    ensures kind == ProblemDoc ==> m == PROBLEM_VERSION_NOT_FOUND_MESSAGE
    ensures kind == ExplanationDoc ==> m == EXPLANATION_VERSION_NOT_FOUND_MESSAGE
  {
    if kind == ProblemDoc then PROBLEM_VERSION_NOT_FOUND_MESSAGE else EXPLANATION_VERSION_NOT_FOUND_MESSAGE
  }

  /** `order_by('-version')`. */
  function ByVersionDesc(): (Document, Document) -> bool {
    (a: Document, b: Document) => a.version >= b.version
  }

  lemma ByVersionDescIsPreorder()
    ensures TotalPreorder(ByVersionDesc())
  {
  }

  /** `filter(problem=problem)`. */
  function OfProject(pk: Id): Document -> bool {
    (d: Document) => d.problem == pk
  }

  /** `filter(problem=problem).order_by('-version')`. */
  function HistoryRows(docs: seq<Document>, pk: Id): seq<Document> {
    SortBy(ByVersionDesc(), Filter(docs, OfProject(pk)))
  }

  /** The history holds exactly the project's rows, each as often as stored,
      the highest version first. */
  lemma HistoryRowsCorrect(docs: seq<Document>, pk: Id)
    ensures var r := HistoryRows(docs, pk);
      (forall d :: multiset(r)[d] == if d.problem == pk then multiset(docs)[d] else 0) &&
      (forall d :: d in r <==> d in docs && d.problem == pk) &&
      (forall i, j :: 0 <= i < j < |r| ==> r[i].version >= r[j].version)
  {
    var own := Filter(docs, OfProject(pk));
    ByVersionDescIsPreorder();
    SortByCorrect(ByVersionDesc(), own);
    var r := HistoryRows(docs, pk);
    assert forall d :: d in r <==> d in multiset(own);
  }

  /** Under `unique_together = ("problem", "version")` the history has no two
      rows of one version: the versions strictly decrease. */
  lemma HistoryStrictlyDecreasing(docs: seq<Document>, problems: seq<Problem>, pk: Id)
    requires DocumentsValid(docs, problems)
    ensures forall i, j :: 0 <= i < j < |HistoryRows(docs, pk)| ==>
      HistoryRows(docs, pk)[i].version > HistoryRows(docs, pk)[j].version
  {
    var own := Filter(docs, OfProject(pk));
    var r := HistoryRows(docs, pk);
    ByVersionDescIsPreorder();
    SortByCorrect(ByVersionDesc(), own);
    FilterKeepsUnique(docs, OfProject(pk), VersionKey);
    UniquePermutation(own, r, VersionKey);
    forall i, j | 0 <= i < j < |r| ensures r[i].version > r[j].version {
      assert r[i] in multiset(own) && r[j] in multiset(own);
      assert VersionKey(r[i]) != VersionKey(r[j]);
    }
  }

  /** `ProblemLatexHistoryView.get` / `ExplanationHistoryView.get`: a project
      outside the trash of the caller's answers with one response item per
      history row, built one at a time; `pdf_url` is `None` exactly for a row
      without a PDF. */
  method History(db: Database, kind: DocKind, mediaUrl: string, caller: UserId, pk: Id)
    returns (reply: Reply<seq<DocView>>)
    ensures var a := Authorize(db.problems, pk, caller, Active);
      (!a.Granted? ==> reply == Refusal(a)) &&
      (a.Granted? ==>
        var rows := HistoryRows(db.Documents(kind), pk);
        reply.Ok? && reply.status == 200 && |reply.body| == |rows| &&
        forall k :: 0 <= k < |rows| ==> reply.body[k] == ToView(mediaUrl, rows[k]))
  {
    var a := Authorize(db.problems, pk, caller, Active);
    if !a.Granted? {
      return Refusal(a);
    }
    var views := Views(mediaUrl, HistoryRows(db.Documents(kind), pk));
    reply := Ok(200, views);
  }

  /** `DocumentLatexSerializer(rows, many=True).data`: one response item per
      row, in the rows' order. */
  method Views(mediaUrl: string, rows: seq<Document>) returns (views: seq<DocView>)
    ensures |views| == |rows|
    ensures forall k :: 0 <= k < |rows| ==> views[k] == ToView(mediaUrl, rows[k])
  {
    views := [];
    var n := 0;
    while n < |rows|
      invariant n <= |rows|
      invariant |views| == n
      invariant forall k :: 0 <= k < n ==> views[k] == ToView(mediaUrl, rows[k])
    {
      views := views + [ToView(mediaUrl, rows[n])];
      n := n + 1;
    }
  }

  /** `.get(problem=problem, version=version)`: the row of that project and
      version. */
  function AtVersion(pk: Id, version: int): Document -> bool {
    (d: Document) => VersionKey(d) == (pk, version)
  }

  function VersionIndex(docs: seq<Document>, pk: Id, version: int): (r: Option<nat>)
    ensures r.None? <==> forall d :: d in docs ==> VersionKey(d) != (pk, version)
    ensures r.Some? ==> r.value < |docs| && VersionKey(docs[r.value]) == (pk, version)
  {
    var r := FindIndex(docs, AtVersion(pk, version));
    if r.None? then r
    else
      assert docs[r.value] in docs;
      r
  }

  /** Under `unique_together` the row found is the only one of that project
      and version. */
  lemma VersionIndexOnly(docs: seq<Document>, problems: seq<Problem>, pk: Id, version: int)
    requires DocumentsValid(docs, problems)
    requires VersionIndex(docs, pk, version).Some?
    ensures forall k :: 0 <= k < |docs| && VersionKey(docs[k]) == (pk, version) ==>
      k == VersionIndex(docs, pk, version).value
  {
    var i := VersionIndex(docs, pk, version).value;
    forall k | 0 <= k < |docs| && VersionKey(docs[k]) == (pk, version)
      ensures k == i
    {
      UniqueKeyIndex(docs, VersionKey, k, i);
    }
  }

  /** The row after `is_confirmed = True; save()`. */
  function Confirmed(d: Document, now: Time): (r: Document)
    ensures r.isConfirmed && r.updatedAt == now
    ensures r.(isConfirmed := d.isConfirmed, updatedAt := d.updatedAt) == d
  {
    d.(isConfirmed := true, updatedAt := now)
  }

  /** Confirming twice is confirming once, at the time of the second save. */
  lemma ConfirmIdempotent(d: Document, first: Time, second: Time)
    ensures Confirmed(Confirmed(d, first), second) == Confirmed(d, second)
    ensures d.isConfirmed ==> Confirmed(d, second) == d.(updatedAt := second)
  {
  }

  /** A confirmation marks its row and changes no other: no other row is
      unconfirmed, so several versions may be confirmed at once. */
  lemma ConfirmChangesOnlyTarget(docs: seq<Document>, i: nat, now: Time)
    requires i < |docs|
    ensures var r := docs[i := Confirmed(docs[i], now)];
      |r| == |docs| && r[i].isConfirmed &&
      (forall k :: 0 <= k < |docs| && k != i ==> r[k] == docs[k]) &&
      (forall k :: 0 <= k < |docs| && docs[k].isConfirmed ==> r[k].isConfirmed) &&
      (forall k :: 0 <= k < |docs| ==> VersionKey(r[k]) == VersionKey(docs[k]) && r[k].latexCode == docs[k].latexCode)
  {
  }

  /** `ProblemLatexConfirmView.post` / `ExplanationConfirmView.post`: the
      project check, then the row of that version is confirmed and saved; a
      missing version is `404` and nothing changes. */
  method Confirm(db: Database, kind: DocKind, mediaUrl: string, caller: UserId, pk: Id, version: int, now: Time)
    returns (reply: Reply<DocView>)
    requires db.Valid()
    modifies db
    ensures db.Valid()
    ensures var a := Authorize(old(db.problems), pk, caller, Active);
      var found := VersionIndex(old(db.Documents(kind)), pk, version);
      (!a.Granted? ==> db.Documents(kind) == old(db.Documents(kind)) && reply == Refusal(a)) &&
      (a.Granted? && found.None? ==>
        db.Documents(kind) == old(db.Documents(kind)) && reply == Error(404, VersionNotFoundMessage(kind))) &&
      (a.Granted? && found.Some? ==>
        var d := Confirmed(old(db.Documents(kind))[found.value], now);
        db.Documents(kind) == old(db.Documents(kind))[found.value := d] &&
        reply == Ok(200, ToView(mediaUrl, d)))
    ensures kind == ProblemDoc ==> db.explanations == old(db.explanations)
    ensures kind == ExplanationDoc ==> db.problemDocs == old(db.problemDocs)
    ensures db.problems == old(db.problems) && db.templates == old(db.templates)
  {
    var a := Authorize(db.problems, pk, caller, Active);
    if !a.Granted? {
      return Refusal(a);
    }
    var found := VersionIndex(db.Documents(kind), pk, version);
    if found.None? {
      return Error(404, VersionNotFoundMessage(kind));
    }
    var i := found.value;
    var d := Confirmed(db.Documents(kind)[i], now);
    RewriteKeepsValid(db, kind, i, d);
    if kind == ProblemDoc {
      db.problemDocs := db.problemDocs[i := d];
    } else {
      db.explanations := db.explanations[i := d];
    }
    reply := Ok(200, ToView(mediaUrl, d));
  }
}
