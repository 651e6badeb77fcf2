/** backend/api/project/views/project_view.py: the project list, creation,
    detail, update of the solution notes, and the soft-delete lifecycle
    (move to the trash, restore, the trash list, permanent deletion) over the
    problem table. */
module ProjectViews {
  import opened Options
  import opened Text
  import opened Records
  import opened Sorting
  import opened SerializerFields
  import opened ProjectSerializer
  import opened DocumentModels
  import FileStorage

  const PROJECT_NOT_FOUND_MESSAGE := "プロジェクトが見つかりません"
  const FORBIDDEN_MESSAGE := "このプロジェクトへのアクセス権限がありません"

  /** A view's answer: a body, an empty `204`, an `error` text, or the field
      errors of a refused request (`400`). */
  datatype Reply<T> = Ok(status: nat, body: T) | NoContent | Error(status: nat, error: string) | BadRequest(errors: seq<FieldError>)

  /** Which rows a lookup accepts: `deleted_at__isnull=True`,
      `deleted_at__isnull=False`, or no filter on `deleted_at`. */
  datatype Lifecycle = Active | Trashed | AnyState

  predicate InState(p: Problem, state: Lifecycle) {
    match state
    case Active => p.deletedAt.None?
    case Trashed => p.deletedAt.Some?
    case AnyState => true
  }

  /** The outcome of the lookup and ownership check every project view starts
      with. */
  datatype Access = NotFound | Forbidden | Granted(index: nat)

  /** `Problem.objects.get(id=pk, <state filter>)`, then `problem.user !=
      request.user`: the lookup answers first, so a row in another state is
      missing whoever asks, and only a row found is checked for its owner. */
  function Authorize(problems: seq<Problem>, pk: Id, caller: UserId, state: Lifecycle): (r: Access)
    ensures r.NotFound? <==> forall p :: p in problems ==> !(p.id == pk && InState(p, state))
    ensures r.Granted? ==>
      r.index < |problems| && problems[r.index].id == pk &&
      InState(problems[r.index], state) && problems[r.index].user == caller
    ensures r.Forbidden? ==> exists p :: p in problems && p.id == pk && InState(p, state) && p.user != caller
  {
    match FindIndex(problems, (p: Problem) => p.id == pk && InState(p, state))
    case None => NotFound
    case Some(i) =>
      assert problems[i] in problems;
      if problems[i].user == caller then Granted(i) else Forbidden
  }

  /** With unique keys, a found project is refused exactly when someone else
      owns it, and whether it is found does not depend on who asks. */
  lemma AuthorizeByOwner(problems: seq<Problem>, pk: Id, caller: UserId, other: UserId, state: Lifecycle)
    requires Unique(problems, ProblemKey)
    ensures Authorize(problems, pk, caller, state).Forbidden? <==>
      exists p :: p in problems && p.id == pk && InState(p, state) && p.user != caller
    ensures Authorize(problems, pk, caller, state).Granted? <==>
      exists p :: p in problems && p.id == pk && InState(p, state) && p.user == caller
    ensures Authorize(problems, pk, caller, state).NotFound? == Authorize(problems, pk, other, state).NotFound?
  {
    var r := Authorize(problems, pk, caller, state);
    if r.Granted? {
      forall p | p in problems && p.id == pk && InState(p, state) ensures p.user == caller {
        var k :| 0 <= k < |problems| && problems[k] == p;
        UniqueKeyIndex(problems, ProblemKey, k, r.index);
      }
    }
  }

  /** The `error` reply of a refused lookup: `404`, or `403` for another
      user's project. */
  function Refusal<T>(a: Access): (r: Reply<T>)
    requires !a.Granted?
    ensures a.NotFound? ==> r == Error(404, PROJECT_NOT_FOUND_MESSAGE)
    ensures a.Forbidden? ==> r == Error(403, FORBIDDEN_MESSAGE)
  {
    if a.NotFound? then Error(404, PROJECT_NOT_FOUND_MESSAGE) else Error(403, FORBIDDEN_MESSAGE)
  }

  /** `order_by('-updated_at')`. */
  function NewestUpdateFirst(): (Problem, Problem) -> bool {
    (a: Problem, b: Problem) => a.updatedAt >= b.updatedAt
  }

  /** `order_by('-deleted_at')` (every row it sorts is in the trash). */
  function NewestDeletionFirst(): (Problem, Problem) -> bool {
    (a: Problem, b: Problem) => a.deletedAt.GetOr(0) >= b.deletedAt.GetOr(0)
  }

  lemma UpdateOrderIsPreorder()
    ensures TotalPreorder(NewestUpdateFirst())
  {
  }

  lemma DeletionOrderIsPreorder()
    ensures TotalPreorder(NewestDeletionFirst())
  {
  }

  /** Sorted newest deletion first, rows in the trash are ordered by their
      deletion times. */
  lemma DeletionOrderHolds(r: seq<Problem>)
    requires SortedBy(NewestDeletionFirst(), r)
    requires forall p :: p in r ==> p.deletedAt.Some?
    ensures forall i, j :: 0 <= i < j < |r| ==> r[i].deletedAt.value >= r[j].deletedAt.value
  {
    forall i, j | 0 <= i < j < |r| ensures r[i].deletedAt.value >= r[j].deletedAt.value {
      assert r[i] in r && r[j] in r;
      assert NewestDeletionFirst()(r[i], r[j]);
    }
  }

  /** The caller's rows in one state, in the given order. */
  function Select(problems: seq<Problem>, caller: UserId, state: Lifecycle, order: (Problem, Problem) -> bool): (r: seq<Problem>)
    requires TotalPreorder(order)
    ensures forall p :: multiset(r)[p] == if p.user == caller && InState(p, state) then multiset(problems)[p] else 0
    ensures forall p :: p in r <==> p in problems && p.user == caller && InState(p, state)
    ensures SortedBy(order, r)
  {
    var own := Filter(problems, (p: Problem) => p.user == caller && InState(p, state));
    SortByCorrect(order, own);
    var r := SortBy(order, own);
    assert forall p :: p in r <==> p in multiset(own);
    r
  }

  /** The response rows of a list. */
  function Summaries(rows: seq<Problem>): (r: seq<ProjectSummary>)
    ensures |r| == |rows| && forall k :: 0 <= k < |rows| ==> r[k] == Summary(rows[k])
  {
    seq(|rows|, k requires 0 <= k < |rows| => Summary(rows[k]))
  }

  lemma SummariesHold(rows: seq<Problem>)
    ensures forall s :: s in Summaries(rows) <==> exists p :: p in rows && s == Summary(p)
  {
    var r := Summaries(rows);
    forall s ensures s in r <==> exists p :: p in rows && s == Summary(p) {
      if s in r {
        var k :| 0 <= k < |r| && r[k] == s;
        assert rows[k] in rows;
      }
      if exists p :: p in rows && s == Summary(p) {
        var p :| p in rows && s == Summary(p);
        var k :| 0 <= k < |rows| && rows[k] == p;
        assert r[k] == s;
      }
    }
  }

  /** `ProjectListView.get`: exactly the caller's projects outside the trash,
      the most recently updated first. */
  function List(problems: seq<Problem>, caller: UserId): (r: seq<ProjectSummary>)
    ensures forall s :: s in r <==> exists p :: p in problems && p.user == caller && p.deletedAt.None? && s == Summary(p)
    ensures forall i, j :: 0 <= i < j < |r| ==> r[i].updatedAt >= r[j].updatedAt
  {
    UpdateOrderIsPreorder();
    var rows := Select(problems, caller, Active, NewestUpdateFirst());
    SummariesHold(rows);
    Summaries(rows)
  }

  /** The rows of the trash list: exactly the caller's projects in the trash,
      the most recently deleted first. */
  function TrashRows(problems: seq<Problem>, caller: UserId): (r: seq<Problem>)
    ensures forall p :: p in r <==> p in problems && p.user == caller && p.deletedAt.Some?
    ensures forall p :: multiset(r)[p] == if p.user == caller && p.deletedAt.Some? then multiset(problems)[p] else 0
    ensures forall i, j :: 0 <= i < j < |r| ==> r[i].deletedAt.value >= r[j].deletedAt.value
  {
    DeletionOrderIsPreorder();
    var r := Select(problems, caller, Trashed, NewestDeletionFirst());
    DeletionOrderHolds(r);
    r
  }

  /** `ProjectTrashListView.get`. */
  function TrashList(problems: seq<Problem>, caller: UserId): (r: seq<ProjectSummary>)
    ensures forall s :: s in r <==> exists p :: p in problems && p.user == caller && p.deletedAt.Some? && s == Summary(p)
  {
    SummariesHold(TrashRows(problems, caller));
    Summaries(TrashRows(problems, caller))
  }

  /** Adding a project with a key not in use keeps the database valid. */
  lemma AddProblemKeepsValid(db: Database, p: Problem)
    requires db.Valid()
    requires forall q :: q in db.problems ==> q.id != p.id
    ensures Unique(db.problems + [p], ProblemKey)
    ensures DocumentsValid(db.problemDocs, db.problems + [p])
    ensures DocumentsValid(db.explanations, db.problems + [p])
  {
    assert forall k :: 0 <= k < |db.problems| ==> db.problems[k] in db.problems;
    AppendKeepsUnique(db.problems, p, ProblemKey);
    forall id | HasProblem(db.problems, id) ensures HasProblem(db.problems + [p], id) {
      var q :| q in db.problems && q.id == id;
      assert q in db.problems + [p];
    }
  }

  /** The row `Problem.objects.create(user=..., title=..., original_image_path="")`
      inserts: no image, no notes, not in the trash. */
  function NewProblem(id: Id, caller: UserId, title: string, now: Time): (p: Problem)
    ensures p.id == id && p.user == caller && p.title == title
    ensures p.originalImagePath == [] && p.solutionNotes == [] && p.deletedAt.None?
    ensures p.createdAt == now && p.updatedAt == now
  {
    Problem(id, caller, title, "", "", None, now, now)
  }

  /** `ProjectCreateView.post`: a valid title adds one project of the caller,
      holding the stripped title; an invalid one is refused with its error and
      changes nothing. */
  method Create(db: Database, caller: UserId, title: Option<string>, now: Time) returns (reply: Reply<ProjectSummary>)
    requires db.Valid()
    modifies db
    ensures db.Valid()
    ensures TitleField(title).Value? ==>
      var p := NewProblem(FreshId(ProblemIds(old(db.problems))), caller, TitleField(title).value, now);
      db.problems == old(db.problems) + [p] && reply == Ok(201, Summary(p))
    ensures !TitleField(title).Value? ==>
      db.problems == old(db.problems) && reply == BadRequest([FieldError("title", TitleField(title).message)])
    ensures db.problemDocs == old(db.problemDocs) && db.explanations == old(db.explanations)
    ensures db.templates == old(db.templates)
  {
    var field := TitleField(title);
    if !field.Value? {
      return BadRequest([FieldError("title", field.message)]);
    }
    var p := InsertProblem(db, caller, field.value, now);
    reply := Ok(201, Summary(p));
  }

  /** `Problem.objects.create(...)`: the new row goes at the end of the table
      under a key not in use. */
  method InsertProblem(db: Database, caller: UserId, title: string, now: Time) returns (p: Problem)
    requires db.Valid()
    modifies db
    ensures db.Valid()
    ensures p == NewProblem(FreshId(ProblemIds(old(db.problems))), caller, title, now)
    ensures forall q :: q in old(db.problems) ==> q.id != p.id
    ensures db.problems == old(db.problems) + [p]
    ensures db.problemDocs == old(db.problemDocs) && db.explanations == old(db.explanations)
    ensures db.templates == old(db.templates)
  {
    p := NewProblem(FreshId(ProblemIds(db.problems)), caller, title, now);
    FreshProblemKey(db.problems);
    AddProblemKeepsValid(db, p);
    db.problems := db.problems + [p];
  }

  /** The detail body of a project: the image URL only when there is an image,
      `solution_notes or None`, and the highest version of each kind of
      document. */
  function Detail(mediaUrl: string, p: Problem, problemDocs: seq<Document>, explanations: seq<Document>): (r: ProjectDetail)
    ensures r.id == p.id && r.title == p.title && r.createdAt == p.createdAt && r.updatedAt == p.updatedAt
    ensures r.imageUrl.None? <==> p.originalImagePath == []
    ensures r.imageUrl.Some? ==> r.imageUrl.value == FileStorage.GetFileUrl(mediaUrl, p.originalImagePath)
    ensures r.solutionNotes.None? <==> p.solutionNotes == []
    ensures r.solutionNotes.Some? ==> r.solutionNotes.value == p.solutionNotes
    ensures r.latestLatexDocument.Some? <==> exists d :: d in problemDocs && d.problem == p.id
    ensures r.latestLatexDocument.Some? ==>
      exists d :: d in problemDocs && d.problem == p.id && r.latestLatexDocument.value == ToView(mediaUrl, d) &&
        forall e :: e in problemDocs && e.problem == p.id ==> e.version <= d.version
    ensures r.latestExplanationDocument.Some? <==> exists d :: d in explanations && d.problem == p.id
    ensures r.latestExplanationDocument.Some? ==>
      exists d :: d in explanations && d.problem == p.id && r.latestExplanationDocument.value == ToView(mediaUrl, d) &&
        forall e :: e in explanations && e.problem == p.id ==> e.version <= d.version
  {
    var imageUrl := if p.originalImagePath != [] then Some(FileStorage.GetFileUrl(mediaUrl, p.originalImagePath)) else None;
    var notes := if p.solutionNotes != [] then Some(p.solutionNotes) else None;
    var latestDoc := match Latest(problemDocs, p.id) case Some(d) => Some(ToView(mediaUrl, d)) case None => None;
    var latestExp := match Latest(explanations, p.id) case Some(d) => Some(ToView(mediaUrl, d)) case None => None;
    ProjectDetail(p.id, p.title, p.createdAt, p.updatedAt, imageUrl, notes, latestDoc, latestExp)
  }

  /** `ProjectRetrieveView.get`: the detail of the caller's project outside
      the trash. */
  function Retrieve(problems: seq<Problem>, problemDocs: seq<Document>, explanations: seq<Document>,
                    mediaUrl: string, caller: UserId, pk: Id): (r: Reply<ProjectDetail>)
    ensures r.Ok? <==> Authorize(problems, pk, caller, Active).Granted?
    ensures r.Ok? ==> (r.status == 200 &&
      r.body == Detail(mediaUrl, problems[Authorize(problems, pk, caller, Active).index], problemDocs, explanations))
    ensures !r.Ok? ==> r == Refusal(Authorize(problems, pk, caller, Active))
  {
    match Authorize(problems, pk, caller, Active)
    case Granted(i) => Ok(200, Detail(mediaUrl, problems[i], problemDocs, explanations))
    case a => Refusal(a)
  }

  /** Rewriting one project's fields other than its key keeps the database
      valid. */
  lemma RewriteProblemKeepsValid(db: Database, i: nat, x: Problem)
    requires db.Valid()
    requires i < |db.problems| && x.id == db.problems[i].id
    ensures Unique(db.problems[i := x], ProblemKey)
    ensures DocumentsValid(db.problemDocs, db.problems[i := x])
    ensures DocumentsValid(db.explanations, db.problems[i := x])
  {
    var r := db.problems[i := x];
    UpdateKeepsUnique(db.problems, i, x, ProblemKey);
    forall id | HasProblem(db.problems, id) ensures HasProblem(r, id) {
      var p :| p in db.problems && p.id == id;
      var k :| 0 <= k < |db.problems| && db.problems[k] == p;
      assert r[k].id == id;
    }
  }

  /** `problem.save()` on a row whose key is unchanged: that row is replaced and
      nothing else changes. */
  method ReplaceProblem(db: Database, i: nat, x: Problem)
    requires db.Valid() && i < |db.problems| && x.id == db.problems[i].id
    modifies db
    ensures db.Valid()
    ensures db.problems == old(db.problems)[i := x]
    ensures db.problemDocs == old(db.problemDocs) && db.explanations == old(db.explanations)
    ensures db.templates == old(db.templates)
  {
    RewriteProblemKeepsValid(db, i, x);
    db.problems := db.problems[i := x];
  }

  /** `_update_project` (PUT and PATCH): the notes are replaced, stripped, only
      when the key was sent, and then the row is saved; the only field being
      optional, PUT and PATCH behave alike. */
  method Update(db: Database, mediaUrl: string, caller: UserId, pk: Id, notes: Option<string>, partial: bool, now: Time)
    returns (reply: Reply<ProjectDetail>)
    requires db.Valid()
    modifies db
    ensures db.Valid()
    ensures var a := Authorize(old(db.problems), pk, caller, Active);
      (!a.Granted? ==> db.problems == old(db.problems) && reply == Refusal(a)) &&
      (a.Granted? && SolutionNotesField(notes).Invalid? ==>
        db.problems == old(db.problems) &&
        reply == BadRequest([FieldError("solution_notes", NULL_CHARACTERS_MESSAGE)])) &&
      (a.Granted? && notes.None? ==> db.problems == old(db.problems)) &&
      (a.Granted? && notes.Some? && !SolutionNotesField(notes).Invalid? ==>
        db.problems == old(db.problems)[a.index := old(db.problems)[a.index].(solutionNotes := Trim(notes.value), updatedAt := now)]) &&
      (a.Granted? && !SolutionNotesField(notes).Invalid? ==>
        reply == Ok(200, Detail(mediaUrl, db.problems[a.index], db.problemDocs, db.explanations)))
    ensures db.problemDocs == old(db.problemDocs) && db.explanations == old(db.explanations)
    ensures db.templates == old(db.templates)
  {
    var a := Authorize(db.problems, pk, caller, Active);
    if !a.Granted? {
      return Refusal(a);
    }
    var field := SolutionNotesField(notes);
    if field.Invalid? {
      return BadRequest([FieldError("solution_notes", field.message)]);
    }
    SaveNotes(db, a.index, ValueOf(field), now);
    reply := Ok(200, Detail(mediaUrl, db.problems[a.index], db.problemDocs, db.explanations));
  }

  /** `if 'solution_notes' in validated_data: ...; problem.save()`: validated
      notes are stored and the row's update time moves; unsent notes leave
      the table as it was. */
  method SaveNotes(db: Database, i: nat, notes: Option<string>, now: Time)
    requires db.Valid() && i < |db.problems|
    modifies db
    ensures db.Valid()
    ensures notes.None? ==> db.problems == old(db.problems)
    ensures notes.Some? ==>
      db.problems == old(db.problems)[i := old(db.problems)[i].(solutionNotes := notes.value, updatedAt := now)]
    ensures db.problemDocs == old(db.problemDocs) && db.explanations == old(db.explanations)
    ensures db.templates == old(db.templates)
  {
    if notes.Some? {
      ReplaceProblem(db, i, db.problems[i].(solutionNotes := notes.value, updatedAt := now));
    }
  }

  /** The row after `problem.deleted_at = timezone.now(); problem.save()`. */
  function MovedToTrash(p: Problem, now: Time): (r: Problem)
    ensures r.deletedAt == Some(now) && r.updatedAt == now
    ensures r.(deletedAt := p.deletedAt, updatedAt := p.updatedAt) == p
  {
    p.(deletedAt := Some(now), updatedAt := now)
  }

  /** The row after `problem.deleted_at = None; problem.save()`. */
  function RestoredFromTrash(p: Problem, now: Time): (r: Problem)
    ensures r.deletedAt.None? && r.updatedAt == now
    ensures r.(deletedAt := p.deletedAt, updatedAt := p.updatedAt) == p
  {
    p.(deletedAt := None, updatedAt := now)
  }

  /** Restoring a project moved to the trash gives back the project as it was,
      but for the time of the last save. */
  lemma RestoreUndoesMoveToTrash(p: Problem, deletedAt: Time, restoredAt: Time)
    requires p.deletedAt.None?
    ensures RestoredFromTrash(MovedToTrash(p, deletedAt), restoredAt) == p.(updatedAt := restoredAt)
  {
  }

  /** `ProjectRetrieveView.delete` (soft delete): only a project outside the
      trash is moved to it; a project already in the trash is not found. */
  method SoftDelete(db: Database, caller: UserId, pk: Id, now: Time) returns (reply: Reply<ProjectSummary>)
    requires db.Valid()
    modifies db
    ensures db.Valid()
    ensures var a := Authorize(old(db.problems), pk, caller, Active);
      (!a.Granted? ==> db.problems == old(db.problems) && reply == Refusal(a)) &&
      (a.Granted? ==>
        db.problems == old(db.problems)[a.index := MovedToTrash(old(db.problems)[a.index], now)] &&
        reply == Ok(200, Summary(db.problems[a.index])))
    ensures db.problemDocs == old(db.problemDocs) && db.explanations == old(db.explanations)
    ensures db.templates == old(db.templates)
  {
    var a := Authorize(db.problems, pk, caller, Active);
    if !a.Granted? {
      return Refusal(a);
    }
    var p := MovedToTrash(db.problems[a.index], now);
    ReplaceProblem(db, a.index, p);
    reply := Ok(200, Summary(p));
  }

  /** `ProjectRestoreView.post`: only a project in the trash is restored; a
      project outside it is not found. */
  method Restore(db: Database, caller: UserId, pk: Id, now: Time) returns (reply: Reply<ProjectSummary>)
    requires db.Valid()
    modifies db
    ensures db.Valid()
    ensures var a := Authorize(old(db.problems), pk, caller, Trashed);
      (!a.Granted? ==> db.problems == old(db.problems) && reply == Refusal(a)) &&
      (a.Granted? ==>
        db.problems == old(db.problems)[a.index := RestoredFromTrash(old(db.problems)[a.index], now)] &&
        reply == Ok(200, Summary(db.problems[a.index])))
    ensures db.problemDocs == old(db.problemDocs) && db.explanations == old(db.explanations)
    ensures db.templates == old(db.templates)
  {
    var a := Authorize(db.problems, pk, caller, Trashed);
    if !a.Granted? {
      return Refusal(a);
    }
    var p := RestoredFromTrash(db.problems[a.index], now);
    ReplaceProblem(db, a.index, p);
    reply := Ok(200, Summary(p));
  }

  /** Moving a project to the trash takes it out of the project list and puts
      it in the trash list; restoring does the reverse. */
  lemma TrashMovesBetweenLists(problems: seq<Problem>, i: nat, now: Time)
    requires i < |problems|
    ensures var moved := problems[i := MovedToTrash(problems[i], now)];
      Summary(MovedToTrash(problems[i], now)) in TrashList(moved, problems[i].user) &&
      (Unique(problems, ProblemKey) ==>
        forall s :: s in List(moved, problems[i].user) ==> s.id != problems[i].id)
    ensures var restored := problems[i := RestoredFromTrash(problems[i], now)];
      Summary(RestoredFromTrash(problems[i], now)) in List(restored, problems[i].user) &&
      (Unique(problems, ProblemKey) ==>
        forall s :: s in TrashList(restored, problems[i].user) ==> s.id != problems[i].id)
  {
    var moved := problems[i := MovedToTrash(problems[i], now)];
    var restored := problems[i := RestoredFromTrash(problems[i], now)];
    assert moved[i] in moved && restored[i] in restored;
    if Unique(problems, ProblemKey) {
      UpdateKeepsUnique(problems, i, MovedToTrash(problems[i], now), ProblemKey);
      UpdateKeepsUnique(problems, i, RestoredFromTrash(problems[i], now), ProblemKey);
      OnlyRowWithKey(moved, i);
      OnlyRowWithKey(restored, i);
    }
  }

  /** Under unique keys the `i`-th row is the only one with its key. */
  lemma OnlyRowWithKey(problems: seq<Problem>, i: nat)
    requires Unique(problems, ProblemKey) && i < |problems|
    ensures forall p :: p in problems && p.id == problems[i].id ==> p == problems[i]
  {
    forall p | p in problems && p.id == problems[i].id ensures p == problems[i] {
      var k :| 0 <= k < |problems| && problems[k] == p;
      UniqueKeyIndex(problems, ProblemKey, k, i);
    }
  }

  /** The rows of another project. */
  function OfOtherProject(pk: Id): Document -> bool {
    (d: Document) => d.problem != pk
  }

  /** The keys of a project's problem documents. */
  function DocumentKeysOf(docs: seq<Document>, pk: Id): (r: set<Id>)
    ensures forall id :: id in r <==> exists d :: d in docs && d.problem == pk && d.id == id
  {
    set d | d in docs && d.problem == pk :: d.id
  }

  /** Removing the `i`-th project keeps the keys apart and every other project. */
  lemma RemoveProblem(problems: seq<Problem>, i: nat)
    requires Unique(problems, ProblemKey) && i < |problems|
    ensures Unique(problems[..i] + problems[i + 1..], ProblemKey)
    ensures forall id :: id != problems[i].id && HasProblem(problems, id) ==> HasProblem(problems[..i] + problems[i + 1..], id)
  {
    var rest := problems[..i] + problems[i + 1..];
    RemoveKeepsUnique(problems, i, ProblemKey);
    forall id | id != problems[i].id && HasProblem(problems, id) ensures HasProblem(rest, id) {
      var p :| p in problems && p.id == id;
      var k :| 0 <= k < |problems| && problems[k] == p;
      if k < i { assert rest[k] == p; } else { assert rest[k - 1] == p; }
    }
  }

  /** The documents of the other projects stay valid against the remaining
      projects. */
  lemma RemoveDocuments(docs: seq<Document>, problems: seq<Problem>, rest: seq<Problem>, pk: Id)
    requires DocumentsValid(docs, problems)
    requires forall id :: id != pk && HasProblem(problems, id) ==> HasProblem(rest, id)
    ensures DocumentsValid(Filter(docs, OfOtherProject(pk)), rest)
  {
    FilterKeepsUnique(docs, OfOtherProject(pk), DocumentKey);
    FilterKeepsUnique(docs, OfOtherProject(pk), VersionKey);
  }

  /** The explanations of the other projects, with their sources detached
      from deleted documents, stay valid and point at remaining documents. */
  lemma RemoveExplanations(explanations: seq<Document>, problemDocs: seq<Document>, problems: seq<Problem>,
                           rest: seq<Problem>, pk: Id)
    requires DocumentsValid(explanations, problems)
    requires forall e :: e in explanations && e.source.Some? ==> HasDocument(problemDocs, e.source.value)
    requires forall id :: id != pk && HasProblem(problems, id) ==> HasProblem(rest, id)
    ensures var exps := DetachSources(Filter(explanations, OfOtherProject(pk)), DocumentKeysOf(problemDocs, pk));
      DocumentsValid(exps, rest) &&
      forall e :: e in exps && e.source.Some? ==> HasDocument(Filter(problemDocs, OfOtherProject(pk)), e.source.value)
  {
    var kept := Filter(explanations, OfOtherProject(pk));
    RemoveDocuments(explanations, problems, rest, pk);
    DetachKeepsValid(kept, DocumentKeysOf(problemDocs, pk), rest);
    DetachedSourcesRemain(kept, problemDocs, pk);
  }

  /** Detaching sources changes no key and no project. */
  lemma DetachKeepsValid(kept: seq<Document>, removed: set<Id>, problems: seq<Problem>)
    requires DocumentsValid(kept, problems)
    ensures DocumentsValid(DetachSources(kept, removed), problems)
  {
    var exps := DetachSources(kept, removed);
    SameKeysKeepUnique(kept, exps, DocumentKey);
    SameKeysKeepUnique(kept, exps, VersionKey);
    forall e | e in exps ensures HasProblem(problems, e.problem) {
      var k :| 0 <= k < |exps| && exps[k] == e;
      assert kept[k] in kept;
    }
  }

  /** A source that survives detaching names a document of another project. */
  lemma DetachedSourcesRemain(kept: seq<Document>, problemDocs: seq<Document>, pk: Id)
    requires forall e :: e in kept && e.source.Some? ==> HasDocument(problemDocs, e.source.value)
    ensures forall e :: e in DetachSources(kept, DocumentKeysOf(problemDocs, pk)) && e.source.Some? ==>
      HasDocument(Filter(problemDocs, OfOtherProject(pk)), e.source.value)
  {
    var exps := DetachSources(kept, DocumentKeysOf(problemDocs, pk));
    forall e | e in exps && e.source.Some?
      ensures HasDocument(Filter(problemDocs, OfOtherProject(pk)), e.source.value)
    {
      var k :| 0 <= k < |exps| && exps[k] == e;
      assert kept[k] in kept;
      var d :| d in problemDocs && d.id == e.source.value;
      assert d.problem != pk;
      assert d in Filter(problemDocs, OfOtherProject(pk));
    }
  }

  /** What `problem.delete()` leaves of the database: the row gone, its
      documents and explanations gone with it (CASCADE), and any other
      explanation generated from one of its documents without a source
      (SET_NULL). */
  lemma PurgeKeepsValid(problems: seq<Problem>, problemDocs: seq<Document>, explanations: seq<Document>, i: nat)
    requires ProjectTablesValid(problems, problemDocs, explanations) && i < |problems|
    ensures ProjectTablesValid(problems[..i] + problems[i + 1..],
                               Filter(problemDocs, OfOtherProject(problems[i].id)),
                               DetachSources(Filter(explanations, OfOtherProject(problems[i].id)),
                                             DocumentKeysOf(problemDocs, problems[i].id)))
  {
    var pk := problems[i].id;
    var rest := problems[..i] + problems[i + 1..];
    RemoveProblem(problems, i);
    RemoveDocuments(problemDocs, problems, rest, pk);
    RemoveExplanations(explanations, problemDocs, problems, rest, pk);
  }

  /** Rows rewritten without changing their keys keep them apart. */
  lemma SameKeysKeepUnique<K>(s: seq<Document>, r: seq<Document>, key: Document -> K)
    requires Unique(s, key) && |r| == |s|
    requires forall k :: 0 <= k < |s| ==> key(r[k]) == key(s[k])
    ensures Unique(r, key)
  {
    forall i, j | 0 <= i < j < |r| ensures key(r[i]) != key(r[j]) {
      assert key(s[i]) != key(s[j]);
    }
  }

  /** `ProjectPermanentDeleteView.delete`: only a project in the trash is
      deleted for good, with its documents; the files they name stay on the
      disk. */
  method PermanentDelete(db: Database, caller: UserId, pk: Id) returns (reply: Reply<()>)
    requires db.Valid()
    modifies db
    ensures db.Valid()
    ensures var a := Authorize(old(db.problems), pk, caller, Trashed);
      (!a.Granted? ==>
        db.problems == old(db.problems) && db.problemDocs == old(db.problemDocs) &&
        db.explanations == old(db.explanations) && reply == Refusal(a)) &&
      (a.Granted? ==>
        db.problems == old(db.problems)[..a.index] + old(db.problems)[a.index + 1..] &&
        db.problemDocs == Filter(old(db.problemDocs), OfOtherProject(pk)) &&
        db.explanations == DetachSources(Filter(old(db.explanations), OfOtherProject(pk)),
                                         DocumentKeysOf(old(db.problemDocs), pk)) &&
        reply == NoContent)
    ensures db.templates == old(db.templates)
  {
    var a := Authorize(db.problems, pk, caller, Trashed);
    if !a.Granted? {
      return Refusal(a);
    }
    Purge(db, a.index);
    reply := NoContent;
  }

  /** `problem.delete()`: the row, its documents and explanations go (CASCADE),
      other explanations lose a source among its documents (SET_NULL). */
  method Purge(db: Database, i: nat)
    requires db.Valid() && i < |db.problems|
    modifies db
    ensures db.Valid()
    ensures var pk := old(db.problems)[i].id;
      db.problems == old(db.problems)[..i] + old(db.problems)[i + 1..] &&
      db.problemDocs == Filter(old(db.problemDocs), OfOtherProject(pk)) &&
      db.explanations == DetachSources(Filter(old(db.explanations), OfOtherProject(pk)),
                                       DocumentKeysOf(old(db.problemDocs), pk))
    ensures db.templates == old(db.templates)
  {
    var pk := db.problems[i].id;
    var problems := db.problems[..i] + db.problems[i + 1..];
    var docs := Filter(db.problemDocs, OfOtherProject(pk));
    var exps := DetachSources(Filter(db.explanations, OfOtherProject(pk)), DocumentKeysOf(db.problemDocs, pk));
    PurgeKeepsValid(db.problems, db.problemDocs, db.explanations, i);
    SetTables(db, problems, docs, exps);
  }

  /** The three project tables replaced at once, the constraints kept. */
  method SetTables(db: Database, problems: seq<Problem>, problemDocs: seq<Document>, explanations: seq<Document>)
    requires db.Valid() && ProjectTablesValid(problems, problemDocs, explanations)
    modifies db
    ensures db.Valid()
    ensures db.problems == problems && db.problemDocs == problemDocs && db.explanations == explanations
    ensures db.templates == old(db.templates)
  {
    db.problems, db.problemDocs, db.explanations := problems, problemDocs, explanations;
  }

  /** After a permanent delete nothing of the project is left: no row with its
      key, no document or explanation of it, and no explanation generated
      from one of its documents. */
  lemma PurgeLeavesNothing(problems: seq<Problem>, problemDocs: seq<Document>, explanations: seq<Document>, i: nat)
    requires Unique(problems, ProblemKey) && i < |problems|
    ensures var pk := problems[i].id;
      (forall p :: p in problems[..i] + problems[i + 1..] ==> p.id != pk) &&
      (forall d :: d in Filter(problemDocs, OfOtherProject(pk)) ==> d.problem != pk) &&
      (forall e :: e in DetachSources(Filter(explanations, OfOtherProject(pk)), DocumentKeysOf(problemDocs, pk)) ==>
        e.problem != pk && (e.source.Some? ==> e.source.value !in DocumentKeysOf(problemDocs, pk)))
  {
    var pk := problems[i].id;
    var rest := problems[..i] + problems[i + 1..];
    forall p | p in rest ensures p.id != pk {
      var k :| 0 <= k < |rest| && rest[k] == p;
      if k < i {
        assert p == problems[k] && ProblemKey(problems[k]) != ProblemKey(problems[i]);
      } else {
        assert p == problems[k + 1] && ProblemKey(problems[i]) != ProblemKey(problems[k + 1]);
      }
    }
    var kept := Filter(explanations, OfOtherProject(pk));
    var exps := DetachSources(kept, DocumentKeysOf(problemDocs, pk));
    forall e | e in exps ensures e.problem != pk {
      var k :| 0 <= k < |exps| && exps[k] == e;
      assert kept[k] in kept;
    }
  }
}
