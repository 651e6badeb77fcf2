/** backend/api/template/views/template_view.py: the template endpoints.  Every
    lookup is restricted to the caller's own templates, so another user's
    template (or a system template) answers 404 like a missing one. */
module TemplateViews {
  import opened Options
  import opened Records
  import opened Sorting
  import opened Text
  import TemplateModel
  import opened TemplateSerializer
  import opened SerializerFields

  const NOT_FOUND_MESSAGE := "テンプレートが見つかりません"

  /** A response: a template with `200`/`201`, `204` without a body, `404`
      with an `error` text, or `400` with the serializer's errors. */
  datatype Reply = Ok(status: nat, template: Template) | NoContent | NotFound(error: string) | BadRequest(errors: seq<FieldError>)

  /** The order `order_by("-is_default", "-created_at")`: defaults first, then
      the newest. */
  function ListOrder(): (Template, Template) -> bool {
    (a: Template, b: Template) =>
      (a.isDefault && !b.isDefault) || (a.isDefault == b.isDefault && a.createdAt >= b.createdAt)
  }

  lemma ListOrderIsPreorder()
    ensures TotalPreorder(ListOrder())
  {
  }

  /** `LatexTemplateListView.get`: exactly the caller's templates (never a
      system one), defaults first, then by creation time, newest first. */
  function List(templates: seq<Template>, caller: UserId): (r: seq<Template>)
    ensures forall t :: multiset(r)[t] == if t.user == Some(caller) then multiset(templates)[t] else 0
    ensures forall t :: t in r ==> t.user == Some(caller)
    ensures forall i, j :: 0 <= i < j < |r| && r[j].isDefault ==> r[i].isDefault
    ensures forall i, j :: 0 <= i < j < |r| && r[i].isDefault == r[j].isDefault ==> r[i].createdAt >= r[j].createdAt
  {
    var own := Filter(templates, (t: Template) => t.user == Some(caller));
    ListOrderIsPreorder();
    SortByCorrect(ListOrder(), own);
    var r := SortBy(ListOrder(), own);
    assert forall t :: t in r ==> t in multiset(own);
    r
  }

  /** `get_object(pk, user)`: the position of the caller's template with key
      `pk`, `None` for `DoesNotExist`. */
  function Lookup(templates: seq<Template>, pk: Id, caller: UserId): (r: Option<nat>)
    ensures r.Some? ==> r.value < |templates| && templates[r.value].id == pk && templates[r.value].user == Some(caller)
    ensures r.None? <==> forall t :: t in templates ==> !(t.id == pk && t.user == Some(caller))
  {
    FindIndex(templates, (t: Template) => t.id == pk && t.user == Some(caller))
  }

  /** `LatexTemplateDetailView.get`. */
  function Retrieve(templates: seq<Template>, caller: UserId, pk: Id): (r: Reply)
    ensures r.Ok? <==> exists t :: t in templates && t.id == pk && t.user == Some(caller)
    ensures r.Ok? ==> r.status == 200 && r.template in templates && r.template.id == pk && r.template.user == Some(caller)
    ensures !r.Ok? ==> r == NotFound(NOT_FOUND_MESSAGE)
  {
    match Lookup(templates, pk, caller)
    case None => NotFound(NOT_FOUND_MESSAGE)
    case Some(i) => Ok(200, templates[i])
  }

  /** With distinct keys, `save()` of a row with a stored key rewrites that
      row in place. */
  lemma UpsertStored(ts: seq<Template>, i: nat, row: Template)
    requires Distinct(TemplateIds(ts))
    requires i < |ts| && ts[i].id == row.id
    ensures TemplateModel.Upsert(ts, row) == ts[i := row]
    ensures TemplateModel.Stamped(ts, row, row.updatedAt) == row
  {
    var k := FindIndex(ts, (u: Template) => u.id == row.id);
    assert k.Some? by {
      assert ts[i].id == row.id;
    }
    assert TemplateIds(ts)[k.value] == TemplateIds(ts)[i];
  }

  /** A row under the fresh key is inserted, stamped with the save time. */
  lemma FreshTemplate(ts: seq<Template>, t: Template, now: Time)
    requires t.id == FreshId(TemplateIds(ts))
    ensures TemplateModel.Stamped(ts, t, now) == t.(createdAt := now, updatedAt := now)
    ensures TemplateModel.Upsert(ts, t.(createdAt := now, updatedAt := now)) == ts + [t.(createdAt := now, updatedAt := now)]
  {
    forall u | u in ts ensures u.id != t.id {
      var k :| 0 <= k < |ts| && ts[k] == u;
      assert TemplateIds(ts)[k] in TemplateIds(ts);
    }
    assert FindIndex(ts, (u: Template) => u.id == t.id).None?;
  }

  /** `LatexTemplateListView.post`: validate the request, then store a new
      template owned by the caller under a fresh key. */
  method Create(db: Database, caller: UserId, request: TemplateRequest, now: Time) returns (reply: Reply)
    requires TemplatesValid(db.templates)
    modifies db
    ensures TemplatesValid(db.templates)
    ensures ValidateRequest(old(db.templates), caller, None, request, false).Rejected? ==>
      reply == BadRequest(ValidateRequest(old(db.templates), caller, None, request, false).errors) &&
      db.templates == old(db.templates)
    ensures ValidateRequest(old(db.templates), caller, None, request, false).Accepted? ==>
      var row := NewRow(FreshId(TemplateIds(old(db.templates))), caller,
                        ValidateRequest(old(db.templates), caller, None, request, false).attrs)
                   .(createdAt := now, updatedAt := now);
      reply == Ok(201, row) && db.templates == old(db.templates) + [row]
    ensures db.problems == old(db.problems) && db.problemDocs == old(db.problemDocs)
    ensures db.explanations == old(db.explanations)
  {
    var validated := ValidateRequest(db.templates, caller, None, request, false);
    if validated.Rejected? {
      return BadRequest(validated.errors);
    }
    var id := FreshId(TemplateIds(db.templates));
    var t := NewRow(id, caller, validated.attrs);
    AcceptedCreatePassesFullClean(db.templates, caller, id, request);
    FreshTemplate(db.templates, t, now);
    TemplateModel.SaveKeepsValid(db.templates, t, now);
    var errors, row := TemplateModel.SaveTemplate(db, t, now);
    reply := Ok(201, row);
  }

  /** `LatexTemplateDetailView.put` (`partial` false) and `.patch` (`partial`
      true): look the template up, validate the request against it, then save
      it with the sent fields replaced. */
  method Update(db: Database, caller: UserId, pk: Id, request: TemplateRequest, partial: bool, now: Time)
    returns (reply: Reply)
    requires TemplatesValid(db.templates)
    modifies db
    ensures TemplatesValid(db.templates)
    ensures Lookup(old(db.templates), pk, caller).None? ==>
      reply == NotFound(NOT_FOUND_MESSAGE) && db.templates == old(db.templates)
    ensures Lookup(old(db.templates), pk, caller).Some? &&
            ValidateRequest(old(db.templates), caller, Some(pk), request, partial).Rejected? ==>
      reply == BadRequest(ValidateRequest(old(db.templates), caller, Some(pk), request, partial).errors) &&
      db.templates == old(db.templates)
    ensures Lookup(old(db.templates), pk, caller).Some? &&
            ValidateRequest(old(db.templates), caller, Some(pk), request, partial).Accepted? ==>
      var i := Lookup(old(db.templates), pk, caller).value;
      var row := Apply(old(db.templates)[i], ValidateRequest(old(db.templates), caller, Some(pk), request, partial).attrs)
                   .(updatedAt := now);
      reply == Ok(200, row) && db.templates == old(db.templates)[i := row]
    ensures db.problems == old(db.problems) && db.problemDocs == old(db.problemDocs)
    ensures db.explanations == old(db.explanations)
  {
    var found := Lookup(db.templates, pk, caller);
    if found.None? {
      return NotFound(NOT_FOUND_MESSAGE);
    }
    var i := found.value;
    var validated := ValidateRequest(db.templates, caller, Some(pk), request, partial);
    if validated.Rejected? {
      return BadRequest(validated.errors);
    }
    var t := Apply(db.templates[i], validated.attrs);
    AcceptedUpdatePassesFullClean(db.templates, caller, db.templates[i], request, partial);
    TemplateModel.SaveKeepsValid(db.templates, t, now);
    UpsertStored(db.templates, i, t.(updatedAt := now));
    assert TemplateModel.Stamped(db.templates, t, now) == t.(updatedAt := now);
    var errors, row := TemplateModel.SaveTemplate(db, t, now);
    reply := Ok(200, row);
  }

  /** A partial update keeps every field that was not sent; a full update
      without `is_default` keeps it too. */
  lemma UnsentFieldsKept(templates: seq<Template>, caller: UserId, base: Template,
                         request: TemplateRequest, partial: bool)
    requires ValidateRequest(templates, caller, Some(base.id), request, partial).Accepted?
    ensures var t := Apply(base, ValidateRequest(templates, caller, Some(base.id), request, partial).attrs);
      (request.name.None? ==> t.name == base.name) &&
      (request.content.None? ==> t.content == base.content) &&
      (request.isDefault.None? ==> t.isDefault == base.isDefault) &&
      (request.name.Some? ==> t.name == Trim(request.name.value)) &&
      (request.content.Some? ==> t.content == Trim(request.content.value)) &&
      t.id == base.id && t.user == base.user && t.createdAt == base.createdAt
  {
    AcceptedFields(templates, caller, Some(base.id), request, partial);
  }

  /** `LatexTemplateDetailView.delete`: only the target row goes; `204`. */
  method Delete(db: Database, caller: UserId, pk: Id) returns (reply: Reply)
    requires TemplatesValid(db.templates)
    modifies db
    ensures TemplatesValid(db.templates)
    ensures Lookup(old(db.templates), pk, caller).None? ==>
      reply == NotFound(NOT_FOUND_MESSAGE) && db.templates == old(db.templates)
    ensures Lookup(old(db.templates), pk, caller).Some? ==>
      var i := Lookup(old(db.templates), pk, caller).value;
      reply == NoContent && db.templates == old(db.templates)[..i] + old(db.templates)[i + 1..]
    ensures db.problems == old(db.problems) && db.problemDocs == old(db.problemDocs)
    ensures db.explanations == old(db.explanations)
  {
    var found := Lookup(db.templates, pk, caller);
    if found.None? {
      return NotFound(NOT_FOUND_MESSAGE);
    }
    var i := found.value;
    RemoveKeepsValid(db.templates, i);
    db.templates := db.templates[..i] + db.templates[i + 1..];
    reply := NoContent;
  }

  /** Deleting the row at `i` drops exactly the rows with its key, and no other
      row. */
  lemma DeleteRemovesOnlyTarget(ts: seq<Template>, i: nat)
    requires Distinct(TemplateIds(ts))
    requires i < |ts|
    ensures forall t :: t in ts[..i] + ts[i + 1..] <==> t in ts && t.id != ts[i].id
  {
    var r := ts[..i] + ts[i + 1..];
    RemovedAt(ts, i);
    forall t | t in r ensures t in ts && t.id != ts[i].id {
      var k :| 0 <= k < |r| && r[k] == t;
      var m := if k < i then k else k + 1;
      assert ts[m] == t;
      assert TemplateIds(ts)[m] != TemplateIds(ts)[i];
    }
    forall t | t in ts && t.id != ts[i].id ensures t in r {
      var m :| 0 <= m < |ts| && ts[m] == t;
      assert m != i;
      var k := if m < i then m else m - 1;
      assert r[k] == t;
    }
  }

  /** The rows of `ts` picked, in order, by the strictly increasing positions `f`. */
  predicate Picks(ts: seq<Template>, r: seq<Template>, f: seq<nat>) {
    |f| == |r| &&
    (forall k :: 0 <= k < |f| ==> f[k] < |ts| && r[k] == ts[f[k]]) &&
    (forall k, l :: 0 <= k < l < |f| ==> f[k] < f[l])
  }

  /** A table made of some of the rows of a valid table, in order, is valid. */
  lemma PicksKeepValid(ts: seq<Template>, r: seq<Template>, f: seq<nat>)
    requires TemplatesValid(ts)
    requires Picks(ts, r, f)
    ensures TemplatesValid(r)
  {
    forall k, l | 0 <= k < l < |r| ensures TemplateIds(r)[k] != TemplateIds(r)[l] {
      assert TemplateIds(ts)[f[k]] != TemplateIds(ts)[f[l]];
    }
    forall k, l | 0 <= k < l < |r| && r[k].isDefault && r[l].isDefault && r[k].user.Some?
      ensures r[k].user != r[l].user
    {
      assert ts[f[k]].user != ts[f[l]].user;
    }
    forall t | t in r ensures TemplateRowValid(t) {
      var k :| 0 <= k < |r| && r[k] == t;
      assert ts[f[k]] in ts;
    }
  }

  lemma RemoveKeepsValid(ts: seq<Template>, i: nat)
    requires TemplatesValid(ts)
    requires i < |ts|
    ensures TemplatesValid(ts[..i] + ts[i + 1..])
  {
    var r := ts[..i] + ts[i + 1..];
    var f := seq(|ts| - 1, k requires 0 <= k < |ts| - 1 => if k < i then k else k + 1);
    assert Picks(ts, r, f);
    PicksKeepValid(ts, r, f);
  }

  /** The rows after `set_default` of `pk` (which is the caller's): every other
      default of the caller cleared by the bulk `update()`, which leaves
      `updated_at` alone, then the target saved as default. */
  function SetDefaultRow(t: Template, caller: UserId, pk: Id, now: Time): Template {
    if t.id == pk && t.user == Some(caller) then t.(isDefault := true, updatedAt := now)
    else if t.user == Some(caller) && t.isDefault then t.(isDefault := false)
    else t
  }

  function SetDefaultRows(ts: seq<Template>, caller: UserId, pk: Id, now: Time): (r: seq<Template>)
    ensures |r| == |ts|
    ensures forall i :: 0 <= i < |ts| ==> r[i] == SetDefaultRow(ts[i], caller, pk, now)
  {
    seq(|ts|, i requires 0 <= i < |ts| => SetDefaultRow(ts[i], caller, pk, now))
  }

  /** The bulk `update(is_default=False)` alone. */
  function ClearedRow(t: Template, caller: UserId, pk: Id): Template {
    if t.user == Some(caller) && t.isDefault && t.id != pk then t.(isDefault := false) else t
  }

  /** After `set_default` the target is the caller's one and only default. */
  lemma SetDefaultSingle(ts: seq<Template>, caller: UserId, pk: Id, now: Time)
    requires Lookup(ts, pk, caller).Some?
    ensures var r := SetDefaultRows(ts, caller, pk, now);
      (exists t :: t in r && t.id == pk && t.user == Some(caller) && t.isDefault) &&
      (forall t :: t in r && t.user == Some(caller) && t.isDefault ==> t.id == pk)
  {
    var r := SetDefaultRows(ts, caller, pk, now);
    var i := Lookup(ts, pk, caller).value;
    assert r[i] in r;
  }

  /** Nobody else's templates change, and of the caller's only `is_default`
      (and the target's `updated_at`) do. */
  lemma SetDefaultFrame(ts: seq<Template>, caller: UserId, pk: Id, now: Time)
    ensures var r := SetDefaultRows(ts, caller, pk, now);
      forall i :: 0 <= i < |ts| ==>
        (ts[i].user != Some(caller) ==> r[i] == ts[i]) &&
        (ts[i].id != pk ==> r[i] == ts[i].(isDefault := r[i].isDefault)) &&
        r[i].(isDefault := ts[i].isDefault, updatedAt := ts[i].updatedAt) == ts[i]
  {
  }

  /** Setting the same default twice is the same as setting it once. */
  lemma SetDefaultIdempotent(ts: seq<Template>, caller: UserId, pk: Id, now: Time)
    ensures SetDefaultRows(SetDefaultRows(ts, caller, pk, now), caller, pk, now) == SetDefaultRows(ts, caller, pk, now)
  {
  }

  /** The bulk `update(is_default=False)` over the table, row by row. */
  method ClearOtherDefaults(rows: seq<Template>, caller: UserId, pk: Id) returns (cleared: seq<Template>)
    ensures |cleared| == |rows|
    ensures forall k :: 0 <= k < |rows| ==> cleared[k] == ClearedRow(rows[k], caller, pk)
  {
    cleared := rows;
    var i := 0;
    while i < |cleared|
      invariant 0 <= i <= |cleared| == |rows|
      invariant forall k :: 0 <= k < i ==> cleared[k] == ClearedRow(rows[k], caller, pk)
      invariant forall k :: i <= k < |cleared| ==> cleared[k] == rows[k]
    {
      if cleared[i].user == Some(caller) && cleared[i].isDefault && cleared[i].id != pk {
        cleared := cleared[i := cleared[i].(isDefault := false)];
      }
      i := i + 1;
    }
  }

  /** `LatexTemplateSetDefaultView.post`: the lookup, the bulk clear of the
      caller's other defaults, then `save()` of the target with `is_default`
      set. */
  method SetDefault(db: Database, caller: UserId, pk: Id, now: Time) returns (reply: Reply)
    requires TemplatesValid(db.templates)
    modifies db
    ensures TemplatesValid(db.templates)
    ensures Lookup(old(db.templates), pk, caller).None? ==>
      reply == NotFound(NOT_FOUND_MESSAGE) && db.templates == old(db.templates)
    ensures Lookup(old(db.templates), pk, caller).Some? ==>
      db.templates == SetDefaultRows(old(db.templates), caller, pk, now) &&
      reply == Ok(200, db.templates[Lookup(old(db.templates), pk, caller).value])
    ensures db.problems == old(db.problems) && db.problemDocs == old(db.problemDocs)
    ensures db.explanations == old(db.explanations)
  {
    var found := Lookup(db.templates, pk, caller);
    if found.None? {
      return NotFound(NOT_FOUND_MESSAGE);
    }
    var target := found.value;
    ghost var before := db.templates;
    var rows := ClearOtherDefaults(db.templates, caller, pk);
    db.templates := rows;
    var t := rows[target].(isDefault := true);
    ClearedThenSaved(before, caller, pk, now, target, rows);
    var errors, row := TemplateModel.SaveTemplate(db, t, now);
    SetDefaultKeepsValid(before, caller, pk, now);
    reply := Ok(200, row);
  }

  /** Saving the target into the cleared table passes `full_clean()` and
      yields `SetDefaultRows`. */
  lemma ClearedThenSaved(ts: seq<Template>, caller: UserId, pk: Id, now: Time, target: nat, rows: seq<Template>)
    requires TemplatesValid(ts)
    requires target < |ts| && ts[target].id == pk && ts[target].user == Some(caller)
    requires |rows| == |ts| && forall k :: 0 <= k < |ts| ==> rows[k] == ClearedRow(ts[k], caller, pk)
    ensures TemplateModel.FullClean(rows, rows[target].(isDefault := true)) == []
    ensures TemplateModel.Stamped(rows, rows[target].(isDefault := true), now) == rows[target].(isDefault := true, updatedAt := now)
    ensures TemplateModel.Upsert(rows, rows[target].(isDefault := true, updatedAt := now)) == SetDefaultRows(ts, caller, pk, now)
  {
    assert TemplateIds(rows) == TemplateIds(ts);
    assert ts[target] in ts;
    RowValidKept(ts[target], rows[target].(isDefault := true));
    var row := rows[target].(isDefault := true, updatedAt := now);
    UpsertStored(rows, target, row);
    forall k | 0 <= k < |ts| && k != target ensures rows[k] == SetDefaultRow(ts[k], caller, pk, now) {
      assert TemplateIds(ts)[k] != TemplateIds(ts)[target];
    }
    assert rows[target := row] == SetDefaultRows(ts, caller, pk, now);
  }

  /** `set_default` keeps the template table valid. */
  lemma SetDefaultKeepsValid(ts: seq<Template>, caller: UserId, pk: Id, now: Time)
    requires TemplatesValid(ts)
    requires Lookup(ts, pk, caller).Some?
    ensures TemplatesValid(SetDefaultRows(ts, caller, pk, now))
  {
    var r := SetDefaultRows(ts, caller, pk, now);
    assert TemplateIds(r) == TemplateIds(ts);
    forall t | t in r ensures TemplateRowValid(t) {
      var k :| 0 <= k < |r| && r[k] == t;
      assert ts[k] in ts;
      RowValidKept(ts[k], t);
    }
    forall i, j | 0 <= i < j < |r| && r[i].isDefault && r[j].isDefault && r[i].user.Some?
      ensures r[i].user != r[j].user
    {
      if r[i].user == Some(caller) {
        assert TemplateIds(ts)[i] != TemplateIds(ts)[j];
      }
    }
  }
}
