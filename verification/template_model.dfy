/** backend/app/models/latex_template.py: the `LatexTemplate` model: the checks
    `full_clean()` runs (the field checks, `clean()` and the conditional
    unique constraint), `save()`, which runs them before writing the row, and
    the string form. */
module TemplateModel {
  import opened Options
  import opened Text
  import opened Records

  /** The message `clean()` raises. */
  const MISSING_PLACEHOLDER_MESSAGE := "テンプレートには{children}プレースホルダーが含まれている必要があります"
  /** The suffix `__str__` appends to a default template, and the owner it
      names for a system template. */
  const DEFAULT_MARK := " (デフォルト)"
  const SYSTEM_LABEL := "System"

  /** Why `full_clean()` refuses a row: `name` blank or over 200 characters,
      `content` blank (the field checks), no placeholder (`clean()`), or a
      second default of the same user (the constraint
      `unique_user_default_template`). */
  datatype CleanError = BlankName | NameTooLong | BlankContent | MissingPlaceholder | DuplicateDefault

  /** `clean()`: the placeholder check on the content. */
  function Clean(content: string): (r: Option<string>)
    ensures r.None? <==> Contains(content, PLACEHOLDER)
    ensures r.Some? ==> r.value == MISSING_PLACEHOLDER_MESSAGE
  {
    if Contains(content, PLACEHOLDER) then None else Some(MISSING_PLACEHOLDER_MESSAGE)
  }

  /** Another row (not `t` itself) already is the default of `t`'s user; rows
      without a user never clash, since SQL `NULL`s are distinct. */
  predicate ClashesWithDefault(ts: seq<Template>, t: Template) {
    t.isDefault && t.user.Some? &&
    exists u :: u in ts && u.id != t.id && u.user == t.user && u.isDefault
  }

  /** `full_clean()` on `t` against the stored rows `ts`: every failing check,
      in the order Django runs them. */
  function FullClean(ts: seq<Template>, t: Template): (errors: seq<CleanError>)
    ensures errors == [] <==> TemplateRowValid(t) && !ClashesWithDefault(ts, t)
    ensures MissingPlaceholder in errors <==> !Contains(t.content, PLACEHOLDER)
    ensures DuplicateDefault in errors <==> ClashesWithDefault(ts, t)
  {
    (if t.name == [] then [BlankName] else []) +
    (if |t.name| > TEMPLATE_NAME_MAX_LENGTH then [NameTooLong] else []) +
    (if t.content == [] then [BlankContent] else []) +
    (if Clean(t.content).Some? then [MissingPlaceholder] else []) +
    (if ClashesWithDefault(ts, t) then [DuplicateDefault] else [])
  }

  /** The row `save()` writes: `updated_at` (`auto_now`) is always the save
      time, `created_at` (`auto_now_add`) only on an insert. */
  function Stamped(ts: seq<Template>, t: Template, now: Time): (row: Template)
    ensures row.(createdAt := t.createdAt, updatedAt := t.updatedAt) == t
    ensures row.updatedAt == now
    ensures (forall u :: u in ts ==> u.id != t.id) ==> row.createdAt == now
    ensures (exists u :: u in ts && u.id == t.id) ==> row.createdAt == t.createdAt
  {
    match FindIndex(ts, (u: Template) => u.id == t.id)
    case Some(_) => t.(updatedAt := now)
    case None => t.(createdAt := now, updatedAt := now)
  }

  /** An `UPDATE` of the row with `row`'s key, or an `INSERT` when there is none. */
  function Upsert(ts: seq<Template>, row: Template): (r: seq<Template>)
    ensures row in r
    ensures forall u :: u in r ==> u == row || u in ts
    ensures forall u :: u in ts && u.id != row.id ==> u in r
    ensures TemplateIds(r) == TemplateIds(ts) || TemplateIds(r) == TemplateIds(ts) + [row.id]
    ensures (exists u :: u in ts && u.id == row.id) ==> |r| == |ts|
  {
    match FindIndex(ts, (u: Template) => u.id == row.id)
    case Some(i) =>
      assert TemplateIds(ts[i := row]) == TemplateIds(ts);
      ts[i := row]
    case None =>
      assert TemplateIds(ts + [row]) == TemplateIds(ts) + [row.id];
      ts + [row]
  }

  /** `save()`: `full_clean()` first; the row is written only when it passes. */
  method SaveTemplate(db: Database, t: Template, now: Time) returns (errors: seq<CleanError>, row: Template)
    modifies db
    ensures errors == FullClean(old(db.templates), t)
    ensures row == Stamped(old(db.templates), t, now)
    ensures errors == [] ==> db.templates == Upsert(old(db.templates), row)
    ensures errors != [] ==> db.templates == old(db.templates)
    ensures db.problems == old(db.problems) && db.problemDocs == old(db.problemDocs)
    ensures db.explanations == old(db.explanations)
  {
    errors := FullClean(db.templates, t);
    row := Stamped(db.templates, t, now);
    if errors == [] {
      db.templates := Upsert(db.templates, row);
    }
  }

  /** Whatever `save()` writes keeps every stored row valid, their keys
      distinct and at most one default per user. */
  lemma SaveKeepsValid(ts: seq<Template>, t: Template, now: Time)
    requires TemplatesValid(ts)
    requires FullClean(ts, t) == []
    ensures TemplatesValid(Upsert(ts, Stamped(ts, t, now)))
  {
    var row := Stamped(ts, t, now);
    var r := Upsert(ts, row);
    assert TemplateRowValid(row);
    assert Distinct(TemplateIds(r)) by {
      if TemplateIds(r) != TemplateIds(ts) {
        assert TemplateIds(r) == TemplateIds(ts) + [row.id];
        forall i | 0 <= i < |ts| ensures TemplateIds(ts)[i] != row.id {
          assert ts[i] in ts;
        }
      }
    }
    forall i, j | 0 <= i < j < |r| && r[i].isDefault && r[j].isDefault && r[i].user.Some?
      ensures r[i].user != r[j].user
    {
      assert TemplateIds(r)[i] != TemplateIds(r)[j];
      assert r[i] in r && r[j] in r;
      if r[i] == row {
        assert r[j] in ts && r[j].id != row.id;
      } else if r[j] == row {
        assert r[i] in ts && r[i].id != row.id;
      } else {
        var i', j' :| 0 <= i' < |ts| && 0 <= j' < |ts| && ts[i'] == r[i] && ts[j'] == r[j];
        assert i' != j' by {
          assert r[i].id != r[j].id;
        }
        if i' > j' {
          assert ts[j'].user != ts[i'].user;
        }
      }
    }
  }

  /** `__str__`: `LatexTemplate {name} by {owner}`, the owner being the user's
      name or `System`, then the default mark when the template is default. */
  function Str(name: string, username: Option<string>, isDefault: bool): (r: string)
    ensures StartsWith(r, "LatexTemplate " + name + " by ")
    ensures isDefault ==> EndsWith(r, DEFAULT_MARK)
    ensures !isDefault ==> EndsWith(r, username.GetOr(SYSTEM_LABEL))
    ensures |r| == |"LatexTemplate " + name + " by "| + |username.GetOr(SYSTEM_LABEL)| +
                   (if isDefault then |DEFAULT_MARK| else 0)
  {
    var prefix := "LatexTemplate " + name + " by ";
    var owner := username.GetOr(SYSTEM_LABEL);
    var mark := if isDefault then DEFAULT_MARK else "";
    assert (prefix + owner + mark)[..|prefix|] == prefix;
    prefix + owner + mark
  }
}
