/** backend/api/template/serializers/template_serializer.py: the request
    serializer of a template: the writable fields, the checks DRF derives from
    the model's fields, `validate_content` and the single-default check of
    `validate`. */
module TemplateSerializer {
  import opened Options
  import opened Text
  import opened Records
  import TemplateModel
  import opened SerializerFields

  /** The messages of `validate_content` and `validate`. */
  const MISSING_PLACEHOLDER_MESSAGE := "テンプレートには{children}プレースホルダーが含まれている必要があります"
  const DUPLICATE_DEFAULT_MESSAGE := "ユーザーごとにデフォルトテンプレートは1つまで設定できます"

  /** The request body as the serializer sees it: only `name`, `content` and
      `is_default` are writable, and a key that was not sent is `None`. */
  datatype TemplateRequest = TemplateRequest(name: Option<string>, content: Option<string>, isDefault: Option<bool>)

  /** `is_valid()`: the validated data, or the errors. */
  datatype Validated = Accepted(attrs: TemplateRequest) | Rejected(errors: seq<FieldError>)

  /** `validate_content(value)`: the same placeholder test as the model's `clean()`. */
  function ValidateContent(value: string): (r: FieldOutcome)
    ensures r.Value? <==> TemplateModel.Clean(value).None?
    ensures r.Value? ==> r.value == value
    ensures r.Invalid? ==> r.message == MISSING_PLACEHOLDER_MESSAGE
  {
    if Contains(value, PLACEHOLDER) then Value(value) else Invalid(MISSING_PLACEHOLDER_MESSAGE)
  }

  /** The `content` field: the `CharField` checks, then `validate_content`. */
  function ContentField(data: Option<string>, partial: bool): (r: FieldOutcome)
    ensures r.Value? ==> data.Some? && r.value == Trim(data.value) && Contains(r.value, PLACEHOLDER)
    ensures data.Some? && !AllSpace(data.value) ==>
      (r.Value? <==> Contains(Trim(data.value), PLACEHOLDER) && '\0' !in Trim(data.value))
  {
    match CharField(data, !partial, false, None)
    case Value(v) => ValidateContent(v)
    case other => other
  }

  /** `validate(attrs)`: with `is_default` true (a missing key counts as false),
      refuse when another template of the caller is already default; the
      instance being updated does not count. */
  function Validate(templates: seq<Template>, caller: UserId, instance: Option<Id>, isDefault: Option<bool>): (r: Option<string>)
    ensures r.Some? <==>
      isDefault == Some(true) &&
      exists t :: t in templates && t.user == Some(caller) && t.isDefault && Some(t.id) != instance
    ensures r.Some? ==> r.value == DUPLICATE_DEFAULT_MESSAGE
  {
    var others := Filter(templates, (t: Template) => t.user == Some(caller) && t.isDefault && Some(t.id) != instance);
    if isDefault.GetOr(false) && others != [] then Some(DUPLICATE_DEFAULT_MESSAGE) else None
  }

  /** `is_valid()` on the request serializer: the field checks, then, when they
      all pass, `validate`. */
  function ValidateRequest(templates: seq<Template>, caller: UserId, instance: Option<Id>,
                           request: TemplateRequest, partial: bool): (r: Validated)
    ensures r.Accepted? ==> r.attrs.isDefault == request.isDefault
    ensures r.Accepted? <==>
      !CharField(request.name, !partial, false, Some(TEMPLATE_NAME_MAX_LENGTH)).Invalid? &&
      !ContentField(request.content, partial).Invalid? &&
      Validate(templates, caller, instance, request.isDefault).None?
  {
    var name := CharField(request.name, !partial, false, Some(TEMPLATE_NAME_MAX_LENGTH));
    var content := ContentField(request.content, partial);
    var errors := ErrorsOf("name", name) + ErrorsOf("content", content);
    if errors != [] then Rejected(errors)
    else
      match Validate(templates, caller, instance, request.isDefault)
      case Some(message) => Rejected([FieldError("is_default", message)])
      case None => Accepted(TemplateRequest(ValueOf(name), ValueOf(content), request.isDefault))
  }

  /** What an accepted request carries: trimmed, non-blank fields within
      their limits, the content holding the placeholder, every field present
      unless the update is partial, and no second default. */
  lemma AcceptedFields(templates: seq<Template>, caller: UserId, instance: Option<Id>,
                       request: TemplateRequest, partial: bool)
    requires ValidateRequest(templates, caller, instance, request, partial).Accepted?
    ensures var attrs := ValidateRequest(templates, caller, instance, request, partial).attrs;
      (attrs.name.Some? ==>
         request.name.Some? && attrs.name.value == Trim(request.name.value) &&
         0 < |attrs.name.value| <= TEMPLATE_NAME_MAX_LENGTH) &&
      (attrs.content.Some? ==>
         request.content.Some? && attrs.content.value == Trim(request.content.value) &&
         Contains(attrs.content.value, PLACEHOLDER)) &&
      (attrs.name.Some? <==> request.name.Some?) &&
      (attrs.content.Some? <==> request.content.Some?) &&
      (!partial ==> attrs.name.Some? && attrs.content.Some?) &&
      (attrs.isDefault == Some(true) ==>
         forall t :: t in templates && t.user == Some(caller) && t.isDefault ==> Some(t.id) == instance)
  {
  }

  /** `serializer.save()` on an instance: the validated fields replace the
      stored ones, the others are kept. */
  function Apply(base: Template, attrs: TemplateRequest): (t: Template)
    ensures t.id == base.id && t.user == base.user && t.createdAt == base.createdAt
    ensures t.name == attrs.name.GetOr(base.name) && t.content == attrs.content.GetOr(base.content)
    ensures t.isDefault == attrs.isDefault.GetOr(base.isDefault)
  {
    base.(name := attrs.name.GetOr(base.name),
          content := attrs.content.GetOr(base.content),
          isDefault := attrs.isDefault.GetOr(base.isDefault))
  }

  /** `serializer.save(user=caller)` without an instance: a new row with the
      validated fields, `is_default` false unless sent. */
  function NewRow(id: Id, caller: UserId, attrs: TemplateRequest): (t: Template)
    ensures t.id == id && t.user == Some(caller)
    ensures t.name == attrs.name.GetOr("") && t.content == attrs.content.GetOr("")
    ensures t.isDefault == attrs.isDefault.GetOr(false)
  {
    Template(id, Some(caller), attrs.name.GetOr(""), attrs.content.GetOr(""), attrs.isDefault.GetOr(false), 0, 0)
  }

  /** What the serializer accepted for a new template the model's `full_clean()`
      accepts too: `save()` never refuses it. */
  lemma AcceptedCreatePassesFullClean(templates: seq<Template>, caller: UserId, id: Id, request: TemplateRequest)
    requires ValidateRequest(templates, caller, None, request, false).Accepted?
    ensures TemplateModel.FullClean(templates, NewRow(id, caller, ValidateRequest(templates, caller, None, request, false).attrs)) == []
  {
    var attrs := ValidateRequest(templates, caller, None, request, false).attrs;
    AcceptedFields(templates, caller, None, request, false);
    var t := NewRow(id, caller, attrs);
    assert TemplateRowValid(t);
    if t.isDefault {
      assert request.isDefault == Some(true);
      forall u | u in templates && u.id != t.id && u.user == t.user ensures !u.isDefault {
        assert Some(u.id) != None;
      }
    }
  }

  /** ... and the same holds for an update, full or partial, of one of the
      caller's stored templates. */
  lemma AcceptedUpdatePassesFullClean(templates: seq<Template>, caller: UserId, base: Template,
                                      request: TemplateRequest, partial: bool)
    requires TemplatesValid(templates)
    requires base in templates && base.user == Some(caller)
    requires ValidateRequest(templates, caller, Some(base.id), request, partial).Accepted?
    ensures TemplateModel.FullClean(templates, Apply(base, ValidateRequest(templates, caller, Some(base.id), request, partial).attrs)) == []
  {
    var attrs := ValidateRequest(templates, caller, Some(base.id), request, partial).attrs;
    AcceptedFields(templates, caller, Some(base.id), request, partial);
    var t := Apply(base, attrs);
    assert TemplateRowValid(base);
    assert TemplateRowValid(t);
    if t.isDefault {
      forall u | u in templates && u.id != t.id && u.user == t.user ensures !u.isDefault {
        if attrs.isDefault.None? {
          assert base.isDefault;
          var i, j :| 0 <= i < |templates| && 0 <= j < |templates| && templates[i] == u && templates[j] == base;
          assert TemplateIds(templates)[i] != TemplateIds(templates)[j];
          assert i != j && templates[i].user == templates[j].user && templates[j].user.Some?;
        }
      }
    }
  }
}
