/** `useTemplateForm` of frontend/src/hooks/useTemplateForm.ts: the template
    editor's form, its validation and the choice between creating and updating. */
module TemplateFormHook {
  import opened Options
  import opened Text
  import opened JsValues

  const PLACEHOLDER := "{children}"
  const DEFAULT_PREAMBLE := "\\documentclass{article}\n\\usepackage{amsmath}\n\n\\begin{document}\n\n"
  const DEFAULT_TEMPLATE_CONTENT := DEFAULT_PREAMBLE + PLACEHOLDER + "\n\n\\end{document}"
  const NAME_REQUIRED_MESSAGE := "テンプレート名を入力してください"
  const PLACEHOLDER_REQUIRED_MESSAGE := "テンプレートには{children}プレースホルダーが含まれている必要があります"
  const LOAD_FAILED_MESSAGE := "テンプレートの取得に失敗しました"
  const SAVE_FAILED_MESSAGE := "保存に失敗しました"

  lemma DefaultContentHasPlaceholder()
    ensures Contains(DEFAULT_TEMPLATE_CONTENT, PLACEHOLDER)
  {
    var i := |DEFAULT_PREAMBLE|;
    assert DEFAULT_TEMPLATE_CONTENT[i..i + |PLACEHOLDER|] == PLACEHOLDER;
    assert OccursAt(DEFAULT_TEMPLATE_CONTENT, PLACEHOLDER, i);
  }

  /** A template as `getTemplateAction` returns it. */
  datatype TemplateRecord = TemplateRecord(id: string, name: string, content: string, isDefault: Option<bool>)

  /** The backend call a save makes. */
  datatype SaveRequest =
    | Create(name: string, content: string, isDefault: bool)
    | Update(id: string, name: string, content: string, isDefault: bool)

  /** The message `validateForm` sets, or none when the form is valid: a blank
      name is reported before a missing placeholder. */
  function FormProblem(name: string, content: string): (m: Option<string>)
    ensures m.None? <==> !AllSpace(name) && Contains(content, PLACEHOLDER)
    ensures AllSpace(name) ==> m == Some(NAME_REQUIRED_MESSAGE)
    ensures !AllSpace(name) && !Contains(content, PLACEHOLDER) ==> m == Some(PLACEHOLDER_REQUIRED_MESSAGE)
  {
    if AllSpace(name) then Some(NAME_REQUIRED_MESSAGE)
    else if !Contains(content, PLACEHOLDER) then Some(PLACEHOLDER_REQUIRED_MESSAGE)
    else None
  }

  /** The call `saveTemplate` makes for a valid form: an update of the template
      being edited that keeps its default flag, or a creation that is never default. */
  function SaveDecision(editing: Option<TemplateRecord>, name: string, content: string): (r: SaveRequest)
    ensures r.name == name && r.content == content
    ensures r.Update? <==> editing.Some?
    ensures r.Update? ==> r.id == editing.value.id && r.isDefault == (editing.value.isDefault == Some(true))
    ensures r.Create? ==> !r.isDefault
  {
    var isDefault := if editing.Some? then editing.value.isDefault.GetOr(false) else false;
    if editing.Some? then Update(editing.value.id, name, content, isDefault)
    else Create(name, content, isDefault)
  }

  class TemplateForm {
    var name: string
    var content: string
    var editingTemplate: Option<TemplateRecord>
    var error: Option<string>

    constructor()
      ensures name == [] && content == DEFAULT_TEMPLATE_CONTENT
      ensures editingTemplate.None? && error.None?
    {
      name := [];
      content := DEFAULT_TEMPLATE_CONTENT;
      editingTemplate := None;
      error := None;
    }

    /** `resetForm()`: the initial state again. */
    method ResetForm()
      modifies this
      ensures name == [] && content == DEFAULT_TEMPLATE_CONTENT
      ensures editingTemplate.None? && error.None?
    {
      name := [];
      content := DEFAULT_TEMPLATE_CONTENT;
      editingTemplate := None;
      error := None;
    }

    /** `setEditingTemplateData(id)` once `getTemplateAction` settled: a loaded
        template fills the form; a failure sets the load error and is re-thrown. */
    method SetEditingTemplateData(outcome: Completion<TemplateRecord>) returns (rethrown: Option<JsValue>)
      modifies this
      ensures outcome.Normal? ==> (name == outcome.value.name && content == outcome.value.content &&
                                   editingTemplate == Some(outcome.value) && error.None? && rethrown.None?)
      ensures outcome.Abrupt? ==> (rethrown == Some(outcome.thrown) && error == Some(LOAD_FAILED_MESSAGE) &&
                                   name == old(name) && content == old(content) &&
                                   editingTemplate == old(editingTemplate))
    {
      match outcome {
        case Normal(t) =>
          name := t.name;
          content := t.content;
          editingTemplate := Some(t);
          error := None;
          rethrown := None;
        case Abrupt(thrown) =>
          error := Some(LOAD_FAILED_MESSAGE);
          rethrown := Some(thrown);
      }
    }

    /** `updateFormData(updates)`: only the supplied fields change; the error clears. */
    method UpdateFormData(newName: Option<string>, newContent: Option<string>)
      modifies this
      ensures name == newName.GetOr(old(name)) && content == newContent.GetOr(old(content))
      ensures editingTemplate == old(editingTemplate) && error.None?
    {
      if newName.Some? {
        name := newName.value;
      }
      if newContent.Some? {
        content := newContent.value;
      }
      error := None;
    }

    /** `validateForm()`: answers whether the form is valid and reports why not. */
    method ValidateForm() returns (valid: bool)
      modifies this
      ensures valid <==> FormProblem(name, content).None?
      ensures !valid ==> error == FormProblem(name, content)
      ensures valid ==> error == old(error)
      ensures name == old(name) && content == old(content) && editingTemplate == old(editingTemplate)
    {
      TrimEmptyIffAllSpace(name);
      if Trim(name) == [] {
        error := Some(NAME_REQUIRED_MESSAGE);
        return false;
      }
      if !Contains(content, PLACEHOLDER) {
        error := Some(PLACEHOLDER_REQUIRED_MESSAGE);
        return false;
      }
      return true;
    }

    /** The synchronous part of `saveTemplate()`: an invalid form makes no call. */
    method BeginSaveTemplate() returns (request: Option<SaveRequest>)
      modifies this
      ensures request.None? <==> FormProblem(name, content).Some?
      ensures request.None? ==> error == FormProblem(name, content)
      ensures request.Some? ==> request.value == SaveDecision(editingTemplate, name, content) && error.None?
      ensures name == old(name) && content == old(content) && editingTemplate == old(editingTemplate)
    {
      var valid := ValidateForm();
      if !valid {
        return None;
      }
      error := None;
      request := Some(SaveDecision(editingTemplate, name, content));
    }

    /** The rest of `saveTemplate()` once the call settled: a failure sets the save
        error and is re-thrown. */
    method FinishSaveTemplate(outcome: Completion<()>) returns (rethrown: Option<JsValue>)
      modifies this
      ensures outcome.Normal? ==> rethrown.None? && error == old(error)
      ensures outcome.Abrupt? ==> rethrown == Some(outcome.thrown) && error == Some(SAVE_FAILED_MESSAGE)
      ensures name == old(name) && content == old(content) && editingTemplate == old(editingTemplate)
    {
      rethrown := None;
      if outcome.Abrupt? {
        error := Some(SAVE_FAILED_MESSAGE);
        rethrown := Some(outcome.thrown);
      }
    }
  }

  /** A freshly reset form fails validation only on its empty name. */
  lemma ResetFormNeedsOnlyName(name: string)
    requires !AllSpace(name)
    ensures FormProblem([], DEFAULT_TEMPLATE_CONTENT) == Some(NAME_REQUIRED_MESSAGE)
    ensures FormProblem(name, DEFAULT_TEMPLATE_CONTENT).None?
  {
    DefaultContentHasPlaceholder();
  }
}
