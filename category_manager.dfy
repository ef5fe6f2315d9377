/**
  The category editor of components/CategoryManager.tsx: one form shared by
  "add" and "edit", whose state (`formData`, `editingCategory`,
  `showAddForm`, `error`) is the fields of `CategoryEditor`.
 */
module CategoryManager {
  import opened Wrappers
  import opened Strings
  import opened Records
  import opened CategoriesRoute

  const SaveFailed: string := "Failed to save category"

  datatype CategoryForm = CategoryForm(name: string, color: string)

  /** The empty form: no name and the default colour. */
  function BlankForm(): CategoryForm
  {
    CategoryForm("", DefaultColor)
  }

  /** The request a save sends. */
  datatype SaveRequest = SaveRequest(verb: string, url: string, body: CategoryForm)

  /** `PUT /api/categories/{id}` while editing, `POST /api/categories` otherwise. */
  function SaveTarget(editing: Option<Category>, form: CategoryForm): (r: SaveRequest)
    ensures r.verb == "PUT" <==> editing.Some?
    ensures r.verb == "POST" <==> editing.None?
    ensures r.body == form
    ensures editing.Some? ==> r.url == "/api/categories/" + IntToString(editing.value.id)
    ensures editing.None? ==> r.url == "/api/categories"
  {
    if editing.Some? then SaveRequest("PUT", "/api/categories/" + IntToString(editing.value.id), form)
    else SaveRequest("POST", "/api/categories", form)
  }

  /** `errorData.error || 'Failed to save category'`: the server's message unless it is missing or empty. */
  function SaveError(serverError: Option<string>): (r: string)
    ensures r != ""
    ensures serverError.Some? && serverError.value != "" ==> r == serverError.value
    ensures serverError.None? || serverError.value == "" ==> r == SaveFailed
  {
    if serverError.Some? && serverError.value != "" then serverError.value else SaveFailed
  }

  /** How a save ended: saved, refused with an optional `{ error }`, or thrown with a message. */
  datatype SaveOutcome = Saved | Refused(serverError: Option<string>) | Threw(message: string)

  class CategoryEditor {
    var form: CategoryForm
    var editing: Option<Category>
    var showAddForm: bool
    var error: Option<string>
    var submitting: bool

    constructor()
      ensures form == BlankForm() && editing == None && !showAddForm && error == None && !submitting
    {
      form := BlankForm();
      editing := None;
      showAddForm := false;
      error := None;
      submitting := false;
    }

    /** `startEdit`: the form shows the category's name and colour, and saving will update it. */
    method StartEdit(category: Category)
      modifies this`form, this`editing, this`showAddForm
      ensures editing == Some(category)
      ensures form == CategoryForm(category.name, category.color)
      ensures showAddForm
    {
      editing := Some(category);
      form := CategoryForm(category.name, category.color);
      showAddForm := true;
    }

    /** `resetForm`: back to the blank, hidden add form with no error. */
    method ResetForm()
      modifies this`form, this`editing, this`showAddForm, this`error
      ensures form == BlankForm() && editing == None && !showAddForm && error == None
    {
      form := BlankForm();
      editing := None;
      showAddForm := false;
      error := None;
    }

    /**
      `handleSubmit`: a blank name sends nothing; otherwise the save goes to
      its target, success resets the form and failure keeps it with the error.
     */
    method HandleSubmit(outcome: SaveOutcome) returns (request: Option<SaveRequest>)
      modifies this`form, this`editing, this`showAddForm, this`error, this`submitting
      ensures request.None? <==> Trim(old(form.name)) == ""
      ensures request.None? ==> form == old(form) && editing == old(editing) && showAddForm == old(showAddForm) && error == old(error)
      ensures request.Some? ==> request.value == SaveTarget(old(editing), old(form))
      ensures request.Some? && outcome.Saved? ==> form == BlankForm() && editing == None && !showAddForm && error == None
      ensures request.Some? && outcome.Refused? ==>
        form == old(form) && editing == old(editing) && showAddForm == old(showAddForm) && error == Some(SaveError(outcome.serverError))
      ensures request.Some? && outcome.Threw? ==>
        form == old(form) && editing == old(editing) && showAddForm == old(showAddForm) && error == Some(outcome.message)
      ensures request.Some? ==> !submitting
      ensures request.None? ==> submitting == old(submitting)
    {
      if Trim(form.name) == "" {
        return None;
      }
      var sent := Submit(outcome);
      request := Some(sent);
    }

    /** The save itself, once the name is not blank: the request goes out and its outcome is applied. */
    method Submit(outcome: SaveOutcome) returns (request: SaveRequest)
      modifies this`form, this`editing, this`showAddForm, this`error, this`submitting
      ensures request == SaveTarget(old(editing), old(form))
      ensures outcome.Saved? ==> form == BlankForm() && editing == None && !showAddForm && error == None
      ensures outcome.Refused? ==>
        form == old(form) && editing == old(editing) && showAddForm == old(showAddForm) && error == Some(SaveError(outcome.serverError))
      ensures outcome.Threw? ==>
        form == old(form) && editing == old(editing) && showAddForm == old(showAddForm) && error == Some(outcome.message)
      ensures !submitting
    {
      submitting := true;
      error := None;
      request := SaveTarget(editing, form);
      ApplyOutcome(outcome);
      submitting := false;
    }

    /** What the end of a save does to the form: success resets it, failure keeps it and shows the error. */
    method ApplyOutcome(outcome: SaveOutcome)
      modifies this`form, this`editing, this`showAddForm, this`error
      ensures outcome.Saved? ==> form == BlankForm() && editing == None && !showAddForm && error == None
      ensures outcome.Refused? ==>
        form == old(form) && editing == old(editing) && showAddForm == old(showAddForm) && error == Some(SaveError(outcome.serverError))
      ensures outcome.Threw? ==>
        form == old(form) && editing == old(editing) && showAddForm == old(showAddForm) && error == Some(outcome.message)
    {
      match outcome {
        case Saved => ResetForm();
        case Refused(serverError) => error := Some(SaveError(serverError));
        case Threw(message) => error := Some(message);
      }
    }
  }
}
