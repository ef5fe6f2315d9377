/**
  The new-item form of components/AddItemForm.tsx: field edits, the required
  fields check and the body it posts to the item list. The fields of
  `AddItemView` are the component's React state.
 */
module AddItemForm {
  import opened Wrappers
  import opened Strings
  import opened Records
  import opened ItemsRoute

  /** A form value: the quantity starts as a number; whatever is typed is text. */
  datatype FormValue = Number(n: int) | Text(s: string)

  datatype ItemForm = ItemForm(
    name: string,
    description: string,
    box_id: string,
    category_id: string,
    status: string,
    quantity: FormValue,
    notes: string)

  /** The form before anything is typed: in the box, one piece, everything else empty. */
  function InitialForm(): (f: ItemForm)
    ensures f.status == InBox && f.quantity == Number(1)
    ensures f.name == "" && f.description == "" && f.box_id == "" && f.category_id == "" && f.notes == ""
  {
    ItemForm("", "", "", "", InBox, Number(1), "")
  }

  /** The value of the field called `name`, as `formData[name]` reads it. */
  function Get(f: ItemForm, name: string): Option<FormValue>
  {
    match name
    case "name" => Some(Text(f.name))
    case "description" => Some(Text(f.description))
    case "box_id" => Some(Text(f.box_id))
    case "category_id" => Some(Text(f.category_id))
    case "status" => Some(Text(f.status))
    case "quantity" => Some(f.quantity)
    case "notes" => Some(Text(f.notes))
    case _ => None
  }

  /** `{ ...prev, [name]: value }`: the named field takes the typed text, every other field keeps its value. */
  function WithField(f: ItemForm, name: string, value: string): (r: ItemForm)
    ensures Get(f, name).Some? ==> Get(r, name) == Some(Text(value))
    ensures forall other :: other != name ==> Get(r, other) == Get(f, other)
  {
    match name
    case "name" => f.(name := value)
    case "description" => f.(description := value)
    case "box_id" => f.(box_id := value)
    case "category_id" => f.(category_id := value)
    case "status" => f.(status := value)
    case "quantity" => f.(quantity := Text(value))
    case "notes" => f.(notes := value)
    case _ => f
  }

  /** The required fields are filled: a name that is not blank and a chosen box. */
  predicate CanSubmit(f: ItemForm)
  {
    Trim(f.name) != "" && f.box_id != ""
  }

  /** The quantity as the body carries it; typed text is read as the database reads an integer. */
  function QuantityField(q: FormValue): Field<int>
  {
    match q
    case Number(n) => Given(n)
    case Text(s) => JsonNumber(ParseInt(s))
  }

  /**
    The body `handleSubmit` posts: the form as typed, with the box id parsed
    and the category id parsed when one is chosen and null otherwise.
   */
  function Payload(f: ItemForm): NewItem
  {
    NewItem(Given(f.name), Given(f.description), JsonNumber(ParseInt(f.box_id)),
            if f.category_id != "" then JsonNumber(ParseInt(f.category_id)) else Null,
            Given(f.status), QuantityField(f.quantity), Absent, Given(f.notes))
  }

  /** A form that passes the check, with a box chosen from the list, passes the item list's required fields check. */
  lemma SubmittedFormHasRequiredFields(f: ItemForm, boxId: int)
    requires CanSubmit(f)
    requires boxId >= 1 && f.box_id == IntToString(boxId)
    ensures TextTruthy(Payload(f).name)
    ensures Payload(f).box_id == Given(boxId) && NumTruthy(Payload(f).box_id)
  {
    ParseIntOfIntToString(boxId);
    assert f.name != "" by {
      assert Trim("") == "";
    }
  }

  /** No category chosen is sent as null; a chosen category is sent as its id. */
  lemma CategorySent(f: ItemForm, categoryId: int)
    ensures f.category_id == "" ==> Payload(f).category_id == Null
    ensures f.category_id == IntToString(categoryId) ==> Payload(f).category_id == Given(categoryId)
  {
    ParseIntOfIntToString(categoryId);
    assert |IntToString(categoryId)| > 0;
  }

  class AddItemView {
    var form: ItemForm
    var loading: bool

    constructor()
      ensures form == InitialForm() && !loading
    {
      form := InitialForm();
      loading := false;
    }

    /** `handleChange`: the named field takes the typed value. */
    method HandleChange(name: string, value: string)
      modifies this`form
      ensures form == WithField(old(form), name, value)
    {
      form := WithField(form, name, value);
    }

    /** `handleSubmit`: nothing is sent unless the required fields are filled; otherwise the payload is. */
    method HandleSubmit() returns (request: Option<NewItem>)
      ensures request.Some? <==> CanSubmit(form)
      ensures request.Some? ==> request.value == Payload(form)
    {
      if Trim(form.name) == "" || form.box_id == "" {
        return None;
      }
      request := Some(Payload(form));
    }
  }
}
