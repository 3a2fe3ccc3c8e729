/** The edit dialog of client/src/admin/EditMenu.tsx. The menu schema and the
    menu item type are not part of this model: validation is a parameter, and
    a menu item keeps the fields the dialog reads plus its id. Browser object
    URLs come from a parameter too. */
module EditMenu {
  import opened Wrappers

  datatype File = File(name: string)

  /** A menu item as the parent passes it; any field but the id may be
      missing. */
  datatype MenuItem = MenuItem(
    id: string, name: Option<string>, description: Option<string>, price: Option<int>,
    image: Option<string>)

  datatype Input = Input(name: string, description: string, price: int, image: Option<File>)

  datatype Verdict = Valid | Invalid(fieldErrors: map<string, seq<string>>)

  type Validation = Input -> Verdict

  datatype Dialog = Dialog(
    input: Input, errors: map<string, seq<string>>, loading: bool, open: bool)

  /** The `||` fallback of a text field: a missing or empty value becomes
      the empty string. */
  function TextOr(v: Option<string>): (r: string)
    ensures v.Some? ==> r == v.value
    ensures v.None? ==> r == ""
  {
    if v.Some? && v.value != "" then v.value else ""
  }

  /** The `||` fallback of the price: a missing or zero price becomes 0. */
  function PriceOr(v: Option<int>): (r: int)
    ensures v.Some? ==> r == v.value
    ensures v.None? ==> r == 0
  {
    if v.Some? && v.value != 0 then v.value else 0
  }

  /** The initialisation effect: when a menu is selected the input copies its
      name, description and price, with empty and zero defaults, and no new
      file; with no selection the input stays. */
  function Init(d: Dialog, selected: Option<MenuItem>): (r: Dialog)
    ensures r.errors == d.errors && r.loading == d.loading && r.open == d.open
    ensures selected.None? ==> r.input == d.input
    ensures selected.Some? ==> r.input == Input(
      TextOr(selected.value.name), TextOr(selected.value.description),
      PriceOr(selected.value.price), None)
  {
    match selected
    case None => d
    case Some(m) => d.(input := Input(TextOr(m.name), TextOr(m.description), PriceOr(m.price), None))
  }

  datatype TextField = NameField | DescriptionField

  datatype Event =
    | Typed(field: TextField, value: string)
    | PriceTyped(value: string)
    | FileChosen(file: Option<File>)

  /** `changeEventHandler` and the file input: one field set, nothing else. */
  function Change(d: Dialog, e: Event, toNumber: string -> int): (r: Dialog)
    ensures r.errors == d.errors && r.loading == d.loading && r.open == d.open
    ensures e.Typed? && e.field == NameField ==> r.input == d.input.(name := e.value)
    ensures e.Typed? && e.field == DescriptionField ==> r.input == d.input.(description := e.value)
    ensures e.PriceTyped? ==> r.input == d.input.(price := toNumber(e.value))
    ensures e.FileChosen? ==> r.input == d.input.(image := e.file)
  {
    var input :=
      match e
      case Typed(NameField, v) => d.input.(name := v)
      case Typed(DescriptionField, v) => d.input.(description := v)
      case PriceTyped(v) => d.input.(price := toNumber(v))
      case FileChosen(file) => d.input.(image := file);
    d.(input := input)
  }

  /** The menu item the timer hands to `onUpdate`: the selected item with the
      input's fields laid over it, the image replaced only by a new file. */
  function Merge(selected: MenuItem, input: Input, objectUrl: File -> string): (m: MenuItem)
    ensures m.id == selected.id
    ensures m.name == Some(input.name) && m.description == Some(input.description)
    ensures m.price == Some(input.price)
    ensures input.image.Some? ==> m.image == Some(objectUrl(input.image.value))
    ensures input.image.None? ==> m.image == selected.image
  {
    MenuItem(selected.id, Some(input.name), Some(input.description), Some(input.price),
             if input.image.Some? then Some(objectUrl(input.image.value)) else selected.image)
  }

  /** What the dialog does to its parent, in order. */
  datatype Effect = Updated(item: MenuItem) | Closed

  datatype Submitted = Submitted(dialog: Dialog, effects: seq<Effect>)

  /** `submitHandler` with its timer run to the end: invalid input sets the
      errors, tells the parent nothing and keeps the dialog open; valid input
      hands the merged item to the parent first, then closes the dialog, and
      loading ends off. */
  function Submit(d: Dialog, selected: MenuItem, validate: Validation, objectUrl: File -> string)
    : (r: Submitted)
    ensures r.dialog.input == d.input
    ensures r.effects == [] <==> validate(d.input).Invalid?
    ensures r.effects == [] ==>
      r.dialog.errors == validate(d.input).fieldErrors && r.dialog.open == d.open
      && r.dialog.loading == d.loading
    ensures r.effects != [] ==>
      |r.effects| == 2 && r.effects[0] == Updated(Merge(selected, d.input, objectUrl))
      && r.effects[1] == Closed
      && !r.dialog.open && !r.dialog.loading && r.dialog.errors == d.errors
  {
    match validate(d.input)
    case Invalid(errs) => Submitted(d.(errors := errs), [])
    case Valid =>
      Submitted(d.(open := false, loading := false), [Updated(Merge(selected, d.input, objectUrl)), Closed])
  }

  /** Opening the dialog on an item and saving without edits keeps the item's
      id, image and present non-empty fields. */
  lemma SaveWithoutEdits(d: Dialog, m: MenuItem, validate: Validation, objectUrl: File -> string)
    requires m.name.Some? && m.name.value != "" && m.price.Some?
    requires validate(Init(d, Some(m)).input).Valid?
    ensures var e := Submit(Init(d, Some(m)), m, validate, objectUrl).effects;
      |e| > 0 && e[0].Updated? && e[0].item.id == m.id && e[0].item.name == m.name
      && e[0].item.price == m.price && e[0].item.image == m.image
  {
  }
}
