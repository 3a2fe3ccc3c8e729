/** The state handlers of client/src/admin/Restaurant.tsx. The restaurant
    schema is not part of this model, so validation is a parameter; so is
    `Number(...)`, whose parsing of decimals, blanks and `NaN` is not
    modelled (delivery times are integers). */
module RestaurantForm {
  import opened Wrappers
  import opened Text

  /** A file picked in a file input. */
  datatype File = File(name: string)

  datatype Input = Input(
    restaurantName: string, city: string, country: string, deliveryTime: int,
    cuisines: seq<string>, imageFile: Option<File>)

  /** The outcome of the restaurant schema: either valid, or the flattened
      per-field error lists. */
  datatype Verdict = Valid | Invalid(fieldErrors: map<string, seq<string>>)

  type Validation = Input -> Verdict

  /** The text inputs `changeEventHandler` serves. */
  datatype TextField = RestaurantName | City | Country

  datatype Event =
    | Typed(field: TextField, value: string)
    | DeliveryTyped(value: string)
    | CuisinesTyped(text: string)
    | FileChosen(file: Option<File>)

  datatype Form = Form(
    input: Input, errors: map<string, seq<string>>, loading: bool, restaurant: Option<Input>)

  function Initial(): (f: Form)
    ensures f.input.restaurantName == "" && f.input.city == "" && f.input.country == ""
    ensures f.input.deliveryTime == 0 && f.input.cuisines == [] && f.input.imageFile.None?
    ensures f.errors == map[] && !f.loading && f.restaurant.None?
  {
    Form(Input("", "", "", 0, [], None), map[], false, None)
  }

  /** Every piece of a list, trimmed. */
  function TrimAll(parts: seq<string>): (r: seq<string>)
    ensures |r| == |parts|
    ensures forall i :: 0 <= i < |r| ==> r[i] == Trim(parts[i])
  {
    seq(|parts|, i requires 0 <= i < |parts| => Trim(parts[i]))
  }

  /** The cuisine list typed text stands for: split on every comma, each
      piece trimmed. */
  function ParseCuisines(text: string): (cuisines: seq<string>)
    ensures |cuisines| == Count(text, ',') + 1
    ensures forall i :: 0 <= i < |cuisines| ==> ',' !in cuisines[i]
    // cuisine i is the i-th comma-separated piece with its blanks removed
    ensures forall i :: 0 <= i < |cuisines| ==> cuisines[i] == Trim(Split(text, ',')[i])
  {
    var parts := Split(text, ',');
    var r := TrimAll(parts);
    assert forall i :: 0 <= i < |r| ==> ',' !in r[i] by {
      forall i | 0 <= i < |r| ensures ',' !in r[i] {
        TrimKeepsOut(parts[i], ',');
      }
    }
    r
  }

  /** Trimming removes characters, never adds any. */
  lemma TrimKeepsOut(s: string, c: char)
    requires c !in s
    ensures c !in Trim(s)
  {
    var t := TrimStart(s);
    assert forall k :: 0 <= k < |t| ==> t[k] == s[|s| - |t| + k];
    var u := TrimEnd(t);
    assert forall k :: 0 <= k < |u| ==> u[k] == t[k];
  }

  /** The text the cuisine input shows. */
  function ShowCuisines(cuisines: seq<string>): string {
    Join(cuisines, ',')
  }

  /** `changeEventHandler` and the two inline handlers: each event sets one
      field and nothing else; errors are kept. */
  function Change(f: Form, e: Event, toNumber: string -> int): (r: Form)
    ensures r.errors == f.errors && r.loading == f.loading && r.restaurant == f.restaurant
    ensures e.Typed? && e.field == RestaurantName ==> r.input == f.input.(restaurantName := e.value)
    ensures e.Typed? && e.field == City ==> r.input == f.input.(city := e.value)
    ensures e.Typed? && e.field == Country ==> r.input == f.input.(country := e.value)
    ensures e.DeliveryTyped? ==> r.input == f.input.(deliveryTime := toNumber(e.value))
    ensures e.CuisinesTyped? ==> r.input == f.input.(cuisines := ParseCuisines(e.text))
    ensures e.FileChosen? ==> r.input == f.input.(imageFile := e.file)
  {
    var input :=
      match e
      case Typed(RestaurantName, v) => f.input.(restaurantName := v)
      case Typed(City, v) => f.input.(city := v)
      case Typed(Country, v) => f.input.(country := v)
      case DeliveryTyped(v) => f.input.(deliveryTime := toNumber(v))
      case CuisinesTyped(t) => f.input.(cuisines := ParseCuisines(t))
      case FileChosen(file) => f.input.(imageFile := file);
    f.(input := input)
  }

  /** The state after a submit, and the input the timer will store, if a
      timer was started. */
  datatype Submitted = Submitted(form: Form, timer: Option<Input>)

  /** `submitHandler`: invalid input replaces the errors and starts nothing;
      valid input turns loading on and starts a timer carrying a copy of the
      input as it is now. */
  function Submit(f: Form, validate: Validation): (r: Submitted)
    ensures r.form.input == f.input && r.form.restaurant == f.restaurant
    ensures r.timer.Some? <==> validate(f.input).Valid?
    ensures r.timer.Some? ==> r.timer.value == f.input && r.form.loading && r.form.errors == f.errors
    ensures r.timer.None? ==> r.form.errors == validate(f.input).fieldErrors && r.form.loading == f.loading
  {
    match validate(f.input)
    case Invalid(errs) => Submitted(f.(errors := errs), None)
    case Valid => Submitted(f.(loading := true), Some(f.input))
  }

  /** The timer callback: the copy becomes the current restaurant. */
  function Settle(f: Form, copy: Input): (r: Form)
    ensures r.restaurant == Some(copy) && !r.loading
    ensures r.input == f.input && r.errors == f.errors
  {
    f.(restaurant := Some(copy), loading := false)
  }

  /** The demo record the page loads half a second after mounting. */
  const Demo := Input("Demo Diner", "Dhaka", "Bangladesh", 30, ["Momos", "Biryani"], None)

  /** The mount effect's timer: the demo becomes both the current restaurant
      and the input. */
  function LoadDemo(f: Form): (r: Form)
    ensures r.restaurant == Some(Demo) && r.input == Demo
    ensures r.errors == f.errors && r.loading == f.loading
  {
    f.(restaurant := Some(Demo), input := Demo)
  }

  const PleaseWait := "Please wait"
  const UpdateLabel := "Update Your Restaurant"
  const AddLabel := "Add Your Restaurant"

  /** The submit button's text. */
  function ButtonLabel(f: Form): (caption: string)
    ensures f.loading ==> caption == PleaseWait
    ensures !f.loading ==> (caption == UpdateLabel <==> f.restaurant.Some?)
    ensures !f.loading ==> (caption == AddLabel <==> f.restaurant.None?)
  {
    if f.loading then PleaseWait
    else if f.restaurant.Some? then UpdateLabel
    else AddLabel
  }

  /** The text field shows the list joined by commas; for a non-empty list of
      trimmed, comma-free names, reading that text back gives the same
      list. */
  lemma {:induction false} CuisinesRoundTrip(cuisines: seq<string>)
    requires |cuisines| > 0
    requires forall i :: 0 <= i < |cuisines| ==> ',' !in cuisines[i] && Trim(cuisines[i]) == cuisines[i]
    ensures ParseCuisines(ShowCuisines(cuisines)) == cuisines
  {
    SplitJoin(cuisines, ',');
  }

  /** The empty list shows as empty text, which reads back as one empty
      name. */
  lemma EmptyCuisinesDoNotRoundTrip()
    ensures ShowCuisines([]) == ""
    ensures ParseCuisines(ShowCuisines([])) == [""]
  {
  }

  /** Edits made while the timer runs do not reach the stored copy: it is the
      input as it was at submit time. */
  lemma StoredCopyIsSubmitTimeInput(f: Form, validate: Validation, e: Event, toNumber: string -> int)
    requires validate(f.input).Valid?
    ensures var s := Submit(f, validate);
      var later := Change(s.form, e, toNumber);
      Settle(later, s.timer.value).restaurant == Some(f.input)
      && ButtonLabel(Settle(later, s.timer.value)) == UpdateLabel
  {
  }
}
