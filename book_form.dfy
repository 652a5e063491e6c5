/**
 * The book form (components/BookForm.jsx): per-field validation rules, the
 * whole-form check that fills the error map, the touched set that decides
 * which messages are shown, and the change and submit handlers. The draft
 * itself belongs to the page; the form receives it and returns updated drafts.
 */
module BookForm {
  import opened Common

  /** One entry of a draft: absent (null/undefined), a string, or a number. */
  datatype FieldValue = Missing | Text(s: string) | Num(n: real)

  /** A draft object, keyed by field name. */
  type FormValue = map<string, FieldValue>

  // ---------------------------------------------------------------------------
  // JavaScript coercions the rules rely on
  // ---------------------------------------------------------------------------

  /** `!!val`: absent, the empty string and zero are falsy. */
  predicate Truthy(v: FieldValue) {
    match v
    case Missing => false
    case Text(s) => s != ""
    case Num(n) => n != 0.0
  }

  /** `val === null || val === undefined || val === ""` */
  predicate Blank(v: FieldValue) {
    v.Missing? || v == Text("")
  }

  /** `val.length < 2`; a number has no length and `undefined < 2` is false. */
  predicate TooShort(v: FieldValue) {
    v.Text? && |v.s| < 2
  }

  /** `val < 0`; a non-empty string is compared as a non-number, which is never below zero. */
  predicate BelowZero(v: FieldValue) {
    v.Num? && v.n < 0.0
  }

  /** `Number.isInteger(Number(val))` for a value that is not blank. */
  predicate WholeNumber(v: FieldValue) {
    v.Num? && v.n.Floor as real == v.n
  }

  // ---------------------------------------------------------------------------
  // validateField
  // ---------------------------------------------------------------------------

  /** The message for one field, or "" when the value passes; unknown field names always pass. */
  function ValidateField(name: string, v: FieldValue): (msg: string)
    ensures name != "title" && name != "author" && name != "price" && name != "qty" ==> msg == ""
  {
    if name == "title" then
      if !Truthy(v) then "Title is required"
      else if TooShort(v) then "Title must be at least 2 characters"
      else ""
    else if name == "author" then
      if !Truthy(v) then "Author is required"
      else if TooShort(v) then "Author must be at least 2 characters"
      else ""
    else if name == "price" then
      if Blank(v) then "Price is required"
      else if BelowZero(v) then "Price must be 0 or greater"
      else ""
    else if name == "qty" then
      if Blank(v) then "Quantity is required"
      else if BelowZero(v) then "Quantity must be 0 or greater"
      else if !WholeNumber(v) then "Quantity must be a whole number"
      else ""
    else ""
  }

  /** What each field accepts, stated value kind by value kind. */
  predicate FieldOk(name: string, v: FieldValue) {
    if name == "title" || name == "author" then
      match v
      case Missing => false
      case Text(s) => |s| >= 2
      case Num(n) => n != 0.0
    else if name == "price" then
      match v
      case Missing => false
      case Text(s) => s != ""
      case Num(n) => n >= 0.0
    else if name == "qty" then
      v.Num? && v.n >= 0.0 && v.n.Floor as real == v.n
    else true
  }

  /** A field passes exactly when its value is of a kind the field accepts. */
  lemma ValidateFieldAccepts(name: string, v: FieldValue)
    ensures ValidateField(name, v) == "" <==> FieldOk(name, v)
  {
  }

  /**
   * The rules are checked in order and the first failing one speaks: a value
   * that is both negative and fractional is reported as negative, and a zero
   * price is accepted although zero is falsy.
   */
  lemma RuleOrder()
    ensures ValidateField("qty", Num(-1.5)) == "Quantity must be 0 or greater"
    ensures ValidateField("qty", Num(2.5)) == "Quantity must be a whole number"
    ensures ValidateField("price", Num(0.0)) == ""
    ensures ValidateField("title", Text("A")) == "Title must be at least 2 characters"
    ensures ValidateField("title", Num(0.0)) == "Title is required"
  {
  }

  // ---------------------------------------------------------------------------
  // validateForm
  // ---------------------------------------------------------------------------

  /** The error map built from the keys in `done`: one entry per failing field. */
  function ErrorsOver(value: FormValue, done: set<string>): map<string, string> {
    map key | key in done && key in value && ValidateField(key, value[key]) != "" :: ValidateField(key, value[key])
  }

  /** `newErrors` after every key of the draft has been visited. */
  function FormErrors(value: FormValue): map<string, string> {
    ErrorsOver(value, value.Keys)
  }

  /** Every field of the draft passes its rule. */
  predicate FormIsValid(value: FormValue) {
    forall key :: key in value ==> ValidateField(key, value[key]) == ""
  }

  /** The error map is empty exactly when the draft is valid. */
  lemma NoErrorsIffValid(value: FormValue)
    ensures |FormErrors(value)| == 0 <==> FormIsValid(value)
  {
    var errors := FormErrors(value);
    if !FormIsValid(value) {
      var key :| key in value && ValidateField(key, value[key]) != "";
      assert key in errors.Keys;
      assert |errors.Keys| > 0;
    } else {
      assert errors.Keys == {};
    }
  }

  /** Visiting one more key adds that key's message, if it has one. */
  lemma ErrorsOverStep(value: FormValue, done: set<string>, key: string)
    requires key in value && key !in done
    ensures ValidateField(key, value[key]) != "" ==>
              ErrorsOver(value, done + {key}) == ErrorsOver(value, done)[key := ValidateField(key, value[key])]
    ensures ValidateField(key, value[key]) == "" ==>
              ErrorsOver(value, done + {key}) == ErrorsOver(value, done)
  {
  }

  /** The `Object.keys(value).forEach` loop of `validateForm`. */
  method CollectErrors(value: FormValue) returns (newErrors: map<string, string>)
    ensures newErrors == FormErrors(value)
    ensures |newErrors| == 0 <==> FormIsValid(value)
  {
    newErrors := map[];
    var pending := value.Keys;
    while pending != {}
      invariant pending <= value.Keys
      invariant newErrors == ErrorsOver(value, value.Keys - pending)
      decreases |pending|
    {
      var key :| key in pending;
      var error := ValidateField(key, value[key]);
      ErrorsOverStep(value, value.Keys - pending, key);
      assert value.Keys - (pending - {key}) == (value.Keys - pending) + {key};
      if error != "" {
        newErrors := newErrors[key := error];
      }
      pending := pending - {key};
    }
    assert value.Keys - pending == value.Keys;
    NoErrorsIffValid(value);
  }

  // ---------------------------------------------------------------------------
  // handleChange
  // ---------------------------------------------------------------------------

  /**
   * A change event: a text input delivers its string; a number input delivers
   * the number typed, or nothing when it is empty or unreadable, which
   * `Number("")` turns into 0.
   */
  datatype InputEvent = TextInput(text: string) | NumberInput(entered: Option<real>)

  /** The value `handleChange` stores for an event. */
  function EventValue(ev: InputEvent): (v: FieldValue)
    ensures ev.NumberInput? ==> v.Num?
  {
    match ev
    case TextInput(t) => Text(t)
    case NumberInput(None) => Num(0.0)
    case NumberInput(Some(x)) => Num(x)
  }

  /** `{ ...value, [name]: val }`: the named field takes the event's value, every other field is kept. */
  function HandleChange(value: FormValue, name: string, ev: InputEvent): (r: FormValue)
    ensures r.Keys == value.Keys + {name}
    ensures r[name] == EventValue(ev)
    ensures forall key :: key in value && key != name ==> r[key] == value[key]
  {
    value[name := EventValue(ev)]
  }

  /**
   * Because a cleared number input is stored as 0, a price or quantity edited
   * through its input never shows the "required" message, and clearing it
   * yields a valid 0.
   */
  lemma NumberInputsAreNeverBlank(value: FormValue, name: string, ev: InputEvent)
    requires ev.NumberInput?
    ensures ValidateField(name, HandleChange(value, name, ev)[name]) != "Price is required"
    ensures ValidateField(name, HandleChange(value, name, ev)[name]) != "Quantity is required"
    ensures ev.entered.None? ==> ValidateField(name, HandleChange(value, name, ev)[name]) == (if name == "title" then "Title is required" else if name == "author" then "Author is required" else "")
  {
  }

  // ---------------------------------------------------------------------------
  // Drafts the pages hand to the form
  // ---------------------------------------------------------------------------

  /** The blank draft of the add page. */
  const EmptyDraft: FormValue := map["title" := Text(""), "author" := Text(""), "price" := Num(0.0), "qty" := Num(0.0)]

  /** The draft the edit page builds from a loaded book. */
  function DraftOf(b: Book): (d: FormValue)
    ensures d.Keys == {"title", "author", "price", "qty"}
  {
    map["title" := Text(b.title), "author" := Text(b.author), "price" := Num(b.price), "qty" := Num(b.qty as real)]
  }

  /** A loaded book's draft is valid exactly when the book has a title and an author of two or more characters and no negative price or quantity. */
  lemma DraftOfValid(b: Book)
    ensures FormIsValid(DraftOf(b)) <==> |b.title| >= 2 && |b.author| >= 2 && b.price >= 0.0 && b.qty >= 0
  {
    var d := DraftOf(b);
    assert d["title"] == Text(b.title) && d["author"] == Text(b.author);
    assert d["price"] == Num(b.price) && d["qty"] == Num(b.qty as real);
    assert (b.qty as real).Floor == b.qty;
  }

  /** The blank draft fails on title and author only. */
  lemma EmptyDraftErrors()
    ensures FormErrors(EmptyDraft) == map["title" := "Title is required", "author" := "Author is required"]
    ensures !FormIsValid(EmptyDraft)
  {
    assert EmptyDraft["title"] == Text("");
  }

  /** A one-letter title and a negative price are both reported; the rest passes. */
  lemma NegativePriceDraft()
    ensures var d := map["title" := Text("A"), "author" := Text("B"), "price" := Num(-1.0), "qty" := Num(0.0)];
            FormErrors(d) == map["title" := "Title must be at least 2 characters",
                                 "author" := "Author must be at least 2 characters",
                                 "price" := "Price must be 0 or greater"]
  {
  }

  // ---------------------------------------------------------------------------
  // The form's own state
  // ---------------------------------------------------------------------------

  /** The `errors` and `touched` state of the form. */
  class FormState {
    var errors: map<string, string>
    var touched: set<string>

    constructor()
      ensures errors == map[] && touched == {}
    {
      errors := map[];
      touched := {};
    }

    /** A field's message is on screen once the field has been left and it has a message. */
    predicate ShowsError(name: string)
      reads this
    {
      name in touched && name in errors && errors[name] != ""
    }

    /** `validateForm`: recomputes the error map and reports whether it is empty. */
    method ValidateForm(value: FormValue) returns (isValid: bool)
      modifies this
      ensures errors == FormErrors(value) && touched == old(touched)
      ensures isValid <==> FormIsValid(value)
      ensures forall name :: ShowsError(name) <==> name in touched && name in value && ValidateField(name, value[name]) != ""
    {
      var newErrors := CollectErrors(value);
      errors := newErrors;
      isValid := |newErrors| == 0;
    }

    /** `handleBlur(name)`: the field is marked touched. */
    method HandleBlur(name: string)
      modifies this
      ensures touched == old(touched) + {name} && errors == old(errors)
      ensures name in errors && errors[name] != "" ==> ShowsError(name)
    {
      touched := touched + {name};
    }
  }

  /** `handleSubmit`: the draft goes to the page only when the form is valid. */
  method HandleSubmit(value: FormValue, valid: bool) returns (submitted: Option<FormValue>)
    ensures submitted.Some? <==> valid
    ensures submitted.Some? ==> submitted.value == value
  {
    if valid {
      submitted := Some(value);
    } else {
      submitted := None;
    }
  }
}
