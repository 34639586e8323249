/** The standalone card payment form. Unlike the checkout page it checks
    every field and reports all violations together, allows a 4-digit CVV
    and requires a holder name. */
module PaymentForm {
  import opened Wrappers
  import opened Text
  import opened Patterns

  /** The option label that selects card payment. */
  const CARD_METHOD := "Credit / Debit Card"

  datatype FormData = FormData(cardNumber: string, ifsc: string, holder: string, expiry: string, cvv: string)

  /** The `name` attributes of the five inputs, also the keys of the error map. */
  datatype Field = CardNumberField | IfscField | HolderField | ExpiryField | CvvField

  const EMPTY_FORM := FormData("", "", "", "", "")

  function ValueOf(d: FormData, f: Field): string {
    match f
    case CardNumberField => d.cardNumber
    case IfscField => d.ifsc
    case HolderField => d.holder
    case ExpiryField => d.expiry
    case CvvField => d.cvv
  }

  /** `setFormData({ ...formData, [name]: value })` */
  function WithValue(d: FormData, f: Field, v: string): (e: FormData)
    ensures ValueOf(e, f) == v
    ensures forall g :: g != f ==> ValueOf(e, g) == ValueOf(d, g)
  {
    match f
    case CardNumberField => d.(cardNumber := v)
    case IfscField => d.(ifsc := v)
    case HolderField => d.(holder := v)
    case ExpiryField => d.(expiry := v)
    case CvvField => d.(cvv := v)
  }

  /** The holder rule: fewer than three UTF-16 code units once trimmed. */
  predicate HolderTooShort(v: string) {
    Utf16Length(Trim(v)) < 3
  }

  /** The rule each field must satisfy; the expiry has none. */
  predicate Violates(f: Field, v: string) {
    match f
    case CardNumberField => !IsCardNumber(v)
    case IfscField => !IsIfsc(v)
    case CvvField => !IsCvv3or4(v)
    case HolderField => HolderTooShort(v)
    case ExpiryField => false
  }

  /** The fields `validate` checks: all but the expiry. */
  const CHECKED: set<Field> := {CardNumberField, IfscField, CvvField, HolderField}

  function Message(f: Field): string {
    match f
    case CardNumberField => "Card number must be 16 digits."
    case IfscField => "Invalid IFSC code (e.g., SBIN0001234)."
    case CvvField => "CVV must be 3 or 4 digits."
    case HolderField => "Enter a valid account holder name."
    case ExpiryField => ""
  }

  /** The error map `validate` produces: for the card method, one message
      per violated field; for any other method, nothing. */
  function Errors(choice: string, d: FormData): (e: map<Field, string>)
    ensures choice != CARD_METHOD ==> e == map[]
    ensures choice == CARD_METHOD ==> (CardNumberField in e <==> !IsCardNumber(d.cardNumber))
    ensures choice == CARD_METHOD ==> (IfscField in e <==> !IsIfsc(d.ifsc))
    ensures choice == CARD_METHOD ==> (CvvField in e <==> !IsCvv3or4(d.cvv))
    ensures choice == CARD_METHOD ==> (HolderField in e <==> Utf16Length(Trim(d.holder)) < 3)
    ensures ExpiryField !in e
    ensures forall f :: f in e ==> e[f] == Message(f)
  {
    if choice != CARD_METHOD then map[]
    else map f | f in CHECKED && Violates(f, ValueOf(d, f)) :: Message(f)
  }

  /** `e` reports field `f` correctly: it holds the field's message exactly
      when the field's value breaks the field's rule. */
  predicate Agrees(e: map<Field, string>, d: FormData, f: Field) {
    && (f in e <==> Violates(f, ValueOf(d, f)))
    && (f in e ==> e[f] == Message(f))
  }

  /** The error map is the only map that, for the card method, reports each
      checked field correctly and says nothing about the expiry, and for any
      other method is empty. */
  lemma ErrorsDetermined(choice: string, d: FormData, e: map<Field, string>)
    requires choice != CARD_METHOD ==> e == map[]
    requires choice == CARD_METHOD ==>
               && Agrees(e, d, CardNumberField) && Agrees(e, d, IfscField)
               && Agrees(e, d, CvvField) && Agrees(e, d, HolderField)
               && ExpiryField !in e
    ensures e == Errors(choice, d)
  {
    var r := Errors(choice, d);
    if choice == CARD_METHOD {
      forall f: Field
        ensures f in e <==> f in r
        ensures f in e ==> e[f] == r[f]
      {
        ErrorIffViolated(choice, d, f);
        match f
        case CardNumberField =>
        case IfscField =>
        case HolderField =>
        case ExpiryField =>
        case CvvField =>
      }
      assert e.Keys == r.Keys;
    }
  }

  /** All violations are reported together: for the card method a field
      has an error exactly when its own value breaks its own rule. */
  lemma ErrorIffViolated(choice: string, d: FormData, f: Field)
    ensures f in Errors(choice, d) <==> choice == CARD_METHOD && Violates(f, ValueOf(d, f))
  {
  }

  /** Hence whether a field has an error depends on that field's value alone. */
  lemma ErrorDependsOnlyOnItsField(choice: string, d1: FormData, d2: FormData, f: Field)
    requires ValueOf(d1, f) == ValueOf(d2, f)
    ensures f in Errors(choice, d1) <==> f in Errors(choice, d2)
  {
    ErrorIffViolated(choice, d1, f);
    ErrorIffViolated(choice, d2, f);
  }

  /** The expiry never affects validation. */
  lemma ExpiryIgnored(choice: string, d: FormData, x: string)
    ensures Errors(choice, d.(expiry := x)) == Errors(choice, d)
  {
    var d2 := d.(expiry := x);
    var e := Errors(choice, d);
    if choice == CARD_METHOD {
      ErrorIffViolated(choice, d, CardNumberField);
      ErrorIffViolated(choice, d, IfscField);
      ErrorIffViolated(choice, d, CvvField);
      ErrorIffViolated(choice, d, HolderField);
    }
    ErrorsDetermined(choice, d2, e);
  }

  /** The sample holder name is long enough. */
  lemma SampleHolderAccepted()
    ensures !Violates(HolderField, "Jane Doe")
  {
    var h := "Jane Doe";
    assert LeadingWhiteSpace(h) == 0;
    assert TrailingWhiteSpace(h) == 0;
    assert Trim(h) == h;
  }

  /** A sample valid card passes. */
  lemma ValidCardExample()
    ensures Errors(CARD_METHOD, FormData("1234567890123456", "SBIN0001234", "Jane Doe", "2030-01", "123")) == map[]
  {
    var d := FormData("1234567890123456", "SBIN0001234", "Jane Doe", "2030-01", "123");
    assert IsCardNumber(d.cardNumber) && IsIfsc(d.ifsc) by { Examples(); }
    assert IsCvv3or4(d.cvv) by { assert AllDigits(d.cvv); }
    SampleHolderAccepted();
    forall f: Field ensures !Violates(f, ValueOf(d, f)) {
      match f
      case CardNumberField =>
      case IfscField =>
      case HolderField =>
      case ExpiryField =>
      case CvvField =>
    }
    ErrorsDetermined(CARD_METHOD, d, map[]);
  }

  /** The holder rule measures `length` in UTF-16 code units: two
      mathematical capitals, each above U+FFFF, are long enough. */
  lemma HolderCountsCodeUnits()
    ensures |"\U{1D400}\U{1D401}"| == 2
    ensures !Violates(HolderField, "\U{1D400}\U{1D401}")
  {
    var h := "\U{1D400}\U{1D401}";
    assert LeadingWhiteSpace(h) == 0;
    assert TrailingWhiteSpace(h) == 0;
    assert Trim(h) == h;
    assert Utf16Length(h[1..][1..]) == 0;
  }

  /** The holder rule trims first, so white-space padding never changes its verdict. */
  lemma HolderVerdictIgnoresPadding(v: string)
    ensures Violates(HolderField, Trim(v)) <==> Violates(HolderField, v)
  {
    TrimIdempotent(v);
  }

  class PaymentFormState {
    var choice: string
    var formData: FormData
    var errors: map<Field, string>

    constructor()
      ensures choice == "" && formData == EMPTY_FORM && errors == map[]
    {
      choice := "";
      formData := EMPTY_FORM;
      errors := map[];
    }

    /** The method selector's `onChange`; the entered data and errors stay. */
    method SelectMethod(m: string)
      modifies this
      ensures choice == m && formData == old(formData) && errors == old(errors)
    {
      choice := m;
    }

    /** `handleChange`: only the named field changes. */
    method HandleChange(name: Field, value: string)
      modifies this
      ensures formData == WithValue(old(formData), name, value)
      ensures choice == old(choice) && errors == old(errors)
    {
      formData := WithValue(formData, name, value);
    }

    /** `validate`: builds the error map one rule at a time, replaces the
        previous errors with it, and succeeds iff it is empty. */
    method Validate() returns (ok: bool)
      modifies this
      ensures errors == Errors(choice, formData)
      ensures ok <==> errors == map[]
      ensures choice == old(choice) && formData == old(formData)
    {
      var d := formData;
      var newErrors: map<Field, string> := map[];
      if choice == CARD_METHOD {
        if !IsCardNumber(d.cardNumber) {
          newErrors := newErrors[CardNumberField := Message(CardNumberField)];
        }
        assert Agrees(newErrors, d, CardNumberField);
        if !IsIfsc(d.ifsc) {
          newErrors := newErrors[IfscField := Message(IfscField)];
        }
        assert Agrees(newErrors, d, IfscField);
        if !IsCvv3or4(d.cvv) {
          newErrors := newErrors[CvvField := Message(CvvField)];
        }
        assert Agrees(newErrors, d, CvvField);
        if HolderTooShort(d.holder) {
          newErrors := newErrors[HolderField := Message(HolderField)];
        }
      }
      ErrorsDetermined(choice, d, newErrors);
      errors := newErrors;
      ok := |errors| == 0;
    }

    /** `handleSubmit`: the form data goes to `onPlaceOrder` iff validation passes. */
    method HandleSubmit() returns (placed: Option<FormData>)
      modifies this
      ensures errors == Errors(choice, formData)
      ensures placed == if errors == map[] then Some(formData) else None
      ensures choice == old(choice) && formData == old(formData)
    {
      var ok := Validate();
      placed := if ok then Some(formData) else None;
    }
  }
}
