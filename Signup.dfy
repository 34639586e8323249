/** The signup page: a four-field form that registers its contents only
    when every field is filled in, and then moves to the login page. */
module Signup {
  import opened Wrappers
  import opened Auth

  datatype FormField = NameField | EmailField | PhoneField | AddressField

  const EMPTY_PROFILE := Profile("", "", "", "")
  const LOGIN_PATH := "/login"

  function FieldValue(p: Profile, f: FormField): string {
    match f
    case NameField => p.name
    case EmailField => p.email
    case PhoneField => p.phone
    case AddressField => p.address
  }

  /** `setForm({ ...form, [field]: value })` */
  function WithFieldValue(p: Profile, f: FormField, v: string): (q: Profile)
    ensures FieldValue(q, f) == v
    ensures forall g :: g != f ==> FieldValue(q, g) == FieldValue(p, g)
  {
    match f
    case NameField => p.(name := v)
    case EmailField => p.(email := v)
    case PhoneField => p.(phone := v)
    case AddressField => p.(address := v)
  }

  /** The guard `!form.name || !form.email || !form.phone || !form.address`:
      an empty string is falsy. */
  predicate HasBlankField(p: Profile) {
    p.name == "" || p.email == "" || p.phone == "" || p.address == ""
  }

  lemma HasBlankFieldIff(p: Profile)
    ensures HasBlankField(p) <==> exists f :: FieldValue(p, f) == ""
  {
    if HasBlankField(p) {
      if p.name == "" { assert FieldValue(p, NameField) == ""; }
      else if p.email == "" { assert FieldValue(p, EmailField) == ""; }
      else if p.phone == "" { assert FieldValue(p, PhoneField) == ""; }
      else { assert FieldValue(p, AddressField) == ""; }
    }
  }

  class SignupPage {
    var form: Profile

    constructor()
      ensures form == EMPTY_PROFILE
    {
      form := EMPTY_PROFILE;
    }

    /** An input's `onChange`: only that field changes. */
    method Edit(f: FormField, v: string)
      modifies this
      ensures form == WithFieldValue(old(form), f, v)
    {
      form := WithFieldValue(form, f, v);
    }

    /** `handleSubmit`: with a blank field nothing is registered and the page
        stays; otherwise the form is registered and the page navigates to
        the login path. */
    method HandleSubmit(auth: AuthProvider) returns (navigateTo: Option<string>)
      requires auth.Valid()
      modifies auth
      ensures auth.Valid()
      ensures form == old(form)
      ensures HasBlankField(form) ==> navigateTo == None && auth.storage == old(auth.storage) && auth.user == old(auth.user)
      ensures !HasBlankField(form) ==> navigateTo == Some(LOGIN_PATH) && auth.storage == old(auth.storage)[REGISTERED_KEY := form] && auth.user == old(auth.user)
    {
      if HasBlankField(form) {
        return None;
      }
      auth.Signup(form);
      return Some(LOGIN_PATH);
    }
  }

  /** The untouched form cannot be submitted. */
  lemma EmptyFormRefused()
    ensures HasBlankField(EMPTY_PROFILE)
  {
  }
}
