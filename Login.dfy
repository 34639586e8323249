/** The login page: one email input; a successful login returns to the page
    that sent the visitor here, replacing the login entry in the history. */
module Login {
  import opened Wrappers
  import opened Auth

  const HOME := "/"

  /** A navigation request: the target path and whether it replaces the
      current history entry. */
  datatype Navigation = Navigation(to: string, replace: bool)

  /** `location.state?.from || "/"`: a missing or empty return path becomes
      the home page. */
  function ReturnTarget(from: Option<string>): (t: string)
    ensures t != ""
    ensures from.Some? && from.value != "" ==> t == from.value
    ensures from.None? || from.value == "" ==> t == HOME
  {
    if from.Some? && from.value != "" then from.value else HOME
  }

  class LoginPage {
    var email: string
    /** The return path carried in the navigation state. */
    const from: Option<string>

    constructor(from: Option<string>)
      ensures email == "" && this.from == from
    {
      email := "";
      this.from := from;
    }

    /** The email input's `onChange`. */
    method SetEmail(v: string)
      modifies this
      ensures email == v
    {
      email := v;
    }

    /** `handleLogin`: navigate to the return target, replacing history,
        exactly when the provider accepts the email. */
    method HandleLogin(auth: AuthProvider) returns (nav: Option<Navigation>)
      requires auth.Valid()
      modifies auth
      ensures auth.Valid()
      ensures nav.Some? <==> LoginOutcome(old(auth.Registered()), email).Success?
      ensures nav.Some? ==> nav.value == Navigation(ReturnTarget(from), true) && auth.user == old(auth.Registered())
      ensures nav.None? ==> auth.user == old(auth.user) && auth.storage == old(auth.storage)
    {
      var success := auth.Login(email);
      nav := if success then Some(Navigation(ReturnTarget(from), true)) else None;
    }
  }
}
