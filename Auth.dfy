/** The mock authentication session: one registered profile kept in local
    storage, and a current user who logs in by giving the registered email.
    There is no password; this is not a security boundary. */
module Auth {
  import opened Wrappers

  datatype Profile = Profile(name: string, email: string, phone: string, address: string)

  const USER_KEY := "user"
  const REGISTERED_KEY := "registeredUser"

  /** The stored `"user"` record if there is one. */
  function StoredUser(storage: map<string, Profile>): (u: Option<Profile>)
    ensures u.Some? <==> USER_KEY in storage
    ensures u.Some? ==> u.value == storage[USER_KEY]
  {
    if USER_KEY in storage then Some(storage[USER_KEY]) else None
  }

  datatype Result<T, E> = Success(value: T) | Failure(error: E)

  /** Why a login is refused. */
  datatype LoginError = NoAccount | WrongEmail

  /** The outcome `login` decides from the stored registration: the
      registered profile when its email equals the given one exactly. */
  function LoginOutcome(registered: Option<Profile>, email: string): (r: Result<Profile, LoginError>)
    ensures r == Failure(NoAccount) <==> registered.None?
    ensures r.Success? <==> registered.Some? && registered.value.email == email
    ensures r.Success? ==> r.value == registered.value
  {
    match registered
    case None => Failure(NoAccount)
    case Some(p) => if p.email == email then Success(p) else Failure(WrongEmail)
  }

  /** The provider's state: the `user` state variable and the storage
      entries under `"user"` and `"registeredUser"` (JSON serialisation is
      not modelled; entries hold profiles). */
  class AuthProvider {
    var user: Option<Profile>
    var storage: map<string, Profile>

    /** The session and the stored `"user"` entry agree. */
    ghost predicate Valid()
      reads this
    {
      user == StoredUser(storage)
    }

    function Registered(): Option<Profile>
      reads this
    {
      if REGISTERED_KEY in storage then Some(storage[REGISTERED_KEY]) else None
    }

    /** The initial user is the stored `"user"` record, else none. */
    constructor(storage: map<string, Profile>)
      ensures Valid()
      ensures user == StoredUser(storage) && this.storage == storage
    {
      user := StoredUser(storage);
      this.storage := storage;
    }

    /** `signup`: the profile replaces any earlier registration; the session is untouched. */
    method Signup(profile: Profile)
      requires Valid()
      modifies this
      ensures Valid()
      ensures storage == old(storage)[REGISTERED_KEY := profile]
      ensures Registered() == Some(profile)
      ensures user == old(user)
    {
      storage := storage[REGISTERED_KEY := profile];
    }

    /** `login({ email })`: succeeds iff a profile is registered under exactly
        this email; then the whole registered profile becomes the user and is
        stored under `"user"`. A refusal changes nothing. */
    method Login(email: string) returns (success: bool)
      requires Valid()
      modifies this
      ensures Valid()
      ensures success <==> LoginOutcome(old(Registered()), email).Success?
      ensures success ==> user == old(Registered()) && storage == old(storage)[USER_KEY := old(Registered()).value]
      ensures !success ==> user == old(user) && storage == old(storage)
      ensures Registered() == old(Registered())
    {
      var outcome := LoginOutcome(Registered(), email);
      if outcome.Failure? {
        return false;
      }
      user := Some(outcome.value);
      storage := storage[USER_KEY := outcome.value];
      return true;
    }

    /** `logout`: no user, no stored `"user"`; the registration stays. */
    method Logout()
      requires Valid()
      modifies this
      ensures Valid()
      ensures user == None && storage == old(storage) - {USER_KEY}
      ensures Registered() == old(Registered())
    {
      user := None;
      storage := storage - {USER_KEY};
    }
  }

  /** The latest signup wins, and logging in with its email yields it. */
  method SignupThenLogin(p: Profile, q: Profile)
  {
    var auth := new AuthProvider(map[]);
    auth.Signup(p);
    auth.Signup(q);
    var ok := auth.Login(q.email);
    assert ok && auth.user == Some(q);
    auth.Logout();
    assert auth.user == None && auth.Registered() == Some(q);
  }
}
