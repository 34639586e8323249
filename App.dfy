/** The route table and its guard. A route pattern matches a pathname the
    way the router compiles it: the pattern's text, compared without regard
    to ASCII case, followed by any number of `/`; `:id` stands for one
    non-empty segment without `/`. Paths other than the listed ones redirect
    home. */
module App {
  import opened Wrappers
  import opened Text
  import Auth
  import Login

  datatype Page =
    | HomePage | CartPage | LoginPage | OrderSuccessPage | TrackPage | SignupPage
    | ProductDetailsPage(id: string) | CheckoutPage | ProfilePage

  /** What a route renders: a page, or a `<Navigate>` with its state and `replace` flag. */
  datatype Element = Render(page: Page) | Redirect(to: string, from: Option<string>, replace: bool)

  const LOGIN_PATH := "/login"
  const PRODUCT_PREFIX := "/product/"

  /** The pages wrapped in `ProtectedRoute`. */
  predicate IsProtected(p: Page) {
    p == CheckoutPage || p == ProfilePage
  }

  /** The pathname with its trailing `/`s removed. */
  function TrimTrailingSlashes(path: string): (r: string)
    ensures r <= path
    ensures r == [] || r[|r| - 1] != '/'
    ensures forall i :: |r| <= i < |path| ==> path[i] == '/'
  {
    if path == [] || path[|path| - 1] != '/' then path
    else TrimTrailingSlashes(path[..|path| - 1])
  }

  /** The page whose pattern matches the pathname, if any. */
  function RouteFor(path: string): (r: Option<Page>)
    ensures r == Some(HomePage) <==> path != [] && TrimTrailingSlashes(path) == []
    ensures r == Some(CheckoutPage) <==> ToLower(TrimTrailingSlashes(path)) == "/checkout"
    ensures r == Some(ProfilePage) <==> ToLower(TrimTrailingSlashes(path)) == "/profile"
  {
    var t := TrimTrailingSlashes(path);
    var key := ToLower(t);
    if path != [] && t == [] then Some(HomePage)
    else if key == "/cart" then Some(CartPage)
    else if key == "/login" then Some(LoginPage)
    else if key == "/order-success" then Some(OrderSuccessPage)
    else if key == "/track" then Some(TrackPage)
    else if key == "/signup" then Some(SignupPage)
    else if key == "/checkout" then Some(CheckoutPage)
    else if key == "/profile" then Some(ProfilePage)
    else if |t| > |PRODUCT_PREFIX| && ToLower(t[..|PRODUCT_PREFIX|]) == PRODUCT_PREFIX && '/' !in t[|PRODUCT_PREFIX|..] then
      Some(ProductDetailsPage(t[|PRODUCT_PREFIX|..]))
    else None
  }

  /** `ProtectedRoute`: without a user, go to the login page carrying the
      current pathname and replacing the history entry; with one, render the
      wrapped page. */
  function ProtectedRoute(user: Option<Auth.Profile>, pathname: string, page: Page): (e: Element)
    ensures user.None? ==> e == Redirect(LOGIN_PATH, Some(pathname), true)
    ensures user.Some? ==> e == Render(page)
  {
    if user.None? then Redirect(LOGIN_PATH, Some(pathname), true) else Render(page)
  }

  /** The element the route table yields for a pathname; the catch-all
      redirects home with `replace`. */
  function Resolve(user: Option<Auth.Profile>, path: string): (e: Element)
    ensures RouteFor(path).None? ==> e == Redirect("/", None, true)
    ensures RouteFor(path).Some? && !IsProtected(RouteFor(path).value) ==> e == Render(RouteFor(path).value)
    ensures RouteFor(path).Some? && IsProtected(RouteFor(path).value) ==> e == ProtectedRoute(user, path, RouteFor(path).value)
  {
    match RouteFor(path)
    case None => Redirect("/", None, true)
    case Some(p) => if IsProtected(p) then ProtectedRoute(user, path, p) else Render(p)
  }

  /** Exactly `/checkout` and `/profile` (in any ASCII case, with any number
      of trailing `/`) send a visitor without a session to the login page. */
  lemma GuardedIff(path: string)
    ensures Resolve(None, path).Redirect? && Resolve(None, path).to == LOGIN_PATH
        <==> ToLower(TrimTrailingSlashes(path)) in {"/checkout", "/profile"}
  {
  }

  /** With a session, a protected page renders unchanged. */
  lemma SignedInSeesProtected(u: Auth.Profile, path: string)
    requires RouteFor(path).Some? && IsProtected(RouteFor(path).value)
    ensures Resolve(Some(u), path) == Render(RouteFor(path).value)
  {
  }

  /** Every other route ignores the session. */
  lemma PublicRoutesIgnoreSession(u: Option<Auth.Profile>, v: Option<Auth.Profile>, path: string)
    requires RouteFor(path).None? || !IsProtected(RouteFor(path).value)
    ensures Resolve(u, path) == Resolve(v, path)
  {
  }

  /** A trailing `/` never changes the route. */
  lemma {:induction false} TrailingSlashIgnored(path: string)
    requires path != []
    ensures RouteFor(path + "/") == RouteFor(path)
  {
    assert (path + "/")[..|path|] == path;
  }

  /** The public paths as written in the table. */
  lemma PublicTable()
    ensures RouteFor("/") == Some(HomePage)
    ensures RouteFor("/cart") == Some(CartPage)
    ensures RouteFor("/login") == Some(LoginPage)
    ensures RouteFor("/order-success") == Some(OrderSuccessPage)
    ensures RouteFor("/track") == Some(TrackPage)
    ensures RouteFor("/signup") == Some(SignupPage)
  {
  }

  /** `/product/:id` matches one non-empty segment and passes it on as the id. */
  lemma ProductRoute(id: string)
    requires id != [] && '/' !in id
    ensures RouteFor(PRODUCT_PREFIX + id) == Some(ProductDetailsPage(id))
  {
    var p := PRODUCT_PREFIX + id;
    assert p[..|PRODUCT_PREFIX|] == PRODUCT_PREFIX;
    assert p[|PRODUCT_PREFIX|..] == id;
    assert TrimTrailingSlashes(p) == p;
    assert ToLower(PRODUCT_PREFIX) == PRODUCT_PREFIX;
    var key := ToLower(p);
    assert key[1] == 'p';
    assert key != "/cart" && key != "/login" && key != "/order-success" && key != "/track" && key != "/signup";
    assert key != "/checkout" && key != "/profile";
  }

  /** A visitor turned away from a protected page and then logged in is
      sent back to the very pathname that was refused. */
  lemma LoginReturnsToRefusedPage(path: string)
    requires RouteFor(path).Some? && IsProtected(RouteFor(path).value)
    ensures Resolve(None, path).Redirect?
    ensures RouteFor(Resolve(None, path).to) == Some(LoginPage)
    ensures Login.ReturnTarget(Resolve(None, path).from) == path
  {
    assert TrimTrailingSlashes(LOGIN_PATH) == LOGIN_PATH;
  }
}
