# Storefront core in Dafny

This project models the core of a small React storefront. The storefront lists
products from a catalogue, lets a visitor search, filter and sort them, keeps a
cart, and signs a visitor in with a mock local-storage account. Two pages guard
checkout: the address form, then the payment form. The parts modelled:

- **Checkout page** (`Checkout`): a state machine with three views: shipping
  address, payment, order placed. It has the address and payment handlers, the
  payment validator with its first-failure order, and the order it hands on.
- **Payment form** (`PaymentForm`): the standalone card form. Its validator
  collects every violated field into one error map.
- **Cart page** (`Cart`): the defaulting total (`price || 0` times
  `quantity || 0`) and the per-line display values.
- **Home page** (`Home`): the search / category / sort pipeline, the category
  list, and the settings kept in local storage.
- **Authentication** (`Auth`, `Signup`, `Login`): the auth context's `signup`,
  `login` and `logout`; the signup page's all-fields guard; the login page's
  return-to target.
- **Routing** (`App`): the route table, `ProtectedRoute`, and the catch-all
  redirect.
- **Navigation bar** (`Navbar`): the trimmed search, the URL it navigates to,
  the query kept in step with the location, the cart badge, and the mobile
  menu toggle.

Shared modules:

- `Text`: ECMAScript `String.prototype.trim`, ASCII case mapping, `includes`.
- `Patterns`: the payment regular expressions as character predicates. The UPI
  pattern is a small automaton, proved equal to the pattern's declarative
  reading.
- `Uri`: the two standard functions that carry a search from the bar to the
  home page:
  - `encodeURIComponent` as section 19.2.6.5 of ECMA-262 defines it, over the
    UTF-8 encoding of RFC 3629;
  - the `URLSearchParams` parser, which is the application/x-www-form-urlencoded
    parser of section 5.1 of the WHATWG URL Standard. It uses that standard's
    percent-decoding (section 1.3) and the UTF-8 decoder of section 8.1.1 of
    the WHATWG Encoding Standard.

  The search round trip is proved for every string: `?search=` followed by the
  encoded term is read back as exactly that term.

Several handlers change component state: the checkout page, the payment form,
the home page, the auth provider and the two account pages. Each is a `class`
whose fields are that state, and its methods are the handlers. The checkout
class keeps an invariant `Valid()`. It says four things:

- the payment step needs a complete address;
- only rendered detail keys are stored;
- a placed order has passed validation;
- a placed order leaves the cart empty.

A dispatcher `Handle` proves that an action with no handler on screen changes
nothing and that a placed order is final.

Prices and ratings are integers (cents, tenths). An absent `price`, `quantity`
or `title` is `None`. Network fetches, timers, `alert` and `Date` are left to
the caller. Where the fetch result matters, it is a parameter (`Home.HomePage.ProductsLoaded`).

Three details of the checkout page shape the model:

- The checkout CVV rule is exactly three digits (`src/pages/CheckoutPage.jsx:58`).
  The three-or-four-digit rule and the holder-name rule belong only to the
  standalone payment form.
- Checkout has one free-text address form and no address book.
- The checkout total does not default missing prices (`src/pages/CheckoutPage.jsx:22`).
  A missing price or quantity makes it `NaN`, modelled as `None`.

## Model

| member | source | states |
|---|---|---|
| Text.Trim | src/components/Navbar.jsx:23 | the result is the slice of `s` between a leading and a trailing run of ECMAScript white space and line terminators, and neither starts nor ends with one |
| Text.TrimPadded | src/components/Navbar.jsx:23 | trimming white-space padding around a core whose ends are not white space yields exactly that core |
| Text.TrimIdempotent | src/components/PaymentForm.jsx:32 | trimming twice is trimming once; the holder rule relies on it |
| Text.ToLowerIsLowerCase | src/pages/Home.jsx:19 | `toLowerCase` leaves no upper-case letter and is idempotent |
| Text.ToLower | src/pages/Home.jsx:19 | `toLowerCase` over ASCII: the same length, each character lower-cased on its own |
| Text.ToUpper | src/pages/CheckoutPage.jsx:179 | `toUpperCase` over ASCII: the same length, each character upper-cased on its own, leaving no lower-case letter |
| Text.Utf16Length | src/components/PaymentForm.jsx:32 | `length` counts UTF-16 code units: at least one and at most two per code point |
| Text.Utf16LengthIff | src/components/PaymentForm.jsx:32 | `length` equals the number of code points iff none lies above U+FFFF, in both directions |
| Text.IncludesIff | src/pages/Home.jsx:30-31 | `s.includes(t)` holds iff `t` occurs in `s` at some index, in both directions |
| Text.IncludesEmpty | src/pages/Home.jsx:30-31 | every string includes the empty string, so an empty search term would match every product |
| Patterns.IsUpiIdIff | src/pages/CheckoutPage.jsx:67 | the UPI automaton accepts `s` iff `s` is a non-empty `[\w.-]` run, one `@`, and a non-empty `[\w.-]` run |
| Patterns.IsCardNumber | src/pages/CheckoutPage.jsx:50 | `/^\d{16}$/` as a character predicate; an accepted number is never empty, so the presence test before it refuses nothing it would accept |
| Patterns.IsIfsc | src/pages/CheckoutPage.jsx:54 | `/^[A-Z]{4}0[A-Z0-9]{6}$/` as a character predicate; an accepted code is its own upper-casing |
| Patterns.IsCvv3 | src/pages/CheckoutPage.jsx:58 | `/^\d{3}$/` holds iff the payment form's `/^\d{3,4}$/` holds on a three-character string |
| Patterns.IsCvv3or4 | src/components/PaymentForm.jsx:29 | `/^\d{3,4}$/` as a character predicate; an accepted CVV is never empty |
| Patterns.IsUpiId | src/pages/CheckoutPage.jsx:67 | `/^[\w.-]+@[\w.-]+$/` as an automaton; it never accepts the empty string, so the `!upi` test refuses nothing it would accept |
| Patterns.Examples | src/pages/CheckoutPage.jsx:50-68 | sample inputs: `SBIN0001234` is an IFSC code and `ajay@upi` a UPI id, as the input placeholders suggest; `ajay` is not a UPI id, `BADCODE` not an IFSC code, `123` not a card number |
| Cart.Subtotal | src/pages/CartPage.jsx:59 | a line's subtotal is price times quantity, and 0 when either is absent |
| Cart.SubtotalAgreesWithDisplayedQuantity | src/pages/CartPage.jsx:46-59 | the subtotal shown for a line is its price times the quantity shown for it, and 0 when the quantity is absent |
| Cart.DisplayedTitle | src/pages/CartPage.jsx:34 | the shown title is never empty: the title when present and non-empty, else "Unnamed Product" |
| Cart.Subtotals | src/pages/CartPage.jsx:27-59 | one subtotal per cart line, in cart order |
| Cart.Total | src/pages/CartPage.jsx:10-13 | the left fold of the subtotals from 0; with non-negative prices and quantities it is non-negative |
| Cart.ShowsEmptyMessage | src/pages/CartPage.jsx:22-23 | "Your cart is empty" shows iff the cart has no lines, and then the total is 0 |
| Cart.TotalEmpty | src/pages/CartPage.jsx:10-13 | the empty cart totals 0 |
| Cart.TotalSingle | src/pages/CartPage.jsx:10-13 | a one-line cart totals that line's subtotal |
| Cart.TotalAppend | src/pages/CartPage.jsx:10-13 | the total of two carts joined is the sum of their totals |
| Cart.TotalIsSumOfSubtotals | src/pages/CartPage.jsx:10-13 | the total equals the sum of the displayed subtotals |
| Cart.IncompleteLineAddsNothing | src/pages/CartPage.jsx:11 | a line missing its price or quantity leaves the total unchanged wherever it sits |
| Checkout.WithField | src/pages/CheckoutPage.jsx:125-127 | editing one address field sets that field and keeps the other five |
| Checkout.AddressCompleteIff | src/pages/CheckoutPage.jsx:27 | the address is accepted iff none of the six fields is empty |
| Checkout.Stored | src/pages/CheckoutPage.jsx:170-220 | the IFSC input stores its text upper-cased, so the stored code has no lower-case letter and is its own upper-casing; every other input stores exactly what is typed |
| Checkout.LowerCaseIfscAccepted | src/pages/CheckoutPage.jsx:179 | a valid IFSC code typed in lower case is stored as the code itself and is never refused by the IFSC check |
| Checkout.ValidatePayment | src/pages/CheckoutPage.jsx:38-76 | each refusal holds iff its own check is the first to fail, in order: no method, missing card detail, card number, IFSC, 3-digit CVV, UPI id; cash on delivery is always accepted |
| Checkout.ExpiryOnlyPresence | src/pages/CheckoutPage.jsx:45-61 | the card expiry is checked for presence only: any other non-empty expiry gives the same outcome |
| Checkout.OrderTotal | src/pages/CheckoutPage.jsx:22 | the order total is a number iff every line has a price and a quantity, and then it equals the cart total |
| Checkout.CheckoutPage.View | src/pages/CheckoutPage.jsx:94-111 | the success view shows exactly when the order is placed; before that step 1 shows the address form and step 2 the payment form |
| Checkout.CheckoutPage.constructor | src/pages/CheckoutPage.jsx:9-20 | a fresh page is in the address step with empty fields, no method, no details and no order |
| Checkout.CheckoutPage.EditAddress | src/pages/CheckoutPage.jsx:117-131 | an address input changes that field only |
| Checkout.CheckoutPage.HandleAddressSubmit | src/pages/CheckoutPage.jsx:25-32 | advances to step 2 iff the address is complete; otherwise nothing changes |
| Checkout.CheckoutPage.ChooseMethod | src/pages/CheckoutPage.jsx:148-160 | choosing a method sets it and discards all entered details |
| Checkout.CheckoutPage.EditDetail | src/pages/CheckoutPage.jsx:162-223 | a rendered payment input stores its value under its own key and keeps the others |
| Checkout.CheckoutPage.HandleOrderSubmit | src/pages/CheckoutPage.jsx:35-91 | the outcome is the validator's; a refusal changes nothing; an acceptance records the order with the cart as it was and its total, then clears the cart and enters the placed view |
| Checkout.CheckoutPage.Handle | src/pages/CheckoutPage.jsx:94-106 | the page invariant holds after every action; an action with no handler on screen changes nothing; after placing the order nothing changes; the step never goes back |
| PaymentForm.WithValue | src/components/PaymentForm.jsx:14-17 | a change sets the named field and keeps the other four |
| PaymentForm.Errors | src/components/PaymentForm.jsx:19-39 | for the card method each of the four checked fields is in the error map iff its rule fails, with its exact message, the holder's length counted in UTF-16 code units after trimming; the expiry never is; for any other method the map is empty |
| PaymentForm.ErrorsDetermined | src/components/PaymentForm.jsx:19-39 | for the card method, the error map is the only map that holds each checked field's message exactly when its rule fails and nothing for the expiry; for any other method, the only one is the empty map |
| PaymentForm.ErrorIffViolated | src/components/PaymentForm.jsx:22-35 | all violations are reported together: a field has an error iff the card method is chosen and its own value breaks its rule |
| PaymentForm.ErrorDependsOnlyOnItsField | src/components/PaymentForm.jsx:22-35 | whether a field has an error depends on that field's value alone |
| PaymentForm.ExpiryIgnored | src/components/PaymentForm.jsx:22-35 | changing the expiry never changes the errors |
| PaymentForm.ValidCardExample | src/components/PaymentForm.jsx:23-34 | a sample card with a 16-digit number, `SBIN0001234`, a name of 3 or more characters and a 3-digit CVV gives no errors |
| PaymentForm.HolderCountsCodeUnits | src/components/PaymentForm.jsx:32 | a holder of two code points above U+FFFF has length 4 and passes the holder rule |
| PaymentForm.HolderVerdictIgnoresPadding | src/components/PaymentForm.jsx:32 | white-space padding around the holder never changes the holder verdict |
| PaymentForm.PaymentFormState.constructor | src/components/PaymentForm.jsx:4-12 | no method, all five fields empty, no errors |
| PaymentForm.PaymentFormState.SelectMethod | src/components/PaymentForm.jsx:59 | the selector sets the method and keeps the data and errors |
| PaymentForm.PaymentFormState.HandleChange | src/components/PaymentForm.jsx:14-17 | an input change updates that field only |
| PaymentForm.PaymentFormState.Validate | src/components/PaymentForm.jsx:19-39 | the stored errors become the error map of the current data, and the result is true iff it is empty |
| PaymentForm.PaymentFormState.HandleSubmit | src/components/PaymentForm.jsx:41-47 | the form data is passed on iff validation leaves no error |
| Home.SearchTerm | src/pages/Home.jsx:18-19 | the search term is the lower-cased `search` parameter, else empty; it never has an upper-case letter |
| Home.StoredOr | src/pages/Home.jsx:8-13 | a stored non-empty setting is used, otherwise the default |
| Home.Filter | src/pages/Home.jsx:27-39 | every kept product satisfies the criterion, and each product is kept exactly as often as it occurs when it satisfies it |
| Home.FilterIsSubsequence | src/pages/Home.jsx:25-39 | filtering keeps the products in their input order |
| Home.SubsequenceTransitive | src/pages/Home.jsx:27-39 | two filters in a row still keep input order |
| Home.SortOrderOf | src/pages/Home.jsx:41-47 | exactly the three option strings select a comparator; any other option leaves the order alone |
| Home.Insert | src/pages/Home.jsx:41-47 | inserting into a sorted list keeps it sorted and adds exactly the one product |
| Home.SortBy | src/pages/Home.jsx:41-47 | the result is sorted by the comparator's key and is a permutation of the input |
| Home.InsertBeforeEqual | src/pages/Home.jsx:41-47 | an inserted product lands before every product of equal rank |
| Home.SortIsStable | src/pages/Home.jsx:41-47 | the sort is stable: products of equal rank stay in their input order |
| Home.PipelineSelects | src/pages/Home.jsx:22-52 | a product appears in the result as often as in the input when it matches the search and the category, else not at all |
| Home.PipelineMatchesSearch | src/pages/Home.jsx:27-33 | with a search term every shown product's lower-cased title or category includes it |
| Home.PipelineInCategory | src/pages/Home.jsx:35-39 | with a category other than "All" every shown product is in it, compared case-insensitively |
| Home.PipelineUnsortedKeepsOrder | src/pages/Home.jsx:25-47 | with no recognised sort option the result keeps input order |
| Home.PipelineSorted | src/pages/Home.jsx:41-47 | with a sort option the result is ordered by its key |
| Home.Pipeline | src/pages/Home.jsx:22-52 | the result holds only input products, each at most as often as in the input |
| Home.EmptySearchKeepsAll | src/pages/Home.jsx:27-33 | filtering by the empty term would keep every product, so skipping the search filter for it changes nothing |
| Home.PipelineIdentity | src/pages/Home.jsx:27-47 | no search, "All" and the default sort show the catalogue unchanged |
| Home.Distinct | src/pages/Home.jsx:63 | the deduplicated list has the same members and no repeats |
| Home.DistinctInFirstAppearanceOrder | src/pages/Home.jsx:61-64 | categories appear in the order of their first appearance, as a `Set` iterates |
| Home.Categories | src/pages/Home.jsx:63 | the category of each product, in product order |
| Home.CategoryList | src/pages/Home.jsx:61-64 | "All" first, then the deduplicated product categories, so each appears exactly once, in order of first appearance, and nothing else |
| Home.HomePage.constructor | src/pages/Home.jsx:5-13 | empty lists; the category and sort come from storage, defaulting to "All" and "default" |
| Home.HomePage.ApplyFilters | src/pages/Home.jsx:22-52 | a non-list leaves the shown products alone; a list is shown through the pipeline |
| Home.HomePage.ProductsLoaded | src/pages/Home.jsx:54-70 | the loaded list (or the empty list) is stored, its category list is built, and the pipeline result is shown |
| Home.HomePage.ChangeSettings | src/pages/Home.jsx:72-79 | new settings are written to storage and the shown products are recomputed |
| Home.HomePage.SelectCategory | src/pages/Home.jsx:89 | a category button selects that category, keeping the sort |
| Home.HomePage.SelectSort | src/pages/Home.jsx:105 | the sort selector selects that option, keeping the category |
| Home.LoadingMeansNoProducts | src/pages/Home.jsx:146-148 | "Loading products..." shows only with no search and "All", so an empty grid under it means an empty catalogue, never a filter that matched nothing |
| Home.SettingsRoundTrip | src/pages/Home.jsx:72-75 | non-empty settings written to storage are the ones a new page reads back |
| Auth.StoredUser | src/context/AuthContext.jsx:6-9 | the stored "user" entry when present, else no user |
| Auth.LoginOutcome | src/context/AuthContext.jsx:16-32 | no registration means "no account"; success iff the registered email equals the given one; success yields the registered profile |
| Auth.AuthProvider.constructor | src/context/AuthContext.jsx:6-9 | the session starts as the stored user, consistent with storage |
| Auth.AuthProvider.Signup | src/context/AuthContext.jsx:11-14 | the profile replaces the registration; the session is unchanged |
| Auth.AuthProvider.Login | src/context/AuthContext.jsx:16-32 | succeeds iff the outcome is a success; then the registered profile becomes the user and is stored as "user"; a refusal changes nothing |
| Auth.AuthProvider.Logout | src/context/AuthContext.jsx:34-37 | no user and no stored "user"; the registration stays |
| Signup.WithFieldValue | src/pages/SignupPage.jsx:40 | an input sets its own field and keeps the other three |
| Signup.HasBlankFieldIff | src/pages/SignupPage.jsx:18 | the guard fires iff some field is empty |
| Signup.EmptyFormRefused | src/pages/SignupPage.jsx:9-18 | the initial form is refused |
| Signup.SignupPage.constructor | src/pages/SignupPage.jsx:9-14 | all four fields start empty |
| Signup.SignupPage.Edit | src/pages/SignupPage.jsx:36-63 | an input change updates its field only |
| Signup.SignupPage.HandleSubmit | src/pages/SignupPage.jsx:16-24 | a blank field refuses with no navigation and no registration; otherwise the form is registered and the page goes to "/login" |
| Login.ReturnTarget | src/pages/LoginPage.jsx:9 | the return target is never empty: the `from` state when non-empty, else "/" |
| Login.LoginPage.constructor | src/pages/LoginPage.jsx:9-11 | the email starts empty |
| Login.LoginPage.SetEmail | src/pages/LoginPage.jsx:33 | the input sets the email |
| Login.LoginPage.HandleLogin | src/pages/LoginPage.jsx:13-17 | navigates, replacing history, to the return target iff the login succeeds; a refusal changes nothing |
| App.RouteFor | src/App.js:32-58 | the home route matches iff the path is only slashes; checkout and profile match iff the path is that pattern up to ASCII case and trailing slashes |
| App.ProtectedRoute | src/App.js:13-22 | without a user, redirect to "/login" carrying the pathname and replacing history; with one, render the page |
| App.Resolve | src/App.js:30-58 | unmatched paths redirect home; public pages render; protected pages go through the guard |
| App.GuardedIff | src/App.js:40-55 | a visitor without a session is sent to the login page iff the path is checkout or profile |
| App.SignedInSeesProtected | src/App.js:21 | with a session the protected page renders |
| App.PublicRoutesIgnoreSession | src/App.js:32-38 | every route except the protected two ignores the session |
| App.TrailingSlashIgnored | src/App.js:32-58 | a trailing slash never changes the route |
| App.PublicTable | src/App.js:32-37 | the listed public paths select their pages |
| App.ProductRoute | src/App.js:38 | `/product/:id` matches a non-empty segment without `/` and passes it as the id |
| App.LoginReturnsToRefusedPage | src/App.js:17-19 | a visitor refused a protected page goes to the login route, which returns to exactly that pathname |
| Uri.EncodeURIComponent | src/components/Navbar.jsx:30 | the result uses only unreserved characters and `%XX` escapes, and a string of unreserved characters is unchanged |
| Uri.Utf8RoundTrip | src/pages/Home.jsx:18 | decoding the UTF-8 encoding of any string gives it back |
| Uri.PercentRoundTrip | src/pages/Home.jsx:18 | percent-decoding the encoded form gives the UTF-8 bytes of the original |
| Uri.ComponentRoundTrip | src/pages/Home.jsx:18 | the form-urlencoded decoding of an encoded component gives the original string |
| Uri.Get | src/pages/Home.jsx:19 | `get` finds a value iff some pair has the name, and then it is the value of the first pair with that name |
| Uri.SearchParams | src/components/Navbar.jsx:15-16 | `new URLSearchParams`: an empty search part, with or without its `?`, parses to no pairs |
| Uri.QueryRoundTrip | src/components/Navbar.jsx:30 | `?` + encoded name + `=` + encoded value is read back under that name as exactly the value |
| Navbar.SearchTarget | src/components/Navbar.jsx:21-32 | a search goes to "/"; a blank trimmed query carries no parameter; otherwise the `search` parameter reads back as the trimmed query |
| Navbar.SearchQuery | src/components/Navbar.jsx:30 | the built `?search=` query reads back as the term for every term |
| Navbar.QueryFromSearch | src/components/Navbar.jsx:15-16 | the box shows the `search` parameter, else the empty string |
| Navbar.SearchReachesHome | src/components/Navbar.jsx:21-32 | the home page filters by the lower-cased trimmed query, and once the location has changed the bar shows the trimmed query again |
| Navbar.Badge | src/components/Navbar.jsx:65-69 | the badge is shown iff the cart has lines, and shows the number of lines |
| Navbar.BadgeIgnoresQuantities | src/components/Navbar.jsx:108-112 | quantities never change the badge |
| Navbar.NavbarState.constructor | src/components/Navbar.jsx:7-8 | the menu starts closed and the query empty |
| Navbar.NavbarState.SyncQuery | src/components/Navbar.jsx:14-18 | a new location sets the query from its `search` parameter |
| Navbar.NavbarState.SetQuery | src/components/Navbar.jsx:51 | typing sets the query |
| Navbar.NavbarState.HandleSearch | src/components/Navbar.jsx:21-32 | navigates to the search target; the menu closes exactly after a non-blank search |
| Navbar.NavbarState.ToggleMenu | src/components/Navbar.jsx:74 | the button flips the menu |
| Navbar.NavbarState.FollowMenuLink | src/components/Navbar.jsx:97 | a menu link closes the menu |
| Navbar.SearchAndSync | src/components/Navbar.jsx:14-32 | after a search the sync effect runs only when the search part changes: then the box shows the trimmed query, otherwise it keeps exactly what was typed |

## Left out

- Storage is a `map` from keys to values; JSON serialisation and parsing are
  not modelled. The auth entries hold profiles and the home settings hold
  strings.
- The cart context's operations (add, remove, decrease, clear) are not part of
  this model. The checkout page's `clearCart` is modelled as the cart becoming
  empty.
- The product fetch, with its network and JSON, is not modelled. Its result is
  the parameter of `Home.HomePage.ProductsLoaded`, with `data.products || []`
  as `Option`. The error branch only logs.
- `alert`, the 2-second `setTimeout` before navigating to the success page, and
  the order's `Date` timestamp are not modelled. The `navigate` calls are
  returned as values.
- Prices and ratings are integers, not IEEE doubles, and `toFixed(2)`
  formatting is not modelled.
- Text.ToLower: maps only ASCII letters, not the full Unicode case mapping.
  For search and category text it is weaker than the source.
- Checkout.Stored: upper-cases through `Text.ToUpper`, which maps only ASCII
  letters. `toUpperCase` also maps some other letters onto ASCII (`ſ` to
  `S`, `ı` to `I`, `ﬀ` to `FF`), so an IFSC typed with them is stored and
  accepted by the page but refused by the model.
- The regular expressions are written as character predicates, not run by a
  regular-expression engine.
- React scheduling is not modelled. Each effect is a method the caller runs
  when its dependencies change. That includes the home page's double
  `applyFilters` (from the fetch and from the re-filter effect), and the auth
  provider's mount effect, which re-reads the same stored user as the initial
  state.
- Browser constraint validation is not modelled: `required`, `maxLength`,
  `type="number"`, `type="email"` and `type="month"`. The handlers check what
  their code checks on whatever the inputs deliver.
- App.RouteFor: matches the raw pathname. The router percent-decodes the
  pathname before matching, so `/ch%65ckout` reaches the guarded checkout
  route there but redirects home here; the `:id` segment is not decoded
  either. The router's ranking is not modelled in general. The table's
  patterns cannot overlap, so ranking does not change the outcome here.
- App.GuardedIff: says "checkout or profile" of the raw pathname, so it
  inherits the missing percent-decoding of App.RouteFor.
- `null` and `undefined` are not distinguished. Both are `None`.
- Home.SortBy: `Array.prototype.sort` works in place on a copy. It is modelled
  as a function on sequences, because the copy is never shared.
- The presentational pages (product details, profile, order success, order
  tracking) and the markup are not modelled.
