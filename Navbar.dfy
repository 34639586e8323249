/** The navigation bar: the search box, which is kept in step with the
    location's `search` parameter and sends a trimmed, encoded search to the
    home page; the mobile menu toggle; and the cart badge. */
module Navbar {
  import opened Wrappers
  import opened Text
  import opened Uri
  import Cart
  import Home

  const SEARCH_PARAM := "search"

  /** A location reached by `navigate`: its pathname and its `?...` part. */
  datatype Location = Location(pathname: string, search: string)

  /** The query the bar builds carries the term back unchanged. */
  lemma SearchQuery(term: string)
    ensures Get(SearchParams("?search=" + EncodeURIComponent(term)), SEARCH_PARAM) == Some(term)
  {
    var v := EncodeURIComponent(term);
    var built := "?" + SEARCH_PARAM + "=" + v;
    assert built == "?search=" + v;
    QueryRoundTripPlain(SEARCH_PARAM, term);
    assert Get(SearchParams(built), SEARCH_PARAM) == Some(term);
  }

  /** Where a search for the typed query goes: home, and when the trimmed
      query is not empty, with it as the `search` parameter, which the query
      parser reads back exactly. */
  function SearchTarget(query: string): (loc: Location)
    ensures loc.pathname == "/"
    ensures Trim(query) == "" ==> loc.search == "" && Get(SearchParams(loc.search), SEARCH_PARAM) == None
    ensures Trim(query) != "" ==> Get(SearchParams(loc.search), SEARCH_PARAM) == Some(Trim(query))
  {
    var trimmed := Trim(query);
    if trimmed == "" then
      Location("/", "")
    else
      SearchQuery(trimmed);
      Location("/", "?search=" + EncodeURIComponent(trimmed))
  }

  /** `params.get("search") || ""`. */
  function QueryFromSearch(locationSearch: string): (q: string)
    ensures Get(SearchParams(locationSearch), SEARCH_PARAM).None? ==> q == ""
    ensures Get(SearchParams(locationSearch), SEARCH_PARAM).Some? ==> q == Get(SearchParams(locationSearch), SEARCH_PARAM).value
  {
    Get(SearchParams(locationSearch), SEARCH_PARAM).GetOr("")
  }

  /** The search the bar sends is the search the home page filters by, and
      the one the bar shows again once the location has changed. */
  lemma SearchReachesHome(query: string)
    ensures Home.SearchTerm(Get(SearchParams(SearchTarget(query).search), SEARCH_PARAM)) == ToLower(Trim(query))
    ensures QueryFromSearch(SearchTarget(query).search) == Trim(query)
  {
  }

  /** The badge holds the number of lines, shown only for a non-empty cart. */
  function Badge(cart: seq<Cart.LineItem>): (b: Option<nat>)
    ensures b.Some? <==> |cart| > 0
    ensures b.Some? ==> b.value == |cart|
  {
    if |cart| > 0 then Some(|cart|) else None
  }

  /** The count is of lines, not of units: quantities never change it. */
  lemma BadgeIgnoresQuantities(cart: seq<Cart.LineItem>, k: int, q: Option<int>)
    requires 0 <= k < |cart|
    ensures Badge(cart[k := cart[k].(quantity := q)]) == Badge(cart)
  {
  }

  class NavbarState {
    var menuOpen: bool
    var query: string

    constructor()
      ensures !menuOpen && query == ""
    {
      menuOpen := false;
      query := "";
    }

    /** The effect that runs when the location's search part changes. */
    method SyncQuery(locationSearch: string)
      modifies this
      ensures query == QueryFromSearch(locationSearch)
      ensures menuOpen == old(menuOpen)
    {
      query := QueryFromSearch(locationSearch);
    }

    /** An input's `onChange`. */
    method SetQuery(v: string)
      modifies this
      ensures query == v && menuOpen == old(menuOpen)
    {
      query := v;
    }

    /** `handleSearch`: navigate to the search target; the menu closes only
        after a non-empty search. */
    method HandleSearch() returns (target: Location)
      modifies this
      ensures target == SearchTarget(old(query))
      ensures query == old(query)
      ensures menuOpen <==> old(menuOpen) && Trim(old(query)) == ""
    {
      target := SearchTarget(query);
      if Trim(query) != "" {
        menuOpen := false;
      }
    }

    /** The menu button. */
    method ToggleMenu()
      modifies this
      ensures menuOpen == !old(menuOpen) && query == old(query)
    {
      menuOpen := !menuOpen;
    }

    /** A link in the mobile menu. */
    method FollowMenuLink()
      modifies this
      ensures !menuOpen && query == old(query)
    {
      menuOpen := false;
    }
  }

  /** A search from a location whose search part is `currentSearch`,
      followed by the sync effect, which runs only when the search part
      changes: then the box shows the trimmed query; otherwise it keeps
      exactly what was typed. */
  method SearchAndSync(nav: NavbarState, currentSearch: string) returns (target: Location)
    modifies nav
    ensures target == SearchTarget(old(nav.query))
    ensures target.search != currentSearch ==> nav.query == Trim(old(nav.query))
    ensures target.search == currentSearch ==> nav.query == old(nav.query)
  {
    target := nav.HandleSearch();
    if target.search != currentSearch {
      nav.SyncQuery(target.search);
      SearchReachesHome(old(nav.query));
    }
  }
}
