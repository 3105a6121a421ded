/** The home page's listing logic: the default listing loaded on mount, the search
    form's request, how each response updates the page, and which list is shown.
    Network outcomes are inputs. */
module Home {
  import opened Common
  import opened Posts

  /** The two lists the page keeps. */
  datatype HomeState = HomeState(searchResults: seq<Item>, recentPosts: seq<Item>)

  // ---------------------------------------------------------------------------
  // Default listing
  // ---------------------------------------------------------------------------

  /** The mount-time load: when both feeds answered, the listing becomes both feeds
      newest first; otherwise the page is left as it was. The search results are
      never touched. */
  function LoadRecent(st: HomeState, lost: Response<seq<Item>>, found: Response<seq<Item>>): (st': HomeState)
    ensures st'.searchResults == st.searchResults
    ensures !(lost.Ok? && found.Ok?) ==> st' == st
    ensures lost.Ok? && found.Ok? ==>
      && multiset(st'.recentPosts) == multiset(lost.data) + multiset(found.data)
      && Descending(st'.recentPosts)
  {
    if lost.Ok? && found.Ok? then st.(recentPosts := MergeRecent(lost.data, found.data))
    else st
  }

  /** Ties in the loaded listing keep the lost feed's items first, each feed in its
      own order. */
  lemma LoadRecentStable(st: HomeState, lost: seq<Item>, found: seq<Item>, t: int)
    ensures CreatedAt(LoadRecent(st, Ok(lost), Ok(found)).recentPosts, t)
         == CreatedAt(lost, t) + CreatedAt(found, t)
  {
    MergeRecentTies(lost, found, t);
  }

  // ---------------------------------------------------------------------------
  // Search
  // ---------------------------------------------------------------------------

  /** The values of the search form. `itemType` is the type select's value. */
  datatype SearchForm = SearchForm(category: string, location: string, date: string, itemType: string)

  /** The two filtered collections a search may query. */
  datatype Endpoint = LostSearch | FoundSearch {
    function Path(): string {
      match this
      case LostSearch => "/posts/lost/search"
      case FoundSearch => "/posts/found/search"
    }
  }

  /** A search request: the endpoint, and the query as ordered key/value pairs (before
      percent-encoding). */
  datatype Request = Request(endpoint: Endpoint, query: seq<(string, string)>)

  /** The endpoint for a type value: an empty value counts as "lost". */
  function Route(itemType: string): (e: Endpoint)
    ensures e == LostSearch <==> itemType == "" || itemType == "lost"
    ensures e == FoundSearch <==> itemType != "" && itemType != "lost"
  {
    var t := if itemType == "" then "lost" else itemType;
    if t == "lost" then LostSearch else FoundSearch
  }

  /** The request the search form sends. */
  function SearchRequest(form: SearchForm): (r: Request)
    ensures r.endpoint == Route(form.itemType)
  {
    Request(Route(form.itemType),
            [("category", form.category), ("possibleLocation", form.location), ("possibleDate", form.date)])
  }

  /** The keys of a query, in order. */
  function Keys(query: seq<(string, string)>): (ks: seq<string>)
    ensures |ks| == |query|
    ensures forall i :: 0 <= i < |query| ==> ks[i] == query[i].0
  {
    if |query| == 0 then [] else [query[0].0] + Keys(query[1..])
  }

  /** The first value recorded for `key`, as a query-parameter lookup reads it. */
  function Get(query: seq<(string, string)>, key: string): (v: Option<string>)
    ensures v.None? <==> forall i :: 0 <= i < |query| ==> query[i].0 != key
    ensures v.Some? ==> exists i :: 0 <= i < |query| && query[i] == (key, v.value)
                                  && forall j :: 0 <= j < i ==> query[j].0 != key
  {
    if |query| == 0 then None
    else if query[0].0 == key then Some(query[0].1)
    else Get(query[1..], key)
  }

  /** The query has exactly the three keys, in order, each carrying its form field. */
  lemma SearchQueryShape(form: SearchForm)
    ensures Keys(SearchRequest(form).query) == ["category", "possibleLocation", "possibleDate"]
    ensures Get(SearchRequest(form).query, "category") == Some(form.category)
    ensures Get(SearchRequest(form).query, "possibleLocation") == Some(form.location)
    ensures Get(SearchRequest(form).query, "possibleDate") == Some(form.date)
  {
    var q := SearchRequest(form).query;
    assert q[0].0 == "category";
    assert q[1].0 == "possibleLocation";
    assert q[2].0 == "possibleDate";
  }

  /** The page after a search response, and whether "No results found" was shown. */
  datatype SearchStep = SearchStep(state: HomeState, noResults: bool)

  /** A successful search replaces the search results with the returned items and
      tells the user when there are none; a failed one changes nothing. The default
      listing is never touched. */
  function ApplySearch(st: HomeState, response: Response<seq<Item>>): (r: SearchStep)
    ensures r.state.recentPosts == st.recentPosts
    ensures response.Ok? ==> r.state.searchResults == response.data
    ensures response.Ok? ==> (r.noResults <==> |response.data| == 0)
    ensures response.Failed? ==> r.state == st && !r.noResults
  {
    match response
    case Ok(items) => SearchStep(st.(searchResults := items), |items| == 0)
    case Failed => SearchStep(st, false)
  }

  // ---------------------------------------------------------------------------
  // Display
  // ---------------------------------------------------------------------------

  /** The list the page renders: the search results when there are any, otherwise the
      default listing. */
  function Displayed(st: HomeState): (shown: seq<Item>)
    ensures shown == st.searchResults || shown == st.recentPosts
    ensures |shown| == 0 <==> |st.searchResults| == 0 && |st.recentPosts| == 0
    ensures |st.searchResults| > 0 ==> shown == st.searchResults
  {
    if |st.searchResults| > 0 then st.searchResults else st.recentPosts
  }

  /** A search with no results falls back to the default listing rather than an empty
      list, and one with results shows exactly them. */
  lemma DisplayAfterSearch(st: HomeState, items: seq<Item>)
    ensures |items| == 0 ==> Displayed(ApplySearch(st, Ok(items)).state) == st.recentPosts
    ensures |items| > 0 ==> Displayed(ApplySearch(st, Ok(items)).state) == items
  {
  }

  /** A search sends one request, to the found collection exactly when the type value
      is neither empty nor "lost". */
  lemma SearchTargetsOneCollection(form: SearchForm)
    ensures SearchRequest(form).endpoint.Path() ==
      if form.itemType == "" || form.itemType == "lost" then "/posts/lost/search" else "/posts/found/search"
    ensures LostSearch.Path() != FoundSearch.Path()
  {
    assert LostSearch.Path()[7] != FoundSearch.Path()[7];
  }
}
