/** The restaurant search screen's view-model: the scope and text filter, the
    list of scopes offered, and the two suggestion lists shown while the user
    types a short search text. */
module Searchable {
  import opened Sequences
  import opened Text
  import opened Restaurants

  /** `SearchableViewModel.SearchScopeOption`. */
  datatype SearchScope = All | ForCuisine(option: Cuisine) {
    /** The label shown for the scope: "All", or the cuisine's raw value with
        its first letter upper-cased. */
    function Title(): (t: string)
      ensures t != [] && IsUpper(t[0])
      ensures this.ForCuisine? ==> Lower(t) == option.RawValue()
    {
      match this
      case All => "All"
      case ForCuisine(option) =>
        var raw := option.RawValue();
        CapitalizedLowerWord(raw);
        CapitalizedIdempotent(raw);
        assert Lower(raw) == raw;
        Capitalized(raw)
    }
  }

  /** The restaurant belongs to the scope. */
  predicate InScope(r: Restaurant, scope: SearchScope)
  {
    scope.All? || r.cuisine == scope.option
  }

  /** The title or the cuisine's raw value contains `text`, ignoring case. An empty
      text matches nothing, and a match is never longer than where it is found. */
  predicate MatchesSearch(r: Restaurant, text: string)
    ensures MatchesSearch(r, text) ==>
              text != [] && (|text| <= |r.title| || |text| <= |r.cuisine.RawValue()|)
  {
    ContainsIgnoringCase(r.title, text) || ContainsIgnoringCase(r.cuisine.RawValue(), text)
  }

  /** The restaurants of the scope, in catalogue order. */
  function RestaurantsInScope(all: seq<Restaurant>, scope: SearchScope): (r: seq<Restaurant>)
    ensures forall x :: x in r <==> x in all && InScope(x, scope)
    ensures forall x :: multiset(r)[x] == if InScope(x, scope) then multiset(all)[x] else 0
    ensures IsSubsequence(r, all)
  {
    match scope
    case All =>
      SubsequenceReflexive(all);
      all
    case ForCuisine(option) => OfCuisine(all, option)
  }

  /** What a non-empty search shows: the restaurants of `all` that are in the scope
      and match the text, each as often as in `all`, in the order of `all`. */
  function SearchResults(all: seq<Restaurant>, text: string, scope: SearchScope): (r: seq<Restaurant>)
    ensures forall x :: x in r <==> x in all && InScope(x, scope) && MatchesSearch(x, text)
    ensures forall x :: multiset(r)[x] ==
              if InScope(x, scope) && MatchesSearch(x, text) then multiset(all)[x] else 0
    ensures IsSubsequence(r, all)
  {
    var inScope := RestaurantsInScope(all, scope);
    var r := Filter((x: Restaurant) => MatchesSearch(x, text), inScope);
    SubsequenceTransitive(r, inScope, all);
    r
  }

  /** The scope list offered to the user: "All" first, then one entry for each
      distinct cuisine of `all`, in no particular order. */
  ghost predicate IsScopeList(scopes: seq<SearchScope>, all: seq<Restaurant>)
  {
    && |scopes| >= 1
    && scopes[0] == All
    && (forall i :: 1 <= i < |scopes| ==> scopes[i].ForCuisine? && scopes[i].option in Cuisines(all))
    && (forall c :: c in Cuisines(all) ==> ForCuisine(c) in scopes)
    && (forall i, j :: 0 <= i < j < |scopes| ==> scopes[i] != scopes[j])
  }

  /** The outcome of awaiting `RestaurantManager.getAllRestaurants()`. */
  datatype Fetch = Fetched(restaurants: seq<Restaurant>) | FetchFailed(error: string)

  class SearchableViewModel {
    var filteredRestaurants: seq<Restaurant>
    var searchText: string
    var searchScope: SearchScope
    var searchScopes: seq<SearchScope>
    var allRestaurants: seq<Restaurant>

    /** What is shown is drawn from the loaded restaurants in their order, and the
        scope list, once loaded, has its fixed shape. */
    ghost predicate Valid()
      reads this
    {
      && IsSubsequence(filteredRestaurants, allRestaurants)
      && (searchScopes == [] || IsScopeList(searchScopes, allRestaurants))
    }

    constructor ()
      ensures Valid()
      ensures filteredRestaurants == [] && searchText == [] && searchScope == All
      ensures searchScopes == [] && allRestaurants == []
    {
      filteredRestaurants := [];
      searchText := [];
      searchScope := All;
      searchScopes := [];
      allRestaurants := [];
    }

    /** Suggestions are offered while the search text is shorter than four characters.
        While they are, the text names at most one dish and at most one cuisine. */
    function ShowSearchSuggestions(): (show: bool)
      reads this
      ensures show ==> !(Contains(Lower(searchText), "pa") && Contains(Lower(searchText), "su"))
      ensures show ==> !(Contains(Lower(searchText), "pa") && Contains(Lower(searchText), "bu"))
      ensures show ==> !(Contains(Lower(searchText), "su") && Contains(Lower(searchText), "bu"))
      ensures show ==> !(Contains(Lower(searchText), "ita") && Contains(Lower(searchText), "ja"))
    {
      if |searchText| < 4 then
        ShortTextNamesAtMostOneDish(searchText);
        ShortTextNamesAtMostOneCuisine(searchText);
        true
      else
        false
    }

    /** `filterRestaurants(searchText:currentSearchScope:)`. An empty text shows every
        restaurant and resets the scope; otherwise the scope is kept and the search
        results are shown. */
    method FilterRestaurants(text: string, currentScope: SearchScope)
      modifies this
      ensures text == [] ==> filteredRestaurants == allRestaurants && searchScope == All
      ensures text != [] ==>
                && filteredRestaurants == SearchResults(allRestaurants, text, currentScope)
                && searchScope == old(searchScope)
      ensures IsSubsequence(filteredRestaurants, allRestaurants)
      ensures allRestaurants == old(allRestaurants) && searchScopes == old(searchScopes)
      ensures searchText == old(searchText)
      ensures old(Valid()) ==> Valid()
    {
      if text == [] {
        filteredRestaurants := allRestaurants;
        searchScope := All;
        SubsequenceReflexive(allRestaurants);
        return;
      }
      var restaurantsInScope := RestaurantsInScope(allRestaurants, currentScope);
      filteredRestaurants := Filter((x: Restaurant) => MatchesSearch(x, text), restaurantsInScope);
      assert filteredRestaurants == SearchResults(allRestaurants, text, currentScope);
    }

    /** `loadRestaurants()`: store the fetched restaurants, offer "All" and one scope
        per distinct cuisine, and filter again with the current text and scope. A
        failed fetch changes nothing. */
    method LoadRestaurants(fetch: Fetch)
      requires Valid()
      modifies this
      ensures Valid()
      ensures fetch.FetchFailed? ==>
                && filteredRestaurants == old(filteredRestaurants)
                && searchScope == old(searchScope)
                && searchScopes == old(searchScopes)
                && allRestaurants == old(allRestaurants)
      ensures fetch.Fetched? ==>
                && allRestaurants == fetch.restaurants
                && IsScopeList(searchScopes, allRestaurants)
                && |searchScopes| == 1 + |Cuisines(allRestaurants)| <= 4
                && (old(searchText) == [] ==> filteredRestaurants == allRestaurants && searchScope == All)
                && (old(searchText) != [] ==>
                      && filteredRestaurants == SearchResults(allRestaurants, old(searchText), old(searchScope))
                      && searchScope == old(searchScope))
      ensures searchText == old(searchText)
    {
      match fetch
      case FetchFailed(_) =>
        return;
      case Fetched(restaurants) =>
        allRestaurants := restaurants;
        var allCuisines := Cuisines(allRestaurants);
        var scopes := [All];
        var remaining := allCuisines;
        while remaining != {}
          invariant remaining <= allCuisines
          invariant |scopes| + |remaining| == 1 + |allCuisines|
          invariant |scopes| >= 1 && scopes[0] == All
          invariant forall i :: 1 <= i < |scopes| ==>
                      scopes[i].ForCuisine? && scopes[i].option in allCuisines - remaining
          invariant forall c :: c in allCuisines - remaining ==> ForCuisine(c) in scopes
          invariant forall i, j :: 0 <= i < j < |scopes| ==> scopes[i] != scopes[j]
          decreases |remaining|
        {
          var c :| c in remaining;
          scopes := scopes + [ForCuisine(c)];
          remaining := remaining - {c};
        }
        CuisinesBound(allRestaurants);
        searchScopes := scopes;
        FilterRestaurants(searchText, searchScope);
    }

    /** `getSearchSuggestions()`: nothing once the text has four characters or more;
        otherwise the one dish the text names, if any, then five fixed entries. */
    method GetSearchSuggestions() returns (suggestions: seq<string>)
      ensures !ShowSearchSuggestions() ==> suggestions == []
      ensures ShowSearchSuggestions() ==>
                && 5 <= |suggestions| <= 6
                && suggestions[|suggestions| - 5..] == ["Market", "Grocery", "Italian", "American", "Japanese"]
                && suggestions[..|suggestions| - 5] ==
                     if Contains(Lower(searchText), "pa") then ["Pasta"]
                     else if Contains(Lower(searchText), "su") then ["Sushi"]
                     else if Contains(Lower(searchText), "bu") then ["Burger"]
                     else []
    {
      if !ShowSearchSuggestions() {
        return [];
      }
      suggestions := [];
      var search := Lower(searchText);
      var pasta, sushi, burger := Contains(search, "pa"), Contains(search, "su"), Contains(search, "bu");
      if pasta {
        suggestions := suggestions + ["Pasta"];
      }
      if sushi {
        suggestions := suggestions + ["Sushi"];
      }
      if burger {
        suggestions := suggestions + ["Burger"];
      }
      ShortTextNamesAtMostOneDish(searchText);
      ghost var dishes := suggestions;
      assert dishes == (if pasta then ["Pasta"] else if sushi then ["Sushi"] else if burger then ["Burger"] else []);
      suggestions := suggestions + ["Market"];
      suggestions := suggestions + ["Grocery"];
      suggestions := suggestions + [Capitalized(Italian.RawValue())];
      suggestions := suggestions + [Capitalized(American.RawValue())];
      suggestions := suggestions + [Capitalized(Japanese.RawValue())];
      CuisineLabels();
      assert suggestions == dishes + ["Market", "Grocery", "Italian", "American", "Japanese"];
    }

    /** `getRestaurantSuggestions()`: nothing once the text has four characters or
        more; otherwise the Italian restaurants if the text mentions "ita", the
        Japanese ones if it mentions "ja", in catalogue order. */
    method GetRestaurantSuggestions() returns (suggestions: seq<Restaurant>)
      ensures !ShowSearchSuggestions() ==> suggestions == []
      ensures ShowSearchSuggestions() ==>
                && (Contains(Lower(searchText), "ita") ==> suggestions == OfCuisine(allRestaurants, Italian))
                && (Contains(Lower(searchText), "ja") ==> suggestions == OfCuisine(allRestaurants, Japanese))
                && (!Contains(Lower(searchText), "ita") && !Contains(Lower(searchText), "ja") ==> suggestions == [])
      ensures IsSubsequence(suggestions, allRestaurants)
      ensures (forall r :: r in suggestions ==> r.cuisine == Italian)
           || (forall r :: r in suggestions ==> r.cuisine == Japanese)
    {
      EmptyIsSubsequence(allRestaurants);
      if !ShowSearchSuggestions() {
        return [];
      }
      suggestions := [];
      var search := Lower(searchText);
      if Contains(search, "ita") {
        suggestions := suggestions + OfCuisine(allRestaurants, Italian);
      }
      if Contains(search, "ja") {
        suggestions := suggestions + OfCuisine(allRestaurants, Japanese);
      }
      ShortTextNamesAtMostOneCuisine(searchText);
    }
  }

  /** The labels of the cuisine scopes are the capitalized raw values. */
  lemma CuisineLabels()
    ensures ForCuisine(American).Title() == "American"
    ensures ForCuisine(Italian).Title() == "Italian"
    ensures ForCuisine(Japanese).Title() == "Japanese"
  {
    assert Capitalized("american") == "American" by {
      var w := "american";
      assert forall k :: 0 <= k < |w| ==> IsLower(w[k]);
      CapitalizedLowerWord(w);
      assert UpperChar('a') == 'A' && w[1..] == "merican";
    }
    assert Capitalized("italian") == "Italian" by {
      var w := "italian";
      assert forall k :: 0 <= k < |w| ==> IsLower(w[k]);
      CapitalizedLowerWord(w);
      assert UpperChar('i') == 'I' && w[1..] == "talian";
    }
    assert Capitalized("japanese") == "Japanese" by {
      var w := "japanese";
      assert forall k :: 0 <= k < |w| ==> IsLower(w[k]);
      CapitalizedLowerWord(w);
      assert UpperChar('j') == 'J' && w[1..] == "apanese";
    }
  }

  /** Two keywords of two letters cannot both occur in a text of at most three
      characters unless they can overlap or coincide. */
  lemma TwoKeywordsClash(t: string, x: string, y: string)
    requires |t| <= 3 && |x| == 2 && |y| == 2
    requires x[0] != y[0] && x[1] != y[0] && y[1] != x[0]
    requires Contains(t, x)
    ensures !Contains(t, y)
  {
  }

  /** A text short enough for suggestions names at most one of the dishes. */
  lemma ShortTextNamesAtMostOneDish(text: string)
    requires |text| < 4
    ensures !(Contains(Lower(text), "pa") && Contains(Lower(text), "su"))
    ensures !(Contains(Lower(text), "pa") && Contains(Lower(text), "bu"))
    ensures !(Contains(Lower(text), "su") && Contains(Lower(text), "bu"))
  {
    var t := Lower(text);
    if Contains(t, "pa") {
      TwoKeywordsClash(t, "pa", "su");
      TwoKeywordsClash(t, "pa", "bu");
    }
    if Contains(t, "su") {
      TwoKeywordsClash(t, "su", "bu");
    }
  }

  /** A text short enough for suggestions cannot mention both "ita" and "ja". */
  lemma ShortTextNamesAtMostOneCuisine(text: string)
    requires |text| < 4
    ensures !(Contains(Lower(text), "ita") && Contains(Lower(text), "ja"))
  {
    var t := Lower(text);
    if Contains(t, "ita") {
      ItaStartsShortText(t);
    }
    if Contains(t, "ja") {
      JaInShortText(t);
    }
  }

  /** In at most three characters, "ita" can only stand at the start. */
  lemma ItaStartsShortText(t: string)
    requires |t| <= 3 && Contains(t, "ita")
    ensures t[0] == 'i' && t[1] == 't'
  {
  }

  /** In at most three characters, "ja" starts at the first or second position. */
  lemma JaInShortText(t: string)
    requires |t| <= 3 && Contains(t, "ja")
    ensures t[0] == 'j' || t[1] == 'j'
  {
  }

  /** The labels of the scopes tell them apart. */
  lemma TitlesDistinct(a: SearchScope, b: SearchScope)
    requires a.Title() == b.Title()
    ensures a == b
  {
    CuisineLabels();
  }

  /** A cuisine scope shows exactly the results of the "All" scope that have that
      cuisine, in the same order. */
  lemma ScopedSearchIsRestrictedSearch(all: seq<Restaurant>, text: string, c: Cuisine)
    ensures SearchResults(all, text, ForCuisine(c)) == OfCuisine(SearchResults(all, text, All), c)
  {
    var byCuisine := (x: Restaurant) => x.cuisine == c;
    var byText := (x: Restaurant) => MatchesSearch(x, text);
    FilterCommutes(byCuisine, byText, all);
  }

  /** Searching is insensitive to the case of the search text. */
  lemma SearchIgnoresCaseOfText(all: seq<Restaurant>, text: string, scope: SearchScope)
    ensures SearchResults(all, Lower(text), scope) == SearchResults(all, text, scope)
  {
    forall x: Restaurant ensures MatchesSearch(x, Lower(text)) == MatchesSearch(x, text) {
      ContainsIgnoringCaseOfLower(x.title, text);
      ContainsIgnoringCaseOfLower(x.cuisine.RawValue(), text);
    }
    FilterCongruent((x: Restaurant) => MatchesSearch(x, Lower(text)),
                    (x: Restaurant) => MatchesSearch(x, text),
                    RestaurantsInScope(all, scope));
  }

  /** Typing a restaurant's full title, in any case, finds it in any scope it
      belongs to. */
  lemma SearchFindsTitle(all: seq<Restaurant>, r: Restaurant, scope: SearchScope)
    requires r in all && InScope(r, scope) && r.title != []
    ensures r in SearchResults(all, r.title, scope)
    ensures r in SearchResults(all, Lower(r.title), scope)
  {
    ContainsIgnoringCaseSelf(r.title);
  }

  /** Loading the catalogue offers four scopes. */
  lemma CatalogueScopes(scopes: seq<SearchScope>)
    requires IsScopeList(scopes, GetAllRestaurants())
    requires |scopes| == 1 + |Cuisines(GetAllRestaurants())|
    ensures |scopes| == 4
    ensures forall c: Cuisine :: ForCuisine(c) in scopes
  {
    assert |{American, Italian, Japanese}| == 3;
    forall c: Cuisine ensures ForCuisine(c) in scopes {
      assert c in Cuisines(GetAllRestaurants()) by {
        match c
        case American =>
        case Italian =>
        case Japanese =>
      }
    }
  }
}
