# Restaurant search view-model, modelled in Dafny

SwiftConcurrencyBootcamp is a set of demonstration screens for Swift's
structured concurrency. Its one piece of self-contained logic is the
restaurant search screen in `SwiftConcurrencyBootcamp/SearchableBootcamp.swift`:

- `SearchableViewModel` holds the loaded restaurants, the filtered list on
  screen, the search text, the selected search scope ("All" or one cuisine)
  and the list of scopes offered.
- `filterRestaurants` narrows the list by scope and by a case-insensitive
  text match on the title or the cuisine name. An empty text shows
  everything and resets the scope to "All".
- `loadRestaurants` stores what `RestaurantManager` returns, offers "All"
  plus one scope per distinct cuisine, and filters again.
- While the text is shorter than four characters, `getSearchSuggestions` and
  `getRestaurantSuggestions` offer completions.

The model:

- `sequences.dfy` (module `Sequences`): Swift's order-preserving `filter`,
  and the subsequence relation that says what "order-preserving" means.
- `sets.dfy` (module `Sets`): a subset of a finite set is no larger than the set,
  used to bound the number of distinct cuisines.
- `text.dfy` (module `Text`): `lowercased()`, `contains`,
  `range(of:options: .caseInsensitive)` and `capitalized`, over ASCII letters.
- `restaurants.dfy` (module `Restaurants`): `CuisineOption` with its raw
  values, `Restaurant`, and the four-restaurant catalogue of
  `RestaurantManager.getAllRestaurants`.
- `searchable.dfy` (module `Searchable`): `SearchScopeOption` and its titles.
  `SearchResults` specifies a non-empty search. The class
  `SearchableViewModel` has the five view-model fields, with methods for
  `filterRestaurants`, `loadRestaurants` and the two suggestion builders.

Its object invariant `Valid()` says two things. The list on screen is a
subsequence of the loaded restaurants. Once scopes have been loaded, the
scope list starts with "All" and then lists each distinct cuisine once.

The awaited result of `getAllRestaurants()` is a parameter of
`LoadRestaurants` (`Fetch`: the restaurants, or the error that the `catch`
branch would print). Swift iterates a `Set` in no fixed order, so the scope
list is built by a loop that picks each remaining cuisine with `:|`. The
proved contract therefore holds for every iteration order.

## Model

| member | source | states |
|---|---|---|
| `Sequences.Filter` | SwiftConcurrencyBootcamp/SearchableBootcamp.swift:94-98 | `filter` keeps exactly the elements satisfying the predicate, each as many times as in the input, as a subsequence of the input (order kept) |
| `Sequences.FilterCommutes` | SwiftConcurrencyBootcamp/SearchableBootcamp.swift:85-98 | filtering by the scope and then by the text gives the same list as the other order |
| `Sequences.FilterCongruent` | SwiftConcurrencyBootcamp/SearchableBootcamp.swift:94-98 | a filter depends only on the predicate's values on the list's own elements |
| `Text.LowerChar` | SwiftConcurrencyBootcamp/SearchableBootcamp.swift:116 | the lower-cased character is never upper-case; an upper-case letter becomes its lower-case partner; everything else is kept |
| `Text.UpperChar` | SwiftConcurrencyBootcamp/SearchableBootcamp.swift:55 | a lower-case letter becomes the upper-case letter that lower-cases back to it; everything else is kept |
| `Text.Lower` | SwiftConcurrencyBootcamp/SearchableBootcamp.swift:116 | `lowercased()` keeps the length, maps each upper-case letter to its lower-case partner at the same position, keeps every other character, and so leaves no upper-case letter |
| `Text.LowerIdempotent` | SwiftConcurrencyBootcamp/SearchableBootcamp.swift:138 | lower-casing twice is lower-casing once |
| `Text.Contains` | SwiftConcurrencyBootcamp/SearchableBootcamp.swift:117 | `contains` is true exactly when the needle occurs at some position of the text |
| `Text.ContainsIgnoringCase` | SwiftConcurrencyBootcamp/SearchableBootcamp.swift:95-96 | a case-insensitive `range(of:)` finds the needle exactly when it is non-empty and occurs in the text once both are lower-cased |
| `Text.ContainsIsCaseInsensitive` | SwiftConcurrencyBootcamp/SearchableBootcamp.swift:95 | an exact occurrence of a non-empty needle is also found case-insensitively |
| `Text.ContainsIgnoringCaseOfLower` | SwiftConcurrencyBootcamp/SearchableBootcamp.swift:96 | lower-casing the needle first does not change a case-insensitive match |
| `Text.ContainsIgnoringCaseSelf` | SwiftConcurrencyBootcamp/SearchableBootcamp.swift:95 | a non-empty string is found in itself |
| `Text.Capitalized` | SwiftConcurrencyBootcamp/SearchableBootcamp.swift:55 | `capitalized` keeps the length |
| `Text.CapitalizedIdempotent` | SwiftConcurrencyBootcamp/SearchableBootcamp.swift:55 | capitalizing changes only case (lower-casing the result gives the lower-cased input), and capitalizing twice changes nothing more |
| `Text.CapitalizedLowerWord` | SwiftConcurrencyBootcamp/SearchableBootcamp.swift:129-131 | a word of lower-case letters (every raw value) is capitalized by upper-casing its first letter only |
| `Restaurants.OfCuisine` | SwiftConcurrencyBootcamp/SearchableBootcamp.swift:90 | `filter { $0.cuisine == option }` keeps exactly the restaurants of that cuisine, with their multiplicities, in their order |
| `Restaurants.Cuisine.RawValue` | SwiftConcurrencyBootcamp/SearchableBootcamp.swift:17-19 | each raw value is a non-empty word of lower-case letters |
| `Restaurants.Cuisines` | SwiftConcurrencyBootcamp/SearchableBootcamp.swift:104 | `Set(allRestaurants.map { $0.cuisine })` holds the cuisine of every restaurant and only cuisines some restaurant has |
| `Restaurants.CuisinesBound` | SwiftConcurrencyBootcamp/SearchableBootcamp.swift:104 | a restaurant list has at most three distinct cuisines, so at most four scopes are offered |
| `Restaurants.GetAllRestaurants` | SwiftConcurrencyBootcamp/SearchableBootcamp.swift:22-30 | `getAllRestaurants` returns four restaurants with ids "1" to "4" in order, all distinct, covering all three cuisines |
| `Searchable.SearchScope.Title` | SwiftConcurrencyBootcamp/SearchableBootcamp.swift:50-57 | every title is non-empty and starts with an upper-case letter; a cuisine's title lower-cases back to its raw value (the exact labels are `CuisineLabels`, their distinctness `TitlesDistinct`) |
| `Searchable.MatchesSearch` | SwiftConcurrencyBootcamp/SearchableBootcamp.swift:94-97 | an empty text matches no restaurant, and a matching text is no longer than the title or the cuisine name it is found in (what it matches is stated by `SearchResults`) |
| `Searchable.RestaurantsInScope` | SwiftConcurrencyBootcamp/SearchableBootcamp.swift:85-92 | the restaurants in scope are exactly those of the scope's cuisine (all of them for "All"), with their multiplicities and order |
| `Searchable.SearchResults` | SwiftConcurrencyBootcamp/SearchableBootcamp.swift:85-98 | a non-empty search is sound and complete: a restaurant is shown exactly when it is loaded, in the scope and its title or cuisine name contains the text ignoring case; each is shown as often as loaded, in loaded order |
| `Searchable.SearchableViewModel.constructor` | SwiftConcurrencyBootcamp/SearchableBootcamp.swift:38-42 | a new view-model has empty lists, an empty text and the "All" scope, and satisfies its invariant |
| `Searchable.SearchableViewModel.ShowSearchSuggestions` | SwiftConcurrencyBootcamp/SearchableBootcamp.swift:60-62 | while suggestions are shown, the lower-cased text contains at most one of "pa", "su", "bu" and not both "ita" and "ja" |
| `Searchable.SearchableViewModel.FilterRestaurants` | SwiftConcurrencyBootcamp/SearchableBootcamp.swift:78-99 | an empty text shows all loaded restaurants and resets the scope to "All"; otherwise it shows `SearchResults` for the given scope and keeps the scope; the loaded list, scopes and text are unchanged; the invariant is kept |
| `Searchable.SearchableViewModel.LoadRestaurants` | SwiftConcurrencyBootcamp/SearchableBootcamp.swift:101-110 | on success the loaded list is the fetched one, the scope list is "All" then each distinct cuisine exactly once (one more entry than there are cuisines, so at most four), and the list is filtered as `FilterRestaurants` would with the current text and scope; on failure nothing changes |
| `Searchable.SearchableViewModel.GetSearchSuggestions` | SwiftConcurrencyBootcamp/SearchableBootcamp.swift:112-133 | no suggestions for a text of four characters or more; otherwise five or six entries: the one dish the lower-cased text names ("pa", "su", "bu"), if any, then "Market", "Grocery", "Italian", "American", "Japanese" |
| `Searchable.SearchableViewModel.GetRestaurantSuggestions` | SwiftConcurrencyBootcamp/SearchableBootcamp.swift:135-146 | no suggestions for a text of four characters or more; otherwise the Italian restaurants when the text contains "ita", the Japanese ones when it contains "ja", and nothing else; always a subsequence of the loaded list, all of one cuisine |
| `Searchable.CuisineLabels` | SwiftConcurrencyBootcamp/SearchableBootcamp.swift:50-57 | the cuisine scopes are titled "American", "Italian" and "Japanese" |
| `Searchable.TitlesDistinct` | SwiftConcurrencyBootcamp/SearchableBootcamp.swift:50-57 | different scopes have different titles |
| `Searchable.ShortTextNamesAtMostOneDish` | SwiftConcurrencyBootcamp/SearchableBootcamp.swift:117-125 | a text shorter than four characters contains at most one of "pa", "su" and "bu" once lower-cased |
| `Searchable.ShortTextNamesAtMostOneCuisine` | SwiftConcurrencyBootcamp/SearchableBootcamp.swift:139-144 | a text shorter than four characters cannot contain both "ita" and "ja" once lower-cased |
| `Searchable.ScopedSearchIsRestrictedSearch` | SwiftConcurrencyBootcamp/SearchableBootcamp.swift:85-98 | searching in a cuisine scope gives exactly the "All" results of that cuisine, in the same order |
| `Searchable.SearchIgnoresCaseOfText` | SwiftConcurrencyBootcamp/SearchableBootcamp.swift:94-98 | the results do not depend on the case of the search text |
| `Searchable.SearchFindsTitle` | SwiftConcurrencyBootcamp/SearchableBootcamp.swift:94-98 | searching a loaded restaurant's full title, as typed or lower-cased, finds it in every scope it belongs to |
| `Searchable.CatalogueScopes` | SwiftConcurrencyBootcamp/SearchableBootcamp.swift:101-105 | loading the catalogue offers four scopes: "All" and every cuisine |

## Left out

- The Combine wiring in `addSubscribers` (`combineLatest`, the 0.3-second `debounce`, the main dispatch queue). It is time- and scheduler-driven. The model states what one call of `filterRestaurants` does. It does not model the re-runs the subscription causes. `@Published` emits on every assignment, even of an unchanged value, and nothing in the pipeline at SwiftConcurrencyBootcamp/SearchableBootcamp.swift:69-75 drops duplicates. So while the search text is empty, each call assigns `searchScope = .all` (line 81), which emits `("", .all)` again and, 0.3 seconds later, calls `filterRestaurants` again. From `init`'s first emission on, the filter therefore re-runs every 0.3 seconds for as long as the text stays empty. After the first, each such run changes nothing unless the restaurants were loaded in between.
- `@MainActor` isolation and `@Published` change notification. These are concurrency and UI plumbing. The class's fields are plain fields, and the search text is set by assigning the field.
- The SwiftUI views and previews (`SearchableBootcamp`, `restaurantRow`). These are UI.
- `print(error)` in the `catch` branch of `loadRestaurants`. This is I/O; the model keeps the state unchanged on that path.
- Unicode case mapping. `lowercased()`, `.caseInsensitive` and `capitalized` are modelled on ASCII letters only. `capitalized` starts words only after blanks, tabs and newlines.
- `String.count` counts grapheme clusters. The model counts `char`s (Unicode scalar values). The two agree for ASCII text without CR LF; Swift counts `"\r\n"` as one character where the model counts two, so the four-character gate of the suggestions can differ on text containing it.
- The other files of the repository (tasks, actors, task groups, continuations, `AsyncStream`, image download). They demonstrate concurrency primitives around network I/O, image decoding, timers and random data, and are not part of this model.
- `Text.Capitalized`: its own contract states only that the length is kept. On a single lower-case word (every raw value, the only input the core capitalizes) `CapitalizedLowerWord` fixes the result. For other strings only case-preservation and idempotence are stated (`CapitalizedIdempotent`); that each later word starts upper-case is not stated by any contract.
