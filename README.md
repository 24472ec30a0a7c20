# Movie Discovery Hub — a verified model of the page state

The Movie Discovery Hub is a browser page that shows movies from an online catalog. It can show a random popular movie, optionally of one genre ("discover"). It can show the first match of a title search. The user can like the movie shown, which adds it to a favorites list kept in local storage. Its application state is held in a few page-level variables:

- `favorites`: the liked movies, restored from local storage when the page loads;
- `currentMovie`: the movie last displayed;
- `movieCount`: the number of movies displayed by the discover and search handlers since load. A movie shown twice is counted twice, and a movie re-displayed from the favorites panel is not counted.

There is also a loading indicator that the discover and search handlers show, and hide again on every exit path.

This project models that state and its handlers. The model comes in two forms:

- `Workflow`: each handler is a function from the page before a user action to the page after it. The lemmas about those functions cover single actions and whole sequences of actions.
- `App.Hub`: a class whose fields are the page-level variables. Its methods update those fields in place, as the script does, and each method is proved to produce exactly the page the `Workflow` function describes.

Inputs the page gets from outside are parameters:

- the network's answers: a list response, or a detail record that may be missing because its fetch threw;
- the genre selection;
- the text in the search box;
- the value of `Math.random()`.

Two logs are kept in the page so that the model can state when a request is, or is not, issued and when an alert is shown: the requests the page sends and the alerts it raises.

Modules:

- `Wrappers`: `Option`.
- `Movies`: movie records as maps from property names to JSON values, and the object-spread merge of details over a base record. Arrays and objects are compared by reference, so `===` on ids is equality of these values, with numbers taken as exact reals (see "Left out"). `undefined` is `None`.
- `Text`: `String.prototype.trim` over the ECMAScript white-space and line-terminator characters, as two index scans.
- `Favorites`: the duplicate check `favorites.some(fav => fav.id === movie.id)` and the "distinct ids" invariant.
- `Picking`: `Math.floor(Math.random() * n)`.
- `Workflow`: the page as a value, one function per handler, runs of actions and their lemmas.
- `App`: the class `Hub`.

Three points of the script's behaviour that the model follows closely:

- A failure while loading genres is only logged; no alert is shown.
- The view counter is increased by the discover and search handlers after `displayMovie` returns, not by `displayMovie` itself. So re-displaying a movie from the favorites panel does not count it.
- `currentMovie` is set to the unmerged base record before the details are fetched and before anything is rendered.

## Model

| member | source | states |
|---|---|---|
| `Movies.Merge` | script.js:169 | the merged record has every property of the base and of the details; a detail value wins on overlap; other base values are kept |
| `Movies.Rendered` | script.js:166-172 | the rendered record keeps every base property; if the detail fetch threw, it is the base record unchanged; otherwise the detail fields override the base fields |
| `Movies.IdOf` | script.js:248 | `movie.id` is defined exactly when the record has an `id` property, and is then that property's value |
| `Text.SkipSpace` | script.js:129 | the scan forward stops at the first character that is not white space, or at the end; everything it passed is white space |
| `Text.SkipSpaceBack` | script.js:129 | the scan backward stops just after the last character that is not white space, or at its lower bound; everything it passed is white space |
| `Text.Trim` | script.js:129 | the trimmed text is the slice of the input that starts at the first non-space character, with only white space cut from both ends. It is empty exactly when the input is all white space, and otherwise starts and ends with a non-space character |
| `Favorites.IsFavorite` | script.js:248 | the duplicate check holds exactly when some listed favorite has an id `===` to the movie's id |
| `Favorites.AppendDistinct` | script.js:248-255 | appending keeps ids distinct if and only if the list had distinct ids and the movie's id was not already listed |
| `Picking.RandomIndex` | script.js:112 | the index picked from a roll in [0, 1) is a valid index of the non-empty result list |
| `Picking.EveryIndexReachable` | script.js:112 | every index of the result list is picked for some roll |
| `Workflow.Load` | script.js:6-19 | at load, favorites and storage hold the restored list as it is; there is no current movie; the counter is 0; the genre list is requested; the page is consistent |
| `Workflow.MessagesDiffer` | script.js:117-154 | the alerts of the handlers have pairwise different texts |
| `Workflow.ShowLoading` | script.js:73-81 | the loading indicator becomes visible and nothing else of the page changes |
| `Workflow.HideLoading` | script.js:84-92 | the loading indicator is hidden and nothing else of the page changes |
| `Workflow.UpdateStats` | script.js:318-329 | the stats bar shows the counter and the length of the favorites list, and nothing else changes |
| `Workflow.GenreFilter` | script.js:103-105 | the genre is added to the discover request exactly when the selection is not the empty string, and then it is the selection itself |
| `Workflow.DisplayMovie` | script.js:161-172 | the current movie becomes the base record, not the merged one. The panel shows the details over the base, with exactly the properties of both, or the base alone when the detail fetch threw. One detail request is issued. Nothing else changes |
| `Workflow.Settle` | script.js:99-124 | after the indicator is shown and the list request is issued: on non-empty results, the element at the chosen index is displayed, its detail request follows the list request, the counter rises by exactly 1 and the stats are refreshed; otherwise the display and counter stay as they were, only the list request is issued, and the alert for a failure or for an empty list is raised. The indicator is hidden at the end, favorites and storage are untouched, and page consistency is preserved |
| `Workflow.Discover` | script.js:95-125 | the indicator is hidden at the end. A discover request (with the genre only when one is selected) comes first. On non-empty results, the element at index `Math.floor(roll * n)` (always within the list) is displayed, exactly the discover request and that movie's detail request are issued, the counter rises by exactly 1 and the stats are refreshed. On empty or missing results or on failure, the display and counter are unchanged and the matching alert is raised. Favorites and storage are untouched |
| `Workflow.Search` | script.js:128-158 | input that is all white space raises "enter a search term" and changes nothing else: no request, no indicator, no count. Otherwise the trimmed text is searched and the indicator is hidden at the end. On non-empty results, the first result is displayed and counted, and exactly the search request and its detail request are issued. Otherwise the display and counter are unchanged and the matching alert is raised |
| `Workflow.Like` | script.js:245-258 | without a current movie, nothing changes. If its id is already listed, only an alert is raised. Otherwise it is appended after the unchanged earlier entries, storage then equals the new list and the stats are refreshed. Distinct ids and page consistency are preserved |
| `Workflow.Step` | script.js:58-67 | any user action only appends to favorites. The actions are discover, search and like, wired up at these lines, and a click on a favorites item, wired up at script.js:308-311. It raises the counter by 1 exactly when it displayed a discover or search result. It preserves distinct ids and page consistency |
| `Workflow.RunKeepsDistinctIds` | script.js:245-256 | after any sequence of actions, a favorites list with distinct ids still has distinct ids |
| `Workflow.RunKeepsConsistent` | script.js:94-158 | after any sequence of actions, storage equals the favorites list, the stats bar shows the current counts, the indicator is hidden, and the panel shows the current movie |
| `Workflow.RunOnlyAppendsFavorites` | script.js:255 | after any sequence of actions, the old favorites list is a prefix of the new one |
| `Workflow.RunCountsDisplays` | script.js:111-154 | after any sequence of actions, the counter has risen by exactly the number of discover and search actions that displayed a result |
| `Workflow.Session` | script.js:6-19 | from page load with a restored list of distinct ids, any session keeps ids distinct and the page consistent; the counter equals the number of counted displays |
| `Workflow.LikeTwice` | script.js:248-253 | pressing like twice adds the movie at most once |
| `Workflow.LikeSavesBaseRecord` | script.js:163-255 | liking right after a display saves the base record passed to `displayMovie`, not the record merged with its details |
| `App.Hub.constructor` | script.js:6-19 | the new page state is `Workflow.Load` of the restored list |
| `App.Hub.ShowLoading` | script.js:73-81 | the loading indicator is visible |
| `App.Hub.HideLoading` | script.js:84-92 | the loading indicator is hidden |
| `App.Hub.UpdateStats` | script.js:318-329 | the stats bar shows the counter and the length of the favorites list |
| `App.Hub.DisplayMovie` | script.js:161-172 | the new page state is `Workflow.DisplayMovie` of the old one |
| `App.Hub.ShowRandomMovie` | script.js:95-125 | the new page state is `Workflow.Discover` of the old one |
| `App.Hub.SearchMovies` | script.js:128-158 | the new page state is `Workflow.Search` of the old one |
| `App.Hub.AddToFavorites` | script.js:245-258 | the new page state is `Workflow.Like` of the old one; distinct ids are preserved |

## Left out

- server.js: the proxy only forwards requests to the catalog, and its route wiring and start-up check are outside the page state. It is not part of this model.
- Rendering is not modelled. This covers the DOM built by `displayMovie`, `loadFavorites` and `updateStats`: the poster or placeholder, the one-decimal rating (floating point), the release year, runtime and genre tags, and the overview fallback. The panel is modelled as the record it shows, and the stats bar as the two numbers it shows.
- Exceptions thrown while rendering are not modelled. Examples are a missing DOM element, or a truthy `vote_average` that is not a number, so that `toFixed` throws. In the script such an exception leaves `currentMovie` set but skips the counter. In the model, rendering always completes.
- `loadGenres` is modelled only as the genre request issued at load. Filling the genre selector is DOM work, and a failure is only logged.
- Fetching, URL construction, `encodeURIComponent` and the hard-coded catalog key are not modelled. A request is recorded by its kind and its parameters.
- Local storage is modelled as a whole-list value written after each append. JSON serialisation is not modelled.
- `Workflow.Like`: a `localStorage.setItem` that throws is not modelled. It can throw when the quota is exceeded or storage is disabled. In the script the `push` has already happened by then, so `favorites` holds the new movie. `updateStats` and `loadFavorites` are skipped, and the exception escapes the click handler. Storage, the stats bar and the favorites panel then keep their old values, so `stored == favorites` (part of `Workflow.Consistent`) no longer holds of the script. In the model every write succeeds.
- `Workflow.Load`: a stored value that is not valid JSON is not modelled; `JSON.parse` would throw and the script would stop at start-up. Neither is a stored value that parses to something other than an array of objects. The restored list is a parameter of type `seq<Record>`.
- A list response is reduced to "threw" or its `results` property. A `null` body, non-object list elements and a detail body that is not a JSON object are not modelled.
- `Math.random()` is modelled as any real in [0, 1). Its distribution, and floating-point rounding of the product, are not modelled.
- The two-second "Added!" feedback on the like button (a `setTimeout`) is not modelled.
- Concurrency is not modelled. Overlapping discover or search calls whose answers arrive out of order are left out. The loading flag of one call can be cleared by another. Handlers run one after another in the model.
- `nextMovie` only calls `showRandomMovie`, so `App.Hub.ShowRandomMovie` models it. Clicking a favorites item calls `displayMovie` on that item without awaiting it and scrolls the panel into view. The model keeps only the `displayMovie` call; the scrolling is not modelled.
- The script has no code for removing favorites, debounced suggestions, a theme toggle or keyboard shortcuts, so none of these is modelled.
- Numbers, ids included, are exact reals. JavaScript compares doubles, so two numeric ids written differently in JSON that round to the same double are `===` in the script but different in the model.
- `NaN` cannot occur as a JSON value, so the model has no `NaN`. It would be the one number for which `===` is not equality.
