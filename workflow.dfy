/**
 * The page's application state and the handlers that change it, as values:
 * each handler is a function from the page before the user's action to the
 * page after it. Network answers, the genre selection, the search box's text
 * and `Math.random()` are inputs; the requests issued and the alerts shown
 * are recorded in the page so that "no request", "no alert" can be stated.
 */
module Workflow {
  import opened Wrappers
  import opened Movies
  import opened Text
  import opened Favorites
  import opened Picking

  /** The blocking alerts the page can raise. */
  datatype Notice =
    | EnterSearchTerm
    | NoMoviesForGenre
    | NoMoviesForSearch
    | ErrorLoadingMovies
    | ErrorSearchingMovies
    | AlreadyInFavorites

  /** The text of each alert. */
  function Message(n: Notice): string {
    match n
    case EnterSearchTerm => "Please enter a search term!"
    case NoMoviesForGenre => "No movies found for this genre!"
    case NoMoviesForSearch => "No movies found for your search!"
    case ErrorLoadingMovies => "Error loading movies. Please try again."
    case ErrorSearchingMovies => "Error searching movies. Please try again."
    case AlreadyInFavorites => "This movie is already in your favorites!"
  }

  /** Different alerts show different texts, so the alert log determines what the user was told. */
  lemma MessagesDiffer(a: Notice, b: Notice)
    ensures Message(a) == Message(b) ==> a == b
  {
  }

  /** The catalog requests the page issues. */
  datatype Request =
    | GenreList
    | DiscoverMovies(genre: Option<string>)
    | SearchMovies(query: string)
    | MovieDetails(id: Option<Value>)

  /**
   * The outcome of a discover or search request: `Failed` when the fetch or
   * the JSON decoding threw; otherwise the body's `results` property, `None`
   * when it is missing or null.
   */
  datatype ListResponse = Failed | Answered(results: Option<seq<Record>>) {
    /** `data.results && data.results.length > 0` */
    predicate Found() {
      Answered? && results.Some? && |results.value| > 0
    }
  }

  /** The two numbers the statistics bar shows. */
  datatype Stats = Stats(moviesDiscovered: nat, favoriteCount: nat)

  /**
   * The page. `favorites`, `current` and `movieCount` are the page-level
   * variables; `loading` is whether the loading indicator is visible;
   * `stored` is what local storage holds under `movieFavorites`;
   * `displayed` is the record last rendered in the movie panel; `stats` is
   * what the statistics bar shows.
   */
  datatype Page = Page(
    favorites: seq<Record>,
    current: Option<Record>,
    movieCount: nat,
    loading: bool,
    stored: seq<Record>,
    displayed: Option<Record>,
    stats: Stats,
    requests: seq<Request>,
    alerts: seq<Notice>)

  function CountsOf(p: Page): Stats {
    Stats(p.movieCount, |p.favorites|)
  }

  /**
   * The page between user actions: storage mirrors the list, the statistics
   * bar is up to date, no indicator is showing, and the panel shows the
   * current movie (with at least all of its fields) once there is one.
   */
  predicate Consistent(p: Page) {
    && p.stored == p.favorites
    && p.stats == CountsOf(p)
    && !p.loading
    && (p.current.None? <==> p.displayed.None?)
    && (p.current.Some? && p.displayed.Some? ==> p.current.value.Keys <= p.displayed.value.Keys)
  }

  /**
   * The script's start and its `load` handler: the list is restored from
   * storage as it is (no duplicate check), the counter starts at zero, the
   * genre list is requested and the statistics bar is filled in.
   */
  function Load(restored: seq<Record>): (p: Page)
    ensures p.favorites == restored && p.current == None && p.movieCount == 0
    ensures p.requests == [GenreList] && p.alerts == []
    ensures Consistent(p)
  {
    Page(restored, None, 0, false, restored, None, Stats(0, |restored|), [GenreList], [])
  }

  /** showLoading: the indicator becomes visible; nothing else of the page changes. */
  function ShowLoading(p: Page): (q: Page)
    ensures q.loading && q.(loading := p.loading) == p
  {
    p.(loading := true)
  }

  /** hideLoading: the indicator is hidden; nothing else of the page changes. */
  function HideLoading(p: Page): (q: Page)
    ensures !q.loading && q.(loading := p.loading) == p
  {
    p.(loading := false)
  }

  /** updateStats: the bar shows the counter and the number of favorites; nothing else changes. */
  function UpdateStats(p: Page): (q: Page)
    ensures q.stats == Stats(q.movieCount, |q.favorites|) && q.(stats := p.stats) == p
  {
    p.(stats := CountsOf(p))
  }

  /** The discover request's genre filter: a selection is sent exactly when it is not the empty string. */
  function GenreFilter(selected: string): (r: Option<string>)
    ensures r.None? <==> selected == ""
    ensures r.Some? ==> r.value == selected
  {
    if selected == "" then None else Some(selected)
  }

  /**
   * displayMovie: the base record becomes the current movie before its
   * details are fetched; the panel shows the details spread over it, or the
   * base record alone when the detail fetch threw. Nothing else changes.
   */
  function DisplayMovie(p: Page, movie: Record, details: Option<Record>): (q: Page)
    ensures q.current == Some(movie)
    ensures q.displayed.Some? && movie.Keys <= q.displayed.value.Keys
    ensures details.None? ==> q.displayed == Some(movie)
    ensures details.Some? ==> q.displayed.value.Keys == movie.Keys + details.value.Keys
    ensures details.Some? ==> forall k :: k in details.value ==> k in q.displayed.value && q.displayed.value[k] == details.value[k]
    ensures forall k :: k in movie && (details.None? || k !in details.value) ==> q.displayed.value[k] == movie[k]
    ensures q.requests == p.requests + [MovieDetails(IdOf(movie))]
    ensures q.(current := p.current, displayed := p.displayed, requests := p.requests) == p
  {
    var asked := p.(current := Some(movie), requests := p.requests + [MovieDetails(IdOf(movie))]);
    asked.(displayed := Some(Rendered(movie, details)))
  }

  /**
   * The part shared by showRandomMovie and searchMovies once the request is
   * known: show the indicator, issue `request`; on a non-empty result list
   * display the element at `pick`, count it and refresh the statistics; on
   * an empty or missing list raise `empty`, on a failure raise `failed`;
   * hide the indicator on every path (the `finally`).
   */
  function Settle(p: Page, request: Request, response: ListResponse, pick: nat, details: Option<Record>,
                  failed: Notice, empty: Notice): (q: Page)
    requires response.Found() ==> pick < |response.results.value|
    ensures !q.loading
    ensures q.favorites == p.favorites && q.stored == p.stored
    ensures q.movieCount == if response.Found() then p.movieCount + 1 else p.movieCount
    ensures response.Found() ==>
      var movie := response.results.value[pick];
      && q.current == Some(movie)
      && q.displayed == Some(Rendered(movie, details))
      && q.requests == p.requests + [request, MovieDetails(IdOf(movie))]
      && q.alerts == p.alerts
      && q.stats == CountsOf(q)
    ensures !response.Found() ==>
      && q.current == p.current && q.displayed == p.displayed && q.stats == p.stats
      && q.requests == p.requests + [request]
      && q.alerts == p.alerts + [if response.Failed? then failed else empty]
    ensures Consistent(p) ==> Consistent(q)
  {
    var started := ShowLoading(p).(requests := p.requests + [request]);
    var settled :=
      if response.Found() then
        var shown := DisplayMovie(started, response.results.value[pick], details);
        UpdateStats(shown.(movieCount := shown.movieCount + 1))
      else
        started.(alerts := started.alerts + [if response.Failed? then failed else empty]);
    HideLoading(settled)
  }

  /**
   * showRandomMovie: request the popular movies (of the selected genre, if
   * any) and display the result at the index the roll picks.
   */
  function Discover(p: Page, selected: string, response: ListResponse, roll: Roll, details: Option<Record>): (q: Page)
    ensures !q.loading
    ensures q.favorites == p.favorites && q.stored == p.stored
    ensures q.movieCount == if response.Found() then p.movieCount + 1 else p.movieCount
    ensures response.Found() ==>
      var results := response.results.value;
      && q.current == Some(results[RandomIndex(roll, |results|)])
      && (exists k :: 0 <= k < |results| && q.current == Some(results[k]))
      && q.displayed == Some(Rendered(q.current.value, details))
      && q.requests == p.requests + [DiscoverMovies(GenreFilter(selected)), MovieDetails(IdOf(q.current.value))]
      && q.alerts == p.alerts && q.stats == CountsOf(q)
    ensures !response.Found() ==>
      && q.current == p.current && q.displayed == p.displayed && q.stats == p.stats
      && q.requests == p.requests + [DiscoverMovies(GenreFilter(selected))]
      && q.alerts == p.alerts + [if response.Failed? then ErrorLoadingMovies else NoMoviesForGenre]
    ensures Consistent(p) ==> Consistent(q)
  {
    var pick := if response.Found() then RandomIndex(roll, |response.results.value|) else 0;
    Settle(p, DiscoverMovies(GenreFilter(selected)), response, pick, details, ErrorLoadingMovies, NoMoviesForGenre)
  }

  /**
   * searchMovies: a search box holding only white space raises an alert and
   * does nothing else (no request, no indicator); otherwise search for the
   * trimmed text and display the first result.
   */
  function Search(p: Page, input: string, response: ListResponse, details: Option<Record>): (q: Page)
    ensures AllSpace(input) ==> q == p.(alerts := p.alerts + [EnterSearchTerm])
    ensures !AllSpace(input) ==> !q.loading
    ensures q.favorites == p.favorites && q.stored == p.stored
    ensures q.movieCount == if !AllSpace(input) && response.Found() then p.movieCount + 1 else p.movieCount
    ensures !AllSpace(input) && response.Found() ==>
      var first := response.results.value[0];
      && q.current == Some(first)
      && q.displayed == Some(Rendered(first, details))
      && q.requests == p.requests + [SearchMovies(Trim(input)), MovieDetails(IdOf(first))]
      && q.alerts == p.alerts && q.stats == CountsOf(q)
    ensures !AllSpace(input) && !response.Found() ==>
      && q.current == p.current && q.displayed == p.displayed && q.stats == p.stats
      && q.requests == p.requests + [SearchMovies(Trim(input))]
      && q.alerts == p.alerts + [if response.Failed? then ErrorSearchingMovies else NoMoviesForSearch]
    ensures Consistent(p) ==> Consistent(q)
  {
    var term := Trim(input);
    if term == "" then
      p.(alerts := p.alerts + [EnterSearchTerm])
    else
      Settle(p, SearchMovies(term), response, 0, details, ErrorSearchingMovies, NoMoviesForSearch)
  }

  /**
   * addToFavorites: nothing without a current movie; an alert and no change
   * when its id is already listed; otherwise it is appended, the whole list
   * is written to storage and the statistics bar is refreshed.
   */
  function Like(p: Page): (q: Page)
    ensures p.current.None? ==> q == p
    ensures p.current.Some? && IsFavorite(p.favorites, p.current.value) ==>
      q == p.(alerts := p.alerts + [AlreadyInFavorites])
    ensures p.current.Some? && !IsFavorite(p.favorites, p.current.value) ==>
      && |q.favorites| == |p.favorites| + 1
      && q.favorites[..|p.favorites|] == p.favorites
      && q.favorites[|p.favorites|] == p.current.value
      && q.stored == q.favorites
      && q.stats == CountsOf(q)
      && q.(favorites := p.favorites, stored := p.stored, stats := p.stats) == p
    ensures DistinctIds(p.favorites) ==> DistinctIds(q.favorites)
    ensures Consistent(p) ==> Consistent(q)
  {
    match p.current
    case None => p
    case Some(movie) =>
      if IsFavorite(p.favorites, movie) then
        p.(alerts := p.alerts + [AlreadyInFavorites])
      else
        AppendDistinct(p.favorites, movie);
        var grown := p.(favorites := p.favorites + [movie]);
        UpdateStats(grown.(stored := grown.favorites))
  }

  /** One user action, with what the environment answers to it. */
  datatype Action =
    | PressDiscover(selected: string, response: ListResponse, roll: Roll, details: Option<Record>)
    | PressSearch(input: string, response: ListResponse, details: Option<Record>)
    | PressLike
      /** A click on the `index`-th item of the favorites panel, which displays that movie. */
    | OpenFavorite(index: nat, details: Option<Record>)

  /** Whether an action ends with a movie displayed and counted; it does not depend on the page. */
  predicate Counts(a: Action) {
    match a
    case PressDiscover(_, response, _, _) => response.Found()
    case PressSearch(input, response, _) => !AllSpace(input) && response.Found()
    case _ => false
  }

  function Step(p: Page, a: Action): (q: Page)
    ensures |p.favorites| <= |q.favorites| && q.favorites[..|p.favorites|] == p.favorites
    ensures q.movieCount == if Counts(a) then p.movieCount + 1 else p.movieCount
    ensures DistinctIds(p.favorites) ==> DistinctIds(q.favorites)
    ensures Consistent(p) ==> Consistent(q)
  {
    match a
    case PressDiscover(selected, response, roll, details) => Discover(p, selected, response, roll, details)
    case PressSearch(input, response, details) => Search(p, input, response, details)
    case PressLike => Like(p)
    case OpenFavorite(index, details) =>
      // the panel has one clickable item per favorite
      if index < |p.favorites| then DisplayMovie(p, p.favorites[index], details) else p
  }

  /** The page after a sequence of user actions, in order. */
  function Run(p: Page, actions: seq<Action>): Page
    decreases |actions|
  {
    if actions == [] then p else Run(Step(p, actions[0]), actions[1..])
  }

  /** How many of the actions display and count a movie. */
  function CountedActions(actions: seq<Action>): nat
    decreases |actions|
  {
    if actions == [] then 0
    else (if Counts(actions[0]) then 1 else 0) + CountedActions(actions[1..])
  }

  /** No sequence of actions introduces two favorites with the same id. */
  lemma {:induction false} RunKeepsDistinctIds(p: Page, actions: seq<Action>)
    requires DistinctIds(p.favorites)
    ensures DistinctIds(Run(p, actions).favorites)
    decreases |actions|
  {
    if actions != [] {
      RunKeepsDistinctIds(Step(p, actions[0]), actions[1..]);
    }
  }

  /** Between actions, storage mirrors the list, the statistics are current and the indicator is hidden. */
  lemma {:induction false} RunKeepsConsistent(p: Page, actions: seq<Action>)
    requires Consistent(p)
    ensures Consistent(Run(p, actions))
    decreases |actions|
  {
    if actions != [] {
      RunKeepsConsistent(Step(p, actions[0]), actions[1..]);
    }
  }

  /** Favorites are only ever appended: earlier entries keep their places. */
  lemma {:induction false} RunOnlyAppendsFavorites(p: Page, actions: seq<Action>)
    ensures |p.favorites| <= |Run(p, actions).favorites|
    ensures Run(p, actions).favorites[..|p.favorites|] == p.favorites
    decreases |actions|
  {
    if actions != [] {
      var q := Step(p, actions[0]);
      RunOnlyAppendsFavorites(q, actions[1..]);
      var r := Run(q, actions[1..]);
      assert r.favorites[..|p.favorites|] == r.favorites[..|q.favorites|][..|p.favorites|];
    }
  }

  /** The view counter counts exactly the discover and search actions that displayed a movie. */
  lemma {:induction false} RunCountsDisplays(p: Page, actions: seq<Action>)
    ensures Run(p, actions).movieCount == p.movieCount + CountedActions(actions)
    decreases |actions|
  {
    if actions != [] {
      RunCountsDisplays(Step(p, actions[0]), actions[1..]);
    }
  }

  /** A whole session from page load: restored distinct favorites stay distinct, and the page stays consistent. */
  lemma Session(restored: seq<Record>, actions: seq<Action>)
    requires DistinctIds(restored)
    ensures DistinctIds(Run(Load(restored), actions).favorites)
    ensures Consistent(Run(Load(restored), actions))
    ensures Run(Load(restored), actions).movieCount == CountedActions(actions)
  {
    RunKeepsDistinctIds(Load(restored), actions);
    RunKeepsConsistent(Load(restored), actions);
    RunCountsDisplays(Load(restored), actions);
  }

  /** Liking twice adds the movie once: the second press finds it and only alerts. */
  lemma LikeTwice(p: Page)
    ensures Like(Like(p)).favorites == Like(p).favorites
  {
  }

  /**
   * What is saved is the base record the list or search returned, not the
   * record merged with its details: liking right after a display appends
   * exactly the record passed to displayMovie.
   */
  lemma LikeSavesBaseRecord(p: Page, movie: Record, details: Option<Record>)
    requires !IsFavorite(p.favorites, movie)
    ensures Like(DisplayMovie(p, movie, details)).favorites == p.favorites + [movie]
  {
  }
}
