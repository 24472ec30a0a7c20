/**
 * The page-level state of the movie discovery page and its event handlers,
 * in the script's own imperative form: fields updated in place. Every
 * handler is proved to leave the page exactly as the corresponding
 * `Workflow` function says, so the properties proved there hold of it.
 */
module App {
  import opened Wrappers
  import opened Movies
  import opened Text
  import opened Favorites
  import opened Picking
  import opened Workflow

  class Hub {
    var favorites: seq<Record>
    var currentMovie: Option<Record>
    var movieCount: nat
    /** Whether the loading indicator is visible. */
    var loading: bool
    /** The favorites list as last written to local storage. */
    ghost var stored: seq<Record>
    /** The record last rendered in the movie panel. */
    var displayed: Option<Record>
    /** What the statistics bar shows. */
    var stats: Stats
    ghost var requests: seq<Request>
    ghost var alerts: seq<Notice>

    ghost function Snapshot(): Page
      reads this
    {
      Page(favorites, currentMovie, movieCount, loading, stored, displayed, stats, requests, alerts)
    }

    /** The script's start (restoring the list from storage) followed by its `load` handler. */
    constructor (restored: seq<Record>)
      ensures Snapshot() == Load(restored)
    {
      movieCount := 0;
      favorites := restored;
      stored := restored;
      currentMovie := None;
      loading := false;
      displayed := None;
      requests := [GenreList];
      alerts := [];
      stats := Stats(0, |restored|);
    }

    method ShowLoading()
      modifies this`loading
      ensures loading
    {
      loading := true;
    }

    method HideLoading()
      modifies this`loading
      ensures !loading
    {
      loading := false;
    }

    method UpdateStats()
      modifies this`stats
      ensures stats == Stats(movieCount, |favorites|)
    {
      stats := Stats(movieCount, |favorites|);
    }

    /**
     * Sets the current movie to the base record, then renders it with its
     * fetched details spread over it; `details == None` is a detail fetch
     * that threw. Also the handler of a click on a favorites panel item.
     */
    method DisplayMovie(movie: Record, details: Option<Record>)
      modifies this
      ensures Snapshot() == Workflow.DisplayMovie(old(Snapshot()), movie, details)
    {
      currentMovie := Some(movie);
      requests := requests + [MovieDetails(IdOf(movie))];
      var shown := movie;
      if details.Some? {
        shown := Merge(movie, details.value);
      }
      displayed := Some(shown);
    }

    /** showRandomMovie, for the genre selection `selected`; `roll` is the value of `Math.random()`. */
    method ShowRandomMovie(selected: string, response: ListResponse, roll: Roll, details: Option<Record>)
      modifies this
      ensures Snapshot() == Discover(old(Snapshot()), selected, response, roll, details)
    {
      ShowLoading();
      requests := requests + [DiscoverMovies(GenreFilter(selected))];
      if response.Failed? {
        alerts := alerts + [ErrorLoadingMovies];
      } else if response.results.Some? && |response.results.value| > 0 {
        var results := response.results.value;
        var randomMovie := results[RandomIndex(roll, |results|)];
        DisplayMovie(randomMovie, details);
        movieCount := movieCount + 1;
        UpdateStats();
      } else {
        alerts := alerts + [NoMoviesForGenre];
      }
      HideLoading();
    }

    /** searchMovies, for the search box's text `input`. */
    method SearchMovies(input: string, response: ListResponse, details: Option<Record>)
      modifies this
      ensures Snapshot() == Search(old(Snapshot()), input, response, details)
    {
      ghost var before := Snapshot();
      var searchTerm := Trim(input);
      if searchTerm == "" {
        alerts := alerts + [EnterSearchTerm];
        return;
      }
      assert Search(before, input, response, details)
        == Settle(before, Request.SearchMovies(searchTerm), response, 0, details, ErrorSearchingMovies, NoMoviesForSearch);
      ShowLoading();
      requests := requests + [Request.SearchMovies(searchTerm)];
      ghost var started := Snapshot();
      assert started == Workflow.ShowLoading(before).(requests := before.requests + [Request.SearchMovies(searchTerm)]);
      if response.Failed? {
        alerts := alerts + [ErrorSearchingMovies];
      } else if response.results.Some? && |response.results.value| > 0 {
        DisplayMovie(response.results.value[0], details);
        movieCount := movieCount + 1;
        UpdateStats();
      } else {
        alerts := alerts + [NoMoviesForSearch];
      }
      HideLoading();
    }

    /** addToFavorites. */
    method AddToFavorites()
      modifies this
      ensures Snapshot() == Like(old(Snapshot()))
      ensures old(DistinctIds(favorites)) ==> DistinctIds(favorites)
    {
      if currentMovie.None? {
        return;
      }
      var movie := currentMovie.value;
      if IsFavorite(favorites, movie) {
        alerts := alerts + [AlreadyInFavorites];
        return;
      }
      favorites := favorites + [movie];
      stored := favorites;
      UpdateStats();
    }
  }
}
