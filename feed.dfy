/**
 * `FeedViewModel`: the top-rated feed with infinite pagination and debounced search.
 *
 * Every asynchronous call is split in two: the method that issues the request (it returns
 * the request it issued) and the method that applies the response when it arrives on the
 * main queue (it takes the response and returns the delegate calls it makes). Each runs
 * atomically. The pure functions below are the state machine; the class is proved
 * against them.
 */
module Feed {
  import opened Wrappers
  import opened MovieModel
  import opened FavoritesStore
  import opened FavoriteSync
  import Debounce
  import Endpoints

  /** `paginationThreshold`. */
  const PaginationThreshold := 4
  /** The quiet interval of the search debouncer, in seconds. */
  const SearchDebounceInterval := 0.5

  datatype FeedState = TopRated | Searching(query: string)

  /** The delegate calls; the average rating string itself is not modelled. */
  datatype FeedEvent = DidFetchMovies | DidUpdateAverageRating | DidShowAlert(title: string, message: string)

  /** The fields of the view model that its methods update. */
  datatype Feed = Feed(movies: seq<Movie>, currentPage: int, totalPages: int, isLoading: bool, currentState: FeedState)

  const Initial := Feed([], 1, 1, false, TopRated)

  /** `fetchMovies(reset:)` up to the request: browsing mode first, then the `isLoading` guard. */
  function Fetch(f: Feed, reset: bool): Feed {
    if f.isLoading then f.(currentState := TopRated) else f.(currentState := TopRated, isLoading := true)
  }

  /** The request `fetchMovies(reset:)` issues: page 1 on reset, else page `currentPage`. */
  function FetchRequest(f: Feed, reset: bool): Option<Endpoints.Endpoint> {
    if f.isLoading then None else Some(Endpoints.TopRated(if reset then 1 else f.currentPage))
  }

  /** A page of results as the feed shows them, flags taken from the stored favourites `favs`. */
  function Page(response: MovieListResponse, favs: seq<Movie>): seq<Movie> {
    ToViewModels(response.results, id => HasId(favs, id))
  }

  /** The fetch completion: clear `isLoading`; on success replace or extend the list and the page counters. */
  function FetchCompleted(f: Feed, reset: bool, result: Result<MovieListResponse, ApiError>, favs: seq<Movie>): Feed {
    match result
    case Success(response) =>
      if reset then f.(isLoading := false, totalPages := response.totalPages, movies := Page(response, favs), currentPage := 1)
      else f.(isLoading := false, totalPages := response.totalPages, movies := f.movies + Page(response, favs), currentPage := f.currentPage + 1)
    case Failure(_) => f.(isLoading := false)
  }

  /** The delegate calls of a fetch completion. */
  function FetchEvents(result: Result<MovieListResponse, ApiError>): seq<FeedEvent> {
    match result
    case Success(_) => [DidFetchMovies, DidUpdateAverageRating]
    case Failure(e) => [DidShowAlert("Oops", e.description)]
  }

  /** The condition of `loadMoreMoviesIfNeeded(currentIndex:)`. */
  predicate ShouldLoadMore(f: Feed, currentIndex: int) {
    |f.movies| - currentIndex <= PaginationThreshold && f.currentPage < f.totalPages && !f.isLoading
  }

  /** `searchMovies(query:)` up to the debouncer: an empty query is a reset fetch. */
  function Search(f: Feed, query: string): Feed {
    if query == "" then Fetch(f, true) else f.(currentState := Searching(query))
  }

  /** The search completion: a success replaces the list only if the same query is still being searched. */
  function SearchCompleted(f: Feed, query: string, result: Result<MovieListResponse, ApiError>, favs: seq<Movie>): Feed {
    match result
    case Success(response) => if f.currentState == Searching(query) then f.(movies := Page(response, favs)) else f
    case Failure(_) => f
  }

  /** The delegate calls of a search completion: nothing for a stale success, an alert for any failure. */
  function SearchEvents(f: Feed, query: string, result: Result<MovieListResponse, ApiError>): seq<FeedEvent> {
    match result
    case Success(_) => if f.currentState == Searching(query) then [DidFetchMovies, DidUpdateAverageRating] else []
    case Failure(e) => [DidShowAlert("Oops", e.description)]
  }

  // ---------------------------------------------------------------------------------
  // Properties of the state machine.

  /**
   * Any fetch leaves browsing mode, even one the `isLoading` guard rejects; a rejected
   * fetch changes nothing else and issues nothing.
   */
  lemma FetchWhileLoading(f: Feed, reset: bool)
    requires f.isLoading
    ensures Fetch(f, reset) == f.(currentState := TopRated)
    ensures FetchRequest(f, reset) == None
  {
  }

  /** Any fetch call discards the response of any search still in flight. */
  lemma FetchInvalidatesSearch(f: Feed, reset: bool, query: string, result: Result<MovieListResponse, ApiError>, favs: seq<Movie>)
    ensures SearchCompleted(Fetch(f, reset), query, result, favs) == Fetch(f, reset)
  {
  }

  /** A completion clears `isLoading`; a failure touches nothing else. */
  lemma FetchFailureKeepsList(f: Feed, reset: bool, e: ApiError, favs: seq<Movie>)
    ensures FetchCompleted(f, reset, Failure(e), favs) == f.(isLoading := false)
  {
  }

  /** A reset replaces the list by exactly the first page, whatever was loaded before. */
  lemma ResetReplacesList(f: Feed, response: MovieListResponse, favs: seq<Movie>)
    ensures var g := FetchCompleted(Fetch(f, true), true, Success(response), favs);
      && g.movies == Page(response, favs)
      && g.currentPage == 1 && g.totalPages == response.totalPages && !g.isLoading
  {
  }

  /**
   * As written, a reset sets `currentPage` to 1 and a later load-more requests page
   * `currentPage`: the first page is requested, and appended, a second time.
   */
  lemma LoadMoreAfterResetRepeatsFirstPage(f: Feed, response: MovieListResponse, favs: seq<Movie>)
    ensures var g := FetchCompleted(Fetch(f, true), true, Success(response), favs);
      FetchRequest(g, false) == Some(Endpoints.TopRated(1))
  {
  }

  /** Loading pages one after another with non-reset fetches that all succeed. */
  function LoadPages(f: Feed, pages: seq<MovieListResponse>, favs: seq<Movie>): Feed
    decreases |pages|
  {
    if pages == [] then f
    else LoadPages(FetchCompleted(Fetch(f, false), false, Success(pages[0]), favs), pages[1..], favs)
  }

  function TotalResults(pages: seq<MovieListResponse>): nat
    decreases |pages|
  {
    if pages == [] then 0 else |pages[0].results| + TotalResults(pages[1..])
  }

  /**
   * Pagination: after n successful non-reset loads the page counter has grown by exactly
   * n, the earlier movies are still first, and the list has grown by the sizes of the
   * pages returned.
   */
  lemma {:induction false} PaginationMonotonic(f: Feed, pages: seq<MovieListResponse>, favs: seq<Movie>)
    requires !f.isLoading
    ensures var g := LoadPages(f, pages, favs);
      && g.currentPage == f.currentPage + |pages|
      && |g.movies| == |f.movies| + TotalResults(pages)
      && g.movies[..|f.movies|] == f.movies
      && !g.isLoading
    decreases |pages|
  {
    if pages != [] {
      var f1 := FetchCompleted(Fetch(f, false), false, Success(pages[0]), favs);
      PaginationMonotonic(f1, pages[1..], favs);
      var g := LoadPages(f1, pages[1..], favs);
      assert g.movies[..|f1.movies|][..|f.movies|] == g.movies[..|f.movies|];
    }
  }

  /** Each of those loads requested page `currentPage` as it stood before the load. */
  lemma NonResetRequestsCurrentPage(f: Feed)
    requires !f.isLoading
    ensures FetchRequest(f, false) == Some(Endpoints.TopRated(f.currentPage))
  {
  }

  /**
   * With 20 movies loaded, page 1 of 5, and the user at index 17, a load is issued; on the
   * last page none is.
   */
  lemma LoadMoreScenario(movies: seq<Movie>)
    requires |movies| == 20
    ensures ShouldLoadMore(Feed(movies, 1, 5, false, TopRated), 17)
    ensures !ShouldLoadMore(Feed(movies, 5, 5, false, TopRated), 17)
  {
  }

  /** Searching with a query sets the mode only; searches never touch loading or pages. */
  lemma SearchTouchesOnlyMode(f: Feed, query: string, result: Result<MovieListResponse, ApiError>, favs: seq<Movie>)
    requires query != ""
    ensures Search(f, query) == f.(currentState := Searching(query))
    ensures var g := SearchCompleted(f, query, result, favs);
      g.isLoading == f.isLoading && g.currentPage == f.currentPage && g.totalPages == f.totalPages && g.currentState == f.currentState
  {
  }

  /**
   * Staleness guard: a search response replaces the list iff the very same query is
   * still being searched; a newer query or a return to browsing discards it.
   */
  lemma SearchResponseAppliedIffCurrent(f: Feed, query: string, response: MovieListResponse, favs: seq<Movie>)
    ensures var g := SearchCompleted(f, query, Success(response), favs);
      if f.currentState == Searching(query) then g.movies == Page(response, favs) else g == f
  {
  }

  /** A newer, different query makes the older query's response stale. */
  lemma NewerQuerySupersedes(f: Feed, older: string, newer: string, result: Result<MovieListResponse, ApiError>, favs: seq<Movie>)
    requires older != newer
    ensures SearchCompleted(Search(f, newer), older, result, favs) == Search(f, newer)
  {
  }

  /** A search failure raises an alert whatever the mode. */
  lemma SearchFailureAlerts(f: Feed, query: string, e: ApiError)
    ensures SearchEvents(f, query, Failure(e)) == [DidShowAlert("Oops", e.description)]
  {
  }

  // ---------------------------------------------------------------------------------

  class FeedViewModel {
    const store: DefaultFavoritesStore
    const debouncer: Debounce.Debouncer<string>
    var movies: seq<Movie>
    var currentPage: int
    var totalPages: int
    var isLoading: bool
    var currentState: FeedState
    var favoritesObserverId: Option<Handle>

    ghost predicate Valid()
      reads this, store, debouncer
    {
      store.Valid() && debouncer.Valid()
    }

    ghost function State(): Feed
      reads this
    {
      Feed(movies, currentPage, totalPages, isLoading, currentState)
    }

    /** `init`: empty feed on page 1 of 1, browsing; observes the store. */
    constructor (store: DefaultFavoritesStore)
      requires store.Valid()
      modifies store
      ensures Valid() && this.store == store && fresh(debouncer)
      ensures State() == Initial
      ensures debouncer.pending == None && debouncer.interval == SearchDebounceInterval
      ensures favoritesObserverId == Some(old(store.nextHandle))
      ensures store.Model() == Step(old(store.Model()), ObserveFavorites)
      ensures store.deliveries == old(store.deliveries) + [Delivery(old(store.nextHandle), store.Items())]
    {
      this.store := store;
      debouncer := new Debounce.Debouncer(SearchDebounceInterval);
      movies := [];
      currentPage := 1;
      totalPages := 1;
      isLoading := false;
      currentState := TopRated;
      new;
      var h := store.ObserveFavorites();
      favoritesObserverId := Some(h);
    }

    /** `fetchMovies(reset:)`: issues the request, if any; the response comes to `CompleteFetch`. */
    method FetchMovies(reset: bool) returns (request: Option<Endpoints.Endpoint>)
      modifies this
      ensures State() == Fetch(old(State()), reset)
      ensures request == FetchRequest(old(State()), reset)
      ensures favoritesObserverId == old(favoritesObserverId)
    {
      currentState := TopRated;
      if isLoading {
        return None;
      }
      isLoading := true;
      var page := if reset then 1 else currentPage;
      request := Some(Endpoints.TopRated(page));
    }

    /** The completion of `fetchMovies(reset:)`, with the response that arrived. */
    method CompleteFetch(reset: bool, result: Result<MovieListResponse, ApiError>) returns (events: seq<FeedEvent>)
      modifies this
      ensures State() == FetchCompleted(old(State()), reset, result, store.Items())
      ensures events == FetchEvents(result)
      ensures favoritesObserverId == old(favoritesObserverId)
    {
      isLoading := false;
      match result {
        case Success(response) =>
          var favs := store.AllFavorites();
          totalPages := response.totalPages;
          if reset {
            movies := Page(response, favs);
            currentPage := 1;
          } else {
            movies := movies + Page(response, favs);
            currentPage := currentPage + 1;
          }
          events := [DidFetchMovies, DidUpdateAverageRating];
        case Failure(e) =>
          events := [DidShowAlert("Oops", e.description)];
      }
    }

    /** `loadMoreMoviesIfNeeded(currentIndex:)`: a non-reset fetch when near the end, else nothing. */
    method LoadMoreMoviesIfNeeded(currentIndex: int) returns (request: Option<Endpoints.Endpoint>)
      modifies this
      ensures ShouldLoadMore(old(State()), currentIndex) ==>
        State() == Fetch(old(State()), false) && request == FetchRequest(old(State()), false)
      ensures !ShouldLoadMore(old(State()), currentIndex) ==> State() == old(State()) && request == None
      ensures favoritesObserverId == old(favoritesObserverId)
    {
      var itemsRemaining := |movies| - currentIndex;
      if itemsRemaining <= PaginationThreshold && currentPage < totalPages && !isLoading {
        request := FetchMovies(false);
      } else {
        request := None;
      }
    }

    /**
     * `searchMovies(query:)`: an empty query is exactly `fetchMovies(reset: true)`;
     * otherwise enter search mode and hand the query to the debouncer.
     */
    method SearchMovies(query: string) returns (request: Option<Endpoints.Endpoint>)
      requires Valid()
      modifies this, debouncer
      ensures Valid()
      ensures State() == Search(old(State()), query)
      ensures query == "" ==> request == FetchRequest(old(State()), true)
      ensures query == "" ==> debouncer.pending == old(debouncer.pending) && debouncer.events == old(debouncer.events)
      ensures query != "" ==> request == None && debouncer.pending == Some(query)
      ensures query != "" ==> debouncer.events == old(debouncer.events) + [Debounce.Call(query)]
      ensures favoritesObserverId == old(favoritesObserverId)
    {
      if query == "" {
        request := FetchMovies(true);
        return;
      }
      currentState := Searching(query);
      debouncer.Call(query);
      request := None;
    }

    /** The debounce timer fires: the pending block searches page 1 for its query. */
    method SearchTimerFired() returns (request: Option<Endpoints.Endpoint>)
      requires Valid()
      modifies debouncer
      ensures Valid() && debouncer.pending == None
      ensures request == if old(debouncer.pending).Some? then Some(Endpoints.Search(old(debouncer.pending).value, 1)) else None
      ensures debouncer.events == old(debouncer.events) + [Debounce.Fire]
    {
      var block := debouncer.Fire();
      request := if block.Some? then Some(Endpoints.Search(block.value, 1)) else None;
    }

    /** The completion of a search for `query`, with the response that arrived. */
    method CompleteSearch(query: string, result: Result<MovieListResponse, ApiError>) returns (events: seq<FeedEvent>)
      modifies this
      ensures State() == SearchCompleted(old(State()), query, result, store.Items())
      ensures events == SearchEvents(old(State()), query, result)
      ensures favoritesObserverId == old(favoritesObserverId)
    {
      match result {
        case Success(response) =>
          if currentState == Searching(query) {
            var favs := store.AllFavorites();
            movies := Page(response, favs);
            events := [DidFetchMovies, DidUpdateAverageRating];
          } else {
            events := [];
          }
        case Failure(e) =>
          events := [DidShowAlert("Oops", e.description)];
      }
    }

    /** `movie(at:)`: the movie at a non-negative index, or nil past the end. */
    function MovieAt(index: int): (m: Option<Movie>)
      reads this
      requires 0 <= index
      ensures index < |movies| <==> m.Some?
      ensures m.Some? ==> m.value == movies[index]
    {
      if index < |movies| then Some(movies[index]) else None
    }

    /** `toggleFavorite(for:)`: flips store membership of the id; the list itself is left alone. */
    method ToggleFavorite(movie: Movie)
      requires Valid()
      modifies store
      ensures Valid()
      ensures store.Items() == Toggled(old(store.Items()), movie)
      ensures store.observers == old(store.observers)
      ensures store.NotifiedAfter(old(store.deliveries))
    {
      var isFavorite := store.IsFavorite(movie.id);
      if isFavorite {
        store.RemoveFavorite(movie.id);
      } else {
        store.AddFavorite(ToFavoriteMovie(movie));
      }
    }

    /** `refreshMoviesFavoriteStatus`: rewrite, index by index, every flag that differs from the store. */
    method RefreshMoviesFavoriteStatus()
      modifies this
      ensures movies == Reconcile(old(movies), store.Items())
      ensures State() == old(State()).(movies := movies)
      ensures favoritesObserverId == old(favoritesObserverId)
    {
      var i := 0;
      while i < |movies|
        invariant 0 <= i <= |movies| == |old(movies)|
        invariant forall k :: 0 <= k < i ==> movies[k] == WithFavorite(old(movies)[k], HasId(store.Items(), old(movies)[k].id))
        invariant forall k :: i <= k < |movies| ==> movies[k] == old(movies)[k]
        invariant State() == old(State()).(movies := movies)
        invariant favoritesObserverId == old(favoritesObserverId)
      {
        var isFavorite := store.IsFavorite(movies[i].id);
        if movies[i].isFavorite != isFavorite {
          movies := movies[i := WithFavorite(movies[i], isFavorite)];
        }
        i := i + 1;
      }
    }

    /** The observer installed by `init`, run on the main queue after a store change. */
    method FavoritesDidChange() returns (events: seq<FeedEvent>)
      modifies this
      ensures movies == Reconcile(old(movies), store.Items())
      ensures State() == old(State()).(movies := movies)
      ensures events == [DidFetchMovies, DidUpdateAverageRating]
    {
      RefreshMoviesFavoriteStatus();
      events := [DidFetchMovies, DidUpdateAverageRating];
    }

    /** `deinit`: unregister the observer installed by `init`. */
    method Release()
      requires Valid()
      modifies store
      ensures Valid()
      ensures favoritesObserverId.Some? ==> store.Model() == Step(old(store.Model()), RemoveObserver(favoritesObserverId.value))
      ensures favoritesObserverId.None? ==> store.Model() == old(store.Model())
      ensures store.deliveries == old(store.deliveries)
    {
      if favoritesObserverId.Some? {
        store.RemoveObserver(favoritesObserverId.value);
      }
    }
  }
}
