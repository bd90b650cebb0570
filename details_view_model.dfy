/**
 * `DetailsViewModel`: the details screen of one movie. It starts from the movie it was
 * opened with, replaces it by the fetched details when they arrive, and toggles the movie
 * in the favourites store. The fetch is split into the request and its completion.
 */
module Details {
  import opened Wrappers
  import opened MovieModel
  import opened FavoritesStore
  import opened FavoriteSync
  import Endpoints

  /** `State`. */
  datatype DetailsState = Ready | Error(message: string)

  class DetailsViewModel {
    const store: DefaultFavoritesStore
    var state: DetailsState
    var movie: Movie
    var showMore: bool
    var isFavorite: bool

    ghost predicate Valid()
      reads this, store
    {
      store.Valid()
    }

    /** `init`: show the movie as given, its flag as given, and ask for its details. */
    constructor (movie: Movie, store: DefaultFavoritesStore)
      requires store.Valid()
      ensures Valid() && this.store == store
      ensures this.movie == movie && isFavorite == movie.isFavorite
      ensures state == Ready && !showMore
    {
      this.store := store;
      this.movie := movie;
      state := Ready;
      showMore := false;
      isFavorite := movie.isFavorite;
    }

    /** `fetchMovieDetails`: the request for the details of the movie shown. */
    method FetchMovieDetails() returns (request: Endpoints.Endpoint)
      ensures request == Endpoints.MovieDetails(movie.id)
    {
      request := Endpoints.MovieDetails(movie.id);
    }

    /**
     * The completion of `fetchMovieDetails`: on success the movie becomes the details,
     * flagged by the store, and the state is ready; on failure the state carries the
     * error's description and the movie shown stays. `isFavorite` is left alone either way.
     */
    method CompleteDetails(result: Result<MovieResponse, ApiError>)
      modifies this
      ensures result.Success? ==> movie == ToViewModel(result.value, HasId(store.Items(), result.value.id)) && state == Ready
      ensures result.Failure? ==> movie == old(movie) && state == Error(result.error.description)
      ensures isFavorite == old(isFavorite) && showMore == old(showMore)
    {
      match result {
        case Success(details) =>
          var flag := store.IsFavorite(details.id);
          movie := ToViewModel(details, flag);
          state := Ready;
        case Failure(e) =>
          state := Error(e.description);
      }
    }

    /**
     * `toggleFavorite(for:)`: a stored id is removed and the flag cleared; any other movie
     * is stored, flagged as a favourite, and the flag set.
     */
    method ToggleFavorite(m: Movie)
      requires Valid()
      modifies this, store
      ensures Valid()
      ensures store.Items() == Toggled(old(store.Items()), m)
      ensures isFavorite == HasId(store.Items(), m.id)
      ensures isFavorite == !HasId(old(store.Items()), m.id)
      ensures store.observers == old(store.observers)
      ensures store.NotifiedAfter(old(store.deliveries))
      ensures movie == old(movie) && state == old(state) && showMore == old(showMore)
    {
      ghost var before := store.Items();
      var stored := store.IsFavorite(m.id);
      if stored {
        store.RemoveFavorite(m.id);
        isFavorite := false;
      } else {
        store.AddFavorite(ToFavoriteMovie(m));
        isFavorite := true;
      }
      assert store.Items() == Toggled(before, m);
      ToggleFlips(before, m, m.id + 1);
    }
  }
}
