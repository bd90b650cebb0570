/**
 * The movie record shown on every screen (`MovieDetailsModel`), the optional-field
 * records the network layer decodes (`MovieDetailsResponse`, `MovieListResponse`,
 * `Genre`), and the conversions between them.
 *
 * Swift's `Double` fields are modelled as `real`.
 */
module MovieModel {
  import opened Wrappers

  datatype Genre = Genre(id: int, name: string)

  /** `MovieDetailsModel`: every field is immutable except the favourite flag. */
  datatype Movie = Movie(
    id: int,
    title: string,
    overview: string,
    posterPath: string,
    releaseDate: string,
    voteAverage: real,
    voteCount: real,
    runtime: int,
    tagline: string,
    genres: seq<Genre>,
    isFavorite: bool)

  /** `MovieDetailsResponse`: as decoded from the server, every field but `id` may be missing. */
  datatype MovieResponse = MovieResponse(
    id: int,
    title: Option<string>,
    overview: Option<string>,
    posterPath: Option<string>,
    releaseDate: Option<string>,
    voteAverage: Option<real>,
    voteCount: Option<real>,
    runtime: Option<int>,
    tagline: Option<string>,
    genres: Option<seq<Genre>>)

  /** `MovieListResponse`: one page of results. */
  datatype MovieListResponse = MovieListResponse(
    page: int,
    results: seq<MovieResponse>,
    totalPages: int,
    totalResults: int)

  /** A failed request, reduced to the text of its `errorDescription` (which is never nil). */
  datatype ApiError = ApiError(description: string)

  /** The only mutation the source performs on a movie: overwrite the favourite flag. */
  function WithFavorite(m: Movie, flag: bool): (r: Movie)
    ensures r.isFavorite == flag
    ensures r.id == m.id
    ensures SameExceptFlag(r, m)
  {
    m.(isFavorite := flag)
  }

  /** `a` and `b` agree on every field except, possibly, `isFavorite`. */
  predicate SameExceptFlag(a: Movie, b: Movie) {
    a.(isFavorite := false) == b.(isFavorite := false)
  }

  /**
   * `toViewModel`: fill every missing field with its default and take the favourite flag
   * from the store (the caller passes the store's answer for `r.id`).
   */
  function ToViewModel(r: MovieResponse, isFavorite: bool): (m: Movie)
    ensures m.id == r.id && m.isFavorite == isFavorite
    ensures m.title == (if r.title.Some? then r.title.value else "")
    ensures m.overview == (if r.overview.Some? then r.overview.value else "")
    ensures m.posterPath == (if r.posterPath.Some? then r.posterPath.value else "poster")
    ensures m.releaseDate == (if r.releaseDate.Some? then r.releaseDate.value else "")
    ensures m.voteAverage == (if r.voteAverage.Some? then r.voteAverage.value else 0.0)
    ensures m.voteCount == (if r.voteCount.Some? then r.voteCount.value else 0.0)
    ensures m.runtime == (if r.runtime.Some? then r.runtime.value else 0)
    ensures m.tagline == (if r.tagline.Some? then r.tagline.value else "")
    ensures m.genres == (if r.genres.Some? then r.genres.value else [])
  {
    Movie(
      r.id,
      r.title.GetOr(""),
      r.overview.GetOr(""),
      r.posterPath.GetOr("poster"),
      r.releaseDate.GetOr(""),
      r.voteAverage.GetOr(0.0),
      r.voteCount.GetOr(0.0),
      r.runtime.GetOr(0),
      r.tagline.GetOr(""),
      r.genres.GetOr([]),
      isFavorite)
  }

  /** `.map { $0.toViewModel() }` over a page, each flag being the store's membership answer. */
  function ToViewModels(rs: seq<MovieResponse>, isFavorite: int -> bool): (ms: seq<Movie>)
    ensures |ms| == |rs|
    ensures forall i :: 0 <= i < |rs| ==> ms[i] == ToViewModel(rs[i], isFavorite(rs[i].id))
  {
    seq(|rs|, i requires 0 <= i < |rs| => ToViewModel(rs[i], isFavorite(rs[i].id)))
  }

  /** The response a server would send for a movie with every field present. */
  function FullResponse(m: Movie): MovieResponse {
    MovieResponse(m.id, Some(m.title), Some(m.overview), Some(m.posterPath), Some(m.releaseDate),
                  Some(m.voteAverage), Some(m.voteCount), Some(m.runtime), Some(m.tagline), Some(m.genres))
  }

  /** A response with every field present loses nothing in the conversion. */
  lemma ToViewModelOfFullResponse(m: Movie)
    ensures ToViewModel(FullResponse(m), m.isFavorite) == m
  {
  }

  /** `toFavoriteMovie`: a copy of the movie with the favourite flag raised. */
  function ToFavoriteMovie(m: Movie): (r: Movie)
    ensures r.isFavorite && r.id == m.id && SameExceptFlag(r, m)
  {
    Movie(m.id, m.title, m.overview, m.posterPath, m.releaseDate, m.voteAverage,
          m.voteCount, m.runtime, m.tagline, m.genres, true)
  }

  /** Raising the flag twice is raising it once, and a favourite copy is unchanged by it. */
  lemma ToFavoriteMovieIdempotent(m: Movie)
    ensures ToFavoriteMovie(ToFavoriteMovie(m)) == ToFavoriteMovie(m)
    ensures m.isFavorite ==> ToFavoriteMovie(m) == m
  {
  }

  /** `MovieDetailsModel.mock`: nil arguments become empty defaults; the flag is always false. */
  function Mock(id: int, title: Option<string>, overview: Option<string>, posterPath: Option<string>,
                releaseDate: Option<string>, voteAverage: Option<real>, voteCount: Option<real>,
                runtime: Option<int>, tagline: Option<string>, genres: Option<seq<Genre>>): (m: Movie)
    ensures !m.isFavorite && m.id == id
    ensures m.title == (if title.Some? then title.value else "")
    ensures m.overview == (if overview.Some? then overview.value else "")
    ensures m.posterPath == (if posterPath.Some? then posterPath.value else "")
    ensures m.releaseDate == (if releaseDate.Some? then releaseDate.value else "")
    ensures m.voteAverage == (if voteAverage.Some? then voteAverage.value else 0.0)
    ensures m.voteCount == (if voteCount.Some? then voteCount.value else 0.0)
    ensures m.runtime == (if runtime.Some? then runtime.value else 0)
    ensures m.tagline == (if tagline.Some? then tagline.value else "")
    ensures m.genres == (if genres.Some? then genres.value else [])
  {
    Movie(id, title.GetOr(""), overview.GetOr(""), posterPath.GetOr(""), releaseDate.GetOr(""),
          voteAverage.GetOr(0.0), voteCount.GetOr(0.0), runtime.GetOr(0), tagline.GetOr(""),
          genres.GetOr([]), false)
  }

  /** The default synopsis of `mock()`. */
  const MockOverview: string := "A ticking-time-bomb insomniac and a slippery soap salesman channel primal male aggression into a shocking new form of therapy. Their concept catches on, with underground \"fight clubs\" forming in every town, until an eccentric gets in the way and ignites an out-of-control spiral toward oblivion."

  /** `mock()` called with its default arguments. */
  function DefaultMock(): Movie {
    Mock(550, Some("Fight Club"),
         Some(MockOverview),
         Some("/pB8BM7pdSp6B6Ih7QZ4DrQ3PmJK.jpg"), Some("1999-10-15"), Some(8.433), Some(25000.0),
         Some(139), Some("Mischief. Mayhem. Soap."), Some([Genre(18, "Drama"), Genre(53, "Thriller")]))
  }

  lemma DefaultMockValues()
    ensures DefaultMock().id == 550 && DefaultMock().title == "Fight Club"
    ensures DefaultMock().genres == [Genre(18, "Drama"), Genre(53, "Thriller")]
    ensures DefaultMock().runtime == 139 && !DefaultMock().isFavorite
  {
  }

  /**
   * `mock` defaults a missing poster to "" where `toViewModel` defaults it to "poster":
   * the two constructors disagree on the same missing field.
   */
  lemma MockAndToViewModelDisagreeOnPoster(id: int)
    ensures Mock(id, None, None, None, None, None, None, None, None, None).posterPath == ""
    ensures ToViewModel(MovieResponse(id, None, None, None, None, None, None, None, None, None), false).posterPath == "poster"
  {
  }
}
