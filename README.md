# TestForInterview state layer, in Dafny

TestForInterview is an iOS app. It browses the top-rated movies of a movie database, searches them, shows the details of one movie, and keeps a persisted list of favourite movies. This project models the app's state layer and proves properties of it:

- **Favourites store** (`favorites_store.dfy`). `DefaultFavoritesStore` is the single source of truth for favourites.
  - Its list is persisted in one slot. Every mutation saves the list and then calls every registered observer with the list as saved.
  - The class has one map entry per observer handle and a ghost log of deliveries, so fan-out, the call on subscribe and silence after removal can be stated.
  - The repository carries two near-identical copies of this class. `Persistence/FavoritesStore.swift` uses `allFavorites` and `observeFavorites`. `Persistence/DefaultFavoritesStore.swift` uses `fetchFavoriteMovies` and `startObserving`: `isFavorite` 21-23, `addFavorite` 25-35, `removeFavorite` 37-45, `fetchFavoriteMovies` 47-51, `startObserving` 55-62, `removeObserver` 64-67, `notify` 78-81.
  - Both copies map onto the one class below. The doc comments of `Persistence/FavoritesStoreProtocol.swift` (lines 10-37) are the contracts of its methods.
  - A pure state machine (`Step`, `Run`) describes the store over any sequence of calls. The class methods are proved against it.
- **Flag synchronisation** (`favorite_sync.dfy`). `Reconcile` is what the screens' `refreshMoviesFavoriteStatus` leaves behind. `Toggled` is what `toggleFavorite` leaves in the store.
- **Feed** (`feed.dfy`). `FeedViewModel` handles infinite pagination of the top-rated list, a debounced search, and the staleness guard on search responses.
  - Every asynchronous call is split in two. One method issues the request and returns it. A completion method takes the response and returns the delegate calls it makes. Each runs atomically.
  - Pure functions (`Fetch`, `FetchCompleted`, `Search`, `SearchCompleted`, ...) are the state machine, and the class is proved against them.
- **Debouncer** (`debouncer.dfy`). This is a single pending-block slot. The timer expiring is an input event, and a trace of events says which blocks have run.
- **Favourites screen** (`favorites_view_model.dfy`) and **details screen** (`details_view_model.dfy`). These keep local lists and flags against the store.
- **Small pure pieces**:
  - the `MovieDetailsModel` record and the response-to-model mappings (`movie_model.dfy`);
  - `Endpoint.path` and `Endpoint.queryItems` (`endpoint.dfy`);
  - the star rule of `StarRatingView` (`star_rating.dfy`);
  - the formatting and UTF-8 chunking of `AppLoger` (`app_logger.dfy`).

The model follows the code as written, including these behaviours:

- **Load-more page number.** A non-reset fetch requests page `currentPage`, not `currentPage + 1`.
- **Reset page counter.** A reset sets `currentPage` to 1. The next load-more therefore requests page 1 again and appends it a second time (`Feed.LoadMoreAfterResetRepeatsFirstPage`).
- **Fetch leaves search mode.** `fetchMovies` leaves search mode before its `isLoading` guard. Any fetch call therefore makes a running search's response stale.
- **Leaked observer.** When the favourites screen is built with `init(viewModel:favoritesStore:)`, its observer is installed twice: that initialiser calls `setupFavoritesObserver` (FavoritesViewController.swift:23-28), and `viewDidLoad` calls it again (line 41). The first handle is then never released (`Favorites.SecondSetupLeaksFirstHandle`). A screen built by `init?(coder:)` installs it once, in `viewDidLoad`.
- **Missing `posterPath` defaults.** `MovieDetailsModel.mock` defaults a missing `posterPath` to `""`, while `toViewModel` defaults it to `"poster"`.

Notation:

- Swift `Double` is modelled as `real`, and `Int` as `int`.
- Observer UUIDs are modelled as a counter `Handle`.
- A network result is a `Result<_, ApiError>` whose error carries its description.

## Model

| member | source | states |
|---|---|---|
| MovieModel.WithFavorite | TestForInterview/Scenes/Feed/FeedViewModel.swift:168-170 | the copy has the given flag, the same id, and every other field unchanged |
| MovieModel.ToViewModel | TestForInterview/Scenes/Details/DetailsViewModel.swift:64-80 | keeps the id; each missing field takes its default: "" for text, "poster" for posterPath, 0 for numbers, [] for genres; the flag is the one given |
| MovieModel.ToViewModels | TestForInterview/Scenes/Feed/FeedViewModel.swift:110 | mapping a page keeps its length and order, and each element is the mapped response |
| MovieModel.ToViewModelOfFullResponse | TestForInterview/Scenes/Feed/FeedViewModel.swift:176-192 | a response with every field present maps back to exactly the model it came from |
| MovieModel.ToFavoriteMovie | TestForInterview/Scenes/Details/DetailsViewModel.swift:82-97 | the copy is flagged favourite, keeps the id and every other field |
| MovieModel.ToFavoriteMovieIdempotent | TestForInterview/Scenes/Feed/FeedViewModel.swift:194-209 | applying it twice is applying it once; a movie already flagged is returned unchanged |
| MovieModel.Mock | TestForInterview/Scenes/Details/Models/MovieDetailsModel.swift:21-44 | never a favourite; keeps the id; each nil argument gives "" / 0 / [] (posterPath "") |
| MovieModel.DefaultMockValues | TestForInterview/Scenes/Details/Models/MovieDetailsModel.swift:21-30 | the default mock is id 550 "Fight Club", runtime 139, genres 18 Drama and 53 Thriller, not a favourite |
| MovieModel.MockAndToViewModelDisagreeOnPoster | TestForInterview/Scenes/Details/Models/MovieDetailsModel.swift:35 | for a missing poster path, mock gives "" and toViewModel gives "poster" |
| FavoritesStore.Decode | TestForInterview/Persistence/FavoritesStore.swift:50-54 | nothing saved, or bytes that do not decode, read as the empty list; otherwise the saved list |
| FavoritesStore.HasId | TestForInterview/Persistence/FavoritesStore.swift:24-26 | true iff some item of the list has the id |
| FavoritesStore.RemoveAll | TestForInterview/Persistence/FavoritesStore.swift:43 | the result is no longer, and holds exactly the items of the list whose id differs |
| FavoritesStore.RemoveAllMembership | TestForInterview/Persistence/FavoritesStore.swift:43 | afterwards the id is absent and membership of every other id is unchanged |
| FavoritesStore.RemoveAllConcat | TestForInterview/Persistence/FavoritesStore.swift:43 | removal works piecewise over a concatenation, so the order of the rest is kept |
| FavoritesStore.RemoveAllAbsent | TestForInterview/Persistence/FavoritesStore.swift:43 | removing an id that is not stored leaves the list identical |
| FavoritesStore.RemoveAllKeepsUniqueIds | TestForInterview/Persistence/FavoritesStore.swift:42-44 | removal keeps ids pairwise distinct |
| FavoritesStore.AddedKeepsUniqueIds | TestForInterview/Persistence/FavoritesStore.swift:30-33 | adding keeps ids pairwise distinct and leaves the id stored |
| FavoritesStore.AddedIdempotent | TestForInterview/Persistence/FavoritesStore.swift:31 | a second add of the same movie changes nothing |
| FavoritesStore.AddThenRemove | TestForInterview/Persistence/FavoritesStore.swift:28-47 | removing a freshly added id restores the list exactly |
| FavoritesStore.AddToEmpty | TestForInterview/Persistence/FavoritesStore.swift:30-32 | adding to an empty store stores exactly that movie |
| FavoritesStore.RunKeepsUniqueIds | TestForInterview/Persistence/FavoritesStore.swift:28-48 | stored ids stay pairwise distinct across any sequence of add, remove and observer calls |
| FavoritesStore.RemovedHandleStaysRemoved | TestForInterview/Persistence/FavoritesStore.swift:61-73 | a removed handle is never registered again, whatever calls follow, because fresh handles are never reused |
| FavoritesStore.FanOutAvoids | TestForInterview/Persistence/FavoritesStore.swift:74-77 | a notification to the registered handles adds no delivery to a handle that is not registered |
| FavoritesStore.RemovedObserverIsNotCalled | TestForInterview/Persistence/FavoritesStore.swift:28-77 | after subscribing and unsubscribing, adding and removing favourites deliver nothing to the removed handle; its only delivery is the one on subscribing |
| FavoritesStore.FanOutStep | TestForInterview/Persistence/FavoritesStore.swift:77 | calling one more observer, not called before, extends a once-each fan-out to its handle |
| FavoritesStore.DefaultFavoritesStore.constructor | TestForInterview/Persistence/FavoritesStore.swift:19-22 | starts over the persisted slot with no observers and nothing delivered |
| FavoritesStore.DefaultFavoritesStore.IsFavorite | TestForInterview/Persistence/FavoritesStore.swift:24-26 | true iff the stored list holds the id |
| FavoritesStore.DefaultFavoritesStore.AllFavorites | TestForInterview/Persistence/FavoritesStore.swift:50-54 | the saved list, or [] when nothing is saved or it does not decode |
| FavoritesStore.DefaultFavoritesStore.AddFavorite | TestForInterview/Persistence/FavoritesStore.swift:28-38 | a stored id: nothing saved, nobody called; a new id: appended after the earlier items, saved, every observer called once with the new list |
| FavoritesStore.DefaultFavoritesStore.RemoveFavorite | TestForInterview/Persistence/FavoritesStore.swift:40-48 | every item with the id removed, the rest in order; always saved and always notified, even if the id was absent |
| FavoritesStore.DefaultFavoritesStore.ObserveFavorites | TestForInterview/Persistence/FavoritesStore.swift:61-68 | registers a handle never used before, calls it once with the current list, and returns it |
| FavoritesStore.DefaultFavoritesStore.RemoveObserver | TestForInterview/Persistence/FavoritesStore.swift:70-73 | removes only that handle; nothing saved, nobody called |
| FavoritesStore.DefaultFavoritesStore.Notify | TestForInterview/Persistence/FavoritesStore.swift:75-78 | appends to the log exactly one delivery of the current list to each registered handle and to no one else |
| FavoriteSync.ReconcileSpec | TestForInterview/Scenes/Feed/FeedViewModel.swift:164-173 | the refresh keeps length, order, ids and every field but the flag; each flag becomes store membership of its id |
| FavoriteSync.ReconcileInSync | TestForInterview/Scenes/Feed/FeedViewModel.swift:167 | when every flag already matches the store, the refresh changes nothing |
| FavoriteSync.ReconcileIdempotent | TestForInterview/Scenes/Feed/FeedViewModel.swift:164-173 | refreshing twice against the same store is refreshing once |
| FavoriteSync.ReconcileSnoc | TestForInterview/Scenes/Feed/FeedViewModel.swift:165-171 | the refresh treats each index independently |
| FavoriteSync.ToggleFlips | TestForInterview/Scenes/Feed/FeedViewModel.swift:142-148 | a toggle flips store membership of the movie's id and of no other id |
| FavoriteSync.ToggleTwice | TestForInterview/Scenes/Details/DetailsViewModel.swift:53-61 | two toggles restore membership of the id; from a store without it, they restore the list exactly |
| FavoriteSync.ToggleKeepsUniqueIds | TestForInterview/Scenes/Feed/FeedViewModel.swift:142-148 | a toggle keeps stored ids pairwise distinct |
| FavoriteSync.RefreshAfterToggle | TestForInterview/Scenes/Feed/FeedViewModel.swift:48-54 | after a toggle and the refresh it triggers, exactly the rows with the toggled id flip their flag, and nothing else changes |
| Debounce.Pending | TestForInterview/Helpers/Debouncer.swift:18-28 | a block is pending iff the last event was a call, and it is that call's block |
| Debounce.RanCalls | TestForInterview/Helpers/Debouncer.swift:21 | every block that ran was a call directly followed by the timer firing, and each ran at most once, in order |
| Debounce.CallBeforeFireRuns | TestForInterview/Helpers/Debouncer.swift:21 | conversely, every call directly followed by the timer firing has run |
| Debounce.SupersededCallNeverRuns | TestForInterview/Helpers/Debouncer.swift:20 | a call followed by another call or an invalidation never runs |
| Debounce.RanAfterFire | TestForInterview/Helpers/Debouncer.swift:21 | the timer firing runs the pending block, if any, and nothing else |
| Debounce.RanAfterOther | TestForInterview/Helpers/Debouncer.swift:18-28 | calls and invalidations run nothing |
| Debounce.BurstRunsLastOnly | TestForInterview/Helpers/Debouncer.swift:18-22 | the burst call(a), call(b), then the timer, runs b alone |
| Debounce.InvalidateDiscards | TestForInterview/Helpers/Debouncer.swift:25-28 | a call that is invalidated before the timer fires never runs |
| Debounce.Debouncer.constructor | TestForInterview/Helpers/Debouncer.swift:14-16 | the interval is fixed at construction, and nothing is pending |
| Debounce.Debouncer.Call | TestForInterview/Helpers/Debouncer.swift:18-22 | the new block replaces any pending one; nothing runs |
| Debounce.Debouncer.Fire | TestForInterview/Helpers/Debouncer.swift:21 | returns the pending block, which runs once; afterwards nothing is pending |
| Debounce.Debouncer.Invalidate | TestForInterview/Helpers/Debouncer.swift:25-28 | nothing is pending afterwards, even if nothing was before; nothing runs |
| Endpoints.NatToDecimal | TestForInterview/Network/Endpoint.swift:27 | a non-empty string of decimal digits with no leading zero (0 is "0"), longer than one digit iff the number is 10 or more |
| Endpoints.Decimal | TestForInterview/Network/Endpoint.swift:18 | a minus sign followed by the digits of the magnitude for a negative number, the plain digits otherwise |
| Endpoints.Path | TestForInterview/Network/Endpoint.swift:15-21 | "/movie/top_rated", "/search/movie", or "/movie/" and the decimal id, which never equals the top-rated path |
| Endpoints.NatRoundTrip | TestForInterview/Network/Endpoint.swift:27 | reading back the digits of a natural number gives that number |
| Endpoints.DecimalRoundTrip | TestForInterview/Network/Endpoint.swift:18 | reading back the decimal rendering of any integer gives that integer |
| Endpoints.QueryItems | TestForInterview/Network/Endpoint.swift:23-35 | the first item is always language=en-US |
| Endpoints.RequestRoundTrip | TestForInterview/Network/Endpoint.swift:15-35 | the request is recovered from its path and query items. The three paths are distinct; items come in the order [language, page] or [language, query, page, include_adult=false] or [language]; the query is carried unchanged and the page and id in decimal |
| StarRating.ImageName | TestForInterview/Scenes/Details/Views/StarRatingView.swift:43-52 | "star.fill" iff rating - index >= 1; "star.leadinghalf.fill" iff 0.5 <= rating - index < 1; "star" iff rating - index < 0.5; a nil rating counts as 0 |
| StarRating.StarsOrdered | TestForInterview/Scenes/Details/Views/StarRatingView.swift:27-52 | along the five stars: filled, then at most one half star, then empty, never out of that order |
| StarRating.FullRatingAllFilled | TestForInterview/Scenes/Details/Views/StarRatingView.swift:45-46 | a rating of 5 or more fills all five stars |
| StarRating.MissingRatingAllEmpty | TestForInterview/Scenes/Details/Views/StarRatingView.swift:44 | a nil rating shows five empty stars, the same as a rating of 0 |
| StarRating.ThreeAndAHalf | TestForInterview/Scenes/Details/Views/StarRatingView.swift:43-52 | 3.5 shows three filled, one half and one empty star |
| AppLogger.Uppercased | TestForInterview/Helpers/AppLoger.swift:45 | same length; no lower-case ASCII letter is left, each becomes the capital at the same place in the alphabet, and every other character is kept |
| AppLogger.UppercasedIdempotent | TestForInterview/Helpers/AppLoger.swift:45 | upper-casing twice is upper-casing once |
| AppLogger.UppercasedRawValues | TestForInterview/Helpers/AppLoger.swift:45 | the four type names print as DEBUG, NETWORK, PERSISTENCE and ERROR |
| AppLogger.PrefixOfPersistence | TestForInterview/Helpers/AppLoger.swift:45 | the persistence prefix is the floppy-disk emoji, then " [PERSISTENCE]" |
| AppLogger.Format | TestForInterview/Helpers/AppLoger.swift:45-53 | the line starts with the time, a space, the prefix, a space and the title; without a message that is all, with one it goes on with ": " and the message |
| AppLogger.FormatWithMessage | TestForInterview/Helpers/AppLoger.swift:49-53 | a message only adds ": " and the message after the line without one; the line is never empty |
| AppLogger.Utf8Char | TestForInterview/Helpers/AppLoger.swift:76 | 1, 2, 3 or 4 bytes for values below 0x80, 0x800, 0x10000 or above, with the matching lead byte; every later byte in 0x80..0xBF; the bytes decode back to the character's value |
| AppLogger.Utf8CharInjective | TestForInterview/Helpers/AppLoger.swift:76 | distinct characters have distinct encodings |
| AppLogger.Utf8 | TestForInterview/Helpers/AppLoger.swift:76 | at least one byte per character; empty iff the string is empty |
| AppLogger.Utf8Append | TestForInterview/Helpers/AppLoger.swift:76 | the encoding of a concatenation is the concatenation of the encodings |
| AppLogger.Utf8Cons | TestForInterview/Helpers/AppLoger.swift:76 | a string's encoding is its first character's encoding followed by the rest's |
| AppLogger.PrintInChunks | TestForInterview/Helpers/AppLoger.swift:75-85 | the chunks, laid end to end, are the message's UTF-8 bytes; each is non-empty and at most 10240 bytes; all but the last are exactly 10240; an empty message emits none |
| AppLogger.Log | TestForInterview/Helpers/AppLoger.swift:37-56 | nothing when shouldPrint is false; otherwise the chunks of the formatted line, at least one |
| Feed.FetchWhileLoading | TestForInterview/Scenes/Feed/FeedViewModel.swift:93-95 | a fetch while loading only switches to browsing mode and issues nothing |
| Feed.FetchInvalidatesSearch | TestForInterview/Scenes/Feed/FeedViewModel.swift:93 | after any fetch call, any search response still in flight is discarded |
| Feed.FetchFailureKeepsList | TestForInterview/Scenes/Feed/FeedViewModel.swift:120-121 | a failed fetch clears isLoading and changes nothing else |
| Feed.ResetReplacesList | TestForInterview/Scenes/Feed/FeedViewModel.swift:107-111 | a successful reset leaves exactly the page's results, mapped and flagged by the store (`Page`), with currentPage 1 and totalPages from the response |
| Feed.LoadMoreAfterResetRepeatsFirstPage | TestForInterview/Scenes/Feed/FeedViewModel.swift:98-111 | after a successful reset, the next load-more requests page 1 again |
| Feed.PaginationMonotonic | TestForInterview/Scenes/Feed/FeedViewModel.swift:113-114 | after n successful non-reset loads, currentPage has grown by exactly n, the earlier movies come first, and the list has grown by the sizes of the pages |
| Feed.NonResetRequestsCurrentPage | TestForInterview/Scenes/Feed/FeedViewModel.swift:98 | a non-reset fetch requests page currentPage |
| Feed.LoadMoreScenario | TestForInterview/Scenes/Feed/FeedViewModel.swift:127-135 | with 20 movies, at index 17, page 1 of 5 loads more; page 5 of 5 does not |
| Feed.SearchTouchesOnlyMode | TestForInterview/Scenes/Feed/FeedViewModel.swift:71 | a non-empty search changes only the mode, to searching(query); its completion never touches isLoading, currentPage, totalPages or the mode |
| Feed.SearchResponseAppliedIffCurrent | TestForInterview/Scenes/Feed/FeedViewModel.swift:79-80 | a search response replaces the list iff the very same query is still being searched; otherwise nothing changes |
| Feed.NewerQuerySupersedes | TestForInterview/Scenes/Feed/FeedViewModel.swift:71-79 | once a different query is searched, the older query's response is discarded |
| Feed.SearchFailureAlerts | TestForInterview/Scenes/Feed/FeedViewModel.swift:84-85 | a search failure raises the "Oops" alert with the error's description, whatever the mode |
| Feed.FeedViewModel.constructor | TestForInterview/Scenes/Feed/FeedViewModel.swift:43-55 | an empty feed on page 1 of 1, browsing; a debouncer with 0.5 s; subscribed to the store under a fresh handle |
| Feed.FeedViewModel.FetchMovies | TestForInterview/Scenes/Feed/FeedViewModel.swift:92-98 | browsing mode first; then, unless loading, isLoading is set and page 1 (reset) or currentPage is requested |
| Feed.FeedViewModel.CompleteFetch | TestForInterview/Scenes/Feed/FeedViewModel.swift:100-124 | isLoading cleared. Success: totalPages set, the page replaces the list with currentPage 1 (reset) or is appended with currentPage + 1, flags taken from the store. Failure: an alert and nothing else |
| Feed.FeedViewModel.LoadMoreMoviesIfNeeded | TestForInterview/Scenes/Feed/FeedViewModel.swift:127-135 | a non-reset fetch iff movies.count - index <= 4, currentPage < totalPages and not loading; otherwise nothing changes |
| Feed.FeedViewModel.SearchMovies | TestForInterview/Scenes/Feed/FeedViewModel.swift:65-73 | an empty query is exactly a reset fetch; otherwise the mode becomes searching(query) and the query is handed to the debouncer |
| Feed.FeedViewModel.SearchTimerFired | TestForInterview/Scenes/Feed/FeedViewModel.swift:73-75 | the debounced block requests page 1 of the last query handed over, once |
| Feed.FeedViewModel.CompleteSearch | TestForInterview/Scenes/Feed/FeedViewModel.swift:76-87 | success replaces the list only while the same query is searched; failure alerts |
| Feed.FeedViewModel.MovieAt | TestForInterview/Scenes/Feed/FeedViewModel.swift:137-140 | the movie at the index, or nil iff the index is past the end |
| Feed.FeedViewModel.ToggleFavorite | TestForInterview/Scenes/Feed/FeedViewModel.swift:142-148 | the store becomes Toggled, which flips membership of the id; observers are unchanged and all notified; the list is untouched |
| Feed.FeedViewModel.RefreshMoviesFavoriteStatus | TestForInterview/Scenes/Feed/FeedViewModel.swift:164-173 | the list becomes Reconcile of the old list against the store; nothing else changes |
| Feed.FeedViewModel.FavoritesDidChange | TestForInterview/Scenes/Feed/FeedViewModel.swift:48-54 | the observer refreshes the flags, then reports the movies fetched and the average rating updated |
| Feed.FeedViewModel.Release | TestForInterview/Scenes/Feed/FeedViewModel.swift:57-61 | the handle taken in init is unregistered, and nothing is delivered |
| Favorites.RemovedAt | TestForInterview/Scenes/Favorites/FavoritesViewModel.swift:61 | exactly the element at the index is gone; the others keep their order |
| Favorites.RemoveRowKeepsInSync | TestForInterview/Scenes/Favorites/FavoritesViewModel.swift:58-63 | while the screen shows the stored list, dropping a row locally equals the store dropping its id |
| Favorites.RemovedElsewhereStaysListed | TestForInterview/Scenes/Favorites/FavoritesViewModel.swift:67-87 | a favourite removed elsewhere stays listed, with its flag cleared; the list keeps its length |
| Favorites.SecondSetupLeaksFirstHandle | TestForInterview/Scenes/Favorites/FavoritesViewModel.swift:32-45 | two setups and one deinit leave the first handle registered |
| Favorites.FavoritesViewModel.constructor | TestForInterview/Scenes/Favorites/FavoritesViewModel.swift:27-30 | the list is the store's current list; no observer yet |
| Favorites.FavoritesViewModel.SetupFavoritesObserver | TestForInterview/Scenes/Favorites/FavoritesViewModel.swift:32-39 | registers a fresh handle and overwrites the remembered one |
| Favorites.FavoritesViewModel.Release | TestForInterview/Scenes/Favorites/FavoritesViewModel.swift:41-45 | unregisters only the handle remembered last |
| Favorites.FavoritesViewModel.LoadFavorites | TestForInterview/Scenes/Favorites/FavoritesViewModel.swift:49-51 | the list becomes the store's current list |
| Favorites.FavoritesViewModel.MovieAt | TestForInterview/Scenes/Favorites/FavoritesViewModel.swift:53-56 | the movie at the index, or nil iff the index is past the end |
| Favorites.FavoritesViewModel.RemoveFavorite | TestForInterview/Scenes/Favorites/FavoritesViewModel.swift:58-63 | past the end, nothing. Otherwise exactly that row goes, its id is removed from the store, and observers are notified. A screen in step with the store stays in step |
| Favorites.FavoritesViewModel.RefreshMoviesFavoriteStatus | TestForInterview/Scenes/Favorites/FavoritesViewModel.swift:67-87 | the list becomes Reconcile of the old list against the store |
| Details.DetailsViewModel.constructor | TestForInterview/Scenes/Details/DetailsViewModel.swift:26-34 | shows the given movie; isFavorite is its flag; the state is ready |
| Details.DetailsViewModel.FetchMovieDetails | TestForInterview/Scenes/Details/DetailsViewModel.swift:38-39 | requests the details of the movie shown |
| Details.DetailsViewModel.CompleteDetails | TestForInterview/Scenes/Details/DetailsViewModel.swift:40-50 | success: the movie becomes the details, flagged by the store, and the state is ready. Failure: the state is error(description) and the movie stays. isFavorite is untouched either way |
| Details.DetailsViewModel.ToggleFavorite | TestForInterview/Scenes/Details/DetailsViewModel.swift:53-61 | the store becomes Toggled; isFavorite equals the new store membership, which is the opposite of the old |

## Left out

- **Network I/O.** `APIClient` (URL sessions, headers, status checks, JSON decoding) is not part of this model. Responses are parameters of the completion methods, and requests are returned as `Endpoint` values.
- **JSON encoding of the persisted list.** It is modelled as the identity, plus an explicit `Corrupt` slot for bytes that do not decode. `UserDefaults` is the store's `slot` field.
- **API error descriptions.** `APIError.errorDescription` is never nil for any case, so the `"Something went wrong"` fallbacks are never reached. A failure carries its description as a string, and the descriptions built from foreign errors are not modelled.
- **Concurrency.** `DispatchQueue.main.async`, the store's serial `queue.sync` and `Timer` scheduling are replaced by atomic steps. The asynchronous hop inside `Debouncer.call` is not modelled: a call takes effect at once.
- **Closures and UUIDs.** An observer is a handle issued by a counter, and each call of its closure is a ghost delivery record.
- **`weak self` and `deinit` timing.** `deinit` is an explicit `Release` method.
- **`DIContainer.shared`.** `toViewModel` reads the favourites store through this global. It is modelled as the store the view model was given, which is the same instance in the app.
- **Average rating.** `calculateAverageRating` (a `Double` sum and `"%.2f"` formatting) is floating-point work. Only the delegate call that reports it is modelled.
- **Doubles.** `Double` is `real`: there is no NaN, infinity or rounding.
- **Formatters, UI and logging side effects.** `String.toYear`, `asFormattedString`, all views and view controllers, and the actual `print` calls are not modelled. The clock reading of `AppLoger` is a parameter.
- **Static `AppLoger.log`.** It forwards its arguments unchanged to the shared instance, which is `AppLogger.Log`. Default arguments are not modelled: a caller that omits `type` logs with `Debug` (AppLoger.swift:39 and 60), and `title` defaults to the calling function's name, which is a parameter here.
- **Decoding the chunks.** `String(decoding:as:)` turns each chunk back into text for printing; the model stops at the bytes.
- **Emoji literals.** The emoji in `AppLoger.swift` are stored with a mis-decoded text encoding. The model uses the emoji they were meant to be.
- Feed.NewerQuerySupersedes: queries, here and in `Feed.SearchCompleted` and `Feed.SearchResponseAppliedIffCurrent`, are compared as sequences of Unicode scalar values. Swift's `String ==` (FeedViewModel.swift:79) also equates canonically equivalent strings, such as "e" followed by a combining acute accent and the precomposed "é", so for two such queries the app applies the older response that the model discards. Unicode normalisation is not modelled.
- AppLogger.Uppercased: upper-cases ASCII letters only, which is all that the log type names contain; full Unicode case mapping is not modelled.
- Details.DetailsViewModel.constructor: does not issue the initial details request itself. The caller issues it with `FetchMovieDetails`, which is what `init` calls.
- **Favourites screen observer.** The observer installed by `setupFavoritesObserver` runs `refreshMoviesFavoriteStatus` and then the delegate call. Only the refresh is modelled, as `RefreshMoviesFavoriteStatus`.
- **`MovieDetailsModel` mutability.** Only `isFavorite` is a `var` in the record. Dafny datatypes are immutable, so a flag change is a copy (`WithFavorite`).
- **Negative indices.** `movie(at:)` and `removeFavorite(at:)` index with a negative value and trap, so the model requires a non-negative index.
