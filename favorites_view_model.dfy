/**
 * `FavoritesViewModel`: the favourites screen. Its list is a copy of the store taken when
 * the screen loads; removing a row removes it locally and in the store, and a store change
 * only rewrites the flags of the rows already shown.
 */
module Favorites {
  import opened Wrappers
  import opened MovieModel
  import opened FavoritesStore
  import opened FavoriteSync

  /** The list with the row at `index` dropped (`movies.remove(at:)`). */
  function RemovedAt(movies: seq<Movie>, index: int): (r: seq<Movie>)
    requires 0 <= index < |movies|
    ensures |r| == |movies| - 1
    ensures forall k :: 0 <= k < index ==> r[k] == movies[k]
    ensures forall k :: index <= k < |r| ==> r[k] == movies[k + 1]
  {
    movies[..index] + movies[index + 1..]
  }

  /**
   * While the screen shows exactly the stored list, removing a row keeps the two in step:
   * dropping the row locally is the same as the store dropping every item with its id,
   * since ids are unique.
   */
  lemma RemoveRowKeepsInSync(items: seq<Movie>, index: int)
    requires UniqueIds(items) && 0 <= index < |items|
    ensures RemovedAt(items, index) == RemoveAll(items, items[index].id)
  {
    UniqueIdsApart(items, index);
    RemoveRowAt(items, index);
  }

  lemma RemoveRowAt(items: seq<Movie>, index: int)
    requires 0 <= index < |items|
    requires !HasId(items[..index], items[index].id) && !HasId(items[index + 1..], items[index].id)
    ensures items[..index] + items[index + 1..] == RemoveAll(items, items[index].id)
  {
    var before, x, after := items[..index], items[index], items[index + 1..];
    Splice(items, index);
    RemoveRowSplice(before, x, after);
  }

  lemma Splice<T>(s: seq<T>, index: int)
    requires 0 <= index < |s|
    ensures s == s[..index] + ([s[index]] + s[index + 1..])
  {
  }

  /** The row between `before` and `after`, its id carried by no other row, is the only one removed. */
  lemma RemoveRowSplice(before: seq<Movie>, x: Movie, after: seq<Movie>)
    requires !HasId(before, x.id) && !HasId(after, x.id)
    ensures RemoveAll(before + ([x] + after), x.id) == before + after
  {
    RemoveAllPastAbsent(before, [x] + after, x.id);
    assert ([x] + after)[1..] == after;
    RemoveAllAbsent(after, x.id);
  }

  /** An item-free prefix passes through `RemoveAll` unchanged. */
  lemma RemoveAllPastAbsent(before: seq<Movie>, rest: seq<Movie>, id: int)
    requires !HasId(before, id)
    ensures RemoveAll(before + rest, id) == before + RemoveAll(rest, id)
  {
    RemoveAllConcat(before, rest, id);
    RemoveAllAbsent(before, id);
  }

  /** With unique ids, no item other than the one at `index` carries its id. */
  lemma UniqueIdsApart(items: seq<Movie>, index: int)
    requires UniqueIds(items) && 0 <= index < |items|
    ensures !HasId(items[..index], items[index].id)
    ensures !HasId(items[index + 1..], items[index].id)
  {
    var before, after := items[..index], items[index + 1..];
    forall i | 0 <= i < |before| ensures before[i].id != items[index].id {
      assert before[i] == items[i];
    }
    forall i | 0 <= i < |after| ensures after[i].id != items[index].id {
      assert after[i] == items[index + 1 + i];
    }
  }

  /**
   * A store change never adds or drops a row on this screen: a favourite removed
   * elsewhere stays listed, its flag cleared, until the screen reloads.
   */
  lemma RemovedElsewhereStaysListed(movies: seq<Movie>, favs: seq<Movie>, id: int, index: int)
    requires 0 <= index < |movies| && movies[index].id == id
    ensures |Reconcile(movies, RemoveAll(favs, id))| == |movies|
    ensures Reconcile(movies, RemoveAll(favs, id))[index] == movies[index].(isFavorite := false)
  {
    RemoveAllMembership(favs, id, id + 1);
  }

  /**
   * Installing the observer twice, as the favourites screen does when its controller is
   * built with `init(viewModel:favoritesStore:)`, and releasing once
   * leaves the first registration in place: it keeps receiving every change.
   */
  lemma SecondSetupLeaksFirstHandle(s: StoreModel)
    requires HandlesIssued(s)
    ensures var t := Run(s, [ObserveFavorites, ObserveFavorites, RemoveObserver(s.nextHandle + 1)]);
      t.observers == s.observers + {s.nextHandle}
  {
    var ops := [ObserveFavorites, ObserveFavorites, RemoveObserver(s.nextHandle + 1)];
    var s1 := Step(s, ObserveFavorites);
    var s2 := Step(s1, ObserveFavorites);
    assert ops[1..] == [ObserveFavorites, RemoveObserver(s.nextHandle + 1)];
    assert ops[1..][1..] == [RemoveObserver(s.nextHandle + 1)];
    assert Run(s2, [RemoveObserver(s.nextHandle + 1)]) == Step(s2, RemoveObserver(s.nextHandle + 1));
  }

  class FavoritesViewModel {
    const store: DefaultFavoritesStore
    var movies: seq<Movie>
    var favoritesObserverId: Option<Handle>

    ghost predicate Valid()
      reads this, store
    {
      store.Valid()
    }

    /** `init`: keep the store and load the list from it; no observer yet. */
    constructor (store: DefaultFavoritesStore)
      requires store.Valid()
      ensures Valid() && this.store == store
      ensures movies == store.Items() && favoritesObserverId == None
    {
      this.store := store;
      movies := [];
      favoritesObserverId := None;
      new;
      LoadFavorites();
    }

    /**
     * `setupFavoritesObserver`: register an observer and remember its handle, forgetting
     * any handle remembered before (that registration stays in the store).
     */
    method SetupFavoritesObserver()
      requires Valid()
      modifies this, store
      ensures Valid()
      ensures favoritesObserverId == Some(old(store.nextHandle))
      ensures store.Model() == Step(old(store.Model()), ObserveFavorites)
      ensures store.deliveries == old(store.deliveries) + [Delivery(old(store.nextHandle), store.Items())]
      ensures movies == old(movies)
    {
      var h := store.ObserveFavorites();
      favoritesObserverId := Some(h);
    }

    /** `deinit`: unregister the handle remembered last, if any. */
    method Release()
      requires Valid()
      modifies store
      ensures Valid()
      ensures favoritesObserverId.Some? ==> store.Model() == Step(old(store.Model()), RemoveObserver(favoritesObserverId.value))
      ensures favoritesObserverId.None? ==> store.Model() == old(store.Model())
      ensures store.deliveries == old(store.deliveries)
    {
      if favoritesObserverId.Some? {
        store.RemoveObserver(favoritesObserverId.value);
      }
    }

    /** `loadFavorites`: the list becomes the stored favourites, in insertion order. */
    method LoadFavorites()
      modifies this
      ensures movies == store.Items()
      ensures favoritesObserverId == old(favoritesObserverId)
    {
      movies := store.AllFavorites();
    }

    /** `movie(at:)`: the movie at a non-negative index, or nil past the end. */
    function MovieAt(index: int): (m: Option<Movie>)
      reads this
      requires 0 <= index
      ensures index < |movies| <==> m.Some?
      ensures m.Some? ==> m.value == movies[index]
    {
      if index < |movies| then Some(movies[index]) else None
    }

    /**
     * `removeFavorite(at:)`: past the end, nothing; otherwise drop the row and remove its
     * id from the store, which notifies every observer.
     */
    method RemoveFavorite(index: int)
      requires Valid() && 0 <= index
      modifies this, store
      ensures Valid()
      ensures favoritesObserverId == old(favoritesObserverId)
      ensures index < |old(movies)| ==>
        && movies == RemovedAt(old(movies), index)
        && store.Model() == Step(old(store.Model()), StoreOp.RemoveFavorite(old(movies)[index].id))
        && store.NotifiedAfter(old(store.deliveries))
      ensures index >= |old(movies)| ==> movies == old(movies) && store.Model() == old(store.Model())
      ensures index >= |old(movies)| ==> store.deliveries == old(store.deliveries)
      ensures old(movies) == old(store.Items()) && UniqueIds(old(movies)) ==> movies == store.Items()
    {
      if index >= |movies| {
        return;
      }
      var movie := movies[index];
      if movies == store.Items() && UniqueIds(movies) {
        RemoveRowKeepsInSync(movies, index);
      }
      movies := movies[..index] + movies[index + 1..];
      store.RemoveFavorite(movie.id);
    }

    /** `refreshMoviesFavoriteStatus`: rewrite, index by index, every flag that differs from the store. */
    method RefreshMoviesFavoriteStatus()
      modifies this
      ensures movies == Reconcile(old(movies), store.Items())
      ensures favoritesObserverId == old(favoritesObserverId)
    {
      var i := 0;
      while i < |movies|
        invariant 0 <= i <= |movies| == |old(movies)|
        invariant forall k :: 0 <= k < i ==> movies[k] == WithFavorite(old(movies)[k], HasId(store.Items(), old(movies)[k].id))
        invariant forall k :: i <= k < |movies| ==> movies[k] == old(movies)[k]
        invariant favoritesObserverId == old(favoritesObserverId)
      {
        var isFavorite := store.IsFavorite(movies[i].id);
        if movies[i].isFavorite != isFavorite {
          movies := movies[i := WithFavorite(movies[i], isFavorite)];
        }
        i := i + 1;
      }
    }
  }
}
