/**
 * How the screens keep their movie lists in step with the favourites store.
 *
 * `Reconcile` is what `refreshMoviesFavoriteStatus` (in both the feed and the favourites
 * screen) leaves behind: every movie keeps its place and fields, and its flag becomes
 * store membership of its id. `Toggled` is what `toggleFavorite` (feed and details
 * screen) leaves in the store.
 */
module FavoriteSync {
  import opened MovieModel
  import opened FavoritesStore

  /** The list with every flag recomputed from the stored favourites `favs`. */
  function Reconcile(movies: seq<Movie>, favs: seq<Movie>): seq<Movie> {
    seq(|movies|, i requires 0 <= i < |movies| => WithFavorite(movies[i], HasId(favs, movies[i].id)))
  }

  /** Length, order, ids and every field but the flag survive; each flag equals store membership. */
  lemma ReconcileSpec(movies: seq<Movie>, favs: seq<Movie>)
    ensures |Reconcile(movies, favs)| == |movies|
    ensures forall i :: 0 <= i < |movies| ==>
      && SameExceptFlag(Reconcile(movies, favs)[i], movies[i])
      && Reconcile(movies, favs)[i].id == movies[i].id
      && (Reconcile(movies, favs)[i].isFavorite <==> exists k :: 0 <= k < |favs| && favs[k].id == movies[i].id)
  {
  }

  /** A list already in step with the store is left exactly as it was. */
  lemma ReconcileInSync(movies: seq<Movie>, favs: seq<Movie>)
    requires forall i :: 0 <= i < |movies| ==> movies[i].isFavorite == HasId(favs, movies[i].id)
    ensures Reconcile(movies, favs) == movies
  {
  }

  /** Refreshing twice against the same store is refreshing once. */
  lemma ReconcileIdempotent(movies: seq<Movie>, favs: seq<Movie>)
    ensures Reconcile(Reconcile(movies, favs), favs) == Reconcile(movies, favs)
  {
  }

  /** Refreshing the tail of a list does not touch its head: the loop can work index by index. */
  lemma ReconcileSnoc(movies: seq<Movie>, m: Movie, favs: seq<Movie>)
    ensures Reconcile(movies + [m], favs) == Reconcile(movies, favs) + [WithFavorite(m, HasId(favs, m.id))]
  {
  }

  /** The store after `toggleFavorite(m)`: remove the id if stored, else add a favourite copy. */
  function Toggled(favs: seq<Movie>, m: Movie): seq<Movie> {
    if HasId(favs, m.id) then RemoveAll(favs, m.id) else Added(favs, ToFavoriteMovie(m))
  }

  /** A toggle flips membership of the movie's id and of no other id. */
  lemma ToggleFlips(favs: seq<Movie>, m: Movie, other: int)
    requires other != m.id
    ensures HasId(Toggled(favs, m), m.id) == !HasId(favs, m.id)
    ensures HasId(Toggled(favs, m), other) == HasId(favs, other)
  {
    if HasId(favs, m.id) {
      RemoveAllMembership(favs, m.id, other);
    } else {
      var r := Toggled(favs, m);
      assert r == favs + [ToFavoriteMovie(m)];
      assert r[|favs|].id == m.id;
      if HasId(r, other) {
        var i :| 0 <= i < |r| && r[i].id == other;
        assert i < |favs| && favs[i].id == other;
      }
    }
  }

  /** Toggling twice restores membership; from "not a favourite" it restores the very list. */
  lemma ToggleTwice(favs: seq<Movie>, m: Movie)
    ensures HasId(Toggled(Toggled(favs, m), m), m.id) == HasId(favs, m.id)
    ensures !HasId(favs, m.id) ==> Toggled(Toggled(favs, m), m) == favs
  {
    ToggleFlips(favs, m, m.id + 1);
    ToggleFlips(Toggled(favs, m), m, m.id + 1);
    if !HasId(favs, m.id) {
      AddThenRemove(favs, ToFavoriteMovie(m));
    }
  }

  /** Toggles never create a second entry for an id. */
  lemma ToggleKeepsUniqueIds(favs: seq<Movie>, m: Movie)
    requires UniqueIds(favs)
    ensures UniqueIds(Toggled(favs, m))
  {
    if HasId(favs, m.id) {
      RemoveAllKeepsUniqueIds(favs, m.id);
    } else {
      AddedKeepsUniqueIds(favs, ToFavoriteMovie(m));
    }
  }

  /**
   * After a toggle and the refresh it triggers, exactly the entries with the toggled id
   * change, and only in their flag: nothing is reordered, duplicated or dropped.
   */
  lemma RefreshAfterToggle(movies: seq<Movie>, favs: seq<Movie>, m: Movie)
    requires forall i :: 0 <= i < |movies| ==> movies[i].isFavorite == HasId(favs, movies[i].id)
    ensures |Reconcile(movies, Toggled(favs, m))| == |movies|
    ensures forall i :: 0 <= i < |movies| && movies[i].id != m.id ==> Reconcile(movies, Toggled(favs, m))[i] == movies[i]
    ensures forall i :: 0 <= i < |movies| && movies[i].id == m.id ==>
      Reconcile(movies, Toggled(favs, m))[i] == WithFavorite(movies[i], !movies[i].isFavorite)
  {
    forall i | 0 <= i < |movies|
      ensures Reconcile(movies, Toggled(favs, m))[i].isFavorite
              == (if movies[i].id == m.id then !movies[i].isFavorite else movies[i].isFavorite)
    {
      if movies[i].id == m.id {
        ToggleFlips(favs, m, m.id + 1);
      } else {
        ToggleFlips(favs, m, movies[i].id);
      }
    }
  }
}
