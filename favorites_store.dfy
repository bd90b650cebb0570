/**
 * The favourites store (`DefaultFavoritesStore`): the single source of truth for which
 * movies are favourites. The list is persisted under one key; every mutation saves it and
 * then calls every registered observer with the list as saved.
 *
 * The persisted bytes are a `Slot`: nothing saved yet, bytes that do not decode, or a list.
 * Encoding and decoding a list are modelled as the identity.
 * Observers are closures in the source; here an observer is its handle, and each call of a
 * closure is recorded as a `Delivery` in a ghost log.
 */
module FavoritesStore {
  import opened Wrappers
  import opened MovieModel

  datatype Slot = Absent | Corrupt | Stored(items: seq<Movie>)

  /** Observer handles: a counter stands in for the source's `UUID()`. */
  type Handle = nat

  /** One call of an observer closure, with the list it was given. */
  datatype Delivery = Delivery(handle: Handle, snapshot: seq<Movie>)

  /** `allFavorites` / `fetchFavoriteMovies`: what a read of the persisted slot yields. */
  function Decode(slot: Slot): (items: seq<Movie>)
    ensures slot.Stored? ==> items == slot.items
    ensures !slot.Stored? ==> items == []
  {
    match slot
    case Stored(items) => items
    case _ => []
  }

  /** `contains { $0.id == id }`. */
  function HasId(items: seq<Movie>, id: int): (b: bool)
    ensures b <==> exists i :: 0 <= i < |items| && items[i].id == id
  {
    if items == [] then false
    else if items[|items| - 1].id == id then true
    else
      var b' := HasId(items[..|items| - 1], id);
      assert forall i :: 0 <= i < |items| - 1 ==> items[..|items| - 1][i] == items[i];
      b'
  }

  /** `removeAll { $0.id == id }`: drop every item with that id, keep the rest in order. */
  function RemoveAll(items: seq<Movie>, id: int): (r: seq<Movie>)
    ensures |r| <= |items|
    ensures forall m :: m in r <==> m in items && m.id != id
  {
    if items == [] then []
    else
      var rest := RemoveAll(items[1..], id);
      assert forall m :: m in items <==> m == items[0] || m in items[1..];
      if items[0].id == id then rest else [items[0]] + rest
  }

  /** No two items share an id. */
  ghost predicate UniqueIds(items: seq<Movie>) {
    forall i, j :: 0 <= i < j < |items| ==> items[i].id != items[j].id
  }

  /** The list after `addFavorite(m)`: unchanged if the id is already stored, else `m` appended. */
  function Added(items: seq<Movie>, m: Movie): seq<Movie> {
    if HasId(items, m.id) then items else items + [m]
  }

  /** Nothing with the id remains after removing it, and nothing with any other id is lost. */
  lemma RemoveAllMembership(items: seq<Movie>, id: int, other: int)
    requires other != id
    ensures !HasId(RemoveAll(items, id), id)
    ensures HasId(RemoveAll(items, id), other) == HasId(items, other)
  {
    var r := RemoveAll(items, id);
    if HasId(items, other) {
      var i :| 0 <= i < |items| && items[i].id == other;
      assert items[i] in r;
    }
    if HasId(r, other) {
      var i :| 0 <= i < |r| && r[i].id == other;
      assert r[i] in items;
    }
  }

  /** Removal works piecewise, so it keeps the relative order of what it keeps. */
  lemma {:induction false} RemoveAllConcat(a: seq<Movie>, b: seq<Movie>, id: int)
    ensures RemoveAll(a + b, id) == RemoveAll(a, id) + RemoveAll(b, id)
  {
    if a == [] {
      assert a + b == b;
    } else {
      assert (a + b)[1..] == a[1..] + b;
      RemoveAllConcat(a[1..], b, id);
    }
  }

  /** Removing an id that is not stored changes nothing. */
  lemma {:induction false} RemoveAllAbsent(items: seq<Movie>, id: int)
    requires !HasId(items, id)
    ensures RemoveAll(items, id) == items
  {
    if items != [] {
      assert forall i :: 0 <= i < |items| - 1 ==> items[1..][i] == items[i + 1];
      RemoveAllAbsent(items[1..], id);
      assert items == [items[0]] + items[1..];
    }
  }

  /** Removal keeps a subsequence, so distinct ids stay distinct. */
  lemma {:induction false} RemoveAllKeepsUniqueIds(items: seq<Movie>, id: int)
    requires UniqueIds(items)
    ensures UniqueIds(RemoveAll(items, id))
  {
    if items != [] {
      UniqueTail(items);
      RemoveAllKeepsUniqueIds(items[1..], id);
      var rest := RemoveAll(items[1..], id);
      if items[0].id != id {
        UniqueCons(items[0], rest);
      }
    }
  }

  /** The tail of a list with distinct ids has distinct ids, none of them the head's. */
  lemma UniqueTail(items: seq<Movie>)
    requires UniqueIds(items) && items != []
    ensures UniqueIds(items[1..])
    ensures forall m :: m in items[1..] ==> m.id != items[0].id
  {
    forall m | m in items[1..] ensures m.id != items[0].id {
      var k :| 0 <= k < |items[1..]| && items[1..][k] == m;
      assert items[k + 1] == m;
    }
  }

  /** Putting an item with a new id in front keeps ids distinct. */
  lemma UniqueCons(x: Movie, rest: seq<Movie>)
    requires UniqueIds(rest)
    requires forall m :: m in rest ==> m.id != x.id
    ensures UniqueIds([x] + rest)
  {
    var r := [x] + rest;
    forall i, j | 0 <= i < j < |r| ensures r[i].id != r[j].id {
      if i == 0 {
        assert r[j] == rest[j - 1] && r[j] in rest;
      } else {
        assert r[i] == rest[i - 1] && r[j] == rest[j - 1];
      }
    }
  }

  /** Adding keeps ids distinct: an existing id is never appended a second time. */
  lemma AddedKeepsUniqueIds(items: seq<Movie>, m: Movie)
    requires UniqueIds(items)
    ensures UniqueIds(Added(items, m))
    ensures HasId(Added(items, m), m.id)
  {
    var r := Added(items, m);
    if !HasId(items, m.id) {
      assert r[|items|] == m;
      forall i, j | 0 <= i < j < |r| ensures r[i].id != r[j].id {
        if j == |items| {
          assert r[i] == items[i];
        } else {
          assert r[i] == items[i] && r[j] == items[j];
        }
      }
    }
  }

  /** Adding the same movie twice leaves exactly what adding it once left. */
  lemma AddedIdempotent(items: seq<Movie>, m: Movie)
    ensures Added(Added(items, m), m) == Added(items, m)
  {
    if !HasId(items, m.id) {
      assert Added(items, m)[|items|] == m;
    }
  }

  /** Removing what was just added restores the list, when the id was not stored before. */
  lemma AddThenRemove(items: seq<Movie>, m: Movie)
    requires !HasId(items, m.id)
    ensures RemoveAll(Added(items, m), m.id) == items
  {
    RemoveAllConcat(items, [m], m.id);
    RemoveAllAbsent(items, m.id);
    assert RemoveAll([m], m.id) == [];
  }

  /** Adding to an empty store: the movie is the one favourite. */
  lemma AddToEmpty(m: Movie)
    ensures Added([], m) == [m] && HasId(Added([], m), m.id)
  {
    assert [m][0].id == m.id;
  }

  // ---------------------------------------------------------------------------------
  // The store as a state machine over any sequence of calls.

  /** The calls that change the store. */
  datatype StoreOp =
    | AddFavorite(movie: Movie)
    | RemoveFavorite(id: int)
    | ObserveFavorites
    | RemoveObserver(handle: Handle)

  /** What the store holds, apart from the closures: the slot, the registered handles, the next fresh handle. */
  datatype StoreModel = StoreModel(slot: Slot, observers: set<Handle>, nextHandle: Handle)

  /** Every registered handle was handed out earlier. */
  ghost predicate HandlesIssued(s: StoreModel) {
    forall h :: h in s.observers ==> h < s.nextHandle
  }

  /** One call: `addFavorite` saves only a new id, `removeFavorite` always saves. */
  function Step(s: StoreModel, op: StoreOp): StoreModel {
    match op
    case AddFavorite(m) =>
      if HasId(Decode(s.slot), m.id) then s else s.(slot := Stored(Decode(s.slot) + [m]))
    case RemoveFavorite(id) => s.(slot := Stored(RemoveAll(Decode(s.slot), id)))
    case ObserveFavorites => s.(observers := s.observers + {s.nextHandle}, nextHandle := s.nextHandle + 1)
    case RemoveObserver(h) => s.(observers := s.observers - {h})
  }

  /** Several calls, in order. */
  function Run(s: StoreModel, ops: seq<StoreOp>): StoreModel
    decreases |ops|
  {
    if ops == [] then s else Run(Step(s, ops[0]), ops[1..])
  }

  /** Stored ids stay pairwise distinct across any sequence of calls. */
  lemma {:induction false} RunKeepsUniqueIds(s: StoreModel, ops: seq<StoreOp>)
    requires UniqueIds(Decode(s.slot))
    ensures UniqueIds(Decode(Run(s, ops).slot))
    decreases |ops|
  {
    if ops != [] {
      match ops[0] {
        case AddFavorite(m) => AddedKeepsUniqueIds(Decode(s.slot), m);
        case RemoveFavorite(id) => RemoveAllKeepsUniqueIds(Decode(s.slot), id);
        case ObserveFavorites =>
        case RemoveObserver(h) =>
      }
      RunKeepsUniqueIds(Step(s, ops[0]), ops[1..]);
    }
  }

  /**
   * A handle, once removed, is never registered again, whatever calls follow: fresh
   * handles are always above every handle handed out before.
   */
  lemma {:induction false} RemovedHandleStaysRemoved(s: StoreModel, ops: seq<StoreOp>, h: Handle)
    requires HandlesIssued(s)
    requires h < s.nextHandle && h !in s.observers
    ensures HandlesIssued(Run(s, ops))
    ensures h < Run(s, ops).nextHandle && h !in Run(s, ops).observers
    decreases |ops|
  {
    if ops != [] {
      RemovedHandleStaysRemoved(Step(s, ops[0]), ops[1..], h);
    }
  }

  /** The observers of a registered handle are called exactly once each, with `snapshot`, and no one else is. */
  ghost predicate FanOut(d: seq<Delivery>, handles: set<Handle>, snapshot: seq<Movie>) {
    && (forall i :: 0 <= i < |d| ==> d[i].handle in handles && d[i].snapshot == snapshot)
    && (forall i, j :: 0 <= i < j < |d| ==> d[i].handle != d[j].handle)
    && (forall h :: h in handles ==> exists i :: 0 <= i < |d| && d[i].handle == h)
  }

  /** Calling one more, not yet called, observer extends a fan-out to its handle. */
  lemma FanOutStep(d: seq<Delivery>, handles: set<Handle>, snapshot: seq<Movie>, h: Handle)
    requires FanOut(d, handles, snapshot) && h !in handles
    ensures FanOut(d + [Delivery(h, snapshot)], handles + {h}, snapshot)
  {
    var d' := d + [Delivery(h, snapshot)];
    forall k | k in handles + {h}
      ensures exists i :: 0 <= i < |d'| && d'[i].handle == k
    {
      if k == h {
        assert d'[|d|].handle == k;
      } else {
        var i :| 0 <= i < |d| && d[i].handle == k;
        assert d'[i].handle == k;
      }
    }
  }

  // ---------------------------------------------------------------------------------

  class DefaultFavoritesStore {
    /** The bytes under the favourites key of the persistent storage. */
    var slot: Slot
    /** `observers`: the registered closures, by handle. */
    var observers: map<Handle, ()>
    /** The next handle `observeFavorites` hands out. */
    var nextHandle: Handle
    /** Every call of an observer closure so far, in order. */
    ghost var deliveries: seq<Delivery>

    ghost predicate Valid()
      reads this
    {
      && (forall h :: h in observers ==> h < nextHandle)
      && (forall i :: 0 <= i < |deliveries| ==> deliveries[i].handle < nextHandle)
    }

    /** The list a read of the store yields now. */
    ghost function Items(): seq<Movie>
      reads this
    {
      Decode(slot)
    }

    ghost function Model(): StoreModel
      reads this
    {
      StoreModel(slot, observers.Keys, nextHandle)
    }

    /** The log holds `before` and, after it, one fan-out of the current list to the current observers. */
    ghost predicate NotifiedAfter(before: seq<Delivery>)
      reads this
    {
      && |before| <= |deliveries| && deliveries[..|before|] == before
      && FanOut(deliveries[|before|..], observers.Keys, Items())
    }

    /** A store over whatever the persistent storage holds at launch, with no observers. */
    constructor (persisted: Slot)
      ensures Valid()
      ensures slot == persisted && observers == map[] && deliveries == []
    {
      slot := persisted;
      observers := map[];
      nextHandle := 0;
      deliveries := [];
    }

    /** `isFavorite(id:)`: true iff some stored item has that id. */
    method IsFavorite(id: int) returns (b: bool)
      ensures b == HasId(Items(), id)
    {
      b := HasId(Decode(slot), id);
    }

    /** `allFavorites` / `fetchFavoriteMovies`: the stored list, or `[]` if nothing decodes. */
    method AllFavorites() returns (items: seq<Movie>)
      ensures slot.Stored? ==> items == slot.items
      ensures !slot.Stored? ==> items == []
    {
      items := Decode(slot);
    }

    /** `addFavorite`: a new id is appended, saved and announced; a stored id is a no-op. */
    method AddFavorite(movie: Movie)
      requires Valid()
      modifies this
      ensures Valid()
      ensures Model() == Step(old(Model()), StoreOp.AddFavorite(movie))
      ensures Items() == Added(old(Items()), movie)
      ensures HasId(old(Items()), movie.id) ==> slot == old(slot) && deliveries == old(deliveries)
      ensures !HasId(old(Items()), movie.id) ==> slot == Stored(old(Items()) + [movie]) && NotifiedAfter(old(deliveries))
      ensures observers == old(observers) && nextHandle == old(nextHandle)
    {
      var items := Decode(slot);
      if !HasId(items, movie.id) {
        items := items + [movie];
        slot := Stored(items);
        Notify();
      }
    }

    /** `removeFavorite`: drop every item with the id, then save and announce, even if none was stored. */
    method RemoveFavorite(id: int)
      requires Valid()
      modifies this
      ensures Valid()
      ensures Model() == Step(old(Model()), StoreOp.RemoveFavorite(id))
      ensures slot == Stored(RemoveAll(old(Items()), id))
      ensures NotifiedAfter(old(deliveries))
      ensures observers == old(observers) && nextHandle == old(nextHandle)
    {
      var items := Decode(slot);
      items := RemoveAll(items, id);
      slot := Stored(items);
      Notify();
    }

    /**
     * `observeFavorites` / `startObserving`: register under a fresh handle, call the new
     * observer once with the current list, and return the handle.
     */
    method ObserveFavorites() returns (h: Handle)
      requires Valid()
      modifies this
      ensures Valid()
      ensures Model() == Step(old(Model()), StoreOp.ObserveFavorites)
      ensures h !in old(observers) && h == old(nextHandle)
      ensures forall i :: 0 <= i < |old(deliveries)| ==> old(deliveries)[i].handle != h
      ensures observers == old(observers)[h := ()] && slot == old(slot)
      ensures deliveries == old(deliveries) + [Delivery(h, Items())]
    {
      h := nextHandle;
      nextHandle := nextHandle + 1;
      observers := observers[h := ()];
      deliveries := deliveries + [Delivery(h, Decode(slot))];
    }

    /** `removeObserver`: only that handle is unregistered. */
    method RemoveObserver(h: Handle)
      requires Valid()
      modifies this
      ensures Valid()
      ensures Model() == Step(old(Model()), StoreOp.RemoveObserver(h))
      ensures h !in observers && forall k :: k != h ==> (k in observers <==> k in old(observers))
      ensures slot == old(slot) && deliveries == old(deliveries)
    {
      observers := observers - {h};
    }

    /** `notify`: call every registered observer once with the list as now stored. */
    method Notify()
      requires Valid()
      modifies this`deliveries
      ensures Valid()
      ensures NotifiedAfter(old(deliveries))
    {
      var items := Decode(slot);
      var pending := observers.Keys;
      ghost var sent: seq<Delivery> := [];
      while pending != {}
        invariant pending <= observers.Keys
        invariant deliveries == old(deliveries) + sent
        invariant forall i :: 0 <= i < |deliveries| ==> deliveries[i].handle < nextHandle
        invariant FanOut(sent, observers.Keys - pending, items)
        decreases pending
      {
        var h :| h in pending;
        FanOutStep(sent, observers.Keys - pending, items, h);
        assert observers.Keys - (pending - {h}) == (observers.Keys - pending) + {h};
        deliveries := deliveries + [Delivery(h, items)];
        sent := sent + [Delivery(h, items)];
        pending := pending - {h};
      }
      assert observers.Keys - pending == observers.Keys;
      assert deliveries[..|old(deliveries)|] == old(deliveries);
      assert deliveries[|old(deliveries)|..] == sent;
    }
  }

  /** No delivery from position `from` on goes to `h`. */
  ghost predicate Avoids(d: seq<Delivery>, from: nat, h: Handle) {
    forall i :: from <= i < |d| ==> d[i].handle != h
  }

  /** A fan-out to handles without `h`, appended to a log, adds no delivery to `h`. */
  lemma FanOutAvoids(before: seq<Delivery>, after: seq<Delivery>, handles: set<Handle>, snapshot: seq<Movie>, h: Handle)
    requires |before| <= |after| && FanOut(after[|before|..], handles, snapshot) && h !in handles
    ensures Avoids(after, |before|, h)
  {
    forall i | |before| <= i < |after| ensures after[i].handle != h {
      assert after[i] == after[|before|..][i - |before|];
    }
  }

  /**
   * A removed observer is never called again: subscribe, unsubscribe, then add and
   * remove favourites; none of the deliveries after the subscription's own first one
   * goes to the removed handle.
   */
  method RemovedObserverIsNotCalled(store: DefaultFavoritesStore, m: Movie, id: int) returns (h: Handle)
    requires store.Valid()
    modifies store
    ensures store.Valid()
    ensures |store.deliveries| >= |old(store.deliveries)| + 1
    ensures store.deliveries[|old(store.deliveries)|] == Delivery(h, Decode(old(store.slot)))
    ensures Avoids(store.deliveries, |old(store.deliveries)| + 1, h)
  {
    h := store.ObserveFavorites();
    store.RemoveObserver(h);
    ghost var d1 := store.deliveries;
    store.AddFavorite(m);
    ghost var d2 := store.deliveries;
    if d2 != d1 {
      FanOutAvoids(d1, d2, store.observers.Keys, store.Items(), h);
    }
    assert Avoids(d2, |d1|, h);
    store.RemoveFavorite(id);
    ghost var d3 := store.deliveries;
    FanOutAvoids(d2, d3, store.observers.Keys, store.Items(), h);
    assert d3[..|d2|] == d2;
  }
}
