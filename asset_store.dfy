/**
 * The asset store of db.js: one IndexedDB object store `generated_assets`
 * with key path `id` and an auto-increment key generator, reached through a
 * module-level database handle that `initDB` sets.
 */
module AssetStore {
  import opened Wrappers

  /** Binary payloads (image and model blobs) as bytes. */
  type Blob = seq<bv8>

  /** One stored record; `created` is the `new Date()` of the insertion, in milliseconds. */
  datatype Asset = Asset(id: int, prompt: string, imageBlob: Blob, modelBlob: Blob, scale: real, created: int)

  /** The reasons a store promise is rejected. */
  datatype StoreError =
    | NotInitialised   // the handle is still unset
    | OpenFailed       // `indexedDB.open` reported an error
    | AddFailed        // the `add` request failed (the key generator is exhausted)
    | InvalidKey       // the key is not a valid IndexedDB key (`NaN`): `get` throws a DataError
    | NotFound         // no record under the key (the rejection the tests expect of `updateModelScale`)

  /** The rejection reason each error carries. */
  function Message(e: StoreError): string {
    match e
    case NotInitialised => "Database not initialised. Call initDB() first."
    case OpenFailed => "Database error"
    case AddFailed => "Error adding asset"
    case InvalidKey => "DataError"
    case NotFound => "Asset does not exist."
  }

  /** The largest key an IndexedDB key generator hands out (2^53). */
  const MaxGeneratedKey: int := 9007199254740992

  /** How `updateModelScale`'s promise ends. */
  datatype UpdateOutcome =
    | Updated(key: int)           // the `put` succeeded and resolved with the key
    | Rejected(error: StoreError) // the promise was rejected
    | NeverSettles                // the `get` found no record and the callback threw

  /** The scale every new record starts with. */
  const DefaultScale: real := 1.0

  class Store {
    /** The object store's records by key. */
    var records: map<int, Asset>
    /** The key generator's current number: the next key `add` assigns. */
    var nextId: int
    /** Whether `initDB` has set the module-level handle. */
    var initialized: bool

    ghost predicate Valid()
      reads this
    {
      && 1 <= nextId <= MaxGeneratedKey + 1
      && (forall k :: k in records ==> 1 <= k < nextId && records[k].id == k)
    }

    /**
     * The database as the page finds it: the records saved by earlier
     * sessions and the generator's current number, with no handle yet.
     */
    constructor (saved: map<int, Asset>, generator: int)
      requires 1 <= generator <= MaxGeneratedKey + 1
      requires forall k :: k in saved ==> 1 <= k < generator && saved[k].id == k
      ensures Valid()
      ensures records == saved && nextId == generator && !initialized
    {
      records := saved;
      nextId := generator;
      initialized := false;
    }

    /** `initDB()`: a successful open sets the handle; a failed one leaves it as it was. */
    method InitDB(openSucceeds: bool) returns (r: Result<(), StoreError>)
      requires Valid()
      modifies this`initialized
      ensures Valid()
      ensures initialized == (old(initialized) || openSucceeds)
      ensures r == if openSucceeds then Ok(()) else Err(OpenFailed)
    {
      if openSucceeds {
        initialized := true;
        r := Ok(());
      } else {
        r := Err(OpenFailed);
      }
    }

    /**
     * `addAsset(prompt, imageBlob, modelBlob)`: stores one new record with
     * scale 1 under the key generator's current number and resolves with it.
     */
    method AddAsset(prompt: string, imageBlob: Blob, modelBlob: Blob, now: int) returns (r: Result<int, StoreError>)
      requires Valid()
      modifies this`records, this`nextId
      ensures Valid()
      ensures !old(initialized) ==> r == Err(NotInitialised) && records == old(records) && nextId == old(nextId)
      ensures old(initialized) && old(nextId) > MaxGeneratedKey ==>
                r == Err(AddFailed) && records == old(records) && nextId == old(nextId)
      ensures old(initialized) && old(nextId) <= MaxGeneratedKey ==>
                && r == Ok(old(nextId))
                && r.value !in old(records)
                && (forall k :: k in old(records) ==> k < r.value)
                && records == old(records)[r.value := Asset(r.value, prompt, imageBlob, modelBlob, DefaultScale, now)]
                && nextId == r.value + 1
    {
      if !initialized {
        return Err(NotInitialised);
      }
      if nextId > MaxGeneratedKey {
        return Err(AddFailed);
      }
      var id := nextId;
      records := records[id := Asset(id, prompt, imageBlob, modelBlob, DefaultScale, now)];
      nextId := nextId + 1;
      r := Ok(id);
    }

    /**
     * `updateModelScale(id, newScale)`: a read-modify-write of the record's
     * scale, with no clamping. On a missing key the `get` callback
     * dereferences `undefined` and throws, so the promise never settles.
     */
    method UpdateModelScale(id: int, newScale: real) returns (r: UpdateOutcome)
      requires Valid()
      modifies this`records
      ensures Valid()
      ensures !initialized ==> r == Rejected(NotInitialised) && records == old(records)
      ensures initialized && id !in old(records) ==> r == NeverSettles && records == old(records)
      ensures initialized && id in old(records) ==>
                r == Updated(id) && records == old(records)[id := old(records)[id].(scale := newScale)]
      ensures r.Updated? <==> initialized && id in old(records)
    {
      if !initialized {
        return Rejected(NotInitialised);
      }
      if id !in records {
        return NeverSettles;
      }
      var asset := records[id];
      records := records[id := asset.(scale := newScale)];
      r := Updated(id);
    }

    /**
     * `updateModelScale` as its tests expect it: a missing key rejects with
     * "Asset does not exist." instead of leaving the promise pending.
     */
    method UpdateModelScaleChecked(id: int, newScale: real) returns (r: UpdateOutcome)
      requires Valid()
      modifies this`records
      ensures Valid()
      ensures !initialized ==> r == Rejected(NotInitialised) && records == old(records)
      ensures initialized && id !in old(records) ==> r == Rejected(NotFound) && records == old(records)
      ensures initialized && id in old(records) ==>
                r == Updated(id) && records == old(records)[id := old(records)[id].(scale := newScale)]
      ensures !r.NeverSettles?
    {
      r := UpdateModelScale(id, newScale);
      if r.NeverSettles? {
        r := Rejected(NotFound);
      }
    }

    /** `getAsset(id)`: the record under `id`, or `undefined` when there is none. */
    method GetAsset(id: int) returns (r: Result<Option<Asset>, StoreError>)
      requires Valid()
      ensures !initialized <==> r == Err(NotInitialised)
      ensures initialized && id in records ==> r == Ok(Some(records[id]))
      ensures initialized && id !in records ==> r == Ok(None)
    {
      if !initialized {
        return Err(NotInitialised);
      }
      if id in records {
        r := Ok(Some(records[id]));
      } else {
        r := Ok(None);
      }
    }

    /**
     * `getAllAssets()`: every record, in ascending key order (the order in
     * which an IndexedDB `getAll` on an object store returns them).
     */
    method GetAllAssets() returns (r: Result<seq<Asset>, StoreError>)
      requires Valid()
      ensures !initialized ==> r == Err(NotInitialised)
      ensures initialized ==> r.Ok? && ListsExactly(r.value, records)
    {
      if !initialized {
        return Err(NotInitialised);
      }
      var all: seq<Asset> := [];
      var k := 1;
      while k < nextId
        invariant 1 <= k <= nextId
        invariant forall i :: 0 <= i < |all| ==> all[i].id in records && records[all[i].id] == all[i] && all[i].id < k
        invariant forall i, j :: 0 <= i < j < |all| ==> all[i].id < all[j].id
        invariant forall key :: key in records && key < k ==> exists i :: 0 <= i < |all| && all[i].id == key
      {
        if k in records {
          ghost var before := all;
          all := all + [records[k]];
          forall key | key in records && key < k
            ensures exists i :: 0 <= i < |all| && all[i].id == key
          {
            var i :| 0 <= i < |before| && before[i].id == key;
            assert all[i] == before[i];
          }
          assert all[|all| - 1].id == k;
        }
        k := k + 1;
      }
      r := Ok(all);
    }

    /**
     * `deleteAsset(id)`: called by the application but not defined in
     * db.js; stated from its tests. Deleting a missing key is a no-op.
     */
    method DeleteAsset(id: int) returns (r: Result<(), StoreError>)
      requires Valid()
      modifies this`records
      ensures Valid()
      ensures !initialized ==> r == Err(NotInitialised) && records == old(records)
      ensures initialized ==> r == Ok(()) && records == old(records) - {id}
    {
      if !initialized {
        return Err(NotInitialised);
      }
      records := records - {id};
      r := Ok(());
    }
  }

  /**
   * An add followed by a get of the key it returned: the record comes back
   * with the prompt and the byte-equal blobs that went in, and scale 1.
   */
  method AddThenGet(store: Store, prompt: string, imageBlob: Blob, modelBlob: Blob, now: int)
    returns (added: Result<int, StoreError>, got: Result<Option<Asset>, StoreError>)
    requires store.Valid()
    modifies store
    ensures store.Valid()
    ensures old(store.initialized) && old(store.nextId) <= MaxGeneratedKey ==>
              && added.Ok?
              && got == Ok(Some(Asset(added.value, prompt, imageBlob, modelBlob, DefaultScale, now)))
    ensures !old(store.initialized) ==> added == Err(NotInitialised) && got == Err(NotInitialised)
  {
    added := store.AddAsset(prompt, imageBlob, modelBlob, now);
    got := store.GetAsset(if added.Ok? then added.value else 0);
  }

  /**
   * Add, delete, add: the second key is larger than the first, so a deleted
   * key is never handed out again.
   */
  method KeysAreNotReused(store: Store, prompt: string, imageBlob: Blob, modelBlob: Blob, now: int)
    returns (first: Result<int, StoreError>, second: Result<int, StoreError>)
    requires store.Valid()
    modifies store
    ensures store.Valid()
    ensures first.Ok? && second.Ok? ==> first.value < second.value
    ensures old(store.initialized) && old(store.nextId) < MaxGeneratedKey ==> first.Ok? && second.Ok?
  {
    first := store.AddAsset(prompt, imageBlob, modelBlob, now);
    if first.Ok? {
      var _ := store.DeleteAsset(first.value);
    }
    second := store.AddAsset(prompt, imageBlob, modelBlob, now);
  }

  /** Deleting a key makes `getAsset` answer `undefined` for it and keeps every other record. */
  method DeleteThenGet(store: Store, id: int, other: int)
    returns (gone: Result<Option<Asset>, StoreError>, kept: Result<Option<Asset>, StoreError>)
    requires store.Valid()
    requires id != other
    modifies store
    ensures store.Valid()
    ensures old(store.initialized) ==> gone == Ok(None)
    ensures old(store.initialized) ==>
              kept == Ok(if other in old(store.records) then Some(old(store.records)[other]) else None)
  {
    var _ := store.DeleteAsset(id);
    gone := store.GetAsset(id);
    kept := store.GetAsset(other);
  }

  /** `list` holds exactly the records of `m`, each once, in ascending key order. */
  ghost predicate ListsExactly(list: seq<Asset>, m: map<int, Asset>) {
    && (forall i :: 0 <= i < |list| ==> list[i].id in m && m[list[i].id] == list[i])
    && (forall i, j :: 0 <= i < j < |list| ==> list[i].id < list[j].id)
    && (forall key :: key in m ==> exists i :: 0 <= i < |list| && list[i].id == key)
  }

  /** A listing of the records of `m` has one entry per record. */
  lemma {:induction false} ListingHasOneEntryPerRecord(list: seq<Asset>, m: map<int, Asset>)
    requires ListsExactly(list, m)
    ensures |list| == |m|
  {
    var ids := set i | 0 <= i < |list| :: list[i].id;
    forall key | key in m
      ensures key in ids
    {
      var i :| 0 <= i < |list| && list[i].id == key;
    }
    assert ids == m.Keys;
    IdsOfIncreasingList(list);
  }

  lemma {:induction false} IdsOfIncreasingList(list: seq<Asset>)
    requires forall i, j :: 0 <= i < j < |list| ==> list[i].id < list[j].id
    ensures |set i | 0 <= i < |list| :: list[i].id| == |list|
    decreases |list|
  {
    if list != [] {
      var front := list[..|list| - 1];
      IdsOfIncreasingList(front);
      var last := list[|list| - 1].id;
      var s := set i | 0 <= i < |list| :: list[i].id;
      var t := set i | 0 <= i < |front| :: front[i].id;
      assert s == t + {last};
      assert last !in t;
    }
  }
}
