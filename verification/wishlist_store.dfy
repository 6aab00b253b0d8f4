/** src/lib/wishlist.ts: the persisted wishlist, modelled as the set of
    (user, product) rows of the `wishlists` table. Each operation takes the
    store's answer (an error or none) as an input and returns the new store. */
module WishlistStore {
  import opened Wrappers

  datatype Row = Row(userId: string, productId: string)

  type Store = set<Row>

  /** An error reported by the store: its code and message. */
  datatype StoreError = StoreError(code: string, message: string)

  /** The code the store uses for "`.single()` found no row". */
  const NoRowCode := "PGRST116"

  datatype Written = Written(result: Result<()>, store: Store)

  /** `getWishlistItems`: the rows of that user, or the store's error. */
  function GetItems(store: Store, userId: string, error: Option<StoreError>): (r: Result<set<Row>>)
    ensures error.Some? ==> r == Failure("Error fetching wishlist: " + error.value.message)
    ensures error.None? ==> r.Success? && forall row :: row in r.value <==> row in store && row.userId == userId
  {
    if error.Some? then Failure("Error fetching wishlist: " + error.value.message)
    else Success(set row | row in store && row.userId == userId)
  }

  /** `addToWishlist`: insert the (user, product) row. */
  function AddItem(store: Store, userId: string, productId: string, error: Option<StoreError>): (w: Written)
    ensures error.Some? ==> w == Written(Failure("Error adding to wishlist: " + error.value.message), store)
    ensures error.None? ==> w == Written(Success(()), store + {Row(userId, productId)})
  {
    if error.Some? then Written(Failure("Error adding to wishlist: " + error.value.message), store)
    else Written(Success(()), store + {Row(userId, productId)})
  }

  /** `removeFromWishlist`: delete the rows matching both product and user. */
  function RemoveItem(store: Store, userId: string, productId: string, error: Option<StoreError>): (w: Written)
    ensures error.Some? ==> w == Written(Failure("Error removing from wishlist: " + error.value.message), store)
    ensures error.None? ==> w.result.Success?
    ensures error.None? ==>
      forall row :: row in w.store <==> row in store && !(row.userId == userId && row.productId == productId)
  {
    if error.Some? then Written(Failure("Error removing from wishlist: " + error.value.message), store)
    else Written(Success(()), store - {Row(userId, productId)})
  }

  /** `isInWishlist`: a `.single()` lookup of the row. The store answers a
      missing row with the no-row code, which counts as "not listed"; any other
      error is raised. */
  function IsInWishlist(store: Store, userId: string, productId: string, fault: Option<StoreError>): (r: Result<bool>)
    ensures fault.None? ==> r == Success(Row(userId, productId) in store)
    ensures fault.Some? && fault.value.code == NoRowCode ==> r == Success(false)
    ensures fault.Some? && fault.value.code != NoRowCode ==>
      r == Failure("Error checking wishlist: " + fault.value.message)
  {
    var error := if fault.Some? then fault
                 else if Row(userId, productId) !in store then Some(StoreError(NoRowCode, "no rows"))
                 else None;
    var found := fault.None? && Row(userId, productId) in store;
    if error.Some? && error.value.code != NoRowCode then Failure("Error checking wishlist: " + error.value.message)
    else Success(found)
  }

  /** The rows a sync upserts: one per local product id. */
  function SyncRows(userId: string, local: seq<string>): (rows: set<Row>)
    ensures forall row :: row in rows <==> row.userId == userId && row.productId in local
  {
    set p | p in local :: Row(userId, p)
  }

  datatype Synced = Synced(store: Store, storeCalled: bool, logged: bool)

  /** `syncWishlistToDatabase`: an empty local list returns at once; otherwise
      one upsert of all rows that ignores rows already present. It never throws:
      a store error is only logged and the single upsert writes nothing. */
  function Sync(store: Store, userId: string, local: seq<string>, error: Option<StoreError>): (s: Synced)
    ensures |local| == 0 ==> s == Synced(store, false, false)
    ensures |local| > 0 && error.Some? ==> s == Synced(store, true, true)
    ensures |local| > 0 && error.None? ==> s.storeCalled && !s.logged
    ensures |local| > 0 && error.None? ==>
      forall row :: row in s.store <==> row in store || (row.userId == userId && row.productId in local)
  {
    if |local| == 0 then Synced(store, false, false)
    else if error.Some? then Synced(store, true, true)
    else Synced(store + SyncRows(userId, local), true, false)
  }

  /** Syncing only ever adds rows, and a second successful sync of the same
      list is a no-op on the store. */
  lemma SyncMonotoneIdempotent(store: Store, userId: string, local: seq<string>)
    ensures store <= Sync(store, userId, local, None).store
    ensures var once := Sync(store, userId, local, None).store;
      Sync(once, userId, local, None).store == once
  {
  }

  /** Operations on one user's rows never touch another user's rows. */
  lemma OtherUsersUntouched(store: Store, userId: string, productId: string, local: seq<string>, other: string)
    requires other != userId
    ensures GetItems(AddItem(store, userId, productId, None).store, other, None)
            == GetItems(store, other, None)
    ensures GetItems(RemoveItem(store, userId, productId, None).store, other, None)
            == GetItems(store, other, None)
    ensures GetItems(Sync(store, userId, local, None).store, other, None)
            == GetItems(store, other, None)
  {
    var before := GetItems(store, other, None).value;
    var afterAdd := GetItems(AddItem(store, userId, productId, None).store, other, None).value;
    var afterRemove := GetItems(RemoveItem(store, userId, productId, None).store, other, None).value;
    var afterSync := GetItems(Sync(store, userId, local, None).store, other, None).value;
    assert afterAdd == before;
    assert afterRemove == before;
    if |local| > 0 {
      assert afterSync == before;
    }
  }

  /** Membership answers follow the writes: after a successful add the product
      is listed for that user, after a successful remove it is not. */
  lemma MembershipAfterWrites(store: Store, userId: string, productId: string)
    ensures IsInWishlist(AddItem(store, userId, productId, None).store, userId, productId, None) == Success(true)
    ensures IsInWishlist(RemoveItem(store, userId, productId, None).store, userId, productId, None) == Success(false)
  {
  }
}
