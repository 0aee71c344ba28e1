/**
 * The store as `update_db` changes it: three tables updated in place by bulk inserts and a bulk
 * delete, and the two-pass reconciliation written as the loops of the source. Each method is
 * proved to leave the store in the state the functions of Reconciliation describe.
 */
module EntityStore {
  import opened Wrappers
  import opened PyStr
  import opened ProductModels
  import opened Feed
  import opened Reconciliation

  /** The maintenance window that triggers an index rebuild: Monday (weekday 0), hours 4 and 5. */
  predicate RebuildWindow(weekday: int, hour: int)
  {
    weekday == 0 && 4 <= hour <= 5
  }

  /** Over one week of (weekday, hour) slots the window is exactly Monday 04:00 and Monday 05:00. */
  lemma RebuildWindowSlots()
    ensures (set d: int, h: int | 0 <= d < 7 && 0 <= h < 24 && RebuildWindow(d, h) :: (d, h)) == {(0, 4), (0, 5)}
  {
    var slots := set d: int, h: int | 0 <= d < 7 && 0 <= h < 24 && RebuildWindow(d, h) :: (d, h);
    assert (0, 4) in slots && (0, 5) in slots;
  }

  /**
   * One queue update of the first loop: `key` is appended to the queue, and remembered in the
   * `queued` set, when it is neither a key of the lookup map nor queued already.
   */
  method Enqueue(ghost keys: seq<string>, key: string, existing: map<string, nat>, queue: seq<string>, queued: set<string>)
    returns (queue': seq<string>, queued': set<string>)
    requires queue == FirstSeen(keys, existing.Keys)
    requires forall k :: k in queued <==> k in queue
    ensures queue' == FirstSeen(keys + [key], existing.Keys)
    ensures forall k :: k in queued' <==> k in queue'
  {
    FirstSeenSnoc(keys, key, existing.Keys);
    queue', queued' := queue, queued;
    if key !in existing && key !in queued {
      queue' := queue + [key];
      queued' := queued + {key};
    }
  }

  /**
   * The first loop of `update_db`: walks the batch once, queueing each raw product name and
   * location address that is neither a key of the lookup map nor already queued.
   */
  method QueueNew(records: seq<Record>, existingProducts: map<string, nat>, existingLocations: map<string, nat>)
    returns (newProducts: seq<string>, newLocations: seq<string>)
    ensures newProducts == FirstSeen(RawNames(records), existingProducts.Keys)
    ensures newLocations == FirstSeen(RawAddresses(records), existingLocations.Keys)
  {
    var newProductNames: set<string> := {};
    var newLocationAddresses: set<string> := {};
    newProducts, newLocations := [], [];
    ghost var names := RawNames(records);
    ghost var addresses := RawAddresses(records);
    for i := 0 to |records|
      invariant newProducts == FirstSeen(names[..i], existingProducts.Keys)
      invariant newLocations == FirstSeen(addresses[..i], existingLocations.Keys)
      invariant forall n :: n in newProductNames <==> n in newProducts
      invariant forall a :: a in newLocationAddresses <==> a in newLocations
    {
      TakeSnoc(names, i);
      TakeSnoc(addresses, i);
      newProducts, newProductNames :=
        Enqueue(names[..i], records[i].productName, existingProducts, newProducts, newProductNames);
      newLocations, newLocationAddresses :=
        Enqueue(addresses[..i], records[i].locationAddress, existingLocations, newLocations, newLocationAddresses);
    }
    assert names[..|records|] == names && addresses[..|records|] == addresses;
  }

  /**
   * The second loop of `update_db`: resolves each record against the refreshed maps (stripped
   * keys, a zero or absent id counts as missing), skips a record whose price does not parse,
   * and keeps the first quote for each (product, location) pair. Returns the pending rows and
   * the counter the loop keeps beside them.
   */
  method CollectLinks(records: seq<Record>, ctx: Lookup) returns (pharmProdPrices: seq<PendingLink>, counter: nat)
    ensures pharmProdPrices == Associate(ctx, records)
    ensures counter == |pharmProdPrices|
  {
    var seenLinks: set<(nat, nat)> := {};
    pharmProdPrices, counter := [], 0;
    ghost var asked := ResolveAll(ctx, records);
    for i := 0 to |records|
      invariant pharmProdPrices == Dedup(asked[..i])
      invariant seenLinks == Pairs(pharmProdPrices)
      invariant counter == |pharmProdPrices|
    {
      ghost var request := Resolve(ctx, records[i]);
      TakeSnoc(asked, i);
      DedupSnoc(asked[..i], request);
      var price := ctx.parsePrice(records[i].rawPrice);
      if price.None? {
        continue;  // price error: this record only is skipped
      }
      var productId := Get(ctx.productIds, Strip(records[i].productName));
      var locationId := Get(ctx.locationIds, Strip(records[i].locationAddress));
      if Missing(productId) || Missing(locationId) {
        continue;
      }
      var key := (productId.value, locationId.value);
      if key in seenLinks {
        continue;  // a later quote for a pair already seen
      }
      PairsSnoc(pharmProdPrices, request.value);
      seenLinks := seenLinks + {key};
      pharmProdPrices := pharmProdPrices + [PendingLink(productId.value, locationId.value, price.value)];
      counter := counter + 1;
    }
    assert asked[..|records|] == asked;
  }

  /** Why `update_db` gives up: a document it cannot use, or an association insert the store rejects. */
  datatype UpdateError =
    | BadDocument(reason: FeedError)
    | InsertRejected

  class Store {
    var products: seq<Product>
    var locations: seq<Location>
    var links: seq<LocationProduct>
    var nextProductId: nat
    var nextLocationId: nat
    var nextLinkId: nat

    /** The store's current contents as a value. */
    function Snapshot(): Db
      reads this
    {
      Db(products, locations, links, nextProductId, nextLocationId, nextLinkId)
    }

    /** The column constraints of the three tables hold. */
    predicate Valid()
      reads this
    {
      DbValid(Snapshot())
    }

    /** A freshly created, empty store. */
    constructor ()
      ensures Valid() && Snapshot() == EmptyDb()
    {
      products, locations, links := [], [], [];
      nextProductId, nextLocationId, nextLinkId := 1, 1, 1;
    }

    /**
     * `bulk_save_objects` of new products: the store gives them consecutive ids. The unique
     * constraint on `name` rejects the whole batch, which then changes nothing.
     */
    method BulkSaveProducts(names: seq<string>) returns (ok: bool)
      requires Valid()
      modifies this
      ensures Valid()
      ensures ok == ProductsInsertable(old(products), names)
      ensures Snapshot() == if ok then InsertProducts(old(Snapshot()), names) else old(Snapshot())
    {
      ok := ProductsInsertable(products, names);
      if ok {
        InsertProductsValid(Snapshot(), names);
        products := products + NewProducts(names, nextProductId);
        nextProductId := nextProductId + |names|;
      }
    }

    /** `bulk_save_objects` of new locations, under the unique constraint on `address`. */
    method BulkSaveLocations(addresses: seq<string>) returns (ok: bool)
      requires Valid()
      modifies this
      ensures Valid()
      ensures ok == LocationsInsertable(old(locations), addresses)
      ensures Snapshot() == if ok then InsertLocations(old(Snapshot()), addresses) else old(Snapshot())
    {
      ok := LocationsInsertable(locations, addresses);
      if ok {
        InsertLocationsValid(Snapshot(), addresses);
        locations := locations + NewLocations(addresses, nextLocationId);
        nextLocationId := nextLocationId + |addresses|;
      }
    }

    /** `delete(LocationProduct)`: every association goes; the table's sequence goes on. */
    method DeleteAllLinks()
      requires Valid()
      modifies this
      ensures Valid()
      ensures Snapshot() == DeleteLinks(old(Snapshot()))
    {
      links := [];
    }

    /**
     * `bulk_save_objects` of new associations, under the (product_id, location_id) unique
     * constraint, both foreign keys and the range `priceFits` of the `price` column's type.
     */
    method BulkSaveLinks(pending: seq<PendingLink>, priceFits: int -> bool) returns (ok: bool)
      requires Valid()
      modifies this
      ensures Valid()
      ensures ok == (LinksInsertable(old(Snapshot()), pending) && PricesFit(pending, priceFits))
      ensures Snapshot() == if ok then InsertLinks(old(Snapshot()), pending) else old(Snapshot())
    {
      ok := LinksInsertable(Snapshot(), pending) && PricesFit(pending, priceFits);
      if ok {
        InsertLinksValid(Snapshot(), pending);
        links := links + NewLinks(pending, nextLinkId);
        nextLinkId := nextLinkId + |pending|;
      }
    }

    /** `if new_products: bulk_save_objects(new_products)`, for a batch the unique constraint accepts. */
    method SaveNewProducts(names: seq<string>)
      requires Valid() && ProductsInsertable(products, names)
      modifies this
      ensures Valid()
      ensures Snapshot() == InsertProducts(old(Snapshot()), names)
    {
      if |names| > 0 {
        var ok := BulkSaveProducts(names);
        assert ok;
      } else {
        assert products + NewProducts(names, nextProductId) == products;
      }
    }

    /** `if new_locations: bulk_save_objects(new_locations)`, for a batch the unique constraint accepts. */
    method SaveNewLocations(addresses: seq<string>)
      requires Valid() && LocationsInsertable(locations, addresses)
      modifies this
      ensures Valid()
      ensures Snapshot() == InsertLocations(old(Snapshot()), addresses)
    {
      if |addresses| > 0 {
        var ok := BulkSaveLocations(addresses);
        assert ok;
      } else {
        assert locations + NewLocations(addresses, nextLocationId) == locations;
      }
    }

    /**
     * Pass 1 of `update_db`: queue the batch's unseen raw names and addresses against maps built
     * from the store, then bulk-insert each queue when it is not empty. Never trips a constraint.
     */
    method InsertNewEntities(records: seq<Record>)
      requires Valid()
      modifies this
      ensures Valid()
      ensures Snapshot() == Pass1(old(Snapshot()), records)
    {
      ghost var db0 := Snapshot();
      var existingProducts := NameIndex(products);
      var existingLocations := AddressIndex(locations);
      var newProducts, newLocations := QueueNew(records, existingProducts, existingLocations);
      Pass1Valid(db0, records);
      SaveNewProducts(newProducts);
      SaveNewLocations(newLocations);
    }

    /**
     * Pass 2 of `update_db`: rebuild the maps from the store, delete every association, then
     * bulk-insert the associations the batch resolves to. Returns how many were inserted, or
     * `None` when the insert is rejected for a price the column cannot hold; the delete stays.
     */
    method ReplaceLinks(records: seq<Record>, parsePrice: RawPrice -> Option<int>, priceFits: int -> bool)
      returns (r: Option<nat>)
      requires Valid()
      modifies this
      ensures Valid()
      ensures var pending := Associate(LookupOf(old(Snapshot()), parsePrice), records);
        if PricesFit(pending, priceFits) then
          Snapshot() == InsertLinks(DeleteLinks(old(Snapshot())), pending) && r == Some(|pending|)
        else
          Snapshot() == DeleteLinks(old(Snapshot())) && r == None
    {
      AssociateInsertable(Snapshot(), records, parsePrice);
      var existingProducts := NameIndex(products);
      var existingLocations := AddressIndex(locations);
      DeleteAllLinks();
      ghost var db2 := Snapshot();
      var pharmProdPrices, counter := CollectLinks(records, Lookup(existingProducts, existingLocations, parsePrice));
      if |pharmProdPrices| > 0 {
        var ok := BulkSaveLinks(pharmProdPrices, priceFits);
        if !ok {
          return None;  // the insert raises; the committed delete is not undone
        }
      } else {
        assert InsertLinks(db2, pharmProdPrices) == db2;
      }
      r := Some(counter);
    }

    /**
     * The two passes of `update_db` over a batch. Pass 1 and the delete are never rejected;
     * the run leaves the store and returns the count (or `None`, for the raise) that `Run`
     * describes.
     */
    method Reconcile(records: seq<Record>, parsePrice: RawPrice -> Option<int>, priceFits: int -> bool)
      returns (r: Option<nat>)
      requires Valid()
      modifies this
      ensures Valid()
      ensures (Snapshot(), r) == Run(old(Snapshot()), records, parsePrice, priceFits)
    {
      InsertNewEntities(records);
      r := ReplaceLinks(records, parsePrice, priceFits);
    }

    /**
     * `update_db` on an already fetched document: a missing or empty document, or one without
     * "Products", fails the whole batch and leaves the store as it was; otherwise the batch is
     * reconciled. A run whose association insert is rejected raises before the window check;
     * a run that completes reports an index rebuild due inside the maintenance window.
     */
    method UpdateDb(doc: Option<Document>, parsePrice: RawPrice -> Option<int>, priceFits: int -> bool,
                    weekday: int, hour: int)
      returns (r: Result<nat, UpdateError>, rebuildDue: bool)
      requires Valid()
      modifies this
      ensures Valid()
      ensures LoadRecords(doc).Err? ==>
        r == Err(BadDocument(LoadRecords(doc).error)) && Snapshot() == old(Snapshot()) && !rebuildDue
      ensures LoadRecords(doc).Ok? ==>
        var (db', count) := Run(old(Snapshot()), LoadRecords(doc).value, parsePrice, priceFits);
        && Snapshot() == db'
        && (count.Some? ==> r == Ok(count.value) && rebuildDue == RebuildWindow(weekday, hour))
        && (count.None? ==> r == Err(InsertRejected) && !rebuildDue)
    {
      var loaded := LoadRecords(doc);
      if loaded.Err? {
        return Err(BadDocument(loaded.error)), false;
      }
      var counter := Reconcile(loaded.value, parsePrice, priceFits);
      if counter.None? {
        return Err(InsertRejected), false;
      }
      rebuildDue := RebuildWindow(weekday, hour);
      r := Ok(counter.value);
    }
  }
}
