# Product catalogue reconciliation: a Dafny model

The service keeps a relational catalogue of **products**, **locations** (points of sale,
keyed by street address) and **location–product associations**, each carrying the integer
price of a product at a location. A feed delivers a batch of records: product name,
location address and raw price. `update_db` reconciles the catalogue with the batch in two
passes:

1. It builds name → id and address → id maps from the stored rows. It queues every raw name
   and raw address that is neither stored nor already queued, in first-seen order. It then
   bulk-inserts each non-empty queue.
2. It rebuilds the maps and deletes every association. Then it walks the batch again:
   - A record whose price does not convert to an integer is skipped.
   - The *stripped* name and address are looked up. A record is skipped when either is missing,
     where an id of 0 counts as missing.
   - The first quote of every (product, location) pair is kept; later quotes are ignored.
   - The kept associations are bulk-inserted, and the run returns their number. The delete
     is already committed, so when the insert is rejected (a price the `price` column's
     integer type cannot hold) the run raises and leaves no association at all.

   On Mondays between 04:00 and 05:59 a rebuild of the search index is due.

Three read queries sit beside it:
- the locations stocking the first product whose name matches a pattern;
- the price of such a product at the location with a given address;
- the list of all product names.

The model is organised as follows:

- `ProductModels` (`product_models.dfy`):
  - The rows and the store value `Db`, with per-table autoincrement counters.
  - The column constraints: positive store-assigned ids; unique non-null names and addresses;
    unique but nullable phones; resolvable foreign keys; a unique (product, location) pair;
    a non-null integer price.
  - The bulk operations as functions, with proofs that an insert the constraints accept keeps
    the store valid.
- `Feed` (`feed.dfy`): the validated batch, and the rejection of an absent or empty document
  or one without `"Products"`.
- `PyStr` (`py_str.dfy`): Python's `str.strip()` with no argument, over Python's whitespace
  set.
- `Reconciliation` (`reconciliation.dfy`): the two passes as functions of the store before the
  run, with the properties of a run.
  - `Reconciled(db, batch, parsePrice)` is the store after a run whose association insert is
    accepted, together with the returned count.
  - `Run(db, batch, parsePrice, priceFits)` is the run as the code performs it, including the
    raise when a price falls outside the column's range `priceFits`.
  - Price conversion is a parameter returning `None` where `int()` would raise.
- `EntityStore` (`store.dfy`): the store as a class whose tables are updated in place.
  - The source's loops become `QueueNew`, `CollectLinks` and the `Store` methods.
  - Each is proved to produce exactly what the functions of `Reconciliation` describe.
- `Queries` (`queries.dfy`): the read queries. Each `db.scalar` returns the first matching row
  in store order. The SQL `ilike` test is a parameter.
- `Scenarios` (`scenarios.dfy`): concrete runs on an empty store.
  - A repeated quote keeps the first price.
  - A padded name is stored but never linked.
  - An unconvertible price still inserts the product and the location.

## Model

| member | source | states |
|---|---|---|
| ProductModels.ProductsValid | src/db/Models/product_models.py:5-6 | the products table: positive, increasing, store-assigned ids below the sequence's next value, and unique names (line 22) |
| ProductModels.LocationsValid | src/db/Models/product_models.py:9-12 | the locations table: ids as for products, unique addresses, and phones unique among the locations that have one |
| ProductModels.LinksValid | src/db/Models/product_models.py:30-43 | the association table: ids as for products, both foreign keys resolve, and no two rows share a (product, location) pair |
| ProductModels.DbValid | src/db/Models/product_models.py:5-43 | the three tables meet their column constraints at once; the price column's integer range is not part of it and is checked at the insert instead |
| ProductModels.EmptyDb | src/db/Models/product_models.py:5-6 | the empty store, with every sequence at 1, is valid |
| ProductModels.NewProducts | src/db/Models/product_models.py:5-6 | a bulk insert gives the k-th new product the id `next + k` and its name |
| ProductModels.NewLocations | src/db/Models/product_models.py:9-12 | new locations get consecutive ids, their address and no phone |
| ProductModels.NewLinks | src/db/Models/product_models.py:30-36 | new associations get consecutive ids and keep product, location and price |
| ProductModels.ProductsConcatValid | src/db/Models/product_models.py:20-22 | appending rows with fresh larger ids and fresh names keeps the product table valid |
| ProductModels.ProductsAppendValid | src/db/Models/product_models.py:20-22 | a product insert with distinct names, none already stored, keeps ids increasing and names unique |
| ProductModels.LocationsConcatValid | src/db/Models/product_models.py:9-12 | appending locations with fresh ids and addresses keeps the table valid, phones included |
| ProductModels.LocationsAppendValid | src/db/Models/product_models.py:9-12 | a location insert with distinct unseen addresses keeps addresses and phones unique |
| ProductModels.LinksValidUnderGrowth | src/db/Models/product_models.py:30-43 | associations stay valid when the product and location tables only grow |
| ProductModels.InsertProducts | src/db/CRUD.py:134-135 | the old rows stay in front with their ids; the k-th inserted name becomes the product numbered `next + k`; the product sequence advances by the batch size; the stored names become the old names plus the inserted ones; the locations, the associations and their sequences are untouched |
| ProductModels.InsertLocations | src/db/CRUD.py:136-137 | the old rows stay in front with their ids; the k-th inserted address becomes a phoneless location numbered `next + k`; the location sequence advances by the batch size; the stored addresses become the old ones plus the inserted ones; the products, the associations and their sequences are untouched |
| ProductModels.DeleteLinks | src/db/CRUD.py:147 | no association is left; the products, the locations and every id sequence stay as they were; validity is kept |
| ProductModels.InsertLinks | src/db/CRUD.py:180-181 | the old associations stay in front; the k-th pending association becomes the row numbered `next + k` with its product, location and price; the sequence advances by the batch size; products and locations are untouched |
| ProductModels.InsertProductsValid | src/db/Models/product_models.py:20-22 | a product insert the unique constraint accepts keeps the whole store valid |
| ProductModels.InsertLocationsValid | src/db/Models/product_models.py:9-12 | a location insert the unique constraint accepts keeps the whole store valid |
| ProductModels.InsertLinksValid | src/db/Models/product_models.py:30-43 | an insert with resolvable foreign keys and fresh, distinct pairs keeps the store valid |
| ProductModels.PricesFit | src/db/Models/product_models.py:36 | every price of an insert is a value of the `price` column's integer type, whose range `priceFits` the backend fixes |
| Feed.LoadRecords | src/db/CRUD.py:83-90 | an absent or empty document is rejected; otherwise the batch is exactly the list under "Products", and a missing key is an error |
| PyStr.LeadingSpaces | src/db/CRUD.py:161-162 | counts exactly the whitespace run at the front |
| PyStr.TrailingSpaces | src/db/CRUD.py:161-162 | counts exactly the whitespace run at the back |
| PyStr.Strip | src/db/CRUD.py:161-162 | the result is the contiguous slice left after removing all leading and trailing whitespace, and it neither starts nor ends with whitespace |
| PyStr.StripUnchangedIff | src/db/CRUD.py:161-162 | stripping leaves a string unchanged if and only if it is empty or has no whitespace at either end |
| PyStr.StripIdempotent | src/db/CRUD.py:161-162 | stripping twice is stripping once |
| Reconciliation.NameIndex | src/db/CRUD.py:112-114 | the `{p.name: p.id}` map has exactly the stored names as keys, and every value is a stored id |
| Reconciliation.AddressIndex | src/db/CRUD.py:113-115 | the `{p.address: p.id}` map has exactly the stored addresses as keys, and every value is a stored id |
| Reconciliation.NameIndexAt | src/db/CRUD.py:114 | with unique names, the map sends each stored name to that row's id |
| Reconciliation.AddressIndexAt | src/db/CRUD.py:115 | with unique addresses, the map sends each stored address to that row's id |
| Reconciliation.FirstSeen | src/db/CRUD.py:118-131 | a key is queued if and only if it occurs in the batch and is not yet stored; the queue has no duplicates |
| Reconciliation.FirstSeenSnoc | src/db/CRUD.py:126-128 | one more key is queued exactly when it is neither stored nor already queued |
| Reconciliation.FirstSeenOrder | src/db/CRUD.py:123-131 | queued keys appear in the order of their first occurrence in the batch |
| Reconciliation.Pass1 | src/db/CRUD.py:117-138 | pass 1 is the insert of the first-seen unstored raw names, then of the first-seen unstored raw addresses |
| Reconciliation.Pass1Valid | src/db/CRUD.py:123-138 | pass 1 never trips the unique constraints on name or address, and it leaves the store valid |
| Reconciliation.FirstSeenCovers | src/db/CRUD.py:126-131 | queued keys plus stored keys equal batch keys plus stored keys |
| Reconciliation.Pass1Stores | src/db/CRUD.py:123-138 | after pass 1 the stored names are the old ones plus every raw name of the batch; likewise for addresses |
| Reconciliation.Pass1KeepsExisting | src/db/CRUD.py:134-144 | pass 1 only appends: old rows and the ids old keys map to stay, and associations are untouched |
| Reconciliation.Pass1Appends | src/db/CRUD.py:134-137 | pass 1 keeps the old rows as a prefix and leaves the associations and their sequence alone |
| Reconciliation.Pass1KeepsNameIds | src/db/CRUD.py:141-143 | a name stored before pass 1 maps to the same id in the rebuilt map |
| Reconciliation.Pass1KeepsAddressIds | src/db/CRUD.py:142-144 | an address stored before pass 1 maps to the same id in the rebuilt map |
| Reconciliation.Get | src/db/CRUD.py:163-164 | `dict.get`: the id under the key, or nothing for a key the map lacks |
| Reconciliation.Missing | src/db/CRUD.py:166 | `not product_id`: an absent id and the id 0 both count as missing |
| Reconciliation.Resolve | src/db/CRUD.py:155-167 | a record yields an association if and only if its price converts and both stripped keys map to non-zero ids, and then it carries those ids and that price |
| Reconciliation.ResolveAllAppend | src/db/CRUD.py:154 | resolving a concatenation is concatenating the resolutions |
| Reconciliation.Associate | src/db/CRUD.py:150-179 | pass 2's list is the deduplication of the records' resolutions, in batch order |
| Reconciliation.Dedup | src/db/CRUD.py:169-179 | the kept associations have pairwise different pairs, each was asked for, and every asked pair is kept |
| Reconciliation.DedupSnoc | src/db/CRUD.py:169-179 | one more request adds its association exactly when its pair is new |
| Reconciliation.PairsSnoc | src/db/CRUD.py:172 | recording an association adds exactly its pair to the seen pairs |
| Reconciliation.DedupSound | src/db/CRUD.py:169-179 | every kept association was the first request of its pair |
| Reconciliation.DedupComplete | src/db/CRUD.py:169-179 | the first request of every pair is kept |
| Reconciliation.DedupFirstWins | src/db/CRUD.py:169-172 | an association is kept if and only if it is the first request of its pair, price included |
| Reconciliation.DedupSkipsNone | src/db/CRUD.py:157-167 | a record resolving to nothing is skipped on its own; later records are handled as if it were absent |
| Reconciliation.DedupKeepsDistinct | src/db/CRUD.py:169-179 | requests for pairwise different pairs all survive |
| Reconciliation.AssociateSkipsUnresolved | src/db/CRUD.py:155-167 | an unresolvable record (bad price, unknown stripped key) changes nothing else in pass 2 |
| Reconciliation.PriceFailureCostsOne | src/db/CRUD.py:155-159 | among otherwise distinct resolvable records, a price that does not convert costs exactly one association |
| Reconciliation.LookupOf | src/db/CRUD.py:141-144 | pass 2 resolves against maps rebuilt from the store as pass 1 left it |
| Reconciliation.Reconciled | src/db/CRUD.py:109-182 | a run whose association insert is accepted: pass 1, the delete, then the insert of pass 2's list, returning its length |
| Reconciliation.Contents | src/db/Models/product_models.py:30-36 | an association's content is its product, location and price, with the surrogate id left out |
| Reconciliation.AssociateInsertable | src/db/CRUD.py:163-181 | pass 2's insert satisfies both foreign keys and the pair constraint |
| Reconciliation.ReconciledValid | src/db/CRUD.py:109-182 | a run whose association insert is accepted keeps every modelled uniqueness, foreign-key and id constraint of the store |
| Reconciliation.ReconciledLinks | src/db/CRUD.py:147-181 | after a run the associations are the pending ones, numbered from the sequence's current value |
| Reconciliation.NewLinksContents | src/db/Models/product_models.py:30-36 | freshly inserted association rows carry exactly the pending product, location and price |
| Reconciliation.NewLinksFresh | src/db/Models/product_models.py:5-6 | rows numbered from the sequence's current value are none of the rows numbered before |
| Reconciliation.PendingBound | src/db/CRUD.py:154-179 | a run asks for at most one association per record |
| Reconciliation.FullReplacement | src/db/CRUD.py:147-182 | after a run whose insert is accepted, the stored content is exactly the pass-2 list, so nothing of the old table survives unless pass 2 asked for it again; the count equals the number of stored associations and is at most the batch size; with the modelled sequence, which the delete does not reset, no old row is among the new ones |
| Reconciliation.FirstQuoteWins | src/db/CRUD.py:169-182 | after a run, the stored associations are exactly the first resolved quote of every pair |
| Reconciliation.FirstSeenAllKnown | src/db/CRUD.py:126-131 | when every batch key is stored already, nothing is queued |
| Reconciliation.Pass1AddsNothing | src/db/CRUD.py:123-137 | a batch whose names and addresses are all stored inserts no product or location |
| Reconciliation.Idempotent | src/db/CRUD.py:93-191 | a second run of the same batch leaves the same products, locations, association contents and count |
| Reconciliation.PaddedNameNeverMatched | src/db/CRUD.py:124-163 | a record whose stripped name is unknown has its padded raw name stored, yet pass 2 builds what it would build without that record |
| Reconciliation.Run | src/db/CRUD.py:109-182 | a run as the code performs it: when every pending price fits the column, the store and count of `Reconciled`; otherwise pass 1's store with the association table emptied, and the run raises |
| Reconciliation.PendingPricesConverted | src/db/CRUD.py:155-179 | every price pass 2 asks to store, under any lookup, is the conversion of some record's raw price |
| Reconciliation.RunSucceedsWhenPricesFit | src/db/CRUD.py:155-182 | when the column holds every converted price of the batch, the run completes and is the run `Reconciled` describes |
| Reconciliation.RunFailsIff | src/db/CRUD.py:147-181 | the run raises if and only if the first quote of some pair carries a price the column cannot hold |
| Reconciliation.OutOfRangePriceEmptiesLinks | src/db/CRUD.py:147-181 | when the first quote of some pair carries a price the column cannot hold, it aborts the batch: the run raises, no association is left, and pass 1's products and locations stay |
| Reconciliation.RunIdempotent | src/db/CRUD.py:109-182 | a completed run repeated on its own result completes again with the same products, locations, association contents and count |
| Reconciliation.CheckedParse | src/db/CRUD.py:155-159 | the conversion with the column's range folded in: a price that does not fit counts as one that does not convert |
| Reconciliation.CheckedRunSucceeds | src/db/CRUD.py:155-182 | with the checked conversion the run never raises and is the run `Reconciled` describes |
| Reconciliation.CheckedSkipsOutOfRange | src/db/CRUD.py:155-159 | with the checked conversion a record whose price does not fit is skipped on its own, and pass 2 builds what it would build without it |
| EntityStore.RebuildWindow | src/db/CRUD.py:185-186 | a rebuild is due on weekday 0 (Monday) at hours 4 to 5 inclusive |
| EntityStore.RebuildWindowSlots | src/db/CRUD.py:185-186 | over a week the rebuild window is exactly Monday 04:00 and Monday 05:00 |
| EntityStore.Enqueue | src/db/CRUD.py:126-131 | one more key extends the queue to the first-seen queue of the longer batch, and the set of queued keys stays in step with the queue |
| EntityStore.QueueNew | src/db/CRUD.py:117-131 | the first loop produces the first-seen queues of unstored raw names and addresses |
| EntityStore.CollectLinks | src/db/CRUD.py:150-179 | the second loop produces the deduplicated resolved associations, and the counter equals their number |
| EntityStore.Store.constructor | src/db/Models/product_models.py:5-6 | a new store is empty and valid |
| EntityStore.Store.BulkSaveProducts | src/db/CRUD.py:134-135 | succeeds if and only if the unique constraint accepts the names; then the store is the insert, otherwise unchanged |
| EntityStore.Store.BulkSaveLocations | src/db/CRUD.py:136-137 | succeeds if and only if the unique constraint accepts the addresses; then the store is the insert, otherwise unchanged |
| EntityStore.Store.DeleteAllLinks | src/db/CRUD.py:147 | removes every association and keeps the store valid |
| EntityStore.Store.BulkSaveLinks | src/db/CRUD.py:180-181 | succeeds if and only if both foreign keys, the pair constraint and the price column's range accept the rows; then the store is the insert, otherwise unchanged |
| EntityStore.Store.SaveNewProducts | src/db/CRUD.py:134-135 | a non-empty queue of acceptable names is inserted and an empty one changes nothing; either way the store is `InsertProducts` of the old one |
| EntityStore.Store.SaveNewLocations | src/db/CRUD.py:136-137 | a non-empty queue of acceptable addresses is inserted and an empty one changes nothing; either way the store is `InsertLocations` of the old one |
| EntityStore.Store.InsertNewEntities | src/db/CRUD.py:111-138 | pass 1 in place leaves the store that `Pass1` describes, with no insert rejected |
| EntityStore.Store.ReplaceLinks | src/db/CRUD.py:140-182 | pass 2 in place: when every pending price fits the column, all associations are replaced by the deduplicated resolved ones and their number is returned; otherwise the delete stays, nothing is inserted, and the run raises |
| EntityStore.Store.Reconcile | src/db/CRUD.py:109-182 | a run in place keeps the store valid and leaves the store and outcome that `Run` describes |
| EntityStore.Store.UpdateDb | src/db/CRUD.py:106-191 | a rejected document leaves the store unchanged; otherwise the store is the one `Run` describes; a raised insert is reported as an error with no rebuild; a completed run returns its count, and a rebuild is due exactly inside the Monday window |
| Queries.FirstWhere | src/db/CRUD.py:203 | returns the position of the first row the filter accepts, or none when no row does |
| Queries.FindProduct | src/db/CRUD.py:203 | returns the first product in store order whose name matches `%name%`, or nothing when none does |
| Queries.FindLocation | src/db/CRUD.py:227 | the first location whose address equals the one asked for, or nothing |
| Queries.FindLink | src/db/CRUD.py:230-235 | the first association of the (product, location) pair, or nothing |
| Queries.FindLocationUnique | src/db/CRUD.py:227 | in a valid store, the address lookup finds the one location with that address |
| Queries.FindLinkUnique | src/db/CRUD.py:230-235 | in a valid store, the pair lookup finds the one association of that pair |
| Queries.GetProductPrice | src/db/CRUD.py:216-238 | no price without a matching product or a location with that address |
| Queries.PriceOfStoredQuote | src/db/CRUD.py:216-238 | a price is returned if and only if an association quotes the found product at that address, and it is that association's price |
| Queries.JoinLocations | src/db/CRUD.py:207-212 | every joined location is stored and is pointed to by an association of the product |
| Queries.JoinLocationsComplete | src/db/CRUD.py:207-212 | every stored location an association of the product points to is joined |
| Queries.JoinLocationsDistinct | src/db/CRUD.py:207-212 | with unique pairs, no location is returned twice |
| Queries.GetAllLocationsByProductName | src/db/CRUD.py:194-213 | no matching product gives the empty list; every returned location is stored |
| Queries.LocationsOfFoundProduct | src/db/CRUD.py:194-213 | the result is exactly the stored locations linked to the found product, each once |
| Queries.GetAllProducts | src/db/CRUD.py:251-256 | returns none if and only if no product is stored; otherwise exactly the stored names |
| Queries.AllProductsDistinct | src/db/CRUD.py:251-256 | in a valid store the name list has no duplicates |
| Queries.AllProductsAfterRun | src/db/CRUD.py:251-256 | after a run on a non-empty batch, whether or not its association insert raised, the list exists and holds the old names plus every raw batch name |
| Scenarios.RepeatedKeyQueuedOnce | src/db/CRUD.py:126-131 | a key occurring twice in a batch and not stored is queued once |
| Scenarios.QuoteResolves | src/db/CRUD.py:155-167 | a clean record with a convertible price resolves to the stored ids at that price |
| Scenarios.PaddedNameStrips | src/db/CRUD.py:161 | stripping removes the leading space of a padded name |
| Scenarios.DuplicateQuoteKeepsFirst | src/db/CRUD.py:169-179 | two quotes for one pair on an empty store give one product, one location and one association at the first price, with count 1 |
| Scenarios.PaddedNameStoredButNotLinked | src/db/CRUD.py:124-167 | a leading-space name is stored as typed, but no association is made and the count is 0 |
| Scenarios.BadPriceStillInsertsEntities | src/db/CRUD.py:123-159 | an unconvertible price still inserts the product and location, but no association, and the count is 0 |
| Scenarios.HugePriceEmptiesTable | src/db/CRUD.py:155-181 | a lone quote at 10000000000 against a 32-bit price column inserts the product and location, raises at the association insert, and leaves no association |

## Left out

- Fetching the document over HTTP (`__get_json_from_url`) is left out. `UpdateDb` receives the already decoded document, and `None` stands for one that is absent.
- Pydantic validation of the items is left out. A record is a validated item; an item that fails validation would abort the whole batch, and this is not modelled.
- `create_db`, sessions, transactions and rollback are left out. Each bulk operation is atomic here, and a constraint violation rejects it whole. The commits matter only in pass 2: the committed delete stays when the later insert raises, and `Run` models exactly that.
- The database backend (src/db/database.py) is not part of this model. The range of the `price` column's integer type is the parameter `priceFits`: 32 bits in PostgreSQL, 64 bits in SQLite.
- Python's `int()` conversion of the price is a parameter. The model does not claim non-negative prices, since the code does not enforce them.
- The SQL `ilike` test is a parameter. Its case folding and its treatment of `%` and `_` inside the user's name are not modelled.
- The clock is left out: the weekday and hour are parameters.
- The vector-store rebuild and all logging are left out. The model only reports whether a rebuild is due.
- `get_products_by_name` is not part of this model.
- The window between the delete and the insert, during which readers see no associations, is not modelled.
- EntityStore.Store.Reconcile: the associations' surrogate ids rest on a modelling assumption, that the delete does not reset the table's id sequence, so new rows are numbered after every earlier one. The real ids depend on the backend. PostgreSQL's sequence goes on. SQLite reuses ids once the table is empty, because the key is a rowid declared without AUTOINCREMENT. `Reconciliation.NewLinksFresh` and the id clause of `Reconciliation.FullReplacement` hold only under this assumption. Full replacement itself is the clause `Contents(...) == PendingOf(...)`, which does not depend on ids. `Reconciliation.Idempotent` likewise compares contents, not ids.
- The queries read a store value, not a session. Rows come back in store order, although SQL without `ORDER BY` leaves the order unspecified.
- A later quote for an already seen pair never replaces the earlier one. The code keeps the first quote (src/db/CRUD.py:169-171), and so does the model.

## Findings

| source | as written | input that shows it | evidently intended | confidence | as-written member | corrected member |
|---|---|---|---|---|---|---|
| src/db/CRUD.py:147-181 | The delete is committed first. The converted price then reaches the single bulk insert with no range check, so one price the `price` column cannot hold makes the insert raise. Every association of the batch is lost, and the association table is left empty. | a batch whose first quote for a pair has the price "10000000000", on a backend whose INTEGER is 32 bits (`Scenarios.HugePriceEmptiesTable`) | such a price is skipped like one that does not convert, and the rest of the batch is stored | medium: depends on the backend's integer width; not executed | Reconciliation.OutOfRangePriceEmptiesLinks | Reconciliation.CheckedRunSucceeds |

The store methods model the code as written. Given `CheckedParse(parsePrice, priceFits)` as their conversion, they behave as intended: the run never raises (`Reconciliation.CheckedRunSucceeds`), and a price that does not fit costs only its own record (`Reconciliation.CheckedSkipsOutOfRange`).
