/**
 * The three tables of the store and their column constraints: every row has a surrogate `id`
 * handed out by the store's autoincrement sequence, `products.name` and `locations.address` are
 * unique and non-null, `locations.phone` is unique but nullable, and `location_products` holds
 * non-null foreign keys into both tables, a non-null integer price and a unique
 * (product_id, location_id) pair.
 */
module ProductModels {
  import opened Wrappers

  /** A row of `products`. */
  datatype Product = Product(id: nat, name: string)

  /** A row of `locations`; a location inserted by the reconciliation has no phone. */
  datatype Location = Location(id: nat, address: string, phone: Option<string>)

  /** A row of `location_products`: the price of one product at one location. */
  datatype LocationProduct = LocationProduct(id: nat, productId: nat, locationId: nat, price: int)

  /** A `LocationProduct` object built by the caller, before the store gives it an id. */
  datatype PendingLink = PendingLink(productId: nat, locationId: nat, price: int)

  /**
   * The whole store: the three tables in store order, and for each table the next value its
   * autoincrement sequence will hand out.
   */
  datatype Db = Db(
    products: seq<Product>, locations: seq<Location>, links: seq<LocationProduct>,
    nextProductId: nat, nextLocationId: nat, nextLinkId: nat)

  function ProductIds(ps: seq<Product>): set<nat> { set p | p in ps :: p.id }

  function LocationIds(ls: seq<Location>): set<nat> { set l | l in ls :: l.id }

  function ProductNames(ps: seq<Product>): set<string> { set p | p in ps :: p.name }

  function Addresses(ls: seq<Location>): set<string> { set l | l in ls :: l.address }

  /** The key of the unique constraint on `location_products`. */
  function Pair(l: LocationProduct): (nat, nat) { (l.productId, l.locationId) }

  function PendingPair(l: PendingLink): (nat, nat) { (l.productId, l.locationId) }

  predicate Distinct<T(==)>(s: seq<T>)
  {
    forall i, j :: 0 <= i < j < |s| ==> s[i] != s[j]
  }

  /** Ids are positive, increase in store order and stay below the sequence's next value; names are unique. */
  predicate ProductsValid(ps: seq<Product>, next: nat)
  {
    && 1 <= next
    && (forall i :: 0 <= i < |ps| ==> 1 <= ps[i].id < next)
    && (forall i, j :: 0 <= i < j < |ps| ==> ps[i].id < ps[j].id)
    && (forall i, j :: 0 <= i < j < |ps| ==> ps[i].name != ps[j].name)
  }

  /** As for products; addresses are unique, phones are unique among the locations that have one. */
  predicate LocationsValid(ls: seq<Location>, next: nat)
  {
    && 1 <= next
    && (forall i :: 0 <= i < |ls| ==> 1 <= ls[i].id < next)
    && (forall i, j :: 0 <= i < j < |ls| ==> ls[i].id < ls[j].id)
    && (forall i, j :: 0 <= i < j < |ls| ==> ls[i].address != ls[j].address)
    && (forall i, j :: 0 <= i < j < |ls| && ls[i].phone.Some? ==> ls[i].phone != ls[j].phone)
  }

  /** Ids as for products; both foreign keys resolve; no two rows share a (product, location) pair. */
  predicate LinksValid(links: seq<LocationProduct>, next: nat, ps: seq<Product>, ls: seq<Location>)
  {
    && 1 <= next
    && (forall i :: 0 <= i < |links| ==> 1 <= links[i].id < next)
    && (forall i, j :: 0 <= i < j < |links| ==> links[i].id < links[j].id)
    && (forall i :: 0 <= i < |links| ==> links[i].productId in ProductIds(ps))
    && (forall i :: 0 <= i < |links| ==> links[i].locationId in LocationIds(ls))
    && (forall i, j :: 0 <= i < j < |links| ==> Pair(links[i]) != Pair(links[j]))
  }

  predicate DbValid(db: Db)
  {
    && ProductsValid(db.products, db.nextProductId)
    && LocationsValid(db.locations, db.nextLocationId)
    && LinksValid(db.links, db.nextLinkId, db.products, db.locations)
  }

  /** The empty store; every sequence starts at 1. */
  function EmptyDb(): (db: Db)
    ensures DbValid(db)
  {
    Db([], [], [], 1, 1, 1)
  }

  /** The rows `bulk_save_objects` stores for new products named `names`: consecutive ids from `next`. */
  function NewProducts(names: seq<string>, next: nat): (rows: seq<Product>)
    ensures |rows| == |names|
    ensures forall k :: 0 <= k < |names| ==> rows[k] == Product(next + k, names[k])
  {
    if names == [] then [] else [Product(next, names[0])] + NewProducts(names[1..], next + 1)
  }

  /** The rows stored for new locations at `addresses`; they are created without a phone. */
  function NewLocations(addresses: seq<string>, next: nat): (rows: seq<Location>)
    ensures |rows| == |addresses|
    ensures forall k :: 0 <= k < |addresses| ==> rows[k] == Location(next + k, addresses[k], None)
  {
    if addresses == [] then [] else [Location(next, addresses[0], None)] + NewLocations(addresses[1..], next + 1)
  }

  /** The rows stored for pending links, with consecutive ids from `next`. */
  function NewLinks(pending: seq<PendingLink>, next: nat): (rows: seq<LocationProduct>)
    ensures |rows| == |pending|
    ensures forall k :: 0 <= k < |pending| ==>
      rows[k] == LocationProduct(next + k, pending[k].productId, pending[k].locationId, pending[k].price)
  {
    if pending == [] then []
    else
      [LocationProduct(next, pending[0].productId, pending[0].locationId, pending[0].price)]
      + NewLinks(pending[1..], next + 1)
  }

  /** A bulk insert of products the unique constraint on `name` accepts. */
  predicate ProductsInsertable(ps: seq<Product>, names: seq<string>)
  {
    Distinct(names) && forall k :: 0 <= k < |names| ==> names[k] !in ProductNames(ps)
  }

  /** A bulk insert of locations the unique constraint on `address` accepts. */
  predicate LocationsInsertable(ls: seq<Location>, addresses: seq<string>)
  {
    Distinct(addresses) && forall k :: 0 <= k < |addresses| ==> addresses[k] !in Addresses(ls)
  }

  /** A bulk insert of links that the pair constraint and both foreign keys accept. */
  predicate LinksInsertable(db: Db, pending: seq<PendingLink>)
  {
    && (forall i, j :: 0 <= i < j < |pending| ==> PendingPair(pending[i]) != PendingPair(pending[j]))
    && (forall k, i :: 0 <= k < |pending| && 0 <= i < |db.links| ==> PendingPair(pending[k]) != Pair(db.links[i]))
    && (forall k :: 0 <= k < |pending| ==> pending[k].productId in ProductIds(db.products))
    && (forall k :: 0 <= k < |pending| ==> pending[k].locationId in LocationIds(db.locations))
  }

  /**
   * Every price of a bulk insert of links is a value the `price` column's integer type holds.
   * That type belongs to the database backend (a 32-bit INTEGER in PostgreSQL, a 64-bit one in
   * SQLite), so the range is the parameter `priceFits`.
   */
  predicate PricesFit(pending: seq<PendingLink>, priceFits: int -> bool)
  {
    forall k :: 0 <= k < |pending| ==> priceFits(pending[k].price)
  }

  /** Two valid products tables whose names differ and whose ids follow each other form one valid table. */
  lemma ProductsConcatValid(ps: seq<Product>, rs: seq<Product>, next: nat, next': nat)
    requires ProductsValid(ps, next) && ProductsValid(rs, next') && next <= next'
    requires forall j :: 0 <= j < |rs| ==> next <= rs[j].id
    requires forall i, j :: 0 <= i < |ps| && 0 <= j < |rs| ==> ps[i].name != rs[j].name
    ensures ProductsValid(ps + rs, next')
  {
    var qs := ps + rs;
    var n := |ps|;
    forall i, j | 0 <= i < j < |qs| ensures qs[i].id < qs[j].id && qs[i].name != qs[j].name {
      if j < n {
        assert qs[i] == ps[i] && qs[j] == ps[j];
      } else if i < n {
        assert qs[i] == ps[i] && qs[j] == rs[j - n];
      } else {
        assert qs[i] == rs[i - n] && qs[j] == rs[j - n];
      }
    }
    forall i | 0 <= i < |qs| ensures 1 <= qs[i].id < next' {
      if i < n { assert qs[i] == ps[i]; } else { assert qs[i] == rs[i - n]; }
    }
  }

  /** Appending products whose names the unique constraint accepts keeps the products table valid. */
  lemma ProductsAppendValid(ps: seq<Product>, names: seq<string>, next: nat)
    requires ProductsValid(ps, next) && ProductsInsertable(ps, names)
    ensures ProductsValid(ps + NewProducts(names, next), next + |names|)
  {
    var rows := NewProducts(names, next);
    forall a, b | 0 <= a < b < |rows| ensures rows[a].id < rows[b].id && rows[a].name != rows[b].name {
      assert names[a] != names[b];
    }
    forall i, j | 0 <= i < |ps| && 0 <= j < |rows| ensures ps[i].name != rows[j].name {
      assert ps[i] in ps;
      assert ps[i].name in ProductNames(ps);
      assert names[j] !in ProductNames(ps);
    }
    ProductsConcatValid(ps, rows, next, next + |names|);
  }

  /** Two valid locations tables whose addresses and phones differ and whose ids follow each other form one valid table. */
  lemma LocationsConcatValid(ls: seq<Location>, rs: seq<Location>, next: nat, next': nat)
    requires LocationsValid(ls, next) && LocationsValid(rs, next') && next <= next'
    requires forall j :: 0 <= j < |rs| ==> next <= rs[j].id
    requires forall i, j :: 0 <= i < |ls| && 0 <= j < |rs| ==> ls[i].address != rs[j].address
    requires forall j :: 0 <= j < |rs| ==> rs[j].phone.None?
    ensures LocationsValid(ls + rs, next')
  {
    var ms := ls + rs;
    var n := |ls|;
    forall i, j | 0 <= i < j < |ms|
      ensures ms[i].id < ms[j].id && ms[i].address != ms[j].address
      ensures ms[i].phone.Some? ==> ms[i].phone != ms[j].phone
    {
      if j < n {
        assert ms[i] == ls[i] && ms[j] == ls[j];
      } else if i < n {
        assert ms[i] == ls[i] && ms[j] == rs[j - n];
      } else {
        assert ms[i] == rs[i - n] && ms[j] == rs[j - n];
      }
    }
    forall i | 0 <= i < |ms| ensures 1 <= ms[i].id < next' {
      if i < n { assert ms[i] == ls[i]; } else { assert ms[i] == rs[i - n]; }
    }
  }

  /** Appending locations whose addresses the unique constraint accepts keeps the locations table valid. */
  lemma LocationsAppendValid(ls: seq<Location>, addresses: seq<string>, next: nat)
    requires LocationsValid(ls, next) && LocationsInsertable(ls, addresses)
    ensures LocationsValid(ls + NewLocations(addresses, next), next + |addresses|)
  {
    var rows := NewLocations(addresses, next);
    forall a, b | 0 <= a < b < |rows| ensures rows[a].id < rows[b].id && rows[a].address != rows[b].address {
      assert addresses[a] != addresses[b];
    }
    forall i, j | 0 <= i < |ls| && 0 <= j < |rows| ensures ls[i].address != rows[j].address {
      assert ls[i] in ls;
      assert ls[i].address in Addresses(ls);
      assert addresses[j] !in Addresses(ls);
    }
    LocationsConcatValid(ls, rows, next, next + |addresses|);
  }

  /** Growing the products or locations table keeps every existing foreign key resolvable. */
  lemma LinksValidUnderGrowth(links: seq<LocationProduct>, next: nat, ps: seq<Product>, ls: seq<Location>,
                              ps': seq<Product>, ls': seq<Location>)
    requires LinksValid(links, next, ps, ls)
    requires forall p :: p in ps ==> p in ps'
    requires forall l :: l in ls ==> l in ls'
    ensures LinksValid(links, next, ps', ls')
  {
    assert ProductIds(ps) <= ProductIds(ps');
    assert LocationIds(ls) <= LocationIds(ls');
  }

  /**
   * The store after a bulk insert of products: the old rows stay in front, the k-th name becomes
   * the row numbered from the sequence's next value plus k, and nothing else changes.
   */
  function InsertProducts(db: Db, names: seq<string>): (db': Db)
    ensures db'.locations == db.locations && db'.links == db.links && db'.nextLinkId == db.nextLinkId
    ensures |db'.products| == |db.products| + |names| && db'.products[..|db.products|] == db.products
    ensures forall k :: 0 <= k < |names| ==> db'.products[|db.products| + k] == Product(db.nextProductId + k, names[k])
    ensures db'.nextProductId == db.nextProductId + |names| && db'.nextLocationId == db.nextLocationId
    ensures ProductNames(db'.products) == ProductNames(db.products) + set n | n in names
  {
    var db' := db.(products := db.products + NewProducts(names, db.nextProductId),
                   nextProductId := db.nextProductId + |names|);
    assert ProductNames(db'.products) == ProductNames(db.products) + set n | n in names by {
      forall n | n in names ensures n in ProductNames(db'.products) {
        var k :| 0 <= k < |names| && names[k] == n;
        assert db'.products[|db.products| + k] in db'.products;
      }
    }
    db'
  }

  /**
   * The store after a bulk insert of locations: the old rows stay in front, the k-th address
   * becomes a phoneless row numbered from the sequence's next value plus k, and nothing else
   * changes.
   */
  function InsertLocations(db: Db, addresses: seq<string>): (db': Db)
    ensures db'.products == db.products && db'.links == db.links && db'.nextLinkId == db.nextLinkId
    ensures |db'.locations| == |db.locations| + |addresses| && db'.locations[..|db.locations|] == db.locations
    ensures forall k :: 0 <= k < |addresses| ==>
      db'.locations[|db.locations| + k] == Location(db.nextLocationId + k, addresses[k], None)
    ensures db'.nextLocationId == db.nextLocationId + |addresses| && db'.nextProductId == db.nextProductId
    ensures Addresses(db'.locations) == Addresses(db.locations) + set a | a in addresses
  {
    var db' := db.(locations := db.locations + NewLocations(addresses, db.nextLocationId),
                   nextLocationId := db.nextLocationId + |addresses|);
    assert Addresses(db'.locations) == Addresses(db.locations) + set a | a in addresses by {
      forall a | a in addresses ensures a in Addresses(db'.locations) {
        var k :| 0 <= k < |addresses| && addresses[k] == a;
        assert db'.locations[|db.locations| + k] in db'.locations;
      }
    }
    db'
  }

  /**
   * The store after `delete(LocationProduct)`: no link is left, the products, the locations and
   * every sequence stay as they were (the model's sequence is not reset by the delete).
   */
  function DeleteLinks(db: Db): (db': Db)
    ensures db'.links == [] && db'.nextLinkId == db.nextLinkId
    ensures db'.products == db.products && db'.locations == db.locations
    ensures db'.nextProductId == db.nextProductId && db'.nextLocationId == db.nextLocationId
    ensures DbValid(db) ==> DbValid(db')
  {
    db.(links := [])
  }

  /**
   * The store after a bulk insert of links: the old rows stay in front, each pending link
   * becomes a row numbered from the sequence's next value, and nothing else changes.
   */
  function InsertLinks(db: Db, pending: seq<PendingLink>): (db': Db)
    ensures db'.products == db.products && db'.locations == db.locations
    ensures db'.nextProductId == db.nextProductId && db'.nextLocationId == db.nextLocationId
    ensures |db'.links| == |db.links| + |pending| && db'.links[..|db.links|] == db.links
    ensures forall k :: 0 <= k < |pending| ==>
      db'.links[|db.links| + k] ==
        LocationProduct(db.nextLinkId + k, pending[k].productId, pending[k].locationId, pending[k].price)
    ensures db'.nextLinkId == db.nextLinkId + |pending|
  {
    db.(links := db.links + NewLinks(pending, db.nextLinkId), nextLinkId := db.nextLinkId + |pending|)
  }

  /** A product insert the unique constraint accepts keeps the whole store valid. */
  lemma InsertProductsValid(db: Db, names: seq<string>)
    requires DbValid(db) && ProductsInsertable(db.products, names)
    ensures DbValid(InsertProducts(db, names))
  {
    ProductsAppendValid(db.products, names, db.nextProductId);
    LinksValidUnderGrowth(db.links, db.nextLinkId, db.products, db.locations,
                          db.products + NewProducts(names, db.nextProductId), db.locations);
  }

  /** A location insert the unique constraint accepts keeps the whole store valid. */
  lemma InsertLocationsValid(db: Db, addresses: seq<string>)
    requires DbValid(db) && LocationsInsertable(db.locations, addresses)
    ensures DbValid(InsertLocations(db, addresses))
  {
    LocationsAppendValid(db.locations, addresses, db.nextLocationId);
    LinksValidUnderGrowth(db.links, db.nextLinkId, db.products, db.locations,
                          db.products, db.locations + NewLocations(addresses, db.nextLocationId));
  }

  /** A link insert the pair constraint and the foreign keys accept keeps the whole store valid. */
  lemma InsertLinksValid(db: Db, pending: seq<PendingLink>)
    requires DbValid(db) && LinksInsertable(db, pending)
    ensures DbValid(InsertLinks(db, pending))
  {
    var rows := NewLinks(pending, db.nextLinkId);
    var all := InsertLinks(db, pending).links;
    assert all == db.links + rows;
    forall i | 0 <= i < |all|
      ensures 1 <= all[i].id < db.nextLinkId + |pending|
      ensures all[i].productId in ProductIds(db.products) && all[i].locationId in LocationIds(db.locations)
    {
      if i >= |db.links| {
        assert all[i] == rows[i - |db.links|];
        assert all[i].id == db.nextLinkId + (i - |db.links|);
      } else {
        assert all[i] == db.links[i];
      }
    }
    forall i, j | 0 <= i < j < |all| ensures all[i].id < all[j].id && Pair(all[i]) != Pair(all[j]) {
      if |db.links| <= i {
        assert all[i] == rows[i - |db.links|] && all[j] == rows[j - |db.links|];
        assert PendingPair(pending[i - |db.links|]) != PendingPair(pending[j - |db.links|]);
      } else if |db.links| <= j {
        assert all[j] == rows[j - |db.links|] && all[i] == db.links[i];
        assert PendingPair(pending[j - |db.links|]) != Pair(db.links[i]);
      }
    }
  }
}
