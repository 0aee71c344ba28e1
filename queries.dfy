/**
 * The read side of the CRUD module, over a store value: the product lookup by name pattern, the
 * locations stocking a product, the price of a product at one address, and the product list.
 */
module Queries {
  import opened Wrappers
  import opened ProductModels
  import opened Feed
  import opened Reconciliation

  /** `db.scalar(select(...).where(filter))`: the position of the first row, in store order, the filter accepts. */
  function FirstWhere<T>(rows: seq<T>, filter: T -> bool): (r: Option<nat>)
    ensures r.None? <==> forall i :: 0 <= i < |rows| ==> !filter(rows[i])
    ensures r.Some? ==> r.value < |rows| && filter(rows[r.value]) && forall i :: 0 <= i < r.value ==> !filter(rows[i])
  {
    if rows == [] then None
    else if filter(rows[0]) then Some(0)
    else
      match FirstWhere(rows[1..], filter)
      case None => None
      case Some(i) => Some(i + 1)
  }

  /** The `ilike` pattern `%name%`: the name anywhere in the column. */
  function LikePattern(name: string): string
  {
    "%" + name + "%"
  }

  /**
   * The product the name lookup returns: the first, in store order, whose name the abstract
   * `ilike` accepts against the pattern.
   */
  function FindProduct(db: Db, ilike: (string, string) -> bool, name: string): (r: Option<Product>)
    ensures r.None? <==> forall i :: 0 <= i < |db.products| ==> !ilike(db.products[i].name, LikePattern(name))
    ensures r.Some? ==> exists i :: (
      && 0 <= i < |db.products| && db.products[i] == r.value
      && ilike(r.value.name, LikePattern(name))
      && forall j :: 0 <= j < i ==> !ilike(db.products[j].name, LikePattern(name)))
  {
    match FirstWhere(db.products, (p: Product) => ilike(p.name, LikePattern(name)))
    case None => None
    case Some(i) => Some(db.products[i])
  }

  /** The first location whose address equals the one asked for. */
  function FindLocation(db: Db, address: string): Option<Location>
  {
    match FirstWhere(db.locations, (l: Location) => l.address == address)
    case None => None
    case Some(j) => Some(db.locations[j])
  }

  /** The first association of a (product, location) pair. */
  function FindLink(db: Db, productId: nat, locationId: nat): Option<LocationProduct>
  {
    match FirstWhere(db.links, (lp: LocationProduct) => lp.productId == productId && lp.locationId == locationId)
    case None => None
    case Some(k) => Some(db.links[k])
  }

  /** In a valid store, the address lookup finds the one location with that address. */
  lemma {:induction false} FindLocationUnique(db: Db, j: nat)
    requires DbValid(db) && j < |db.locations|
    ensures FindLocation(db, db.locations[j].address) == Some(db.locations[j])
  {
    var address := db.locations[j].address;
    var r := FirstWhere(db.locations, (l: Location) => l.address == address);
    assert r.Some? && db.locations[r.value].address == address;
    if r.value != j {
      assert false;  // an earlier row with the same key would break uniqueness
    }
  }

  /** In a valid store, the pair lookup finds the one association of that pair. */
  lemma {:induction false} FindLinkUnique(db: Db, k: nat)
    requires DbValid(db) && k < |db.links|
    ensures FindLink(db, db.links[k].productId, db.links[k].locationId) == Some(db.links[k])
  {
    var lp := db.links[k];
    var r := FirstWhere(db.links, (l: LocationProduct) => l.productId == lp.productId && l.locationId == lp.locationId);
    assert r.Some? && Pair(db.links[r.value]) == Pair(lp);
    if r.value != k {
      assert false;  // an earlier row with the same key would break uniqueness
    }
  }

  /**
   * `get_product_price`: the price of the first product matching the name pattern at the
   * location with exactly that address; `None` when the product, the location or the
   * association is missing.
   */
  function GetProductPrice(db: Db, ilike: (string, string) -> bool, name: string, address: string): (r: Option<int>)
    ensures FindProduct(db, ilike, name).None? ==> r.None?
    ensures FindLocation(db, address).None? ==> r.None?
  {
    match FindProduct(db, ilike, name)
    case None => None
    case Some(product) =>
      match FindLocation(db, address)
      case None => None
      case Some(location) =>
        match FindLink(db, product.id, location.id)
        case None => None
        case Some(lp) => Some(lp.price)
  }

  /** Association `l` quotes the product the name pattern finds at a location with the given address. */
  predicate QuoteFor(db: Db, ilike: (string, string) -> bool, name: string, address: string, l: LocationProduct)
  {
    && FindProduct(db, ilike, name).Some?
    && l.productId == FindProduct(db, ilike, name).value.id
    && exists j :: 0 <= j < |db.locations| && db.locations[j].address == address && db.locations[j].id == l.locationId
  }

  /**
   * In a valid store the price query answers exactly when an association quotes the found
   * product at that address, and then with that association's price.
   */
  lemma PriceOfStoredQuote(db: Db, ilike: (string, string) -> bool, name: string, address: string)
    requires DbValid(db)
    ensures GetProductPrice(db, ilike, name, address).Some? <==>
      exists k :: 0 <= k < |db.links| && QuoteFor(db, ilike, name, address, db.links[k])
    ensures forall k :: 0 <= k < |db.links| && QuoteFor(db, ilike, name, address, db.links[k]) ==>
      GetProductPrice(db, ilike, name, address) == Some(db.links[k].price)
  {
    var r := GetProductPrice(db, ilike, name, address);
    forall k | 0 <= k < |db.links| && QuoteFor(db, ilike, name, address, db.links[k])
      ensures r == Some(db.links[k].price)
    {
      var j :| 0 <= j < |db.locations| && db.locations[j].address == address && db.locations[j].id == db.links[k].locationId;
      FindLocationUnique(db, j);
      FindLinkUnique(db, k);
    }
    if r.Some? {
      var product := FindProduct(db, ilike, name).value;
      var location := FindLocation(db, address).value;
      var f := FirstWhere(db.locations, (l: Location) => l.address == address);
      var g := FirstWhere(db.links, (lp: LocationProduct) => lp.productId == product.id && lp.locationId == location.id);
      assert QuoteFor(db, ilike, name, address, db.links[g.value]) by {
        assert db.locations[f.value] == location;
      }
    }
  }

  /**
   * The `select(Location).join(LocationProduct, ...).where(product_id == id)` rows: for each
   * association of the product, in store order, the location it points to (an inner join, so
   * an association whose location is gone yields nothing).
   */
  function JoinLocations(links: seq<LocationProduct>, ls: seq<Location>, productId: nat): (r: seq<Location>)
    ensures |r| <= |links|
    ensures forall loc :: loc in r ==>
      (loc in ls && exists k :: 0 <= k < |links| && links[k].productId == productId && links[k].locationId == loc.id)
  {
    if links == [] then []
    else
      var rest := JoinLocations(links[1..], ls, productId);
      assert forall k :: 0 <= k < |links[1..]| ==> links[1..][k] == links[k + 1];
      if links[0].productId != productId then rest
      else
        match FirstWhere(ls, (l: Location) => l.id == links[0].locationId)
        case None => rest
        case Some(j) => [ls[j]] + rest
  }

  /** The pairs the associations hold. */
  function LinkPairs(links: seq<LocationProduct>): set<(nat, nat)>
  {
    set l | l in links :: Pair(l)
  }

  /** With unique location ids, every location an association of the product points to is joined. */
  lemma {:induction false} JoinLocationsComplete(links: seq<LocationProduct>, ls: seq<Location>, productId: nat)
    requires forall i, j :: 0 <= i < j < |ls| ==> ls[i].id < ls[j].id
    ensures forall loc :: loc in ls && (productId, loc.id) in LinkPairs(links) ==> loc in JoinLocations(links, ls, productId)
  {
    if links != [] {
      JoinLocationsComplete(links[1..], ls, productId);
      forall loc | loc in ls && (productId, loc.id) in LinkPairs(links)
        ensures loc in JoinLocations(links, ls, productId)
      {
        var l :| l in links && Pair(l) == (productId, loc.id);
        if l == links[0] {
          var f := FirstWhere(ls, (x: Location) => x.id == links[0].locationId);
          var i :| 0 <= i < |ls| && ls[i] == loc;
          assert f.Some?;
          if f.value != i {
            assert false;  // location ids are unique
          }
        } else {
          assert l in links[1..];
        }
      }
    }
  }

  /** With unique pairs and unique location ids, no location is joined twice. */
  lemma {:induction false} JoinLocationsDistinct(links: seq<LocationProduct>, ls: seq<Location>, productId: nat)
    requires forall i, j :: 0 <= i < j < |links| ==> Pair(links[i]) != Pair(links[j])
    ensures Distinct(JoinLocations(links, ls, productId))
  {
    if links != [] {
      var tail := links[1..];
      assert forall i, j :: 0 <= i < j < |tail| ==> tail[i] == links[i + 1] && tail[j] == links[j + 1];
      JoinLocationsDistinct(tail, ls, productId);
      var rest := JoinLocations(tail, ls, productId);
      if links[0].productId == productId {
        var f := FirstWhere(ls, (l: Location) => l.id == links[0].locationId);
        if f.Some? {
          var loc := ls[f.value];
          if loc in rest {
            assert false;  // a later association with the same pair
          }
          var r := [loc] + rest;
          assert forall i :: 1 <= i < |r| ==> r[i] == rest[i - 1];
        }
      }
    }
  }

  /**
   * `get_all_locations_by_product_name`: the locations stocking the first product matching the
   * name pattern; the empty list when none matches.
   */
  function GetAllLocationsByProductName(db: Db, ilike: (string, string) -> bool, name: string): (r: seq<Location>)
    ensures FindProduct(db, ilike, name).None? ==> r == []
    ensures forall loc :: loc in r ==> loc in db.locations
  {
    match FindProduct(db, ilike, name)
    case None => []
    case Some(product) => JoinLocations(db.links, db.locations, product.id)
  }

  /**
   * In a valid store the locations returned are exactly the stored locations some association
   * of the found product points to, each once.
   */
  lemma LocationsOfFoundProduct(db: Db, ilike: (string, string) -> bool, name: string)
    requires DbValid(db) && FindProduct(db, ilike, name).Some?
    ensures var pid := FindProduct(db, ilike, name).value.id;
      forall loc :: loc in GetAllLocationsByProductName(db, ilike, name) <==>
        loc in db.locations && (pid, loc.id) in LinkPairs(db.links)
    ensures Distinct(GetAllLocationsByProductName(db, ilike, name))
  {
    var pid := FindProduct(db, ilike, name).value.id;
    JoinLocationsComplete(db.links, db.locations, pid);
    JoinLocationsDistinct(db.links, db.locations, pid);
    forall loc | loc in JoinLocations(db.links, db.locations, pid)
      ensures (pid, loc.id) in LinkPairs(db.links)
    {
      var k :| 0 <= k < |db.links| && db.links[k].productId == pid && db.links[k].locationId == loc.id;
      assert Pair(db.links[k]) == (pid, loc.id);
    }
  }

  /** The names of the stored products, in store order. */
  function NamesOf(ps: seq<Product>): seq<string>
  {
    seq(|ps|, i requires 0 <= i < |ps| => ps[i].name)
  }

  /** `get_all_products`: every stored product's name, or `None` when there is none. */
  function GetAllProducts(db: Db): (r: Option<seq<string>>)
    ensures r.None? <==> db.products == []
    ensures r.Some? ==> (set n | n in r.value) == ProductNames(db.products)
  {
    if db.products == [] then None
    else
      var names := NamesOf(db.products);
      assert forall n :: n in names ==> n in ProductNames(db.products);
      assert forall p :: p in db.products ==> p.name in names by {
        forall p | p in db.products ensures p.name in names {
          var i :| 0 <= i < |db.products| && db.products[i] == p;
          assert names[i] == p.name;
        }
      }
      Some(names)
  }

  /** In a valid store the product list has no duplicate name. */
  lemma AllProductsDistinct(db: Db)
    requires DbValid(db) && db.products != []
    ensures Distinct(GetAllProducts(db).value)
  {
  }

  /**
   * After a run on a non-empty batch, whether or not its association insert was rejected, the
   * product list is there, holds every name stored before, every raw product name of the
   * batch, and nothing else.
   */
  lemma AllProductsAfterRun(db: Db, rs: seq<Record>, parsePrice: RawPrice -> Option<int>, priceFits: int -> bool)
    requires rs != []
    ensures var r := GetAllProducts(Run(db, rs, parsePrice, priceFits).0);
      r.Some? && (set n | n in r.value) == ProductNames(db.products) + BatchNames(rs)
  {
    Pass1Stores(db, rs);
    assert rs[0].productName in BatchNames(rs);
    var ps := Run(db, rs, parsePrice, priceFits).0.products;
    assert ps == Pass1(db, rs).products;
    assert rs[0].productName in ProductNames(ps);
  }
}
