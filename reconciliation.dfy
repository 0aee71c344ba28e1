/**
 * The reconciliation `update_db` performs, as functions of the store before the run and the
 * batch. Pass 1 inserts the products and locations the store does not know yet; pass 2 deletes
 * every association and inserts one per (product, location) pair of the batch, first quote
 * first. The imperative version in EntityStore is proved to compute exactly `Reconciled`.
 */
module Reconciliation {
  import opened Wrappers
  import opened PyStr
  import opened ProductModels
  import opened Feed

  // ---------------------------------------------------------------- lookup maps

  /** `{p.name: p.id for p in products}`: where two rows share a name, the later row wins. */
  function NameIndex(ps: seq<Product>): (m: map<string, nat>)
    ensures m.Keys == ProductNames(ps)
    ensures forall n :: n in m ==> m[n] in ProductIds(ps)
  {
    if ps == [] then map[]
    else
      var init := ps[..|ps| - 1];
      var last := ps[|ps| - 1];
      assert ps == init + [last];
      NameIndex(init)[last.name := last.id]
  }

  /** `{l.address: l.id for l in locations}`. */
  function AddressIndex(ls: seq<Location>): (m: map<string, nat>)
    ensures m.Keys == Addresses(ls)
    ensures forall a :: a in m ==> m[a] in LocationIds(ls)
  {
    if ls == [] then map[]
    else
      var init := ls[..|ls| - 1];
      var last := ls[|ls| - 1];
      assert ls == init + [last];
      AddressIndex(init)[last.address := last.id]
  }

  /** With unique names, the name index maps every product's name to that product's id. */
  lemma {:induction false} NameIndexAt(ps: seq<Product>, i: nat)
    requires forall a, b :: 0 <= a < b < |ps| ==> ps[a].name != ps[b].name
    requires i < |ps|
    ensures ps[i].name in NameIndex(ps) && NameIndex(ps)[ps[i].name] == ps[i].id
  {
    if i < |ps| - 1 {
      NameIndexAt(ps[..|ps| - 1], i);
    }
  }

  /** With unique addresses, the address index maps every location's address to that location's id. */
  lemma {:induction false} AddressIndexAt(ls: seq<Location>, i: nat)
    requires forall a, b :: 0 <= a < b < |ls| ==> ls[a].address != ls[b].address
    requires i < |ls|
    ensures ls[i].address in AddressIndex(ls) && AddressIndex(ls)[ls[i].address] == ls[i].id
  {
    if i < |ls| - 1 {
      AddressIndexAt(ls[..|ls| - 1], i);
    }
  }

  // ---------------------------------------------------------------- pass 1

  /** The raw `item.product.name` of every record, in batch order. */
  function RawNames(rs: seq<Record>): seq<string>
  {
    seq(|rs|, i requires 0 <= i < |rs| => rs[i].productName)
  }

  /** The raw `item.location.address` of every record, in batch order. */
  function RawAddresses(rs: seq<Record>): seq<string>
  {
    seq(|rs|, i requires 0 <= i < |rs| => rs[i].locationAddress)
  }

  /**
   * The keys queued for insertion: a key is queued when it is neither known to the store nor
   * already queued, so each new key is queued once, at its first occurrence.
   */
  function FirstSeen(keys: seq<string>, known: set<string>): (q: seq<string>)
    ensures forall x :: x in q <==> x in keys && x !in known
    ensures Distinct(q)
    ensures |q| <= |keys|
  {
    if keys == [] then []
    else
      var q := FirstSeen(keys[..|keys| - 1], known);
      var x := keys[|keys| - 1];
      assert keys == keys[..|keys| - 1] + [x];
      if x in known || x in q then q else q + [x]
  }

  /** One more key is queued exactly when it is neither known nor already queued. */
  lemma FirstSeenSnoc(keys: seq<string>, x: string, known: set<string>)
    ensures FirstSeen(keys + [x], known) ==
      if x in known || x in FirstSeen(keys, known) then FirstSeen(keys, known) else FirstSeen(keys, known) + [x]
  {
    assert (keys + [x])[..|keys|] == keys;
  }

  /** Every key of `q` occurs in `keys` before any occurrence of a later key of `q`. */
  predicate InFirstSeenOrder(q: seq<string>, keys: seq<string>)
  {
    forall i, j, k :: 0 <= i < j < |q| && 0 <= k < |keys| && keys[k] == q[j] ==> q[i] in keys[..k]
  }

  /** Queued keys come in the order of their first occurrence in the batch. */
  lemma {:induction false} FirstSeenOrder(keys: seq<string>, known: set<string>)
    ensures InFirstSeenOrder(FirstSeen(keys, known), keys)
  {
    if keys != [] {
      var init := keys[..|keys| - 1];
      var x := keys[|keys| - 1];
      var q0 := FirstSeen(init, known);
      var q := FirstSeen(keys, known);
      FirstSeenOrder(init, known);
      forall i, j, k | 0 <= i < j < |q| && 0 <= k < |keys| && keys[k] == q[j] ensures q[i] in keys[..k] {
        assert q[i] in q0 by {
          if q != q0 { assert q == q0 + [x]; }
        }
        assert q[i] in init;
        if j < |q0| {
          assert q[j] == q0[j] && q[i] == q0[i];
          if k < |init| {
            assert init[k] == q0[j];
            assert InFirstSeenOrder(q0, init);
            assert q0[i] in init[..k];
            assert init[..k] == keys[..k];
          } else {
            assert keys[..k] == init;
          }
        } else {
          assert q == q0 + [x] && q[j] == x;
          if k < |init| {
            assert false;  // x is new, so it does not occur before the last position
          }
          assert keys[..k] == init;
        }
      }
    }
  }

  /** Every raw product name of the batch. */
  function BatchNames(rs: seq<Record>): set<string> { set r | r in rs :: r.productName }

  /** Every raw location address of the batch. */
  function BatchAddresses(rs: seq<Record>): set<string> { set r | r in rs :: r.locationAddress }

  /** Names of the batch's products that pass 1 inserts, in the order first seen. */
  function NewProductNames(db: Db, rs: seq<Record>): seq<string>
  {
    FirstSeen(RawNames(rs), NameIndex(db.products).Keys)
  }

  /** Addresses of the batch's locations that pass 1 inserts, in the order first seen. */
  function NewLocationAddresses(db: Db, rs: seq<Record>): seq<string>
  {
    FirstSeen(RawAddresses(rs), AddressIndex(db.locations).Keys)
  }

  /** The store after pass 1: the new products, then the new locations, bulk-inserted. */
  function Pass1(db: Db, rs: seq<Record>): Db
  {
    InsertLocations(InsertProducts(db, NewProductNames(db, rs)), NewLocationAddresses(db, rs))
  }

  /** Pass 1 never trips a unique constraint, and the store it leaves is valid. */
  lemma Pass1Valid(db: Db, rs: seq<Record>)
    requires DbValid(db)
    ensures ProductsInsertable(db.products, NewProductNames(db, rs))
    ensures LocationsInsertable(db.locations, NewLocationAddresses(db, rs))
    ensures DbValid(Pass1(db, rs))
  {
    var names := NewProductNames(db, rs);
    var addresses := NewLocationAddresses(db, rs);
    InsertProductsValid(db, names);
    InsertLocationsValid(InsertProducts(db, names), addresses);
  }

  /** Queued keys plus known keys are all keys plus known keys. */
  lemma FirstSeenCovers(keys: seq<string>, known: set<string>)
    ensures (set x | x in FirstSeen(keys, known)) + known == (set x | x in keys) + known
  {
  }

  lemma RawNamesSet(rs: seq<Record>)
    ensures (set n | n in RawNames(rs)) == BatchNames(rs)
  {
    forall r | r in rs ensures r.productName in RawNames(rs) {
      var k :| 0 <= k < |rs| && rs[k] == r;
      assert RawNames(rs)[k] == r.productName;
    }
  }

  lemma RawAddressesSet(rs: seq<Record>)
    ensures (set a | a in RawAddresses(rs)) == BatchAddresses(rs)
  {
    forall r | r in rs ensures r.locationAddress in RawAddresses(rs) {
      var k :| 0 <= k < |rs| && rs[k] == r;
      assert RawAddresses(rs)[k] == r.locationAddress;
    }
  }

  /** After pass 1 the stored names and addresses are the old ones plus every raw one of the batch. */
  lemma Pass1Stores(db: Db, rs: seq<Record>)
    ensures ProductNames(Pass1(db, rs).products) == ProductNames(db.products) + BatchNames(rs)
    ensures Addresses(Pass1(db, rs).locations) == Addresses(db.locations) + BatchAddresses(rs)
  {
    FirstSeenCovers(RawNames(rs), ProductNames(db.products));
    RawNamesSet(rs);
    FirstSeenCovers(RawAddresses(rs), Addresses(db.locations));
    RawAddressesSet(rs);
  }

  /** Pass 1 only appends rows, and leaves the associations alone. */
  lemma Pass1Appends(db: Db, rs: seq<Record>)
    ensures var db' := Pass1(db, rs);
      && db'.products[..|db.products|] == db.products
      && db'.locations[..|db.locations|] == db.locations
      && db'.links == db.links && db'.nextLinkId == db.nextLinkId
  {
  }

  /** Pass 1 keeps the id every stored name maps to. */
  lemma Pass1KeepsNameIds(db: Db, rs: seq<Record>, n: string)
    requires DbValid(db) && n in NameIndex(db.products)
    ensures n in NameIndex(Pass1(db, rs).products)
    ensures NameIndex(Pass1(db, rs).products)[n] == NameIndex(db.products)[n]
  {
    var ps' := Pass1(db, rs).products;
    Pass1Valid(db, rs);
    Pass1Appends(db, rs);
    var i :| 0 <= i < |db.products| && db.products[i].name == n;
    NameIndexAt(db.products, i);
    assert ps'[i] == ps'[..|db.products|][i];
    NameIndexAt(ps', i);
  }

  /** Pass 1 keeps the id every stored address maps to. */
  lemma Pass1KeepsAddressIds(db: Db, rs: seq<Record>, a: string)
    requires DbValid(db) && a in AddressIndex(db.locations)
    ensures a in AddressIndex(Pass1(db, rs).locations)
    ensures AddressIndex(Pass1(db, rs).locations)[a] == AddressIndex(db.locations)[a]
  {
    var ls' := Pass1(db, rs).locations;
    Pass1Valid(db, rs);
    Pass1Appends(db, rs);
    var i :| 0 <= i < |db.locations| && db.locations[i].address == a;
    AddressIndexAt(db.locations, i);
    assert ls'[i] == ls'[..|db.locations|][i];
    AddressIndexAt(ls', i);
  }

  /**
   * Pass 1 only appends: existing rows, and so the ids existing names and addresses resolve to,
   * stay as they were, and the associations are untouched.
   */
  lemma Pass1KeepsExisting(db: Db, rs: seq<Record>)
    requires DbValid(db)
    ensures var db' := Pass1(db, rs);
      && db'.products[..|db.products|] == db.products
      && db'.locations[..|db.locations|] == db.locations
      && (forall n :: n in NameIndex(db.products) ==>
            n in NameIndex(db'.products) && NameIndex(db'.products)[n] == NameIndex(db.products)[n])
      && (forall a :: a in AddressIndex(db.locations) ==>
            a in AddressIndex(db'.locations) && AddressIndex(db'.locations)[a] == AddressIndex(db.locations)[a])
      && db'.links == db.links && db'.nextLinkId == db.nextLinkId
  {
    Pass1Appends(db, rs);
    forall n | n in NameIndex(db.products)
      ensures n in NameIndex(Pass1(db, rs).products)
      ensures NameIndex(Pass1(db, rs).products)[n] == NameIndex(db.products)[n]
    {
      Pass1KeepsNameIds(db, rs, n);
    }
    forall a | a in AddressIndex(db.locations)
      ensures a in AddressIndex(Pass1(db, rs).locations)
      ensures AddressIndex(Pass1(db, rs).locations)[a] == AddressIndex(db.locations)[a]
    {
      Pass1KeepsAddressIds(db, rs, a);
    }
  }

  // ---------------------------------------------------------------- pass 2

  /**
   * What pass 2 resolves a record against: the refreshed name and address maps, and the
   * conversion `int(item.price)`, which the model leaves abstract (`None` where it raises).
   */
  datatype Lookup = Lookup(
    productIds: map<string, nat>, locationIds: map<string, nat>, parsePrice: RawPrice -> Option<int>)

  /** `dict.get`. */
  function Get(m: map<string, nat>, key: string): Option<nat>
  {
    if key in m then Some(m[key]) else None
  }

  /** Python's `not x` on the result of `dict.get`: both `None` and the id 0 count as missing. */
  predicate Missing(id: Option<nat>)
  {
    id.None? || id.value == 0
  }

  /** `key` resolves to an id that `not` does not treat as missing. */
  predicate Resolves(m: map<string, nat>, key: string)
  {
    key in m && m[key] != 0
  }

  /**
   * The association one record asks for: none when its price does not convert or when its
   * stripped name or stripped address does not resolve to a (non-zero) id.
   */
  function Resolve(ctx: Lookup, r: Record): (l: Option<PendingLink>)
    ensures ctx.parsePrice(r.rawPrice).None? ==> l.None?
    ensures l.Some? <==>
      && ctx.parsePrice(r.rawPrice).Some?
      && Resolves(ctx.productIds, Strip(r.productName))
      && Resolves(ctx.locationIds, Strip(r.locationAddress))
    ensures l.Some? ==> l.value == PendingLink(
      ctx.productIds[Strip(r.productName)], ctx.locationIds[Strip(r.locationAddress)],
      ctx.parsePrice(r.rawPrice).value)
  {
    match ctx.parsePrice(r.rawPrice)
    case None => None
    case Some(price) =>
      var productId := Get(ctx.productIds, Strip(r.productName));
      var locationId := Get(ctx.locationIds, Strip(r.locationAddress));
      if Missing(productId) || Missing(locationId) then None
      else Some(PendingLink(productId.value, locationId.value, price))
  }

  /** What each record of the batch asks for, in batch order. */
  function ResolveAll(ctx: Lookup, rs: seq<Record>): seq<Option<PendingLink>>
  {
    seq(|rs|, j requires 0 <= j < |rs| => Resolve(ctx, rs[j]))
  }

  lemma ResolveAllAppend(ctx: Lookup, a: seq<Record>, b: seq<Record>)
    ensures ResolveAll(ctx, a + b) == ResolveAll(ctx, a) + ResolveAll(ctx, b)
  {
    var ab := a + b;
    assert forall j :: 0 <= j < |a| ==> ab[j] == a[j];
    assert forall j :: |a| <= j < |ab| ==> ab[j] == b[j - |a|];
  }

  /** The (product, location) pairs of a list of pending associations. */
  function Pairs(links: seq<PendingLink>): set<(nat, nat)>
  {
    set l | l in links :: PendingPair(l)
  }

  /** One step of the `seen_links` filter: append the request unless its pair has been seen. */
  function Step(acc: seq<PendingLink>, request: Option<PendingLink>): seq<PendingLink>
  {
    match request
    case None => acc
    case Some(l) => if PendingPair(l) in Pairs(acc) then acc else acc + [l]
  }

  /**
   * The `seen_links` filter: requests are taken in order, and one whose pair has been seen
   * already is dropped, so the first request for a pair wins.
   */
  function Dedup(asked: seq<Option<PendingLink>>): (links: seq<PendingLink>)
    ensures |links| <= |asked|
    ensures forall i, j :: 0 <= i < j < |links| ==> PendingPair(links[i]) != PendingPair(links[j])
    ensures forall k :: 0 <= k < |links| ==> Some(links[k]) in asked
    ensures forall j :: 0 <= j < |asked| && asked[j].Some? ==> PendingPair(asked[j].value) in Pairs(links)
  {
    if asked == [] then []
    else
      var init := asked[..|asked| - 1];
      var acc := Dedup(init);
      assert asked == init + [asked[|asked| - 1]];
      Step(acc, asked[|asked| - 1])
  }

  /** Filtering one more request is one more step. */
  lemma DedupSnoc(asked: seq<Option<PendingLink>>, request: Option<PendingLink>)
    ensures Dedup(asked + [request]) == Step(Dedup(asked), request)
  {
    assert (asked + [request])[..|asked|] == asked;
  }

  /** The associations pass 2 builds from the batch. */
  function Associate(ctx: Lookup, rs: seq<Record>): seq<PendingLink>
  {
    Dedup(ResolveAll(ctx, rs))
  }

  /** Request `j` is for an association, and no earlier request is for the same (product, location) pair. */
  predicate FirstOfPair(asked: seq<Option<PendingLink>>, j: int)
  {
    && 0 <= j < |asked|
    && asked[j].Some?
    && forall k :: 0 <= k < j && asked[k].Some? ==> PendingPair(asked[k].value) != PendingPair(asked[j].value)
  }

  /** Every surviving association was the first request of its pair. */
  lemma {:induction false} DedupSound(asked: seq<Option<PendingLink>>, l: PendingLink)
    requires l in Dedup(asked)
    ensures exists j :: FirstOfPair(asked, j) && asked[j] == Some(l)
  {
    var n := |asked| - 1;
    var init := asked[..n];
    DedupSnoc(init, asked[n]);
    assert init + [asked[n]] == asked;
    if l in Dedup(init) {
      DedupSound(init, l);
      var j :| FirstOfPair(init, j) && init[j] == Some(l);
      assert FirstOfPair(asked, j);
    } else {
      assert asked[n] == Some(l) && PendingPair(l) !in Pairs(Dedup(init));
      assert FirstOfPair(asked, n);
    }
  }

  /** The first request of every pair survives. */
  lemma {:induction false} DedupComplete(asked: seq<Option<PendingLink>>, j: nat)
    requires FirstOfPair(asked, j)
    ensures asked[j].value in Dedup(asked)
  {
    var n := |asked| - 1;
    var init := asked[..n];
    DedupSnoc(init, asked[n]);
    assert init + [asked[n]] == asked;
    if j < n {
      assert FirstOfPair(init, j);
      DedupComplete(init, j);
    } else if PendingPair(asked[n].value) in Pairs(Dedup(init)) {
      assert false;  // an earlier request has the same pair
    }
  }

  /**
   * Deduplication keeps exactly the first request of every pair: an association survives if
   * and only if the first request for its pair asked for it, price included.
   */
  lemma DedupFirstWins(asked: seq<Option<PendingLink>>)
    ensures forall l :: l in Dedup(asked) <==> exists j :: FirstOfPair(asked, j) && asked[j] == Some(l)
  {
    forall l | l in Dedup(asked) ensures exists j :: FirstOfPair(asked, j) && asked[j] == Some(l) {
      DedupSound(asked, l);
    }
    forall j | FirstOfPair(asked, j) ensures asked[j].value in Dedup(asked) {
      DedupComplete(asked, j);
    }
  }

  /** Recording one more association adds its pair to the seen ones. */
  lemma PairsSnoc(acc: seq<PendingLink>, l: PendingLink)
    ensures Pairs(acc + [l]) == Pairs(acc) + {PendingPair(l)}
  {
    assert l in acc + [l];
    assert forall x :: x in acc + [l] <==> x in acc || x == l;
  }

  /** A request for nothing is skipped on its own: the requests after it are handled as if it were absent. */
  lemma {:induction false} DedupSkipsNone(pre: seq<Option<PendingLink>>, post: seq<Option<PendingLink>>)
    ensures Dedup(pre + [None] + post) == Dedup(pre + post)
  {
    if post == [] {
      DedupSnoc(pre, None);
      assert pre + [None] + post == pre + [None];
      assert pre + post == pre;
    } else {
      var n := |post| - 1;
      var x := post[n];
      DedupSkipsNone(pre, post[..n]);
      assert pre + [None] + post == (pre + [None] + post[..n]) + [x];
      assert pre + post == (pre + post[..n]) + [x];
      DedupSnoc(pre + [None] + post[..n], x);
      DedupSnoc(pre + post[..n], x);
    }
  }

  /** Requests that all ask for something, for pairwise different pairs, all survive. */
  lemma {:induction false} DedupKeepsDistinct(asked: seq<Option<PendingLink>>)
    requires forall j :: 0 <= j < |asked| ==> asked[j].Some?
    requires forall i, j :: 0 <= i < j < |asked| ==> PendingPair(asked[i].value) != PendingPair(asked[j].value)
    ensures |Dedup(asked)| == |asked|
  {
    if asked != [] {
      var n := |asked| - 1;
      var init := asked[..n];
      var acc := Dedup(init);
      assert forall j :: 0 <= j < n ==> asked[j] == init[j];
      DedupKeepsDistinct(init);
      var l := asked[n].value;
      if PendingPair(l) in Pairs(acc) {
        assert false;  // acc holds only earlier requests, whose pairs all differ from l's
      }
    }
  }

  /**
   * A record that resolves to nothing (its price does not convert, or its stripped name or
   * address is unknown) is skipped on its own: later records are processed as if it were not
   * in the batch.
   */
  lemma AssociateSkipsUnresolved(ctx: Lookup, pre: seq<Record>, bad: Record, post: seq<Record>)
    requires Resolve(ctx, bad).None?
    ensures Associate(ctx, pre + [bad] + post) == Associate(ctx, pre + post)
  {
    ResolveAllAppend(ctx, pre + [bad], post);
    ResolveAllAppend(ctx, pre, [bad]);
    ResolveAllAppend(ctx, pre, post);
    assert ResolveAll(ctx, [bad]) == [None];
    DedupSkipsNone(ResolveAll(ctx, pre), ResolveAll(ctx, post));
  }

  /**
   * One record whose price does not convert, among records that all resolve to pairwise
   * different pairs, costs exactly that one association.
   */
  lemma PriceFailureCostsOne(ctx: Lookup, pre: seq<Record>, bad: Record, post: seq<Record>)
    requires ctx.parsePrice(bad.rawPrice).None?
    requires forall j :: 0 <= j < |pre + post| ==> Resolve(ctx, (pre + post)[j]).Some?
    requires forall i, j :: 0 <= i < j < |pre + post| ==>
      PendingPair(Resolve(ctx, (pre + post)[i]).value) != PendingPair(Resolve(ctx, (pre + post)[j]).value)
    ensures |Associate(ctx, pre + [bad] + post)| == |pre| + |post|
  {
    AssociateSkipsUnresolved(ctx, pre, bad, post);
    DedupKeepsDistinct(ResolveAll(ctx, pre + post));
  }

  // ---------------------------------------------------------------- the whole run

  /** The lookup pass 2 uses: the maps rebuilt from the store as it is after pass 1. */
  function LookupOf(db: Db, parsePrice: RawPrice -> Option<int>): Lookup
  {
    Lookup(NameIndex(db.products), AddressIndex(db.locations), parsePrice)
  }

  /** The associations a run builds for the batch. */
  function PendingOf(db: Db, rs: seq<Record>, parsePrice: RawPrice -> Option<int>): seq<PendingLink>
  {
    Associate(LookupOf(Pass1(db, rs), parsePrice), rs)
  }

  /** The store after a run, and the count the run returns: pass 1, delete every association, insert pass 2's. */
  function Reconciled(db: Db, rs: seq<Record>, parsePrice: RawPrice -> Option<int>): (Db, nat)
  {
    var pending := PendingOf(db, rs, parsePrice);
    (InsertLinks(DeleteLinks(Pass1(db, rs)), pending), |pending|)
  }

  /** The (product, location, price) content of stored associations, without their surrogate ids. */
  function Contents(links: seq<LocationProduct>): (c: seq<PendingLink>)
    ensures |c| == |links|
    ensures forall i :: 0 <= i < |links| ==>
      c[i] == PendingLink(links[i].productId, links[i].locationId, links[i].price)
  {
    if links == [] then [] else [PendingLink(links[0].productId, links[0].locationId, links[0].price)] + Contents(links[1..])
  }

  /**
   * Pass 2's insert, against the maps rebuilt from a valid store, satisfies the pair constraint
   * and both foreign keys once the old associations are gone.
   */
  lemma AssociateInsertable(db: Db, rs: seq<Record>, parsePrice: RawPrice -> Option<int>)
    requires DbValid(db)
    ensures LinksInsertable(DeleteLinks(db), Associate(LookupOf(db, parsePrice), rs))
  {
    var ctx := LookupOf(db, parsePrice);
    var pending := Associate(ctx, rs);
    var asked := ResolveAll(ctx, rs);
    forall k | 0 <= k < |pending|
      ensures pending[k].productId in ProductIds(db.products)
      ensures pending[k].locationId in LocationIds(db.locations)
    {
      assert Some(pending[k]) in asked;
      var j :| 0 <= j < |rs| && asked[j] == Some(pending[k]);
      assert Resolve(ctx, rs[j]) == Some(pending[k]);
    }
  }

  /**
   * A run whose association insert is accepted keeps the store valid (unique names, addresses,
   * phones and pairs; resolvable foreign keys; store-assigned ids): neither pass trips a
   * uniqueness or foreign-key constraint. The price column's range is left to `Run`.
   */
  lemma ReconciledValid(db: Db, rs: seq<Record>, parsePrice: RawPrice -> Option<int>)
    requires DbValid(db)
    ensures DbValid(Reconciled(db, rs, parsePrice).0)
  {
    Pass1Valid(db, rs);
    AssociateInsertable(Pass1(db, rs), rs, parsePrice);
    InsertLinksValid(DeleteLinks(Pass1(db, rs)), PendingOf(db, rs, parsePrice));
  }

  /** The associations a run leaves are the pending ones, numbered from the sequence's current value. */
  lemma ReconciledLinks(db: Db, rs: seq<Record>, parsePrice: RawPrice -> Option<int>)
    ensures Reconciled(db, rs, parsePrice).0.links == NewLinks(PendingOf(db, rs, parsePrice), db.nextLinkId)
  {
    Pass1Appends(db, rs);
  }

  /** Rows numbered from the sequence's current value are none of the rows numbered before it. */
  lemma NewLinksFresh(old_: seq<LocationProduct>, pending: seq<PendingLink>, next: nat)
    requires forall i :: 0 <= i < |old_| ==> old_[i].id < next
    ensures forall l :: l in old_ ==> l !in NewLinks(pending, next)
  {
    var rows := NewLinks(pending, next);
    forall l | l in old_ ensures l !in rows {
      var i :| 0 <= i < |old_| && old_[i] == l;
      assert forall k :: 0 <= k < |rows| ==> rows[k].id >= next;
    }
  }

  /** A run asks for at most one association per record. */
  lemma PendingBound(db: Db, rs: seq<Record>, parsePrice: RawPrice -> Option<int>)
    ensures |PendingOf(db, rs, parsePrice)| <= |rs|
  {
    assert |ResolveAll(LookupOf(Pass1(db, rs), parsePrice), rs)| == |rs|;
  }

  /** New association rows carry exactly the pending content. */
  lemma NewLinksContents(pending: seq<PendingLink>, next: nat)
    ensures Contents(NewLinks(pending, next)) == pending
  {
    var c := Contents(NewLinks(pending, next));
    assert |c| == |pending|;
    assert forall k :: 0 <= k < |pending| ==> c[k] == pending[k];
  }

  /**
   * Full replacement: no association stored before the run survives it, the associations after
   * it are exactly those pass 2 built, and the count returned is their number, at most one per
   * record.
   */
  lemma FullReplacement(db: Db, rs: seq<Record>, parsePrice: RawPrice -> Option<int>)
    requires DbValid(db)
    ensures var (db', count) := Reconciled(db, rs, parsePrice);
      && (forall l :: l in db.links ==> l !in db'.links)
      && Contents(db'.links) == PendingOf(db, rs, parsePrice)
      && count == |db'.links| <= |rs|
  {
    var pending := PendingOf(db, rs, parsePrice);
    ReconciledLinks(db, rs, parsePrice);
    NewLinksContents(pending, db.nextLinkId);
    NewLinksFresh(db.links, pending, db.nextLinkId);
    PendingBound(db, rs, parsePrice);
  }

  /**
   * After a run, the stored associations are exactly the first quote of every (product,
   * location) pair the batch resolves to, each with that quote's price.
   */
  lemma FirstQuoteWins(db: Db, rs: seq<Record>, parsePrice: RawPrice -> Option<int>)
    requires DbValid(db)
    ensures var db' := Reconciled(db, rs, parsePrice).0;
            var asked := ResolveAll(LookupOf(Pass1(db, rs), parsePrice), rs);
            forall l :: l in Contents(db'.links) <==> exists j :: FirstOfPair(asked, j) && asked[j] == Some(l)
  {
    FullReplacement(db, rs, parsePrice);
    DedupFirstWins(ResolveAll(LookupOf(Pass1(db, rs), parsePrice), rs));
  }

  /** When every key of the batch is known already, nothing is queued. */
  lemma {:induction false} FirstSeenAllKnown(keys: seq<string>, known: set<string>)
    requires forall k :: k in keys ==> k in known
    ensures FirstSeen(keys, known) == []
  {
    if keys != [] {
      var init := keys[..|keys| - 1];
      assert forall k :: k in init ==> k in keys;
      FirstSeenAllKnown(init, known);
      assert keys[|keys| - 1] in keys;
    }
  }

  /** A run on a store that already holds every name and address of the batch inserts no product or location. */
  lemma Pass1AddsNothing(db: Db, rs: seq<Record>)
    requires BatchNames(rs) <= ProductNames(db.products)
    requires BatchAddresses(rs) <= Addresses(db.locations)
    ensures Pass1(db, rs).products == db.products && Pass1(db, rs).locations == db.locations
  {
    RawNamesSet(rs);
    RawAddressesSet(rs);
    FirstSeenAllKnown(RawNames(rs), NameIndex(db.products).Keys);
    FirstSeenAllKnown(RawAddresses(rs), AddressIndex(db.locations).Keys);
    assert db.products + NewProducts([], db.nextProductId) == db.products;
    assert db.locations + NewLocations([], db.nextLocationId) == db.locations;
  }

  /**
   * Running the same batch twice: the second run leaves the products and locations as the
   * first left them, stores the same (product, location, price) associations and returns the
   * same count. Only the associations' surrogate ids may differ: in the model the delete does
   * not reset the table's sequence.
   */
  lemma Idempotent(db: Db, rs: seq<Record>, parsePrice: RawPrice -> Option<int>)
    requires DbValid(db)
    ensures var (db1, count1) := Reconciled(db, rs, parsePrice);
            var (db2, count2) := Reconciled(db1, rs, parsePrice);
            && db2.products == db1.products && db2.locations == db1.locations
            && Contents(db2.links) == Contents(db1.links) && count2 == count1
  {
    var (db1, count1) := Reconciled(db, rs, parsePrice);
    var p1 := Pass1(db, rs);
    assert db1.products == p1.products && db1.locations == p1.locations;
    Pass1Stores(db, rs);
    Pass1AddsNothing(db1, rs);
    ReconciledValid(db, rs, parsePrice);
    FullReplacement(db, rs, parsePrice);
    FullReplacement(db1, rs, parsePrice);
  }

  /** A prefix one longer is the prefix plus the next element. */
  lemma TakeSnoc<T>(s: seq<T>, i: nat)
    requires i < |s|
    ensures s[..i + 1] == s[..i] + [s[i]]
  {
  }

  lemma SplitAt<T>(s: seq<T>, j: nat)
    requires j < |s|
    ensures s == s[..j] + [s[j]] + s[j + 1..]
  {
  }

  /**
   * The trim asymmetry: pass 1 stores the raw name, pass 2 looks up the stripped one. A record
   * whose stripped name is neither stored nor the raw name of any record of the batch has its
   * raw (so padded) name inserted as a product, yet contributes no association: the run builds
   * what it would build without that record.
   */
  lemma PaddedNameNeverMatched(db: Db, rs: seq<Record>, parsePrice: RawPrice -> Option<int>, j: nat)
    requires j < |rs|
    requires Strip(rs[j].productName) !in ProductNames(db.products)
    requires forall k :: 0 <= k < |rs| ==> rs[k].productName != Strip(rs[j].productName)
    ensures rs[j].productName != Strip(rs[j].productName)
    ensures rs[j].productName in ProductNames(Reconciled(db, rs, parsePrice).0.products)
    ensures PendingOf(db, rs, parsePrice) == Associate(LookupOf(Pass1(db, rs), parsePrice), rs[..j] + rs[j + 1..])
  {
    var ctx := LookupOf(Pass1(db, rs), parsePrice);
    Pass1Stores(db, rs);
    assert rs[j] in rs;
    assert Strip(rs[j].productName) !in BatchNames(rs);
    assert Resolve(ctx, rs[j]).None?;
    SplitAt(rs, j);
    AssociateSkipsUnresolved(ctx, rs[..j], rs[j], rs[j + 1..]);
  }

  // ---------------------------------------------------------------- the price column's range

  /**
   * A run as the source performs it when the `price` column holds only the integers `priceFits`
   * accepts. The delete is committed before pass 2's insert, so an insert the column rejects
   * makes the run raise (`None`) and leaves pass 1's store with no association at all.
   */
  function Run(db: Db, rs: seq<Record>, parsePrice: RawPrice -> Option<int>, priceFits: int -> bool): (Db, Option<nat>)
  {
    var pending := PendingOf(db, rs, parsePrice);
    if PricesFit(pending, priceFits) then (InsertLinks(DeleteLinks(Pass1(db, rs)), pending), Some(|pending|))
    else (DeleteLinks(Pass1(db, rs)), None)
  }

  /** Every price pass 2 asks to store is the conversion of some record's raw price. */
  lemma PendingPricesConverted(ctx: Lookup, rs: seq<Record>, k: nat)
    requires k < |Associate(ctx, rs)|
    ensures exists j :: 0 <= j < |rs| && ctx.parsePrice(rs[j].rawPrice) == Some(Associate(ctx, rs)[k].price)
  {
    var pending := Associate(ctx, rs);
    var asked := ResolveAll(ctx, rs);
    assert Some(pending[k]) in asked;
    var j :| 0 <= j < |rs| && asked[j] == Some(pending[k]);
    assert Resolve(ctx, rs[j]) == Some(pending[k]);
  }

  /**
   * When the column holds every price the batch converts to, the run succeeds and is the run
   * `Reconciled` describes.
   */
  lemma RunSucceedsWhenPricesFit(db: Db, rs: seq<Record>, parsePrice: RawPrice -> Option<int>, priceFits: int -> bool)
    requires forall j :: 0 <= j < |rs| && parsePrice(rs[j].rawPrice).Some? ==> priceFits(parsePrice(rs[j].rawPrice).value)
    ensures Run(db, rs, parsePrice, priceFits) == (Reconciled(db, rs, parsePrice).0, Some(Reconciled(db, rs, parsePrice).1))
  {
    var pending := PendingOf(db, rs, parsePrice);
    forall k | 0 <= k < |pending| ensures priceFits(pending[k].price) {
      PendingPricesConverted(LookupOf(Pass1(db, rs), parsePrice), rs, k);
    }
  }

  /**
   * The run raises exactly when the first quote of some pair carries a price the column cannot
   * hold; a later quote of a pair is dropped before it reaches the insert, whatever its price.
   */
  lemma RunFailsIff(db: Db, rs: seq<Record>, parsePrice: RawPrice -> Option<int>, priceFits: int -> bool)
    ensures var asked := ResolveAll(LookupOf(Pass1(db, rs), parsePrice), rs);
      Run(db, rs, parsePrice, priceFits).1.None? <==>
        exists j :: FirstOfPair(asked, j) && !priceFits(asked[j].value.price)
  {
    var asked := ResolveAll(LookupOf(Pass1(db, rs), parsePrice), rs);
    var pending := PendingOf(db, rs, parsePrice);
    DedupFirstWins(asked);
    if !PricesFit(pending, priceFits) {
      var k :| 0 <= k < |pending| && !priceFits(pending[k].price);
      assert pending[k] in pending;
      var j :| FirstOfPair(asked, j) && asked[j] == Some(pending[k]);
    }
    if exists j :: FirstOfPair(asked, j) && !priceFits(asked[j].value.price) {
      var j :| FirstOfPair(asked, j) && !priceFits(asked[j].value.price);
      assert asked[j].value in pending;
    }
  }

  /**
   * One first quote whose price the column cannot hold aborts the whole batch: the run raises,
   * the association table is left empty, and pass 1's products and locations stay stored.
   */
  lemma OutOfRangePriceEmptiesLinks(db: Db, rs: seq<Record>, parsePrice: RawPrice -> Option<int>,
                                    priceFits: int -> bool, j: nat)
    ensures var asked := ResolveAll(LookupOf(Pass1(db, rs), parsePrice), rs);
      FirstOfPair(asked, j) && !priceFits(asked[j].value.price) ==>
        var (db', r) := Run(db, rs, parsePrice, priceFits);
        && r == None && db'.links == []
        && db'.products == Pass1(db, rs).products && db'.locations == Pass1(db, rs).locations
  {
    RunFailsIff(db, rs, parsePrice, priceFits);
  }

  /** A successful run repeated on its own result succeeds again, with the same contents and count. */
  lemma RunIdempotent(db: Db, rs: seq<Record>, parsePrice: RawPrice -> Option<int>, priceFits: int -> bool)
    requires DbValid(db)
    ensures var (db1, r1) := Run(db, rs, parsePrice, priceFits);
            var (db2, r2) := Run(db1, rs, parsePrice, priceFits);
            r1.Some? ==>
              && r2 == r1 && db2.products == db1.products && db2.locations == db1.locations
              && Contents(db2.links) == Contents(db1.links)
  {
    if PricesFit(PendingOf(db, rs, parsePrice), priceFits) {
      var db1 := Reconciled(db, rs, parsePrice).0;
      Idempotent(db, rs, parsePrice);
      ReconciledValid(db, rs, parsePrice);
      FullReplacement(db, rs, parsePrice);
      FullReplacement(db1, rs, parsePrice);
      assert PendingOf(db1, rs, parsePrice) == PendingOf(db, rs, parsePrice);
    }
  }

  /**
   * The conversion with the column's range folded in: a price that converts but does not fit
   * is treated as one that does not convert.
   */
  function CheckedParse(parsePrice: RawPrice -> Option<int>, priceFits: int -> bool): RawPrice -> Option<int>
  {
    raw => if parsePrice(raw).Some? && priceFits(parsePrice(raw).value) then parsePrice(raw) else None
  }

  /**
   * With the checked conversion the run never raises, and a record whose price does not fit is
   * skipped on its own, as a price that does not convert is.
   */
  lemma CheckedRunSucceeds(db: Db, rs: seq<Record>, parsePrice: RawPrice -> Option<int>, priceFits: int -> bool)
    ensures var checked := CheckedParse(parsePrice, priceFits);
      Run(db, rs, checked, priceFits) == (Reconciled(db, rs, checked).0, Some(Reconciled(db, rs, checked).1))
  {
    RunSucceedsWhenPricesFit(db, rs, CheckedParse(parsePrice, priceFits), priceFits);
  }

  /** Under the checked conversion, a record whose converted price does not fit changes nothing else in pass 2. */
  lemma CheckedSkipsOutOfRange(db: Db, parsePrice: RawPrice -> Option<int>, priceFits: int -> bool,
                               pre: seq<Record>, bad: Record, post: seq<Record>)
    requires parsePrice(bad.rawPrice).Some? && !priceFits(parsePrice(bad.rawPrice).value)
    ensures var ctx := LookupOf(db, CheckedParse(parsePrice, priceFits));
      Associate(ctx, pre + [bad] + post) == Associate(ctx, pre + post)
  {
    var ctx := LookupOf(db, CheckedParse(parsePrice, priceFits));
    assert Resolve(ctx, bad).None?;
    AssociateSkipsUnresolved(ctx, pre, bad, post);
  }
}
