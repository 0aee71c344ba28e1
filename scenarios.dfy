/** Worked batches: what one run of the reconciliation does to an empty store. */
module Scenarios {
  import opened Wrappers
  import opened PyStr
  import opened ProductModels
  import opened Feed
  import opened Reconciliation

  /** A price conversion that accepts "10" and "20" and rejects everything else. */
  function DemoParse(raw: RawPrice): Option<int>
  {
    if raw == "10" then Some(10) else if raw == "20" then Some(20) else None
  }

  /** One record for Tea at Elm, at the given raw price and with the given raw name. */
  function Quote(name: string, price: RawPrice): Record
  {
    Record(name, "Elm", price)
  }

  /** The store holding Tea and Elm under id 1 and no association. */
  function TeaAtElm(): Db
  {
    Db([Product(1, "Tea")], [Location(1, "Elm", None)], [], 2, 2, 1)
  }

  /** The lookup pass 2 builds from that store. */
  function TeaLookup(): Lookup
  {
    Lookup(map["Tea" := 1], map["Elm" := 1], DemoParse)
  }

  lemma TeaLookupOf()
    ensures LookupOf(TeaAtElm(), DemoParse) == TeaLookup()
  {
  }

  /** Keys without surrounding whitespace are left alone by stripping. */
  lemma CleanNameStrips()
    ensures Strip("Tea") == "Tea"
  {
    StripUnchangedIff("Tea");
  }

  lemma CleanAddressStrips()
    ensures Strip("Elm") == "Elm"
  {
    StripUnchangedIff("Elm");
  }

  /** A quote whose name is already clean and whose price parses resolves to (1, 1) at that price. */
  lemma QuoteResolves(price: RawPrice, v: int)
    requires DemoParse(price) == Some(v)
    ensures Resolve(TeaLookup(), Quote("Tea", price)) == Some(PendingLink(1, 1, v))
  {
    CleanNameStrips();
    CleanAddressStrips();
    var ctx := TeaLookup();
    assert Get(ctx.productIds, "Tea") == Some(1);
    assert Get(ctx.locationIds, "Elm") == Some(1);
  }

  /** Inserting Tea, then Elm, into the empty store. */
  lemma TeaInserted()
    ensures InsertLocations(InsertProducts(EmptyDb(), ["Tea"]), ["Elm"]) == TeaAtElm()
  {
    assert NewProducts(["Tea"], 1) == [Product(1, "Tea")];
    assert InsertProducts(EmptyDb(), ["Tea"]) == Db([Product(1, "Tea")], [], [], 2, 1, 1);
    assert NewLocations(["Elm"], 1) == [Location(1, "Elm", None)];
  }

  // ---------------------------------------------------------------- a repeated quote

  /** Two quotes for Tea at Elm, the first at 10, the second at 20. */
  function DuplicateQuotes(): seq<Record>
  {
    [Quote("Tea", "10"), Quote("Tea", "20")]
  }

  /** A key seen twice and not stored is queued once. */
  lemma RepeatedKeyQueuedOnce(key: string)
    ensures FirstSeen([key, key], {}) == [key]
  {
    assert FirstSeen([key], {}) == [key];
    FirstSeenSnoc([key], key, {});
    assert [key] + [key] == [key, key];
  }

  lemma DuplicateQuotesNewNames()
    ensures NewProductNames(EmptyDb(), DuplicateQuotes()) == ["Tea"]
  {
    assert RawNames(DuplicateQuotes()) == ["Tea", "Tea"];
    RepeatedKeyQueuedOnce("Tea");
  }

  lemma DuplicateQuotesNewAddresses()
    ensures NewLocationAddresses(EmptyDb(), DuplicateQuotes()) == ["Elm"]
  {
    assert RawAddresses(DuplicateQuotes()) == ["Elm", "Elm"];
    RepeatedKeyQueuedOnce("Elm");
  }

  /** Pass 1 inserts the repeated name and address once each, under id 1. */
  lemma DuplicateQuotesPass1()
    ensures Pass1(EmptyDb(), DuplicateQuotes()) == TeaAtElm()
  {
    DuplicateQuotesNewNames();
    DuplicateQuotesNewAddresses();
    TeaInserted();
  }

  /** Both quotes resolve to the same pair, each with its own price. */
  lemma DuplicateQuotesResolved()
    ensures ResolveAll(TeaLookup(), DuplicateQuotes()) == [Some(PendingLink(1, 1, 10)), Some(PendingLink(1, 1, 20))]
  {
    var asked := ResolveAll(TeaLookup(), DuplicateQuotes());
    QuoteResolves("10", 10);
    QuoteResolves("20", 20);
    assert asked[0] == Some(PendingLink(1, 1, 10));
    assert asked[1] == Some(PendingLink(1, 1, 20));
  }

  /** Of two requests for one pair, only the first is kept. */
  lemma DuplicateQuotesDedup()
    ensures Dedup([Some(PendingLink(1, 1, 10)), Some(PendingLink(1, 1, 20))]) == [PendingLink(1, 1, 10)]
  {
    DedupSnoc([Some(PendingLink(1, 1, 10))], Some(PendingLink(1, 1, 20)));
    assert [Some(PendingLink(1, 1, 10))] + [Some(PendingLink(1, 1, 20))] == [Some(PendingLink(1, 1, 10)), Some(PendingLink(1, 1, 20))];
    assert Dedup([Some(PendingLink(1, 1, 10))]) == [PendingLink(1, 1, 10)];
  }

  /** The run keeps the first quote only. */
  lemma DuplicateQuotesPending()
    ensures PendingOf(EmptyDb(), DuplicateQuotes(), DemoParse) == [PendingLink(1, 1, 10)]
  {
    DuplicateQuotesPass1();
    TeaLookupOf();
    DuplicateQuotesResolved();
    DuplicateQuotesDedup();
  }

  /**
   * Two quotes for Tea at Elm on an empty store: one product, one location and one
   * association, with the first quote's price; the count is 1.
   */
  lemma DuplicateQuoteKeepsFirst()
    ensures var (db', count) := Reconciled(EmptyDb(), DuplicateQuotes(), DemoParse);
      && db'.products == [Product(1, "Tea")]
      && db'.locations == [Location(1, "Elm", None)]
      && db'.links == [LocationProduct(1, 1, 1, 10)]
      && count == 1
  {
    DuplicateQuotesPass1();
    DuplicateQuotesPending();
  }

  // ---------------------------------------------------------------- a padded name

  /** Pass 1 keys on the raw name, so the padded name is what gets stored. */
  lemma PaddedNamePass1()
    ensures Pass1(EmptyDb(), [Quote(" Tea", "10")]).products == [Product(1, " Tea")]
  {
    assert RawNames([Quote(" Tea", "10")]) == [" Tea"];
    assert NewProductNames(EmptyDb(), [Quote(" Tea", "10")]) == [" Tea"];
  }

  lemma PaddedNameStrips()
    ensures Strip(" Tea") == "Tea"
  {
    assert LeadingSpaces(" Tea") == 1 by {
      assert IsSpace(" Tea"[0]) && !IsSpace(" Tea"[1]);
    }
    assert " Tea"[1..] == "Tea";
    StripUnchangedIff("Tea");
  }

  /** The lookup after pass 1 of the padded record: it knows only the padded name. */
  function PaddedLookup(): Lookup
  {
    Lookup(map[" Tea" := 1], map["Elm" := 1], DemoParse)
  }

  lemma PaddedNameLookup()
    ensures LookupOf(Pass1(EmptyDb(), [Quote(" Tea", "10")]), DemoParse) == PaddedLookup()
  {
    var rs := [Quote(" Tea", "10")];
    assert RawAddresses(rs) == ["Elm"];
    assert NewLocationAddresses(EmptyDb(), rs) == ["Elm"];
    PaddedNamePass1();
  }

  /** The padded record resolves to nothing: its stripped name is not a key. */
  lemma PaddedNameResolvesToNothing()
    ensures Resolve(PaddedLookup(), Quote(" Tea", "10")) == None
  {
    PaddedNameStrips();
    assert Get(PaddedLookup().productIds, "Tea") == None;
  }

  lemma PaddedNameUnresolved()
    ensures ResolveAll(PaddedLookup(), [Quote(" Tea", "10")]) == [None]
  {
    PaddedNameResolvesToNothing();
  }

  /**
   * A record whose name carries a leading space: the padded name is stored as a product, but
   * pass 2 looks up the stripped name, finds nothing, and the count is 0.
   */
  lemma PaddedNameStoredButNotLinked()
    ensures var (db', count) := Reconciled(EmptyDb(), [Quote(" Tea", "10")], DemoParse);
      db'.products == [Product(1, " Tea")] && db'.links == [] && count == 0
  {
    PaddedNamePass1();
    PaddedNameLookup();
    PaddedNameUnresolved();
    var unresolved: seq<Option<PendingLink>> := [None];
    DedupSnoc([], None);
    assert [] + [None] == unresolved;
  }

  // ---------------------------------------------------------------- an unparseable price

  /** Pass 1 of a lone quote for Tea at Elm inserts its name and address, whatever its price. */
  lemma LoneQuotePass1(price: RawPrice)
    ensures Pass1(EmptyDb(), [Quote("Tea", price)]) == TeaAtElm()
  {
    var rs := [Quote("Tea", price)];
    assert |RawNames(rs)| == 1 && RawNames(rs)[0] == "Tea";
    assert RawNames(rs) == ["Tea"];
    assert |RawAddresses(rs)| == 1 && RawAddresses(rs)[0] == "Elm";
    assert RawAddresses(rs) == ["Elm"];
    assert NewProductNames(EmptyDb(), rs) == ["Tea"];
    assert NewLocationAddresses(EmptyDb(), rs) == ["Elm"];
    TeaInserted();
  }

  /** The record's price is rejected, so it resolves to nothing. */
  lemma BadPriceUnresolved()
    ensures ResolveAll(TeaLookup(), [Quote("Tea", "ten")]) == [None]
  {
    assert DemoParse("ten") == None;
  }

  /**
   * A record whose price does not convert: its product and location are still inserted by
   * pass 1, but no association is made and the count is 0.
   */
  lemma BadPriceStillInsertsEntities()
    ensures var (db', count) := Reconciled(EmptyDb(), [Quote("Tea", "ten")], DemoParse);
      db'.products == [Product(1, "Tea")] && db'.locations == [Location(1, "Elm", None)]
      && db'.links == [] && count == 0
  {
    LoneQuotePass1("ten");
    TeaLookupOf();
    BadPriceUnresolved();
    var unresolved: seq<Option<PendingLink>> := [None];
    DedupSnoc([], None);
    assert [] + [None] == unresolved;
  }

  // ---------------------------------------------------------------- a price the column cannot hold

  /** The range of a 32-bit SQL INTEGER, the `price` column's type in PostgreSQL. */
  predicate Int32(p: int)
  {
    -0x8000_0000 <= p < 0x8000_0000
  }

  /** A conversion that also accepts "10000000000", a price above that range. */
  function WideParse(raw: RawPrice): Option<int>
  {
    if raw == "10000000000" then Some(10_000_000_000) else DemoParse(raw)
  }

  lemma HugePriceResolved()
    ensures ResolveAll(LookupOf(TeaAtElm(), WideParse), [Quote("Tea", "10000000000")])
      == [Some(PendingLink(1, 1, 10_000_000_000))]
  {
    CleanNameStrips();
    CleanAddressStrips();
    var ctx := LookupOf(TeaAtElm(), WideParse);
    assert ctx == Lookup(map["Tea" := 1], map["Elm" := 1], WideParse);
    assert Get(ctx.productIds, "Tea") == Some(1);
    assert Get(ctx.locationIds, "Elm") == Some(1);
  }

  /**
   * A lone quote at 10000000000 against a 32-bit price column: the product and the location are
   * inserted, the run raises at the association insert, and no association is left.
   */
  lemma HugePriceEmptiesTable()
    ensures var (db', r) := Run(EmptyDb(), [Quote("Tea", "10000000000")], WideParse, Int32);
      && r == None && db'.links == []
      && db'.products == [Product(1, "Tea")] && db'.locations == [Location(1, "Elm", None)]
  {
    var rs := [Quote("Tea", "10000000000")];
    LoneQuotePass1("10000000000");
    HugePriceResolved();
    assert FirstOfPair(ResolveAll(LookupOf(Pass1(EmptyDb(), rs), WideParse), rs), 0);
    OutOfRangePriceEmptiesLinks(EmptyDb(), rs, WideParse, Int32, 0);
  }
}
