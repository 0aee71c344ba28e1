/**
 * The feed as the reconciliation receives it: the list stored under the document's "Products"
 * key, each item naming a product, a location address and a raw price.
 */
module Feed {
  import opened Wrappers

  /** The price as the feed carries it; turning it into an integer is left to the reconciliation. */
  type RawPrice = string

  /** One validated feed item: `item.product.name`, `item.location.address`, `item.price`. */
  datatype Record = Record(productName: string, locationAddress: string, rawPrice: RawPrice)

  /** A decoded JSON document whose items have already been validated. */
  type Document = map<string, seq<Record>>

  datatype FeedError =
    | NoData           // the document is absent or empty
    | MissingProducts  // the document has no "Products" key

  /**
   * Rejects an absent or empty document, then takes the list under "Products". A batch is
   * either taken whole or not at all.
   */
  function LoadRecords(doc: Option<Document>): (r: Result<seq<Record>, FeedError>)
    ensures r.Ok? <==> doc.Some? && "Products" in doc.value
    ensures r.Ok? ==> r.value == doc.value["Products"]
    ensures doc.None? || doc.value == map[] ==> r == Err(NoData)
  {
    match doc
    case None => Err(NoData)
    case Some(d) =>
      if |d| == 0 then Err(NoData)
      else if "Products" !in d then Err(MissingProducts)
      else Ok(d["Products"])
  }
}
