/** `extract_product_data` as a whole, and the part of the `/verdict` handler
    that turns its result into the response. */
module Product {
  import opened Wrappers
  import opened Text
  import opened Page
  import opened Title
  import opened Price
  import opened Reviews
  import opened SalesRank
  import opened Verdict

  /** The dictionary `extract_product_data` returns. */
  datatype ProductData = ProductData(title: string, price: string, reviewsCount: nat, bsr: Option<nat>)

  const NotFoundData := ProductData("Not found", "Not found", 0, None)

  /** An empty or whitespace-only document yields the defaults at once;
      any other runs the four cascades. */
  function ExtractProductData(doc: Document): (r: ProductData)
    ensures r.title != "" && r.price != ""
    ensures IsBlank(doc.html) ==> r == NotFoundData
  {
    if IsBlank(doc.html) then NotFoundData
    else ProductData(
      ExtractTitle(doc.titleSelectors, doc.titleSpan, doc.headings),
      ExtractPrice(doc.priceSelectors, doc.priceBox),
      ExtractReviews(doc.reviewSelectors, doc.reviewCaptures),
      ExtractRank(doc.rankCaptures, doc.salesRankSpans, doc.rankElements, doc.detailsSections, doc.tableRows))
  }

  /** The response model of the `/verdict` handler. */
  datatype VerdictResponse = VerdictResponse(
    productTitle: string, price: string, reviewsCount: nat, bsr: nat, verdict: string)

  /** The handler's work after the page is fetched: extract, classify on the
      extracted (optional) rank, and report a missing rank as 0. */
  function Respond(doc: Document): (resp: VerdictResponse)
    ensures resp.verdict == Label(CalculateVerdict(resp.reviewsCount, Some(resp.bsr)))
    ensures resp.bsr == 0 <==> !HasRank(ExtractProductData(doc).bsr)
    ensures resp.productTitle != "" && resp.price != ""
    ensures var d := ExtractProductData(doc);
      && resp.productTitle == d.title && resp.price == d.price && resp.reviewsCount == d.reviewsCount
      && (d.bsr.Some? ==> resp.bsr == d.bsr.value)
  {
    var data := ExtractProductData(doc);
    VerdictResponse(
      data.title, data.price, data.reviewsCount,
      data.bsr.GetOr(0),
      Label(CalculateVerdict(data.reviewsCount, data.bsr)))
  }

  /** A blank page answers "Not found" twice, no reviews, rank 0, RISKY. */
  lemma BlankPageResponse(doc: Document)
    requires IsBlank(doc.html)
    ensures Respond(doc) == VerdictResponse("Not found", "Not found", 0, 0, Label(Risky))
  {
  }
}
