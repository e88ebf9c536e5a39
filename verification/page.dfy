/** The parsed document, seen through the queries the extractors make of it.
    Parsing, CSS selection, `find`/`find_all` and the case-insensitive regular
    expressions are not modelled: their answers are the fields below, each in
    the order the program asks for them. Element texts from `get_text(strip=True)`
    are already stripped; those from `get_text()` are not. */
module Page {
  import opened Wrappers

  /** The `span.a-price` container of the price fallback: the stripped texts of
      its first `a-price-whole`, `a-price-symbol` and `a-offscreen` spans, each
      absent when `find` returns nothing. */
  datatype PriceBox = PriceBox(whole: Option<string>, symbol: Option<string>, offscreen: Option<string>)

  /** A `span`, `li` or `div` element, in document order: its unstripped text
      and the group captured in that text by the case-insensitive
      `([\d,]+)\s+in\s+.*?Best\s+Sellers`, if it matches. */
  datatype RankElement = RankElement(text: string, sellersCapture: Option<string>)

  /** A product-details container: its text and the group captured in it by
      the case-insensitive `Best\s+Sellers?\s+Rank[:\s]*#?\s*([\d,]+)`, if it matches. */
  datatype DetailsSection = DetailsSection(text: string, rankCapture: Option<string>)

  datatype Document = Document(
    /** The raw HTML the document was parsed from. */
    html: string,
    /** `select_one` for each title selector, in list order: the stripped text of the element found. */
    titleSelectors: seq<Option<string>>,
    /** The `span` whose `data-automation-id` is "title", stripped text. */
    titleSpan: Option<string>,
    /** Every `h1`, in document order, stripped text. */
    headings: seq<string>,
    /** `select_one` for each price selector, in list order, stripped text. */
    priceSelectors: seq<Option<string>>,
    /** The first `span.a-price`, if any. */
    priceBox: Option<PriceBox>,
    /** `select_one` for each review selector, in list order, stripped text. */
    reviewSelectors: seq<Option<string>>,
    /** For each review pattern over the page text, in list order, its captured group. */
    reviewCaptures: seq<Option<string>>,
    /** For each "Best Sellers Rank" pattern over the page text, in list order, its captured group. */
    rankCaptures: seq<Option<string>>,
    /** The `span#SalesRank` and `span#productDetails_salesRank` lookups, in that order, unstripped text. */
    salesRankSpans: seq<Option<string>>,
    /** Every `span`, `li` and `div`, in document order. */
    rankElements: seq<RankElement>,
    /** The four product-details container lookups, in the order they are chained with `or`. */
    detailsSections: seq<Option<DetailsSection>>,
    /** The text of every `tr`, in document order, unstripped. */
    tableRows: seq<string>)
}
