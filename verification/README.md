# Amazon product verdict: a Dafny model of the extraction and the verdict

The service takes an Amazon product page and returns a verdict: SELL, AVOID or RISKY. It gets there in three steps:

1. It fetches the page.
2. `extract_product_data` pulls four fields out of the HTML: title, price, review count and Best Sellers Rank (BSR).
3. `calculate_verdict` classifies the pair (review count, BSR).

This project models steps 2 and 3, plus the part of the `/verdict` handler that turns the extracted data into the response. It then proves what the code promises about them.

The parsed page is abstracted as a `Page.Document`. It holds the answer to every query the extractor makes of BeautifulSoup, in the order the code makes them:
- `select_one` over a selector list becomes a `seq<Option<string>>` of element texts, in selector order.
- `find_all` becomes a sequence in document order.
- `find(...) or find(...)` becomes a sequence of optional results.
- A case-insensitive regular-expression search becomes its optional captured group.

Everything downstream of those answers is modelled as the code writes it. That covers:
- comma removal;
- `int()`;
- `re.findall` of the first digit run (`[\d,]+` and `[\d,]{3,}` on comma-free text);
- the `#\s*([\d,]+)` search;
- the plausibility window;
- the generic-scan candidate test;
- the title, price, review and rank cascades with their defaults;
- the verdict rule and its text.

Modules follow the program's parts:

| module | file | what it holds |
|---|---|---|
| `Text` | text.dfy | character classes (Python's `str.isspace`, ASCII digits), greedy runs, `replace(',', '')`, `in`, `lower()`, the blank-document test |
| `Numbers` | numbers.dfy | `int()` of a digit string, the first digit run, capture parsing, the `#` pattern, the window |
| `Cascade` | cascade.dfy | first-match search, `x or 'Not found'`, and the assign-and-stop-on-positive loop that four of the loops share |
| `Page` | page.dfy | the document abstraction |
| `Title`, `Price`, `Reviews`, `SalesRank` | title.dfy, price.dfy, reviews.dfy, sales_rank.dfy | the four field cascades |
| `RankExamples` | rank_examples.dfy | worked sales-rank examples: the window, and the `#` pattern that bypasses it |
| `Verdict` | verdict.dfy | `calculate_verdict` and its texts |
| `Product` | product.dfy | `extract_product_data` as a whole, and the response with a missing rank reported as 0 |

### Where the code departs from what its names suggest

The model follows the code in each case below.

- **A rank of 0 is kept.**
  - Method 1 assigns every parse to `bsr` before it tests `> 0` (main.py:231-233). Methods 2 and 3 assign without any test (main.py:246, main.py:290).
  - Later methods run only while `bsr is None`. So a rank that parsed to 0 is final: no later method runs, and the verdict is RISKY.
  - `SalesRank.ZeroRankKept` (method 1), `SalesRank.SpanZeroRankKept` (method 2) and `SalesRank.DetailsZeroRankKept` (method 3) prove this. A rank of 0 is not rejected as "not found".
- **Method 1 does not stop at the first pattern that matches.** It stops at the first one whose parse is positive. If no parse is positive, it ends with 0 when any pattern parsed at all.
- **The order of the SELL and AVOID tests does not matter.** They need review counts below 200 and above 1000, which never overlap (`Verdict.SellAvoidOrderIrrelevant`). The no-rank test does matter: without its `bsr == 0` half, a rank of 0 would give SELL or AVOID (`Verdict.ZeroRankTestNeeded`).
- **The `#` pattern has no window.** The generic scan applies the window only to its last resort, the bare digit run. A `#500` on a candidate element is accepted (`RankExamples.HashedElement`), while a bare `500` is rejected (`RankExamples.PlainElement`).

## Model

| member | source | states |
|---|---|---|
| Verdict.CalculateVerdict | main.py:317-327 | A missing or zero rank is RISKY whatever the review count. SELL holds exactly when there is a rank, it is below 20000 and there are fewer than 200 reviews. AVOID holds exactly when there is a rank and more than 1000 reviews. 200..1000 reviews is always RISKY, and so is a rank of 20000 or more with at most 1000 reviews. |
| Verdict.SellAvoidOrderIrrelevant | main.py:322-327 | Testing AVOID before SELL gives the same verdict on every input. |
| Verdict.ZeroRankTestNeeded | main.py:319-325 | The `bsr == 0` test changes the verdict exactly for a rank of 0. Without it, the rule agrees on every other input, but a rank of 0 would give SELL under 200 reviews and AVOID over 1000; with it, a rank of 0 is always RISKY. |
| Verdict.TruthTable | main.py:317-327 | Concrete rows: (0, none) is RISKY, (50, 15000) SELL, (1500, 15000) AVOID, (50, 25000) RISKY, (199, 19999) SELL, (9999, 0) RISKY. |
| Verdict.LabelInjective | main.py:320-327 | The three verdict strings are pairwise distinct, so the returned text identifies the verdict. |
| Text.Span | main.py:243 | The greedy run consumed by `\s*` or `[\d,]+` lies in the string, holds only characters of its class, and stops at the end or at a character outside the class. |
| Text.RemoveCommasContents | main.py:186 | After `replace(',', '')` no comma is left, and every other character occurs exactly as often as before. |
| Text.RemoveCommasAppend | main.py:186 | Comma removal distributes over concatenation. |
| Text.ContainsIffOccurrence | main.py:254 | The `in` test holds exactly when some position starts an occurrence of the pattern. |
| Numbers.ParseDecimal | main.py:189 | The value of an n-digit string is below 10^n. |
| Numbers.ParseRender | main.py:189 | Parsing the decimal rendering of a number gives that number back. |
| Numbers.IntOf | main.py:189 | `int()` of a digit string fails exactly on the empty string and on more than 4300 digits. Otherwise it is the string's decimal value. |
| Numbers.IntOfRender | main.py:189 | `int(str(n))` is n whenever `str(n)` has at most 4300 digits, and fails otherwise. |
| Numbers.ParseDecimalZero | main.py:190 | A digit string parses to 0 exactly when all its digits are '0': the parses that do not stop a loop. |
| Numbers.FirstLongRun | main.py:261 | The result is the leftmost start of a maximal digit run of at least m digits. It is None exactly when no such run exists. |
| Numbers.FirstNumberMeaning | main.py:186-189 | Reading the first number fails exactly when the comma-free text has no run of m or more digits, or when its leftmost such run is longer than the 4300 digits `int()` accepts. Otherwise the result is the value of that leftmost run. |
| Numbers.FirstNumberAfter | main.py:186-189 | A run of at least m digits that follows only non-digits is the run `int()` is applied to. |
| Numbers.FirstNumberOfRendered | main.py:300-303 | A number rendered after a digit-free label, with commas anywhere, is read back as that number if its rendering has at most 4300 digits. Otherwise nothing is read. |
| Numbers.ParseCapture | main.py:230-235 | A capture of digits and commas fails to parse exactly when it is all commas (`int('')`) or keeps more than 4300 digits; both raise ValueError. A successful parse is the decimal value of the capture without its commas. |
| Numbers.CaptureWithoutCommas | main.py:231 | Removing commas from a digits-and-commas capture leaves only digits, and leaves nothing exactly when the capture held only commas. |
| Numbers.HashSearch | main.py:243 | The result is the leftmost position where `#\s*([\d,]+)` matches. It is None exactly when the pattern matches nowhere. |
| Numbers.HashGroup | main.py:243-246 | The captured group is a non-empty run of digits and commas. It starts right after the '#' and its whitespace, sits at that place in the text, and extends as far as the digits and commas do. |
| Numbers.HashSearchFirst | main.py:243 | A match with no '#' before it is the leftmost match. |
| Numbers.HashCapture | main.py:243-244 | `re.search(r'#\s*([\d,]+)', s)` fails exactly when the pattern matches nowhere. Otherwise the group is the one captured at the leftmost match. |
| Cascade.FirstFound | main.py:240 | `find(a) or find(b)` is None exactly when every lookup failed. Otherwise it is the first lookup that succeeded. |
| Cascade.FirstFoundAt | main.py:240 | Whatever lookup is the first to succeed, `find(a) or find(b)` returns its element. |
| Cascade.OrNotFound | main.py:311-312 | `value or 'Not found'` is never empty: it is the value when that is non-empty, and "Not found" otherwise. |
| Cascade.AssignLoop | main.py:181-193 | The loop's result is either the value before the loop or one of the candidates' parses, and a value once held is never lost. |
| Cascade.AssignLoopResult | main.py:181-193 | The loop yields the first positive parse. Failing that, it yields 0 if anything parsed. Failing that, it leaves the variable unchanged. |
| Cascade.MappedAssignLoop | main.py:204-212 | The same result, stated over the candidates rather than their parses. |
| Cascade.AssignLoopNone | main.py:227-238 | The loop leaves the variable None exactly when it was None and no candidate parsed. |
| Cascade.FirstFoundOfFive | main.py:238-295 | Five stages guarded by `is None` give the first stage that produced a value. |
| Title.ExtractTitle | main.py:311 | The title is never the empty string: whatever the cascade leaves falsy becomes "Not found". |
| Title.SelectorLoopResult | main.py:105-110 | The loop yields the first non-empty selector text. Without one, it leaves the title falsy: "" if some selector found an empty element, else unchanged. |
| Title.HeadingLoopResult | main.py:120-126 | The `h1` loop yields the first heading longer than 10 characters, or leaves the title unchanged. |
| Title.TitleCascade | main.py:105-126 | The title is the first non-empty selector text. Failing that, it is the title span's non-empty text. Failing that, it is the first heading longer than 10 characters. Failing all of these, it is "Not found". |
| Title.EarlierSelectorWins | main.py:105-110 | Of two selectors that find non-empty text, the earlier one decides the title. |
| Title.ShortHeadingSkipped | main.py:121-126 | With headings "Info" and a long product name, and nothing else found, the title is the long name. |
| Price.ExtractPrice | main.py:312 | The price is never the empty string: whatever the cascade leaves falsy becomes "Not found". |
| Price.SelectorLoopResult | main.py:140-146 | The loop yields the first non-empty selector text, or nothing. |
| Price.BoxFallback | main.py:148-163 | With no container, the price is unchanged. With a whole span, the result ends with the whole text and begins with the symbol text when there is a symbol. Without a whole span, it is the offscreen text, or the unchanged price when there is none. |
| Price.PriceCascade | main.py:140-163 | The price is the first non-empty selector text. Otherwise, within the first `a-price` container, it is symbol + whole when a whole span exists, the whole text alone without a symbol span, or the offscreen text when there is no whole span. In every other case it is "Not found". |
| Price.EmptyWholeHidesOffscreen | main.py:155-163 | An empty whole-number span with no symbol yields "Not found" even when the offscreen span has text. |
| Reviews.ReviewsCascade | main.py:181-212 | The count is the first positive selector value. Failing that, it is the first positive text-pattern capture. Failing both, it is 0. A parse of 0 never stops the search. |
| Reviews.ExtractReviews | main.py:165-212 | The count is 0 exactly when no selector and no text pattern gives a positive number. A positive count is the value of one of them. |
| Reviews.CapturesOnlyWhenZero | main.py:196 | When some selector gives a positive count, the text patterns do not affect the result. |
| Reviews.GroupedCount | main.py:185-189 | A first selector whose text is "1,234 ratings" gives a count of 1234. |
| SalesRank.CandidateOccurrences | main.py:254 | An element is a candidate exactly when "Best Sellers Rank" occurs in it, or when "BSR" occurs and four of its characters lower-case to "rank". |
| SalesRank.ExtractRank | main.py:214-308 | The rank is the result of the first of the four methods (method 2 in two parts) that produces a value, in the order the code tries them. |
| SalesRank.PatternSearch | main.py:226-235 | Method 1 yields nothing exactly when no capture parses. Any value it yields is the parse of one of the captures. |
| SalesRank.RankSpanSearch | main.py:239-248 | Method 2 starts with nothing when no sales-rank span is found. Otherwise its result is exactly the parse of the `#` group of the first span found, 0 included: nothing when the group is missing or does not parse. |
| SalesRank.ElementValue | main.py:252-276 | A non-candidate element yields nothing. The `#` group, else the "in ... Best Sellers" group, is parsed with no window. Without either match, the element yields its first run of three or more digits exactly when that run lies in the window. |
| SalesRank.GenericScan | main.py:251-276 | The scan keeps the rank it started with or yields some element's value, and never clears a rank it was given. |
| SalesRank.GenericScanWindow | main.py:259-267 | When no element matches either pattern, any rank the scan assigns lies in the window. |
| SalesRank.DetailsSearch | main.py:279-292 | Method 3 yields nothing when no details container is found. Otherwise its result is exactly the parse of the first container's capture, 0 included: nothing when the pattern does not match or does not parse. |
| SalesRank.GenericScanLoop | main.py:252-276 | The generic scan is the assign-and-stop-on-positive loop over the elements' values. A window rejection assigns nothing. |
| SalesRank.GenericScanResult | main.py:252-276 | The scan yields the first element with a positive value. Failing that, it yields 0 if some element's pattern parsed. Failing that, the rank stays as it was. |
| SalesRank.RowScan | main.py:295-308 | A rank found by the table-row scan always lies strictly between 1000 and 10,000,000. |
| SalesRank.RowScanResult | main.py:295-308 | The row scan yields the number of the first row that has the phrase and an in-window first run. Rows that fail hand over to the next row. |
| SalesRank.LaterMethodsSkipped | main.py:238-308 | Once a method assigns a value, zero included, later methods do not run and their inputs cannot change the rank. |
| SalesRank.ZeroRankKept | main.py:227-238 | Method-1 captures that parse only to 0 leave a final rank of 0. |
| SalesRank.SpanZeroRankKept | main.py:238-248 | With no method-1 parse, a first sales-rank span whose `#` group parses to 0 leaves a final rank of 0. |
| SalesRank.DetailsZeroRankKept | main.py:279-295 | With nothing from methods 1 and 2, a first details container whose capture parses to 0 leaves a final rank of 0, and the table rows are never read. |
| SalesRank.PatternOrder | main.py:227-235 | With a positive method-1 capture, the rank is the first positive capture in list order. |
| RankExamples.LabelledRow | main.py:298-303 | The row "Best Sellers Rank " + amount, commas allowed, passes the phrase test and reads as the amount. |
| RankExamples.WindowRejectsOutliers | main.py:296-306 | Given rows with 500, then 15,000,000, then 45,000, the table scan yields 45000. |
| RankExamples.HashedElement | main.py:254-274 | "Best Sellers Rank #500 in Books" yields 500 through the `#` pattern, below the window. |
| RankExamples.PlainElement | main.py:259-267 | "Best Sellers Rank 500 in Books" with no pattern match yields nothing: the window rejects 500. |
| Product.ExtractProductData | main.py:80-86 | A blank document yields "Not found", "Not found", 0 and no rank. In every result, title and price are non-empty. |
| Product.Respond | main.py:356-367 | The response passes the extracted title, price and review count through, and reports a present rank as itself and a missing one as 0. The reported rank is 0 exactly when the extracted rank gave no signal. Its verdict equals the verdict recomputed from the reported numbers. |
| Product.BlankPageResponse | main.py:356-367 | A blank page answers "Not found", "Not found", 0 reviews, rank 0 and RISKY. |

## Left out

- The FastAPI application, its routes and the pydantic request model are HTTP plumbing. This covers the `/` route, the handler's error paths and re-raising.
- `scrape_amazon_page` is network I/O through ScraperAPI. So is the mapping of `requests` exceptions to HTTP errors.
- The API-key configuration comes from the process environment.
- `validate_amazon_url` wraps `urllib.parse.urlparse`, whose splitting rules are not part of this model.
- HTML parsing, CSS selection, `find`/`find_all` and `get_text` belong to BeautifulSoup. They become the fields of `Page.Document`. Stripping, and which element each selector finds, are taken as given.
- The case-insensitive patterns are given as their captured groups, because they use backtracking and a lazy `.*?`. These are the review patterns, the four method-1 patterns, the "in ... Best Sellers" pattern and the product-details pattern. The model does not relate a capture to the page text.
- Text.IsDigit: `\d` and `int()` also accept non-ASCII decimal digits in Python. The model treats only '0'..'9' as digits.
- Text.LowerChar: this models only the lower-casing that can produce the letters of "rank": A-Z and KELVIN SIGN. Other characters are left unchanged, which cannot change whether "rank" occurs.
- Numbers.ParseCapture: this is exact for captures of digits and commas, which is all the patterns can capture. Other text is simply treated as unparsable. `int()` would also accept surrounding whitespace, a sign or underscores.
- Numbers.IntOf: the limit of 4300 digits is CPython's default from version 3.11 on. It can be changed with `sys.set_int_max_str_digits` or `PYTHONINTMAXSTRDIGITS`, and older versions have none; the model fixes it at the default. With it, the `except (ValueError, IndexError)` handlers can fire on an over-long run or capture (main.py:192-193, main.py:211-212, main.py:234-235, main.py:247-248, main.py:268-269, main.py:275-276, main.py:291-292, main.py:307-308), and the model's `None` parse takes their branch. `IndexError` cannot arise, since `group(1)` and `numbers[0]` always exist there.
