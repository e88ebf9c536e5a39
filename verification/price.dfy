/** The price cascade of `extract_product_data`. The price is kept as display
    text; it is never parsed. */
module Price {
  import opened Wrappers
  import opened Cascade
  import opened Page

  /** The selector loop: unlike the title loop, `price` is assigned only by a
      non-empty text, which also ends the loop. */
  function SelectorLoop(found: seq<Option<string>>): Option<string>
    decreases |found|
  {
    if |found| == 0 then None
    else if Truthy(found[0]) then found[0]
    else SelectorLoop(found[1..])
  }

  /** The fallback inside the first `span.a-price`: symbol text + whole text
      when a whole-number span exists (the whole text alone without a symbol
      span), otherwise the offscreen text; `price` is untouched when the
      container or the spans it needs are missing. */
  function BoxFallback(box: Option<PriceBox>, price: Option<string>): (r: Option<string>)
    ensures box.None? ==> r == price
    ensures box.Some? && box.value.whole.Some? ==>
      var w := box.value.whole.value;
      r.Some? && |w| <= |r.value| && r.value[|r.value| - |w|..] == w
    ensures box.Some? && box.value.whole.Some? && box.value.symbol.Some? ==>
      r.Some? && box.value.symbol.value <= r.value
    ensures box.Some? && box.value.whole.None? ==>
      r == if box.value.offscreen.Some? then box.value.offscreen else price
  {
    match box
    case None => price
    case Some(b) =>
      if b.whole.Some? then
        if b.symbol.Some? then Some(b.symbol.value + b.whole.value) else b.whole
      else if b.offscreen.Some? then b.offscreen
      else price
  }

  /** The price: the selector loop, then, while it is still falsy, the
      container fallback; a falsy result becomes "Not found". */
  function ExtractPrice(found: seq<Option<string>>, box: Option<PriceBox>): (price: string)
    ensures price != ""
  {
    var price := SelectorLoop(found);
    var price := if Truthy(price) then price else BoxFallback(box, price);
    OrNotFound(price)
  }

  /** The selector loop yields the first non-empty text, or nothing. */
  lemma {:induction false} SelectorLoopResult(found: seq<Option<string>>)
    ensures match FirstWhere(found, Truthy)
      case Some(i) => SelectorLoop(found) == found[i]
      case None => SelectorLoop(found) == None
    decreases |found|
  {
    if |found| > 0 && !Truthy(found[0]) {
      SelectorLoopResult(found[1..]);
    }
  }

  /** The whole cascade, stated case by case: the first non-empty selector
      text wins; otherwise the container decides, by whether it has a
      whole-number span, a symbol span and an offscreen span. */
  lemma PriceCascade(found: seq<Option<string>>, box: Option<PriceBox>)
    ensures FirstWhere(found, Truthy).Some? ==>
      ExtractPrice(found, box) == found[FirstWhere(found, Truthy).value].value
    ensures FirstWhere(found, Truthy).None? ==>
      ExtractPrice(found, box) ==
        match box
        case None => "Not found"
        case Some(b) =>
          if b.whole.Some? then
            if b.symbol.Some? then OrNotFound(Some(b.symbol.value + b.whole.value))
            else OrNotFound(b.whole)
          else OrNotFound(b.offscreen)
  {
    SelectorLoopResult(found);
  }

  /** A whole-number span that is present but empty still shuts out the
      offscreen text: with no symbol span the price is "Not found" even when
      the offscreen span has text. */
  lemma EmptyWholeHidesOffscreen(found: seq<Option<string>>, offscreen: string)
    requires forall k :: 0 <= k < |found| ==> !Truthy(found[k])
    ensures ExtractPrice(found, Some(PriceBox(Some(""), None, Some(offscreen)))) == "Not found"
  {
    PriceCascade(found, Some(PriceBox(Some(""), None, Some(offscreen))));
  }
}
