/** The review-count cascade of `extract_product_data`. */
module Reviews {
  import opened Wrappers
  import opened Text
  import opened Cascade
  import opened Numbers

  /** What one review selector contributes: the value of the first digit run
      of its element's text once commas are removed, or nothing when no
      element was found, it has no digit, or `int()` raised ValueError on a
      run longer than the digit limit. */
  function SelectorValue(found: Option<string>): Option<nat>
  {
    match found
    case None => None
    case Some(text) => FirstNumber(text, 1)
  }

  /** The review count: the selector loop, each parse assigned to the count
      and a positive one ending it; then, only while the count is 0, the same
      loop over the text patterns' captures. */
  function ExtractReviews(found: seq<Option<string>>, captures: seq<Option<string>>): (count: nat)
    ensures count == 0 <==>
      && (forall k :: 0 <= k < |found| ==> !PositiveSelector(found[k]))
      && (forall k :: 0 <= k < |captures| ==> !PositiveCapture(captures[k]))
    ensures count > 0 ==>
      || (exists k :: 0 <= k < |found| && SelectorValue(found[k]) == Some(count))
      || (exists k :: 0 <= k < |captures| && CaptureValue(captures[k]) == Some(count))
  {
    MappedAssignLoop(found, SelectorValue, PositiveSelector, Some(0));
    MappedAssignLoop(captures, CaptureValue, PositiveCapture, Some(0));
    var count := AssignLoop(MapSeq(found, SelectorValue), Some(0)).GetOr(0);
    if count == 0 then AssignLoop(MapSeq(captures, CaptureValue), Some(0)).GetOr(0)
    else count
  }

  predicate PositiveSelector(found: Option<string>) {
    IsPositive(SelectorValue(found))
  }

  predicate PositiveCapture(found: Option<string>) {
    IsPositive(CaptureValue(found))
  }

  /** The count is the first positive selector value; failing that, the first
      positive capture value; failing that, 0. A selector or capture that
      parses to 0 never stops the search. */
  lemma {:induction false} ReviewsCascade(found: seq<Option<string>>, captures: seq<Option<string>>)
    ensures ExtractReviews(found, captures) ==
      match FirstWhere(found, PositiveSelector)
      case Some(i) => SelectorValue(found[i]).value
      case None =>
        match FirstWhere(captures, PositiveCapture)
        case Some(j) => CaptureValue(captures[j]).value
        case None => 0
  {
    MappedAssignLoop(found, SelectorValue, PositiveSelector, Some(0));
    MappedAssignLoop(captures, CaptureValue, PositiveCapture, Some(0));
  }

  /** The text patterns are consulted only when no selector yields a positive count. */
  lemma CapturesOnlyWhenZero(found: seq<Option<string>>, captures: seq<Option<string>>, captures': seq<Option<string>>)
    requires exists k :: 0 <= k < |found| && PositiveSelector(found[k])
    ensures ExtractReviews(found, captures) == ExtractReviews(found, captures')
  {
    ReviewsCascade(found, captures);
    ReviewsCascade(found, captures');
    var k :| 0 <= k < |found| && PositiveSelector(found[k]);
    assert FirstWhere(found, PositiveSelector).Some?;
  }

  /** "1,234 ratings" loses its one comma. */
  lemma GroupedTextRemoved(text: string)
    requires text == "1,234 ratings"
    ensures RemoveCommas(text) == "1234 ratings"
  {
    RemoveOnlyComma(text, 1);
    assert text[..1] + text[2..] == "1234 ratings";
  }

  /** "1234 ratings" opens with a run of exactly four digits. */
  lemma RatingsShape(t: string)
    requires t == "1234 ratings"
    ensures 4 < |t| && !IsDigit(t[4])
    ensures forall j :: 0 <= j < 4 ==> IsDigit(t[j])
  {
  }

  /** That run is accepted by `int()` as 1234. */
  lemma RatingsValue(t: string)
    requires t == "1234 ratings"
    ensures IntOf(t[0..4]) == Some(1234)
  {
    assert t[0..4] == Render(1234);
    IntOfRender(1234);
  }

  /** The first digit run of "1234 ratings" is 1234. */
  lemma GroupedTextNumber(text: string)
    requires RemoveCommas(text) == "1234 ratings"
    ensures FirstNumber(text, 1) == Some(1234)
  {
    var t := "1234 ratings";
    RatingsShape(t);
    FirstNumberAfter(text, t, 0, 4, 1);
    RatingsValue(t);
  }

  /** Grouping commas are removed before the digit run is taken: a first
      selector whose text is "1,234 ratings" gives a count of 1234. */
  lemma GroupedCount(found: seq<Option<string>>, captures: seq<Option<string>>, text: string)
    requires text == "1,234 ratings"
    requires |found| > 0 && found[0] == Some(text)
    ensures ExtractReviews(found, captures) == 1234
  {
    GroupedTextRemoved(text);
    GroupedTextNumber(text);
    assert SelectorValue(found[0]) == Some(1234);
    ReviewsCascade(found, captures);
  }
}
