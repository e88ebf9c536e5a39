/** The product-title cascade of `extract_product_data`. */
module Title {
  import opened Wrappers
  import opened Cascade

  /** A heading the `h1` fallback accepts: non-empty and longer than 10 characters. */
  predicate IsTitleLength(text: string) {
    text != "" && |text| > 10
  }

  /** The selector loop: every element found overwrites `title` with its
      stripped text, even an empty one, and a non-empty text ends the loop. */
  function SelectorLoop(found: seq<Option<string>>, title: Option<string>): Option<string>
    decreases |found|
  {
    if |found| == 0 then title
    else match found[0]
      case None => SelectorLoop(found[1..], title)
      case Some(text) => if text != "" then Some(text) else SelectorLoop(found[1..], Some(text))
  }

  /** The `h1` loop: the first heading long enough replaces `title`. */
  function HeadingLoop(headings: seq<string>, title: Option<string>): Option<string>
    decreases |headings|
  {
    if |headings| == 0 then title
    else if IsTitleLength(headings[0]) then Some(headings[0])
    else HeadingLoop(headings[1..], title)
  }

  /** The title: the selector loop, then the `data-automation-id` span, then
      the `h1` loop, each consulted only while `title` is still falsy; a falsy
      result becomes "Not found". */
  function ExtractTitle(found: seq<Option<string>>, span: Option<string>, headings: seq<string>): (title: string)
    ensures title != ""
  {
    var title := SelectorLoop(found, None);
    var title :=
      if Truthy(title) then title
      else
        var title := if span.Some? then span else title;
        if Truthy(title) then title else HeadingLoop(headings, title);
    OrNotFound(title)
  }

  /** The selector loop yields the first non-empty text; when there is none it
      leaves `title` falsy: the empty text of the last element found, or the
      value it started with when no selector found anything. */
  lemma {:induction false} SelectorLoopResult(found: seq<Option<string>>, title: Option<string>)
    ensures match FirstWhere(found, Truthy)
      case Some(i) => SelectorLoop(found, title) == found[i]
      case None =>
        SelectorLoop(found, title) == if exists k :: 0 <= k < |found| && found[k].Some? then Some("") else title
    decreases |found|
  {
    if |found| > 0 {
      var rest := found[1..];
      assert forall k :: 0 < k < |found| ==> found[k] == rest[k - 1];
      match found[0]
      case None =>
        SelectorLoopResult(rest, title);
        if exists k :: 0 <= k < |rest| && rest[k].Some? {
          var k :| 0 <= k < |rest| && rest[k].Some?;
          assert found[k + 1].Some?;
        }
      case Some(text) =>
        if text == "" {
          SelectorLoopResult(rest, Some(""));
        }
    }
  }

  /** The `h1` loop yields the first heading longer than 10 characters, or
      leaves `title` as it was. */
  lemma {:induction false} HeadingLoopResult(headings: seq<string>, title: Option<string>)
    ensures match FirstWhere(headings, IsTitleLength)
      case Some(j) => HeadingLoop(headings, title) == Some(headings[j])
      case None => HeadingLoop(headings, title) == title
    decreases |headings|
  {
    if |headings| > 0 && !IsTitleLength(headings[0]) {
      HeadingLoopResult(headings[1..], title);
    }
  }

  /** The whole cascade, stated without the loop variable: the first non-empty
      selector text; else the span's text if non-empty; else the first heading
      longer than 10 characters; else "Not found". */
  lemma TitleCascade(found: seq<Option<string>>, span: Option<string>, headings: seq<string>)
    ensures ExtractTitle(found, span, headings) ==
      match FirstWhere(found, Truthy)
      case Some(i) => found[i].value
      case None =>
        if Truthy(span) then span.value
        else match FirstWhere(headings, IsTitleLength)
          case Some(j) => headings[j]
          case None => "Not found"
  {
    SelectorLoopResult(found, None);
    var t := SelectorLoop(found, None);
    var t' := if span.Some? then span else t;
    HeadingLoopResult(headings, t');
  }

  /** When an earlier selector and a later one both find non-empty text, the
      earlier one's text is the title. */
  lemma EarlierSelectorWins(found: seq<Option<string>>, span: Option<string>, headings: seq<string>, i: nat, j: nat)
    requires i < j < |found|
    requires Truthy(found[i]) && Truthy(found[j])
    requires forall k :: 0 <= k < i ==> !Truthy(found[k])
    ensures ExtractTitle(found, span, headings) == found[i].value
    ensures found[i] != found[j] ==> ExtractTitle(found, span, headings) != found[j].value
  {
    TitleCascade(found, span, headings);
  }

  /** A page with no title selector and no title span, whose headings are
      "Info" and a longer product name, is titled with the longer heading:
      the short decorative heading is skipped. */
  lemma ShortHeadingSkipped(found: seq<Option<string>>, headings: seq<string>)
    requires forall k :: 0 <= k < |found| ==> found[k].None?
    requires headings == ["Info", "Wireless Bluetooth Headset Noise Cancelling"]
    ensures ExtractTitle(found, None, headings) == "Wireless Bluetooth Headset Noise Cancelling"
  {
    TitleCascade(found, None, headings);
    assert !IsTitleLength(headings[0]);
  }
}
