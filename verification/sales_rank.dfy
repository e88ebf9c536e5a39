/** The Best Sellers Rank cascade of `extract_product_data`: four methods,
    each consulted only while `bsr` is still `None`. */
module SalesRank {
  import opened Wrappers
  import opened Text
  import opened Cascade
  import opened Numbers
  import opened Page

  /** The generic-scan candidate test: "Best Sellers Rank" as written, or
      "BSR" as written together with "rank" in the lower-cased text. */
  predicate IsCandidate(text: string) {
    Contains(text, "Best Sellers Rank") || (Contains(text, "BSR") && Contains(Lower(text), "rank"))
  }

  /** The four characters at `i` spell "rank" once lower-cased. */
  predicate RankAt(text: string, i: nat) {
    i + 4 <= |text| && Lower(text[i..i + 4]) == "rank"
  }

  /** The candidate test by occurrences: "Best Sellers Rank" occurs, or "BSR"
      occurs and some four characters spell "rank" once lower-cased (so
      "RANK", "Rank" and "ran\U{212A}" all count). */
  lemma CandidateOccurrences(text: string)
    ensures IsCandidate(text) <==>
      OccursIn("Best Sellers Rank", text)
      || (OccursIn("BSR", text)
          && exists i: nat :: RankAt(text, i))
  {
    ContainsIffOccurrence(text, "Best Sellers Rank");
    ContainsIffOccurrence(text, "BSR");
    var low := Lower(text);
    ContainsIffOccurrence(low, "rank");
    if OccursIn("rank", low) {
      var i :| 0 <= i <= |low| && StartsWith(low[i..], "rank");
      assert Lower(text[i..i + 4]) == low[i..i + 4];
      assert RankAt(text, i);
    }
    if i: nat :| RankAt(text, i) {
      assert low[i..][..4] == Lower(text[i..i + 4]);
      assert StartsWith(low[i..], "rank");
    }
  }

  /** Method 1: the text patterns over the whole page, in list order. Every
      capture that parses is assigned to `bsr`, zero included; a positive one
      ends the search. */
  function PatternSearch(captures: seq<Option<string>>): (r: Option<nat>)
    ensures r.None? <==> forall k :: 0 <= k < |captures| ==> CaptureValue(captures[k]).None?
    ensures r.Some? ==> exists k :: 0 <= k < |captures| && CaptureValue(captures[k]) == r
  {
    var vals := MapSeq(captures, CaptureValue);
    AssignLoopNone(vals, None);
    AssignLoop(vals, None)
  }

  /** Method 2, first part: the first of the two sales-rank spans found, searched
      for `#\s*([\d,]+)`; its parse is assigned without a positivity test. */
  function RankSpanSearch(spans: seq<Option<string>>): (r: Option<nat>)
    ensures (forall k :: 0 <= k < |spans| ==> spans[k].None?) ==> r.None?
    ensures r.Some? ==> exists k: nat ::
      (FoundFirstAt(spans, k) && HashCapture(spans[k].value).Some?
       && r == ParseCapture(HashCapture(spans[k].value).value))
    ensures forall k: nat :: FoundFirstAt(spans, k) ==> r == CaptureValue(HashCapture(spans[k].value))
  {
    FirstFoundAt(spans);
    match FirstFound(spans)
    case None => None
    case Some(text) =>
      match HashCapture(text)
      case None => None
      case Some(capture) => ParseCapture(capture)
  }

  /** Method 2, second part: the scan over every `span`, `li` and `div`. On a
      candidate element the `#` pattern is tried, then the "in ... Best Sellers"
      pattern; a match's parse is assigned, and only a positive one ends the
      scan. Without a match, the first run of at least three digits ends the
      scan if it lies in the plausibility window, and is ignored otherwise. */
  function GenericScan(elements: seq<RankElement>, bsr: Option<nat>): (r: Option<nat>)
    ensures r == bsr || exists k :: 0 <= k < |elements| && ElementValue(elements[k]) == r
    ensures bsr.Some? ==> r.Some?
    decreases |elements|
  {
    if |elements| == 0 then bsr
    else
      var e := elements[0];
      var rest := elements[1..];
      if !IsCandidate(e.text) then GenericScan(rest, bsr)
      else
        var found := if HashCapture(e.text).Some? then HashCapture(e.text) else e.sellersCapture;
        match found
        case None =>
          (match FirstNumber(e.text, 3)
           case None => GenericScan(rest, bsr)
           case Some(n) => if InWindow(n) then Some(n) else GenericScan(rest, bsr))
        case Some(capture) =>
          (match ParseCapture(capture)
           case None => GenericScan(rest, bsr)
           case Some(n) => if n > 0 then Some(n) else GenericScan(rest, Some(n)))
  }

  /** Method 3: the first product-details container found, searched for the
      "Best Sellers Rank" pattern; its parse is assigned without a positivity test. */
  function DetailsSearch(sections: seq<Option<DetailsSection>>): (r: Option<nat>)
    ensures (forall k :: 0 <= k < |sections| ==> sections[k].None?) ==> r.None?
    ensures r.Some? ==> exists k: nat :: FoundFirstAt(sections, k) && r == CaptureValue(sections[k].value.rankCapture)
    ensures forall k: nat :: FoundFirstAt(sections, k) ==> r == CaptureValue(sections[k].value.rankCapture)
  {
    FirstFoundAt(sections);
    match FirstFound(sections)
    case None => None
    case Some(section) => CaptureValue(section.rankCapture)
  }

  /** Method 4: the first table row containing "Best Sellers Rank" whose first
      run of at least three digits lies in the plausibility window. */
  function RowScan(rows: seq<string>): (r: Option<nat>)
    ensures r.Some? ==> InWindow(r.value)
    decreases |rows|
  {
    if |rows| == 0 then None
    else if Contains(rows[0], "Best Sellers Rank") then
      match FirstNumber(rows[0], 3)
      case None => RowScan(rows[1..])
      case Some(n) => if InWindow(n) then Some(n) else RowScan(rows[1..])
    else RowScan(rows[1..])
  }

  /** The sales rank: each method runs only while `bsr` is still `None`, so a
      value once assigned, even 0, is final. */
  function ExtractRank(
    captures: seq<Option<string>>, spans: seq<Option<string>>, elements: seq<RankElement>,
    sections: seq<Option<DetailsSection>>, rows: seq<string>): (r: Option<nat>)
    ensures r == FirstFound([PatternSearch(captures), RankSpanSearch(spans), GenericScan(elements, None),
                             DetailsSearch(sections), RowScan(rows)])
  {
    FirstFoundOfFive(PatternSearch(captures), RankSpanSearch(spans), GenericScan(elements, None),
                     DetailsSearch(sections), RowScan(rows));
    var bsr := PatternSearch(captures);
    var bsr :=
      if bsr.None? then
        var bsr := RankSpanSearch(spans);
        if bsr.None? then GenericScan(elements, bsr) else bsr
      else bsr;
    var bsr := if bsr.None? then DetailsSearch(sections) else bsr;
    if bsr.None? then RowScan(rows) else bsr
  }

  /** What one element of the generic scan yields: the parse of the first
      pattern that matches, or else its first run of at least three digits
      when that lies in the window, or nothing. */
  function ElementValue(e: RankElement): (r: Option<nat>)
    ensures !IsCandidate(e.text) ==> r.None?
    ensures IsCandidate(e.text) && HashCapture(e.text).Some? ==> r == ParseCapture(HashCapture(e.text).value)
    ensures IsCandidate(e.text) && HashCapture(e.text).None? && e.sellersCapture.Some? ==>
      r == ParseCapture(e.sellersCapture.value)
    ensures NoPatternMatch(e) ==>
      (r.Some? <==> IsCandidate(e.text) && FirstNumber(e.text, 3).Some? && InWindow(FirstNumber(e.text, 3).value))
    ensures NoPatternMatch(e) && r.Some? ==> r == FirstNumber(e.text, 3) && InWindow(r.value)
  {
    if !IsCandidate(e.text) then None
    else
      var found := if HashCapture(e.text).Some? then HashCapture(e.text) else e.sellersCapture;
      match found
      case Some(capture) => ParseCapture(capture)
      case None =>
        match FirstNumber(e.text, 3)
        case None => None
        case Some(n) => if InWindow(n) then Some(n) else None
  }

  /** Neither the `#` pattern nor the "in ... Best Sellers" pattern matches
      the element's text. */
  predicate NoPatternMatch(e: RankElement) {
    HashCapture(e.text).None? && e.sellersCapture.None?
  }

  /** Where no element matches either pattern, whatever the generic scan
      assigns lies in the plausibility window. */
  lemma GenericScanWindow(elements: seq<RankElement>, bsr: Option<nat>)
    requires forall k :: 0 <= k < |elements| ==> NoPatternMatch(elements[k])
    ensures GenericScan(elements, bsr) == bsr || InWindow(GenericScan(elements, bsr).value)
  {
    var r := GenericScan(elements, bsr);
    if r != bsr {
      var k :| 0 <= k < |elements| && ElementValue(elements[k]) == r;
      assert NoPatternMatch(elements[k]);
    }
  }

  /** The generic scan is the assign-and-stop-on-positive loop over the
      elements' values: a zero from a pattern is assigned and the scan goes
      on, a window rejection assigns nothing. */
  lemma {:induction false} GenericScanLoop(elements: seq<RankElement>, bsr: Option<nat>)
    ensures GenericScan(elements, bsr) == AssignLoop(MapSeq(elements, ElementValue), bsr)
    decreases |elements|
  {
    if |elements| > 0 {
      var vals := MapSeq(elements, ElementValue);
      var rest := elements[1..];
      assert vals[1..] == MapSeq(rest, ElementValue);
      assert vals[0] == ElementValue(elements[0]);
      GenericScanStep(elements, bsr);
      match ElementValue(elements[0])
      case None => GenericScanLoop(rest, bsr);
      case Some(n) => if n == 0 { GenericScanLoop(rest, Some(0)); }
    }
  }

  /** One step of the generic scan: the first element's value decides
      whether the scan stops, assigns and goes on, or just goes on. */
  lemma GenericScanStep(elements: seq<RankElement>, bsr: Option<nat>)
    requires |elements| > 0
    ensures GenericScan(elements, bsr) ==
      match ElementValue(elements[0])
      case None => GenericScan(elements[1..], bsr)
      case Some(n) => if n > 0 then Some(n) else GenericScan(elements[1..], Some(n))
  {
  }

  predicate PositiveElement(e: RankElement) {
    IsPositive(ElementValue(e))
  }

  /** The generic scan yields the first element with a positive value;
      failing that, 0 if some element's pattern parsed to 0; failing that,
      what `bsr` held before. */
  lemma GenericScanResult(elements: seq<RankElement>, bsr: Option<nat>)
    ensures match FirstWhere(elements, PositiveElement)
      case Some(i) => GenericScan(elements, bsr) == ElementValue(elements[i])
      case None =>
        GenericScan(elements, bsr)
          == if exists k :: 0 <= k < |elements| && ElementValue(elements[k]).Some? then Some(0) else bsr
  {
    GenericScanLoop(elements, bsr);
    MappedAssignLoop(elements, ElementValue, PositiveElement, bsr);
  }

  /** A row the table scan accepts. */
  predicate RowAccepted(row: string) {
    Contains(row, "Best Sellers Rank") && FirstNumber(row, 3).Some? && InWindow(FirstNumber(row, 3).value)
  }

  /** The table scan yields the first run of the first accepted row: a row
      whose number falls outside the window hands over to the next row. */
  lemma {:induction false} RowScanResult(rows: seq<string>)
    ensures match FirstWhere(rows, RowAccepted)
      case Some(i) => RowScan(rows) == FirstNumber(rows[i], 3)
      case None => RowScan(rows) == None
    decreases |rows|
  {
    if |rows| > 0 && !RowAccepted(rows[0]) {
      RowScanResult(rows[1..]);
    }
  }

  /** Once a method has assigned a value, zero included, no later method runs. */
  lemma LaterMethodsSkipped(
    captures: seq<Option<string>>, spans: seq<Option<string>>, elements: seq<RankElement>,
    sections: seq<Option<DetailsSection>>, rows: seq<string>,
    spans': seq<Option<string>>, elements': seq<RankElement>,
    sections': seq<Option<DetailsSection>>, rows': seq<string>)
    ensures PatternSearch(captures).Some? ==>
      ExtractRank(captures, spans, elements, sections, rows) == PatternSearch(captures)
    ensures PatternSearch(captures).None? && RankSpanSearch(spans).Some? ==>
      ExtractRank(captures, spans, elements, sections, rows) == RankSpanSearch(spans)
    ensures PatternSearch(captures).None? && RankSpanSearch(spans).None? && GenericScan(elements, None).Some? ==>
      ExtractRank(captures, spans, elements, sections, rows)
        == ExtractRank(captures, spans, elements, sections', rows')
    ensures PatternSearch(captures).None? && RankSpanSearch(spans).None? && GenericScan(elements, None).None? ==>
      ExtractRank(captures, spans, elements, sections, rows)
        == if DetailsSearch(sections).Some? then DetailsSearch(sections) else RowScan(rows)
  {
  }

  /** Method-1 captures that all parse to 0 leave a rank of 0 that no other
      method can replace. */
  lemma ZeroRankKept(
    captures: seq<Option<string>>, spans: seq<Option<string>>, elements: seq<RankElement>,
    sections: seq<Option<DetailsSection>>, rows: seq<string>, k: nat)
    requires k < |captures| && CaptureValue(captures[k]) == Some(0)
    requires forall j :: 0 <= j < |captures| ==> !IsPositive(CaptureValue(captures[j]))
    ensures ExtractRank(captures, spans, elements, sections, rows) == Some(0)
  {
    var vals := MapSeq(captures, CaptureValue);
    AssignLoopResult(vals, None);
    assert vals[k].Some?;
    assert FirstWhere(vals, IsPositive).None?;
  }

  /** With a positive method-1 capture, the rank is the first positive one in
      list order. */
  lemma PatternOrder(
    captures: seq<Option<string>>, spans: seq<Option<string>>, elements: seq<RankElement>,
    sections: seq<Option<DetailsSection>>, rows: seq<string>, i: nat)
    requires i < |captures| && IsPositive(CaptureValue(captures[i]))
    requires forall j :: 0 <= j < i ==> !IsPositive(CaptureValue(captures[j]))
    ensures ExtractRank(captures, spans, elements, sections, rows) == CaptureValue(captures[i])
  {
    PatternPositive(captures, i);
  }

  /** Method 1 on its own yields the first positive capture. */
  lemma PatternPositive(captures: seq<Option<string>>, i: nat)
    requires i < |captures| && IsPositive(CaptureValue(captures[i]))
    requires forall j :: 0 <= j < i ==> !IsPositive(CaptureValue(captures[j]))
    ensures PatternSearch(captures) == CaptureValue(captures[i])
  {
    var vals := MapSeq(captures, CaptureValue);
    assert forall j :: 0 <= j < i ==> !IsPositive(vals[j]);
    AssignLoopFirstPositive(vals, i, None);
  }

  /** Method 2's sales-rank span is tried only when method 1 assigned nothing;
      its `#` group is assigned without a positivity test, so a first span
      whose group parses to 0 gives a final rank of 0. */
  lemma SpanZeroRankKept(
    captures: seq<Option<string>>, spans: seq<Option<string>>, elements: seq<RankElement>,
    sections: seq<Option<DetailsSection>>, rows: seq<string>, k: nat)
    requires forall j :: 0 <= j < |captures| ==> CaptureValue(captures[j]).None?
    requires FoundFirstAt(spans, k) && CaptureValue(HashCapture(spans[k].value)) == Some(0)
    ensures ExtractRank(captures, spans, elements, sections, rows) == Some(0)
  {
    assert PatternSearch(captures).None?;
    assert RankSpanSearch(spans) == Some(0);
  }

  /** Method 3's details container is tried only when methods 1 and 2 assigned
      nothing; its capture is assigned without a positivity test, so a first
      container whose capture parses to 0 gives a final rank of 0, and the
      table rows are never read. */
  lemma DetailsZeroRankKept(
    captures: seq<Option<string>>, spans: seq<Option<string>>, elements: seq<RankElement>,
    sections: seq<Option<DetailsSection>>, rows: seq<string>, k: nat)
    requires forall j :: 0 <= j < |captures| ==> CaptureValue(captures[j]).None?
    requires RankSpanSearch(spans).None? && GenericScan(elements, None).None?
    requires FoundFirstAt(sections, k) && CaptureValue(sections[k].value.rankCapture) == Some(0)
    ensures ExtractRank(captures, spans, elements, sections, rows) == Some(0)
  {
    assert PatternSearch(captures).None?;
    assert DetailsSearch(sections) == Some(0);
  }
}
