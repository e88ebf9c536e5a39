/** Worked examples of the sales-rank fallbacks: the plausibility window of
    the table-row scan, and the `#` pattern of the generic scan, which parses
    a rank the window would have rejected. Each literal is taken apart in
    small steps so that no single proof has to evaluate a whole page string. */
module RankExamples {
  import opened Wrappers
  import opened Text
  import opened Cascade
  import opened Numbers
  import opened Page
  import opened SalesRank

  lemma RankLabelDigitFree(s: string)
    requires s == "Best Sellers Rank "
    ensures forall j :: 0 <= j < |s| ==> !IsDigit(s[j])
  {
  }

  lemma RankLabelCommaFree(s: string)
    requires s == "Best Sellers Rank "
    ensures RemoveCommas(s) == s
  {
    assert forall j :: 0 <= j < |s| ==> s[j] != ',';
    RemoveCommasNoCommas(s);
  }

  /** A row "Best Sellers Rank " followed by an amount, commas allowed, is a
      candidate row whose first number is the amount. */
  lemma LabelledRow(row: string, amount: string, n: nat)
    requires row == "Best Sellers Rank " + amount
    requires RemoveCommas(amount) == Render(n) && 3 <= |Render(n)| <= MaxStrDigits
    ensures Contains(row, "Best Sellers Rank")
    ensures FirstNumber(row, 3) == Some(n)
  {
    var prefix := "Best Sellers Rank ";
    LabelledRowPhrase(row, amount);
    RankLabelDigitFree(prefix);
    RankLabelCommaFree(prefix);
    RemoveCommasAppend(prefix, amount);
    FirstNumberOfRendered(row, prefix, n, 3);
  }

  lemma LabelledRowPhrase(row: string, amount: string)
    requires row == "Best Sellers Rank " + amount
    ensures Contains(row, "Best Sellers Rank")
  {
    assert row[..17] == "Best Sellers Rank";
    assert StartsWith(row, "Best Sellers Rank");
  }

  lemma Amount500(a: string)
    requires a == "500"
    ensures RemoveCommas(a) == Render(500) && 3 <= |Render(500)| <= MaxStrDigits
  {
    RemoveCommasNoCommas(a);
    assert Render(500) == "500";
  }

  lemma Amount15MCommas(a: string)
    requires a == "15,000,000"
    ensures RemoveCommas(a) == a[..2] + a[3..6] + a[7..]
  {
    RemoveTwoCommas(a, 2, 6);
  }

  /** `Render` one digit at a time, so that no step unfolds it more than once. */
  lemma Render15M()
    ensures Render(15000000) == "15000000"
  {
    assert Render(1) == "1";
    assert Render(15) == Render(1) + "5" == "15";
    assert Render(150) == Render(15) + "0" == "150";
    assert Render(1500) == Render(150) + "0" == "1500";
    assert Render(15000) == Render(1500) + "0" == "15000";
    assert Render(150000) == Render(15000) + "0" == "150000";
    assert Render(1500000) == Render(150000) + "0" == "1500000";
    assert Render(15000000) == Render(1500000) + "0" == "15000000";
  }

  lemma Joined15M(a: string)
    requires a == "15,000,000"
    ensures a[..2] + a[3..6] + a[7..] == "15000000"
  {
  }

  lemma Amount15M(a: string)
    requires a == "15,000,000"
    ensures RemoveCommas(a) == Render(15000000) && 3 <= |Render(15000000)| <= MaxStrDigits
  {
    Amount15MCommas(a);
    Joined15M(a);
    Render15M();
  }

  lemma Amount45K(a: string)
    requires a == "45,000"
    ensures RemoveCommas(a) == Render(45000) && 3 <= |Render(45000)| <= MaxStrDigits
  {
    RemoveOnlyComma(a, 2);
    assert Render(45000) == "45000";
  }

  /** Two rejected rows before an accepted one: the scan reads the third. */
  lemma ThreeRows(rows: seq<string>)
    requires |rows| == 3
    requires !RowAccepted(rows[0]) && !RowAccepted(rows[1]) && RowAccepted(rows[2])
    ensures RowScan(rows) == FirstNumber(rows[2], 3)
  {
    RowScanResult(rows);
    assert FirstWhere(rows, RowAccepted) == Some(2);
  }

  /** The table scan skips a rank of 500 (too small) and 15,000,000 (too
      large) and settles on 45,000 in the third row. */
  lemma WindowRejectsOutliers(rows: seq<string>)
    requires rows == ["Best Sellers Rank " + "500", "Best Sellers Rank " + "15,000,000", "Best Sellers Rank " + "45,000"]
    ensures RowScan(rows) == Some(45000)
  {
    Amount500("500");
    LabelledRow(rows[0], "500", 500);
    Amount15M("15,000,000");
    LabelledRow(rows[1], "15,000,000", 15000000);
    Amount45K("45,000");
    LabelledRow(rows[2], "45,000", 45000);
    ThreeRows(rows);
  }

  lemma HashedHasPhrase(s: string)
    requires s == "Best Sellers Rank #500 in Books"
    ensures IsCandidate(s)
  {
    assert StartsWith(s, "Best Sellers Rank");
  }

  lemma HashedMatch(s: string)
    requires s == "Best Sellers Rank #500 in Books"
    ensures HashMatchAt(s, 18) && Span(s, 19, Spaces) == 0
    ensures forall k :: 0 <= k < 18 ==> s[k] != '#'
  {
    SpanIs(s, 19, Spaces, 0);
  }

  lemma HashedGroup(s: string)
    requires s == "Best Sellers Rank #500 in Books"
    requires HashMatchAt(s, 18) && Span(s, 19, Spaces) == 0
    ensures HashGroup(s, 18) == s[19..22]
  {
    SpanIs(s, 19, DigitsAndCommas, 3);
  }

  lemma HashedDigits(s: string)
    requires s == "Best Sellers Rank #500 in Books"
    ensures s[19..22] == "500"
  {
  }

  lemma HashedCapture(s: string)
    requires s == "Best Sellers Rank #500 in Books"
    ensures HashCapture(s) == Some("500")
  {
    HashedMatch(s);
    HashSearchFirst(s, 18);
    HashedGroup(s);
    HashedDigits(s);
  }

  lemma Parse500(c: string)
    requires c == "500"
    ensures ParseCapture(c) == Some(500)
  {
    RemoveCommasNoCommas(c);
    assert c == Render(500);
    ParseRender(500);
  }

  /** "#500" on a candidate element is parsed by the `#` pattern and
      accepted although 500 lies below the window. */
  lemma HashedElement(e: RankElement)
    requires e.text == "Best Sellers Rank #500 in Books"
    ensures ElementValue(e) == Some(500)
  {
    HashedHasPhrase(e.text);
    HashedCapture(e.text);
    Parse500("500");
  }

  /** Text without a '#' has no `#` match. */
  lemma NoHashNoCapture(s: string)
    requires forall k :: 0 <= k < |s| ==> s[k] != '#'
    ensures HashCapture(s) == None
  {
  }

  lemma PlainFacts(s: string)
    requires s == "Best Sellers Rank 500 in Books"
    ensures IsCandidate(s)
    ensures forall k :: 0 <= k < |s| ==> s[k] != '#' && s[k] != ','
  {
    assert StartsWith(s, "Best Sellers Rank");
  }

  lemma PlainShape(s: string)
    requires s == "Best Sellers Rank 500 in Books"
    ensures 21 < |s| && !IsDigit(s[21])
    ensures forall j :: 0 <= j < 18 ==> !IsDigit(s[j])
    ensures forall j :: 18 <= j < 21 ==> IsDigit(s[j])
  {
  }

  lemma PlainDigits(s: string)
    requires s == "Best Sellers Rank 500 in Books"
    ensures ParseDecimal(s[18..21]) == 500
  {
    assert s[18..21] == Render(500);
    ParseRender(500);
  }

  /** The same rank without its '#' (and no "in ... Best Sellers" match) falls
      to the digit-run fallback, whose window rejects 500. */
  lemma PlainElement(e: RankElement)
    requires e.text == "Best Sellers Rank 500 in Books" && e.sellersCapture.None?
    ensures ElementValue(e) == None
  {
    PlainFacts(e.text);
    NoHashNoCapture(e.text);
    RemoveCommasNoCommas(e.text);
    PlainShape(e.text);
    FirstNumberAfter(e.text, e.text, 18, 3, 3);
    PlainDigits(e.text);
  }
}
