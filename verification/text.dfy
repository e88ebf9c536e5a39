/** Character classes and the few string operations the extractors apply to
    element text: comma removal, substring tests and the blank-document test. */
module Text {

  /** Python's `str.isspace()`; a `\s` in a `str` pattern matches the same characters. */
  predicate IsSpace(c: char) {
    || ('\t' <= c <= '\r')
    || ('\U{1C}' <= c <= '\U{1F}')
    || c == ' ' || c == '\U{85}' || c == '\U{A0}' || c == '\U{1680}'
    || ('\U{2000}' <= c <= '\U{200A}')
    || c == '\U{2028}' || c == '\U{2029}' || c == '\U{202F}' || c == '\U{205F}'
    || c == '\U{3000}'
  }

  /** An ASCII decimal digit. */
  predicate IsDigit(c: char) {
    '0' <= c <= '9'
  }

  /** A character of the class `[\d,]`. */
  predicate IsDigitOrComma(c: char) {
    IsDigit(c) || c == ','
  }

  /** The character classes whose runs the patterns scan over. */
  datatype CharClass = Digits | DigitsAndCommas | Spaces

  predicate InClass(c: char, k: CharClass) {
    match k
    case Digits => IsDigit(c)
    case DigitsAndCommas => IsDigitOrComma(c)
    case Spaces => IsSpace(c)
  }

  /** Every character of `s` is in class `k`. */
  predicate AllIn(s: string, k: CharClass) {
    forall j :: 0 <= j < |s| ==> InClass(s[j], k)
  }

  /** Length of the maximal run of class-`k` characters that starts at index `i`:
      what a greedy `[...]*` consumes there. */
  function Span(s: string, i: nat, k: CharClass): (n: nat)
    requires i <= |s|
    ensures i + n <= |s|
    ensures forall j :: i <= j < i + n ==> InClass(s[j], k)
    ensures i + n == |s| || !InClass(s[i + n], k)
    decreases |s| - i
  {
    if i < |s| && InClass(s[i], k) then 1 + Span(s, i + 1, k) else 0
  }

  /** A run of `n` class-`k` characters that ends the string or is followed
      by another character is the maximal run. */
  lemma SpanIs(s: string, i: nat, k: CharClass, n: nat)
    requires i + n <= |s|
    requires forall j :: i <= j < i + n ==> InClass(s[j], k)
    requires i + n == |s| || !InClass(s[i + n], k)
    ensures Span(s, i, k) == n
  {
  }

  /** `s.replace(',', '')`. */
  function RemoveCommas(s: string): string
  {
    if |s| == 0 then ""
    else if s[0] == ',' then RemoveCommas(s[1..])
    else [s[0]] + RemoveCommas(s[1..])
  }

  /** Comma removal leaves no comma behind and keeps every other character,
      as often as it occurred. */
  lemma {:induction false} RemoveCommasContents(s: string)
    ensures forall j :: 0 <= j < |RemoveCommas(s)| ==> RemoveCommas(s)[j] != ','
    ensures forall c :: c != ',' ==> multiset(RemoveCommas(s))[c] == multiset(s)[c]
    decreases |s|
  {
    if |s| > 0 {
      RemoveCommasContents(s[1..]);
      assert s == [s[0]] + s[1..];
    }
  }

  /** Removing commas from a concatenation removes them from each part. */
  lemma {:induction false} RemoveCommasAppend(a: string, b: string)
    ensures RemoveCommas(a + b) == RemoveCommas(a) + RemoveCommas(b)
    decreases |a|
  {
    if |a| == 0 {
      assert a + b == b;
    } else {
      assert (a + b)[1..] == a[1..] + b;
      RemoveCommasAppend(a[1..], b);
    }
  }

  /** A string without commas is left unchanged. */
  lemma {:induction false} RemoveCommasNoCommas(s: string)
    requires forall j :: 0 <= j < |s| ==> s[j] != ','
    ensures RemoveCommas(s) == s
    decreases |s|
  {
    if |s| > 0 {
      RemoveCommasNoCommas(s[1..]);
      assert s == [s[0]] + s[1..];
    }
  }

  /** Removing commas around a comma at index `i` is removing them from the
      text before it and the text after it. */
  lemma RemoveCommaAt(s: string, i: nat)
    requires i < |s| && s[i] == ','
    ensures RemoveCommas(s) == RemoveCommas(s[..i]) + RemoveCommas(s[i + 1..])
  {
    assert s == s[..i] + ([','] + s[i + 1..]);
    RemoveCommasAppend(s[..i], [','] + s[i + 1..]);
    assert ([','] + s[i + 1..])[1..] == s[i + 1..];
  }

  /** Removing the only comma of a string drops exactly that character. */
  lemma RemoveOnlyComma(s: string, i: nat)
    requires i < |s| && s[i] == ','
    requires forall j :: 0 <= j < |s| && j != i ==> s[j] != ','
    ensures RemoveCommas(s) == s[..i] + s[i + 1..]
  {
    RemoveCommaAt(s, i);
    RemoveCommasNoCommas(s[..i]);
    RemoveCommasNoCommas(s[i + 1..]);
  }

  /** Removing the two commas of a string drops exactly those two characters. */
  lemma RemoveTwoCommas(s: string, i: nat, j: nat)
    requires i < j < |s| && s[i] == ',' && s[j] == ','
    requires forall k :: 0 <= k < |s| && k != i && k != j ==> s[k] != ','
    ensures RemoveCommas(s) == s[..i] + s[i + 1..j] + s[j + 1..]
  {
    RemoveCommaAt(s, j);
    RemoveOnlyComma(s[..j], i);
    assert s[..j][..i] == s[..i] && s[..j][i + 1..] == s[i + 1..j];
    RemoveCommasNoCommas(s[j + 1..]);
  }

  /** `s.startswith(pat)`. */
  predicate StartsWith(s: string, pat: string) {
    |pat| <= |s| && s[..|pat|] == pat
  }

  /** `pat in s`: a left-to-right search for an occurrence of `pat`. */
  predicate Contains(s: string, pat: string)
    decreases |s|
  {
    StartsWith(s, pat) || (|s| > 0 && Contains(s[1..], pat))
  }

  /** `pat` occurs in `s` at some position. */
  predicate OccursIn(pat: string, s: string) {
    exists i :: 0 <= i <= |s| && StartsWith(s[i..], pat)
  }

  /** The search finds `pat` exactly when some position of `s` starts an occurrence. */
  lemma {:induction false} ContainsIffOccurrence(s: string, pat: string)
    ensures Contains(s, pat) <==> OccursIn(pat, s)
    decreases |s|
  {
    assert s[0..] == s;
    if |s| > 0 {
      ContainsIffOccurrence(s[1..], pat);
      if Contains(s[1..], pat) {
        var i :| 0 <= i <= |s[1..]| && StartsWith(s[1..][i..], pat);
        assert s[1..][i..] == s[i + 1..];
      }
      if i :| 0 <= i <= |s| && StartsWith(s[i..], pat) {
        if i > 0 {
          assert s[1..][i - 1..] == s[i..];
        }
      }
    } else {
      if i :| 0 <= i <= |s| && StartsWith(s[i..], pat) {
        assert i == 0;
      }
    }
  }

  /** Python's lower-casing of one character, as far as it can produce one of
      the ASCII letters of "rank": the letters A-Z, and KELVIN SIGN, which
      lower-cases to 'k'. Every other character is left as it is. */
  function LowerChar(c: char): (l: char)
    ensures 'a' <= l <= 'z' && l != c ==> 'A' <= c <= 'Z' || c == '\U{212A}'
  {
    if 'A' <= c <= 'Z' then (c as int + 32) as char
    else if c == '\U{212A}' then 'k'
    else c
  }

  /** `text.lower()`, character by character. */
  function Lower(s: string): (r: string)
    ensures |r| == |s|
    ensures forall j :: 0 <= j < |s| ==> r[j] == LowerChar(s[j])
  {
    seq(|s|, j requires 0 <= j < |s| => LowerChar(s[j]))
  }

  /** `html.strip()` is empty: the document has only whitespace, or nothing. */
  predicate IsBlank(s: string) {
    forall j :: 0 <= j < |s| ==> IsSpace(s[j])
  }
}
