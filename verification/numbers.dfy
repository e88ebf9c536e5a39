/** The numeric normaliser the extractors repeat inline: comma removal,
    `int()` of a digit string, the first digit run found by `re.findall`, the
    capture of the `#\s*([\d,]+)` pattern, and the sales-rank plausibility window. */
module Numbers {
  import opened Wrappers
  import opened Text

  function Pow10(e: nat): (p: nat)
    ensures p >= 1
  {
    if e == 0 then 1 else 10 * Pow10(e - 1)
  }

  function DigitValue(c: char): (d: nat)
    requires IsDigit(c)
    ensures d <= 9
  {
    c as int - '0' as int
  }

  /** `int(s)` for a non-empty string of ASCII digits (leading zeros allowed). */
  function ParseDecimal(s: string): (n: nat)
    requires AllIn(s, Digits)
    ensures n < Pow10(|s|)
    decreases |s|
  {
    if |s| == 0 then 0
    else 10 * ParseDecimal(s[..|s| - 1]) + DigitValue(s[|s| - 1])
  }

  /** A digit string parses to 0 exactly when every digit is '0': the inputs
      that `int()` accepts but that the cascades do not stop at. */
  lemma {:induction false} ParseDecimalZero(s: string)
    requires AllIn(s, Digits)
    ensures ParseDecimal(s) == 0 <==> forall j :: 0 <= j < |s| ==> s[j] == '0'
    decreases |s|
  {
    if |s| > 0 {
      var init := s[..|s| - 1];
      ParseDecimalZero(init);
      assert forall j :: 0 <= j < |init| ==> init[j] == s[j];
    }
  }

  /** The decimal rendering of `n` (no leading zeros; "0" for zero). */
  function Render(n: nat): (s: string)
    ensures 1 <= |s|
    ensures AllIn(s, Digits)
    decreases n
  {
    if n < 10 then [('0' as int + n) as char]
    else Render(n / 10) + [('0' as int + n % 10) as char]
  }

  /** Parsing the rendering of a number gives the number back. */
  lemma {:induction false} ParseRender(n: nat)
    ensures ParseDecimal(Render(n)) == n
    decreases n
  {
    var s := Render(n);
    if n >= 10 {
      ParseRender(n / 10);
      assert s[..|s| - 1] == Render(n / 10);
    }
  }

  /** Index `i` starts a maximal run of digits. */
  predicate RunStartsAt(s: string, i: nat) {
    i < |s| && IsDigit(s[i]) && (i == 0 || !IsDigit(s[i - 1]))
  }

  /** Index `i` starts a maximal run of at least `m` digits: where
      `re.findall` over a comma-free string with `[\d,]+` (m = 1) or
      `[\d,]{3,}` (m = 3) reports a match. */
  predicate LongRunAt(s: string, i: nat, m: nat) {
    RunStartsAt(s, i) && Span(s, i, Digits) >= m
  }

  /** The leftmost start of a maximal run of at least `m` digits at or after `i`. */
  function FirstLongRun(s: string, i: nat, m: nat): (r: Option<nat>)
    requires i <= |s|
    requires i == |s| || !IsDigit(s[i]) || RunStartsAt(s, i)
    ensures r.Some? ==> i <= r.value && LongRunAt(s, r.value, m)
    ensures r.Some? ==> forall k :: i <= k < r.value ==> !LongRunAt(s, k, m)
    ensures r.None? <==> forall k :: i <= k < |s| ==> !LongRunAt(s, k, m)
    decreases |s| - i
  {
    if i == |s| then None
    else if !IsDigit(s[i]) then FirstLongRun(s, i + 1, m)
    else if Span(s, i, Digits) >= m then Some(i)
    else FirstLongRun(s, i + Span(s, i, Digits), m)
  }

  /** CPython's default limit on the number of digits `int()` converts from
      a string (`sys.get_int_max_str_digits()`, in force since Python 3.11);
      leading zeros count too. */
  const MaxStrDigits: nat := 4300

  /** `int(s)` on a string of ASCII digits, `None` where it raises ValueError:
      on the empty string, and on more digits than the limit allows. */
  function IntOf(s: string): (r: Option<nat>)
    requires AllIn(s, Digits)
    ensures r.None? <==> |s| == 0 || |s| > MaxStrDigits
    ensures r.Some? ==> r.value == ParseDecimal(s)
  {
    if |s| == 0 || |s| > MaxStrDigits then None else Some(ParseDecimal(s))
  }

  /** `int(str(n))` gives `n` back whenever `str(n)` is within the limit. */
  lemma IntOfRender(n: nat)
    ensures IntOf(Render(n)) == if |Render(n)| <= MaxStrDigits then Some(n) else None
  {
    ParseRender(n);
  }

  /** `k` starts the leftmost maximal run of at least `m` digits of `t`. */
  predicate FirstRunAt(t: string, k: nat, m: nat) {
    && LongRunAt(t, k, m)
    && (forall j :: 0 <= j < k ==> !LongRunAt(t, j, m))
  }

  /** `k` starts the leftmost long run of `t`, `int()` accepts that run, and
      `n` is its value. */
  predicate FirstRunValue(t: string, k: nat, m: nat, n: nat) {
    && FirstRunAt(t, k, m)
    && Span(t, k, Digits) <= MaxStrDigits
    && n == ParseDecimal(t[k..k + Span(t, k, Digits)])
  }

  /** `t` has no maximal run of at least `m` digits. */
  predicate NoLongRun(t: string, m: nat) {
    forall k :: 0 <= k < |t| ==> !LongRunAt(t, k, m)
  }

  /** The leftmost maximal run of at least `m` digits of `t` is longer than
      `int()` accepts. */
  predicate FirstRunTooLong(t: string, m: nat) {
    exists k :: 0 <= k < |t| && FirstRunAt(t, k, m) && Span(t, k, Digits) > MaxStrDigits
  }

  /** `int(re.findall(p, t)[0])` over a comma-free text `t` when the list is
      not empty, for `p` = `[\d,]+` (m = 1) or `[\d,]{3,}` (m = 3); `None`
      when the list is empty or `int()` raises ValueError. */
  function FirstRunNumber(t: string, m: nat): Option<nat>
  {
    match FirstLongRun(t, 0, m)
    case None => None
    case Some(i) => RunDigits(t, i); IntOf(t[i..i + Span(t, i, Digits)])
  }

  /** `int(re.findall(p, text.replace(',', ''))[0])`, as above. */
  function FirstNumber(text: string, m: nat): Option<nat>
  {
    FirstRunNumber(RemoveCommas(text), m)
  }

  /** What `FirstNumber` reads: nothing exactly when the comma-free text has
      no maximal run of at least `m` digits, or its leftmost one is longer than
      `int()` accepts; otherwise the value of that leftmost run. */
  lemma FirstNumberMeaning(text: string, m: nat)
    ensures FirstNumber(text, m).None? <==>
      NoLongRun(RemoveCommas(text), m) || FirstRunTooLong(RemoveCommas(text), m)
    ensures FirstNumber(text, m).Some? ==>
      exists k :: FirstRunValue(RemoveCommas(text), k, m, FirstNumber(text, m).value)
  {
    var t := RemoveCommas(text);
    var r := FirstRunNumber(t, m);
    match FirstLongRun(t, 0, m)
    case None =>
    case Some(i) =>
      assert FirstRunAt(t, i, m);
      // Two leftmost long runs start at the same place.
      forall k: nat | FirstRunAt(t, k, m)
        ensures k == i
      {
      }
      if r.Some? {
        assert FirstRunValue(t, i, m, r.value);
      }
  }

  /** A maximal run of digits is a digit string. */
  lemma RunDigits(t: string, k: nat)
    requires k <= |t|
    ensures AllIn(t[k..k + Span(t, k, Digits)], Digits)
  {
  }

  /** A long run with no digit before it is the leftmost long run. */
  lemma LongRunFirst(t: string, k: nat, m: nat)
    requires LongRunAt(t, k, m)
    requires forall j :: 0 <= j < k ==> !IsDigit(t[j])
    ensures FirstLongRun(t, 0, m) == Some(k)
  {
    assert forall j :: 0 <= j < k ==> !LongRunAt(t, j, m);
  }

  /** `int()` is applied to the leftmost long run. */
  lemma FirstRunFrom(t: string, k: nat, m: nat)
    requires FirstLongRun(t, 0, m) == Some(k)
    ensures FirstRunNumber(t, m) == IntOf(t[k..k + Span(t, k, Digits)])
  {
    RunDigits(t, k);
  }

  /** A run of `n >= m` digits that follows only non-digits in the comma-free
      text is the run `int()` is applied to. */
  lemma FirstNumberAfter(text: string, t: string, k: nat, n: nat, m: nat)
    requires RemoveCommas(text) == t
    requires k + n <= |t| && 1 <= n && m <= n
    requires forall j :: 0 <= j < k ==> !IsDigit(t[j])
    requires forall j :: k <= j < k + n ==> IsDigit(t[j])
    requires k + n == |t| || !IsDigit(t[k + n])
    ensures FirstNumber(text, m) == IntOf(t[k..k + n])
  {
    RunAfterNonDigits(t, k, n, m);
  }

  /** The same, stated on the comma-free text alone. */
  lemma RunAfterNonDigits(t: string, k: nat, n: nat, m: nat)
    requires k + n <= |t| && 1 <= n && m <= n
    requires forall j :: 0 <= j < k ==> !IsDigit(t[j])
    requires forall j :: k <= j < k + n ==> IsDigit(t[j])
    requires k + n == |t| || !IsDigit(t[k + n])
    ensures FirstRunNumber(t, m) == IntOf(t[k..k + n])
  {
    SpanIs(t, k, Digits, n);
    assert k == 0 || !IsDigit(t[k - 1]);
    LongRunFirst(t, k, m);
    FirstRunFrom(t, k, m);
  }

  /** A number rendered after a digit-free label, commas anywhere, is read
      back as that number once its rendering is long enough for the pattern,
      unless the rendering exceeds the digit limit. */
  lemma FirstNumberOfRendered(text: string, prefix: string, n: nat, m: nat)
    requires RemoveCommas(text) == prefix + Render(n)
    requires forall j :: 0 <= j < |prefix| ==> !IsDigit(prefix[j])
    requires m <= |Render(n)|
    ensures FirstNumber(text, m) == if |Render(n)| <= MaxStrDigits then Some(n) else None
  {
    var d := Render(n);
    var t := prefix + d;
    LabelThenDigits(prefix, d);
    FirstNumberAfter(text, t, |prefix|, |d|, m);
    IntOfRender(n);
  }

  /** A digit-free label followed by a digit string: the shape
      `FirstNumberAfter` asks for. */
  lemma LabelThenDigits(prefix: string, d: string)
    requires forall j :: 0 <= j < |prefix| ==> !IsDigit(prefix[j])
    requires AllIn(d, Digits)
    ensures var t := prefix + d;
      && (forall j :: 0 <= j < |prefix| ==> !IsDigit(t[j]))
      && (forall j :: |prefix| <= j < |prefix| + |d| ==> IsDigit(t[j]))
      && t[|prefix|..|prefix| + |d|] == d
  {
    var t := prefix + d;
    assert forall j :: 0 <= j < |prefix| ==> t[j] == prefix[j];
    assert forall j :: |prefix| <= j < |prefix| + |d| ==> t[j] == d[j - |prefix|];
  }

  /** `int(capture.replace(',', ''))`, `None` where `int()` raises ValueError.
      A capture of `([\d,]+)` holds only digits and commas, so it fails only
      when it holds nothing but commas, or more digits than the limit. */
  function ParseCapture(capture: string): (r: Option<nat>)
    ensures AllIn(capture, DigitsAndCommas) ==>
      (r.None? <==>
        || (forall j :: 0 <= j < |capture| ==> capture[j] == ',')
        || |RemoveCommas(capture)| > MaxStrDigits)
    ensures r.Some? ==> AllIn(RemoveCommas(capture), Digits) && r.value == ParseDecimal(RemoveCommas(capture))
  {
    var t := RemoveCommas(capture);
    CaptureWithoutCommas(capture);
    if AllIn(t, Digits) then IntOf(t) else None
  }

  /** A capture of `[\d,]+` loses its commas and keeps only digits, and keeps
      none at all exactly when it was all commas. */
  lemma {:induction false} CaptureWithoutCommas(capture: string)
    ensures AllIn(capture, DigitsAndCommas) ==> AllIn(RemoveCommas(capture), Digits)
    ensures |RemoveCommas(capture)| == 0 <==> forall j :: 0 <= j < |capture| ==> capture[j] == ','
    decreases |capture|
  {
    if |capture| > 0 {
      CaptureWithoutCommas(capture[1..]);
      assert forall j :: 1 <= j < |capture| ==> capture[j] == capture[1..][j - 1];
    }
  }

  /** What one `re.search(...)` contributes to a capture loop: nothing when the
      pattern did not match, else the parse of its group. */
  function CaptureValue(found: Option<string>): Option<nat>
  {
    match found
    case None => None
    case Some(capture) => ParseCapture(capture)
  }

  /** The plausibility window of the digit-run fallbacks: 1000 < n < 10_000_000. */
  predicate InWindow(n: nat) {
    1000 < n < 10000000
  }

  /** The pattern `#\s*([\d,]+)` matches at `i`: a '#', any whitespace, then a
      digit or a comma. (`\s*` is greedy and `[\d,]` holds no whitespace, so no
      shorter whitespace prefix can succeed where the longest one fails.) */
  predicate HashMatchAt(s: string, i: nat) {
    && i < |s| && s[i] == '#'
    && var j := i + 1 + Span(s, i + 1, Spaces);
       j < |s| && IsDigitOrComma(s[j])
  }

  /** The leftmost position at or after `i` where `#\s*([\d,]+)` matches. */
  function HashSearch(s: string, i: nat): (r: Option<nat>)
    requires i <= |s|
    ensures r.Some? ==> i <= r.value && HashMatchAt(s, r.value)
    ensures r.Some? ==> forall k :: i <= k < r.value ==> !HashMatchAt(s, k)
    ensures r.None? <==> forall k :: i <= k < |s| ==> !HashMatchAt(s, k)
    decreases |s| - i
  {
    if i == |s| then None
    else if HashMatchAt(s, i) then Some(i)
    else HashSearch(s, i + 1)
  }

  /** The group captured by a match of `#\s*([\d,]+)` at `i`: the whole run
      of digits and commas after the '#' and its whitespace. */
  function HashGroup(s: string, i: nat): (g: string)
    requires HashMatchAt(s, i)
    ensures |g| > 0 && AllIn(g, DigitsAndCommas)
    ensures var j := i + 1 + Span(s, i + 1, Spaces);
      && j + |g| <= |s| && s[j..j + |g|] == g
      && (j + |g| == |s| || !IsDigitOrComma(s[j + |g|]))
  {
    var j := i + 1 + Span(s, i + 1, Spaces);
    s[j..j + Span(s, j, DigitsAndCommas)]
  }

  /** `re.search(r'#\s*([\d,]+)', s).group(1)`, or `None` when there is no match. */
  function HashCapture(s: string): (r: Option<string>)
    ensures r.None? <==> forall k :: 0 <= k < |s| ==> !HashMatchAt(s, k)
    ensures r.Some? ==> exists i: nat ::
      (HashMatchAt(s, i) && (forall k :: 0 <= k < i ==> !HashMatchAt(s, k)) && r.value == HashGroup(s, i))
  {
    match HashSearch(s, 0)
    case None => None
    case Some(i) => Some(HashGroup(s, i))
  }

  /** A match with no '#' before it is the leftmost match. */
  lemma HashSearchFirst(s: string, i: nat)
    requires HashMatchAt(s, i)
    requires forall k :: 0 <= k < i ==> s[k] != '#'
    ensures HashSearch(s, 0) == Some(i)
  {
    assert HashSearch(s, 0).Some?;
  }
}
