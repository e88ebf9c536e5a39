/** `calculate_verdict`: the three-way decision on a review count and an
    optional sales rank. */
module Verdict {
  import opened Wrappers

  datatype Verdict = Sell | Avoid | Risky

  /** A sales rank that carries a signal: present and not 0. */
  predicate HasRank(bsr: Option<int>) {
    bsr.Some? && bsr.value != 0
  }

  /** No rank (or a rank of 0) is RISKY; otherwise a rank under 20000 with
      fewer than 200 reviews is SELL; otherwise more than 1000 reviews is
      AVOID; everything else is RISKY. */
  function CalculateVerdict(reviews: int, bsr: Option<int>): (v: Verdict)
    ensures !HasRank(bsr) ==> v == Risky
    ensures v == Sell <==> HasRank(bsr) && bsr.value < 20000 && reviews < 200
    ensures v == Avoid <==> HasRank(bsr) && reviews > 1000
    ensures 200 <= reviews <= 1000 ==> v == Risky
    ensures HasRank(bsr) && bsr.value >= 20000 && reviews <= 1000 ==> v == Risky
  {
    if bsr.None? || bsr.value == 0 then Risky
    else if bsr.value < 20000 && reviews < 200 then Sell
    else if reviews > 1000 then Avoid
    else Risky
  }

  /** The same rule with the AVOID test moved ahead of the SELL test. */
  function AvoidFirstVerdict(reviews: int, bsr: Option<int>): Verdict
  {
    if bsr.None? || bsr.value == 0 then Risky
    else if reviews > 1000 then Avoid
    else if bsr.value < 20000 && reviews < 200 then Sell
    else Risky
  }

  /** The SELL and AVOID tests demand disjoint review counts (< 200 and > 1000),
      so their order does not change any verdict. */
  lemma SellAvoidOrderIrrelevant(reviews: int, bsr: Option<int>)
    ensures CalculateVerdict(reviews, bsr) == AvoidFirstVerdict(reviews, bsr)
  {
  }

  /** The rule with the `bsr == 0` half of the no-rank test left out. (A
      missing rank must still be caught first: comparing `None` with 20000
      would raise TypeError.) */
  function WithoutZeroTest(reviews: int, bsr: Option<int>): Verdict
  {
    if bsr.None? then Risky
    else if bsr.value < 20000 && reviews < 200 then Sell
    else if reviews > 1000 then Avoid
    else Risky
  }

  /** The zero test matters exactly for a rank of 0: the rule agrees with the
      variant on every other input, and a rank of 0 that the variant would
      call SELL (fewer than 200 reviews) or AVOID (more than 1000) is RISKY. */
  lemma ZeroRankTestNeeded(reviews: int, bsr: Option<int>)
    ensures bsr != Some(0) ==> CalculateVerdict(reviews, bsr) == WithoutZeroTest(reviews, bsr)
    ensures CalculateVerdict(reviews, Some(0)) == Risky
    ensures WithoutZeroTest(reviews, Some(0)) == if reviews < 200 then Sell else if reviews > 1000 then Avoid else Risky
  {
  }

  /** The decision table, row by row. */
  lemma TruthTable()
    ensures CalculateVerdict(0, None) == Risky
    ensures CalculateVerdict(50, Some(15000)) == Sell
    ensures CalculateVerdict(1500, Some(15000)) == Avoid
    ensures CalculateVerdict(50, Some(25000)) == Risky
    ensures CalculateVerdict(199, Some(19999)) == Sell
    ensures CalculateVerdict(9999, Some(0)) == Risky
  {
  }

  /** The verdict text returned to the caller. */
  function Label(v: Verdict): string
  {
    match v
    case Sell => "\U{2705} SELL"
    case Avoid => "\U{274C} AVOID"
    case Risky => "\U{26A0}\U{FE0F} RISKY"
  }

  /** Distinct verdicts have distinct texts, so the text determines the verdict. */
  lemma LabelInjective(v: Verdict, w: Verdict)
    ensures Label(v) == Label(w) ==> v == w
  {
    if v != w {
      assert Label(v)[0] != Label(w)[0];
    }
  }
}
