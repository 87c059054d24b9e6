/**
  Closed-form statistics of an action at a score: the probability of going
  above the ceiling, and the expected payout and profit, each an unweighted
  mean over the uniformly drawn increments lo..hi.
 */
module ScoreStatistics {
  import opened Series
  import opened Configuration

  datatype StatisticsForAction = StatisticsForAction(
    probabilityAboveMaxScore: real,
    expectedPayout: real,
    expectedProfit: real)

  /** The per-score bundle: both range actions, their average, and banking now. */
  datatype Statistics = Statistics(
    action18: StatisticsForAction,
    action47: StatisticsForAction,
    anyAction: StatisticsForAction,
    payout: StatisticsForAction)

  /** 1 for an increment k that takes score s above the ceiling, else 0. */
  function BustIndicator(c: Config, s: int): int -> real {
    k => if s + k > c.maxScore then 1.0 else 0.0
  }

  /** The payout after increment k from score s. */
  function PayoutAfter(c: Config, s: int): int -> real {
    k => c.Payout(s + k)
  }

  /** The profit after increment k from score s. */
  function ProfitAfter(c: Config, s: int): int -> real {
    k => c.Profit(s + k)
  }

  /** The payout of each landing score, as a function of the score. */
  function PayoutOf(c: Config): int -> real {
    t => c.Payout(t)
  }

  /** The profit of each landing score, as a function of the score. */
  function ProfitOf(c: Config): int -> real {
    t => c.Profit(t)
  }

  /**
    Summing over the increments lo..hi from s is summing over the landing
    scores s + lo..s + hi.
   */
  lemma LandingSums(c: Config, s: int, lo: int, hi: int)
    ensures Sum(PayoutAfter(c, s), lo, hi) == Sum(PayoutOf(c), s + lo, s + hi)
    ensures Sum(ProfitAfter(c, s), lo, hi) == Sum(ProfitOf(c), s + lo, s + hi)
  {
    SumTranslate(PayoutAfter(c, s), PayoutOf(c), s, lo, hi);
    SumTranslate(ProfitAfter(c, s), ProfitOf(c), s, lo, hi);
  }

  /** How many increments k in lo..hi take score s above the ceiling, in closed form. */
  function BustCount(c: Config, s: int, lo: int, hi: int): int
    requires lo <= hi + 1
  {
    if s + lo > c.maxScore then hi - lo + 1
    else if s + hi <= c.maxScore then 0
    else s + hi - c.maxScore
  }

  /** Counting the busting increments one by one agrees with the closed form. */
  lemma {:induction false} BustCountIsSum(c: Config, s: int, lo: int, hi: int)
    requires lo <= hi + 1
    ensures Sum(BustIndicator(c, s), lo, hi) == BustCount(c, s, lo, hi) as real
    ensures 0 <= BustCount(c, s, lo, hi) <= hi - lo + 1
    decreases hi - lo
  {
    if lo <= hi {
      BustCountIsSum(c, s, lo + 1, hi);
    }
  }

  /** Summed over a range, profit is the summed payout less one entry cost per term. */
  lemma ProfitSumIsPayoutSumLessCost(c: Config, s: int, lo: int, hi: int)
    requires lo <= hi + 1
    ensures Sum(ProfitAfter(c, s), lo, hi)
            == Sum(PayoutAfter(c, s), lo, hi) - (hi - lo + 1) as real * c.entryCost as real
  {
    forall k | lo <= k <= hi
      ensures ProfitAfter(c, s)(k) == PayoutAfter(c, s)(k) - c.entryCost as real
    {
      assert c.Profit(s + k) == c.Payout(s + k) - c.entryCost as real;
    }
    SumShift(ProfitAfter(c, s), PayoutAfter(c, s), c.entryCost as real, lo, hi);
  }

  /**
    Statistics of drawing an increment uniformly from lo..hi at score s. The
    bust probability is the share of busting increments; expected payout and
    expected profit are the unweighted means over the landing scores
    s + lo..s + hi; expected profit is expected payout less the entry cost,
    because the profit default is exactly the negated entry cost.
   */
  function ComputeForAction(c: Config, s: int, lo: int, hi: int): (r: StatisticsForAction)
    requires lo <= hi
    ensures r.probabilityAboveMaxScore == BustCount(c, s, lo, hi) as real / (hi - lo + 1) as real
    ensures 0.0 <= r.probabilityAboveMaxScore <= 1.0
    ensures s + hi <= c.maxScore ==> r.probabilityAboveMaxScore == 0.0
    ensures s + lo > c.maxScore ==> r.probabilityAboveMaxScore == 1.0
    ensures r.expectedPayout == Sum(PayoutOf(c), s + lo, s + hi) / (hi - lo + 1) as real
    ensures r.expectedProfit == Sum(ProfitOf(c), s + lo, s + hi) / (hi - lo + 1) as real
    ensures r.expectedProfit == r.expectedPayout - c.entryCost as real
  {
    var n := hi - lo + 1;
    BustCountIsSum(c, s, lo, hi);
    ProfitSumIsPayoutSumLessCost(c, s, lo, hi);
    LandingSums(c, s, lo, hi);
    var busts := Sum(BustIndicator(c, s), lo, hi);
    var payouts := Sum(PayoutAfter(c, s), lo, hi);
    var profits := Sum(ProfitAfter(c, s), lo, hi);
    FractionInUnit(BustCount(c, s, lo, hi), n);
    MeanLessCost(profits, payouts, n, c.entryCost as real);
    StatisticsForAction(busts / n as real, payouts / n as real, profits / n as real)
  }

  /** A count between 0 and n, divided by n, is a probability. */
  lemma FractionInUnit(h: int, n: int)
    requires 0 <= h <= n && n > 0
    ensures 0.0 <= h as real / n as real <= 1.0
  {
  }

  /** Subtracting d from each of n terms subtracts d from their mean. */
  lemma MeanLessCost(total: real, base: real, n: int, d: real)
    requires n > 0 && total == base - n as real * d
    ensures total / n as real == base / n as real - d
  {
  }

  /** The average of two per-action records, field by field. */
  function Average(x: StatisticsForAction, y: StatisticsForAction): StatisticsForAction {
    StatisticsForAction(
      (x.probabilityAboveMaxScore + y.probabilityAboveMaxScore) / 2.0,
      (x.expectedPayout + y.expectedPayout) / 2.0,
      (x.expectedProfit + y.expectedProfit) / 2.0)
  }

  /**
    All statistics at score s. The `payout` record is the degenerate range
    0..0: banking now, with the profit and payout of s itself.
   */
  function ComputeForScore(c: Config, s: int): (r: Statistics)
    ensures r.action18 == ComputeForAction(c, s, 1, 8)
    ensures r.action47 == ComputeForAction(c, s, 4, 7)
    ensures r.anyAction.probabilityAboveMaxScore
            == (r.action18.probabilityAboveMaxScore + r.action47.probabilityAboveMaxScore) / 2.0
    ensures r.anyAction.expectedPayout == (r.action18.expectedPayout + r.action47.expectedPayout) / 2.0
    ensures r.anyAction.expectedProfit == (r.action18.expectedProfit + r.action47.expectedProfit) / 2.0
    ensures 0.0 <= r.anyAction.probabilityAboveMaxScore <= 1.0
    ensures r.anyAction.expectedProfit == r.anyAction.expectedPayout - c.entryCost as real
    ensures r.payout.expectedPayout == c.Payout(s)
    ensures r.payout.expectedProfit == c.Profit(s)
    ensures r.payout.probabilityAboveMaxScore == if s > c.maxScore then 1.0 else 0.0
  {
    var action18 := ComputeForAction(c, s, 1, 8);
    var action47 := ComputeForAction(c, s, 4, 7);
    var payout := ComputeForAction(c, s, 0, 0);
    BankNow(c, s);
    Statistics(action18, action47, Average(action18, action47), payout)
  }

  /** The degenerate range 0..0 is banking at s itself. */
  lemma BankNow(c: Config, s: int)
    ensures ComputeForAction(c, s, 0, 0).expectedPayout == c.Payout(s)
    ensures ComputeForAction(c, s, 0, 0).expectedProfit == c.Profit(s)
  {
    var r := ComputeForAction(c, s, 0, 0);
    assert Sum(PayoutOf(c), s, s) == c.Payout(s);
    assert Sum(ProfitOf(c), s, s) == c.Profit(s);
  }

  /**
    Normalized preset at score 19: of the eight outcomes 20..27 only 20 pays
    (2, profit 1); the other seven lose the entry cost, so the expected
    profit of 1-8 is (1 + 7 * (-1)) / 8 = -0.75.
   */
  lemma NormalizedOneToEightAtNineteen()
    ensures ComputeForScore(PresetConfig(Normalized), 19).action18.expectedProfit == -0.75
    ensures ComputeForScore(PresetConfig(Normalized), 19).action18.expectedPayout == 0.25
    ensures ComputeForScore(PresetConfig(Normalized), 19).action18.probabilityAboveMaxScore == 0.875
  {
    var c := PresetConfig(Normalized);
    var f := PayoutAfter(c, 19);
    assert Sum(f, 2, 8) == 0.0 by {
      forall k | 2 <= k <= 8
        ensures f(k) == 0.0
      {
        assert 19 + k !in c.payoutByScore;
        assert f(k) == c.Payout(19 + k);
      }
      SumOfZeros(f, 2, 8);
    }
    assert f(1) == c.Payout(20) == 2.0;
    assert Sum(f, 1, 8) == f(1) + Sum(f, 2, 8);
  }
}
