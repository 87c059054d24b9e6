/**
  A game in progress: the configuration, the current score once one is set,
  and the statistics and suggestion recomputed from that score.
 */
module GamePlay {
  import opened Wrappers
  import opened Series
  import opened Configuration
  import opened ScoreStatistics

  /** The four possible suggestions; the formatted text around them is not modelled. */
  datatype Suggestion = TakePayout | EitherRange | RangeOneToEight | RangeFourToSeven

  /**
    The suggestion rule: bank when banking beats the average range action;
    otherwise name the range action with the higher expected profit, or both
    on a tie.
   */
  function SuggestedAction(st: Statistics): (r: Suggestion)
    ensures r == TakePayout <==> st.payout.expectedProfit > st.anyAction.expectedProfit
    ensures r == EitherRange <==>
              && st.payout.expectedProfit <= st.anyAction.expectedProfit
              && st.action18.expectedProfit == st.action47.expectedProfit
    ensures r == RangeOneToEight <==>
              && st.payout.expectedProfit <= st.anyAction.expectedProfit
              && st.action18.expectedProfit > st.action47.expectedProfit
    ensures r == RangeFourToSeven <==>
              && st.payout.expectedProfit <= st.anyAction.expectedProfit
              && st.action18.expectedProfit < st.action47.expectedProfit
  {
    if st.payout.expectedProfit > st.anyAction.expectedProfit then TakePayout
    else if st.action18.expectedProfit == st.action47.expectedProfit then EitherRange
    else if st.action18.expectedProfit > st.action47.expectedProfit then RangeOneToEight
    else RangeFourToSeven
  }

  /**
    A range suggestion never names the range action with the lower expected
    profit, and, when the average is the mean of the two ranges (as the
    statistics of every score make it), the suggested range does at least
    as well as banking.
   */
  lemma SuggestionNeverWorse(st: Statistics)
    requires st.anyAction.expectedProfit == (st.action18.expectedProfit + st.action47.expectedProfit) / 2.0
    ensures SuggestedAction(st) == RangeOneToEight ==>
              && st.action18.expectedProfit > st.action47.expectedProfit
              && st.action18.expectedProfit >= st.payout.expectedProfit
    ensures SuggestedAction(st) == RangeFourToSeven ==>
              && st.action47.expectedProfit > st.action18.expectedProfit
              && st.action47.expectedProfit >= st.payout.expectedProfit
    ensures SuggestedAction(st) == EitherRange ==>
              && st.action18.expectedProfit == st.action47.expectedProfit
              && st.action18.expectedProfit >= st.payout.expectedProfit
    ensures SuggestedAction(st) == TakePayout ==>
              (st.payout.expectedProfit > st.action18.expectedProfit
               || st.payout.expectedProfit > st.action47.expectedProfit)
  {
  }

  /**
    At the score ceiling every range outcome overshoots and, when the table
    lists no score above the ceiling, pays nothing; so banking is suggested
    exactly when the ceiling itself pays something.
   */
  lemma SuggestionAtMaxScore(c: Config)
    requires forall k :: k in c.payoutByScore ==> k <= c.maxScore
    ensures SuggestedAction(ComputeForScore(c, c.maxScore)) == TakePayout <==> c.Payout(c.maxScore) > 0.0
  {
    var s := c.maxScore;
    var f := PayoutAfter(c, s);
    forall k | 1 <= k
      ensures f(k) == 0.0
    {
      assert s + k !in c.payoutByScore;
      assert f(k) == c.Payout(s + k);
    }
    SumOfZeros(f, 1, 8);
    SumOfZeros(f, 4, 7);
    var st := ComputeForScore(c, s);
    assert st.action18.expectedProfit == -(c.entryCost as real);
    assert st.action47.expectedProfit == -(c.entryCost as real);
  }

  /**
    A game: its configuration and, once a score has been set, that score with
    the statistics and the suggestion computed from it.
   */
  datatype Game = Game(
    config: Config,
    score: Option<int>,
    statistics: Option<Statistics>,
    suggestion: Option<Suggestion>)

  /** A new game has no score yet, and so neither statistics nor a suggestion. */
  function NewGame(c: Config): (g: Game)
    ensures g.config == c
    ensures g.score.None? && g.statistics.None? && g.suggestion.None?
  {
    Game(c, None, None, None)
  }

  /**
    Setting the score to v recomputes the statistics for v under the game's
    configuration, and the suggestion from them; the configuration is kept.
   */
  function SetScore(g: Game, v: int): (r: Game)
    ensures r.config == g.config && r.score == Some(v)
    ensures r.statistics == Some(ComputeForScore(g.config, v))
    ensures r.suggestion == Some(SuggestedAction(r.statistics.value))
    ensures r.suggestion.value == TakePayout <==>
              g.config.Profit(v) > r.statistics.value.anyAction.expectedProfit
  {
    var st := ComputeForScore(g.config, v);
    Game(g.config, Some(v), Some(st), Some(SuggestedAction(st)))
  }

  /**
    The state after setting a score depends on the configuration and that
    score alone: neither earlier scores nor setting it twice change it.
   */
  lemma SetScoreForgetsHistory(g: Game, h: Game, u: int, v: int)
    requires g.config == h.config
    ensures SetScore(SetScore(g, u), v) == SetScore(h, v)
    ensures SetScore(SetScore(g, v), v) == SetScore(g, v)
  {
  }
}
