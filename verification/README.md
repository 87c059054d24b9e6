# Quasar game analysis, modelled in Dafny

The repository analyses the "Quasar" betting game. A game starts at score 1.
At each step the player either banks the payout the current score earns, or
draws a random increment from 1..8 or from 4..7. A score above the ceiling
(20 by default) busts. Banking costs nothing extra, and every game costs a
fixed entry fee, so the profit at a score is its payout less that fee.

The Python core has five parts:
- a configuration that derives the least bankable score and a total profit
  table from a sparse payout table;
- the three actions and the rule that decides which are offered at a score;
- closed-form per-score statistics: bust probability, expected payout and
  expected profit;
- a Markov decision process (MDP) over the scores, an overflow state and a
  terminal state, whose transition tensor and reward matrix go to a
  value-iteration solver;
- an interactive game that turns the statistics into a suggestion.

The model is pure and functional:

| Dafny module | file | models |
|---|---|---|
| `Wrappers` | wrappers.dfy | `Option` and `Result` |
| `Series` | series.dfy | `range(lo, hi + 1)` as `Interval`, and `sum(...)` over it as `Sum` |
| `Configuration` | configuration.dfy | `core/config.py` |
| `Actions` | actions.dfy | `core/action.py` |
| `ScoreStatistics` | statistics.dfy | `core/statistics.py` |
| `Solver` | solver.dfy | `core/solver.py`: the state list, the transition tensor, the reward matrix and the returned policy map |
| `GamePlay` | game.dfy | `core/game.py`: the score setter and the suggestion rule |

Some modelling choices:
- Payouts and probabilities are `real`. Every payout of the presets and
  every probability the code computes (k/8, k/4 and their averages, such as
  7/16, the any-action bust probability at score 15) is dyadic with a small
  denominator, so Python's floats hold them exactly and exact arithmetic
  gives the same numbers on these inputs.
- Payout and profit lookups are total functions. A score missing from the
  table pays 0, as the presets' `defaultdict(int)` does. Its profit is
  `-entryCost`, as `profit_by_score`'s default does.
- A forbidden action's reward, `-inf` in the source, is the
  `Forbidden` case of a `Reward` datatype.
- A transition row is built the way the source's `+=` loop builds it: the
  mass of each increment is added in turn (`Scatter`). Each entry of the
  row is then "one share of 1/|increments| per increment landing on it".
- Where the source indexes states by position, the model does too: score
  `s` sits at position `s - 1`, overflow at `|scores|` and terminal at
  `|scores| + 1`. These are the source's `-2` and `-1`.

## Model

| member | source | states |
|---|---|---|
| Configuration.NewConfig | core/config.py:13-21 | construction fails exactly when the payout table is empty (`min` of no keys); otherwise the least bankable score is the least key of the table and the given fields are kept |
| Configuration.MinKey | core/config.py:14 | the result is a key of the table no greater than any other key |
| Configuration.LeastExists | core/config.py:14 | every non-empty finite set of scores has a least element, so `min` is defined whenever the table is non-empty |
| Configuration.Config.Payout | core/config.py:27-28 | the payout of a score is its table entry, and 0 for a score the table does not list, as `defaultdict(int)` gives |
| Configuration.Config.Profit | core/config.py:15-20 | profit is payout less entry cost at every score; at a score missing from the table it is exactly `-entryCost`, not 0 |
| Configuration.PresetConfig | core/config.py:24-66 | each preset is a valid configuration with ceiling 20, its own entry cost and payout table, and least bankable score 15, which is at most the ceiling |
| Configuration.PresetProfitIncreasing | core/config.py:24-66 | in every preset, profit strictly increases from score 15 to score 20 |
| Configuration.NormalizedProfitOrdering | core/config.py:25-38 | normalized preset: profit(20) = 1, profit(15) = -0.75, profit(1) = -1 |
| Actions.Action.Increments | core/action.py:36-38 | every increment is at least 1, so a range action always advances the score (the lists themselves are pinned down by `IncrementsAreIntervals`) |
| Actions.LabelsIdentifyActions | core/action.py:36-38 | the labels of `Action.Label` ("payout", "1-8", "4-7") differ, and so do the increment lists, so the enumeration's three values are distinct and none of its members is an alias |
| Actions.Action.Final | core/action.py:21-22 | an action is final (its increment list is empty) exactly when it is the payout |
| Actions.FinalIffPayout | core/action.py:21-38 | an action is final exactly when its increment list is empty, and the payout is the only final action |
| Actions.MinIncrement | core/action.py:45-47 | the smallest increment of a range action is one of its increments and no larger than any other |
| Actions.IncrementsAreIntervals | core/action.py:37-38 | the increments of 1-8 are exactly 1..8 and those of 4-7 exactly 4..7 |
| Actions.Available | core/action.py:41-49 | the payout is offered exactly from the least bankable score on; 1-8 exactly up to ceiling - 1; 4-7 exactly up to ceiling - 4 |
| Actions.AvailableIffSomeIncrementFits | core/action.py:41-49 | a range action is offered exactly when at least one of its increments keeps the score within the ceiling, so only the smallest increment is checked |
| Actions.AvailableShape | core/action.py:41-49 | wherever 4-7 is offered 1-8 is too, and nothing outside the three actions is offered |
| Actions.AvailableAtMaxScore | core/action.py:43-48 | at the ceiling exactly the payout is offered, provided banking is allowed there |
| Actions.AvailableNonEmpty | core/action.py:43-46 | at every score up to the ceiling some action is offered, provided banking is allowed at the ceiling |
| Actions.Apply | core/action.py:24-32 | a final action has no outcomes; a record is an outcome exactly when it lands on score + k for some increment k, with that score's payout, profit and offered actions |
| Actions.ApplyReachesEveryIncrement | core/action.py:26-31 | every increment k yields the outcome of landing on score + k |
| Actions.ApplyCount | core/action.py:24-32 | distinct increments land on distinct scores, so applying an action yields exactly as many outcomes as it has increments |
| Actions.OutcomesCount | core/action.py:26-31 | strictly increasing increments give one distinct outcome each |
| Actions.ApplyAsWritten | core/action.py:24-32 | the method returns only for a final action, with what `Apply` returns; for a range action it raises |
| Actions.ApplyAsWrittenRaises | core/action.py:24-32 | applying 1-8 at score 1 raises, although its intended outcomes include landing on score 2 |
| Series.IntervalMembership | core/solver.py:19 | k is among the scores `range(lo, hi + 1)` exactly when lo <= k <= hi |
| ScoreStatistics.BustCountIsSum | core/statistics.py:39-43 | counting the busting increments of lo..hi one by one gives the closed-form count, which lies between 0 and the range size |
| ScoreStatistics.ProfitSumIsPayoutSumLessCost | core/statistics.py:44-51 | summed over a range, profit is the summed payout less one entry cost per increment |
| ScoreStatistics.LandingSums | core/statistics.py:44-51 | summing payout or profit over the increments lo..hi from s is summing it over the landing scores s + lo..s + hi |
| ScoreStatistics.BankNow | core/statistics.py:28 | the degenerate range 0..0 has the payout and the profit of the score itself |
| ScoreStatistics.ComputeForAction | core/statistics.py:31-52 | bust probability is the number of busting increments over the range size, so it lies in [0, 1]; it is 0 when even the largest increment fits and 1 when even the smallest busts; expected payout and expected profit are the unweighted means of payout and profit over the landing scores s + lo..s + hi; expected profit is expected payout less the entry cost |
| ScoreStatistics.ComputeForScore | core/statistics.py:20-29 | 1-8 and 4-7 use their ranges; each field of "any action" is the mean of the two; the payout record has the payout and profit of the score itself and bust probability 0 within the ceiling, 1 above it |
| ScoreStatistics.NormalizedOneToEightAtNineteen | core/statistics.py:21 | normalized preset at score 19: 1-8 busts with probability 7/8, expects payout 0.25 and profit (1 + 7 * (-1)) / 8 = -0.75 |
| Solver.StateAt | core/solver.py:19-26 | every position of the N = |scores| + 2 state list is a score within 1..ceiling, the overflow state or the terminal state |
| Solver.IndexOf | core/solver.py:40-42 | every state has a position below N |
| Solver.StateIndexRoundTrip | core/solver.py:40-42 | positions and states correspond one to one, in both directions |
| Solver.ScorePosition | core/solver.py:19 | score s sits at position s - 1 |
| Solver.Target | core/solver.py:38-42 | landing on t reaches the state of score t within the ceiling and the overflow state above it |
| Solver.Scatter | core/solver.py:37-43 | adding mass p once per increment raises each entry by one share of p per increment landing on it, and the row sum by one share per increment |
| Solver.SpreadRow | core/solver.py:36-43 | the row of a range action is stochastic, and each entry holds one share of 1/|increments| per increment landing there |
| Solver.TransitionRow | core/solver.py:26-47 | every row is stochastic; a score row of an offered range action spreads the mass over the increments' targets; every other row puts all mass on terminal |
| Solver.Transitions | core/solver.py:22-48 | the tensor has one N x N matrix per action; row i of action a's matrix is `TransitionRow` of a at i, and every row of every matrix is stochastic |
| Solver.TransitionEndsGame | core/solver.py:29-32 | from a score, a final action or one not offered there puts all mass on terminal and none elsewhere |
| Solver.TransitionSpreadsMassAt | core/solver.py:36-43 | from the score at position i, an offered range action gives each state one share of 1/|increments| per increment landing on it |
| Solver.TransitionSpreadsMass | core/solver.py:36-43 | the same, stated for score s at position s - 1 |
| Solver.TransitionFromOverflowAndTerminal | core/solver.py:44-47 | from overflow and from terminal, every action leads to terminal with certainty |
| Solver.OverflowHitsAreBusts | core/solver.py:37-43 | the increments of lo..hi routed to overflow are exactly the busting ones counted by the statistics |
| Solver.OverflowShareIsBustProbability | core/statistics.py:38-43 | the overflow shares of lo..hi add up to the statistics' bust probability over lo..hi |
| Solver.OverflowMassOfRange | core/solver.py:36-43 | the overflow mass of a range action with increments lo..hi is the bust probability over lo..hi |
| Solver.OverflowMassIsBustProbability | core/solver.py:39-43 | the overflow mass of 1-8 or 4-7 from a score equals that action's bust probability in the score's statistics |
| Solver.RewardAt | core/solver.py:54-66 | an entry is forbidden exactly when the action is not offered at a score, or is a range action at overflow; the terminal row earns 0; an allowed payout earns the profit of its score, or of the score just above the ceiling at overflow |
| Solver.Rewards | core/solver.py:50-67 | the reward matrix has one row per state and one column per action, and its entry for state i and action a is `RewardAt` of i and a |
| Solver.RewardAtScore | core/solver.py:55-61 | at a score, an action is forbidden exactly when it is not offered; an offered payout earns payout less entry cost; an offered range action earns 0 |
| Solver.RewardAtOverflowAndTerminal | core/solver.py:62-66 | at overflow only the payout is allowed, and it earns the profit just above the ceiling; at terminal every action earns 0 |
| Solver.ForbiddenEndsGame | core/solver.py:29-32 | an action with a forbidden reward ends the game in the transition tensor |
| Solver.EveryStateAllowsAnAction | core/solver.py:50-67 | when banking is allowed at the ceiling, every state has an action that is not forbidden |
| Solver.Solve | core/solver.py:80-84 | the policy map's keys are exactly 1..ceiling; each value is one of the three labels, namely the label of the action the solver chose at that score's position |
| Solver.AllowedPolicyBanksAtMaxScore | core/solver.py:80-84 | a policy that never picks a forbidden action maps the ceiling to "payout" |
| GamePlay.SuggestedAction | core/game.py:31-43 | exactly one of four outcomes: payout iff banking beats the average range action; otherwise both ranges on a tie, else the range with the strictly higher expected profit |
| GamePlay.SuggestionNeverWorse | core/game.py:34-43 | a range suggestion never names the range with the lower expected profit, and the named range does at least as well as banking; a payout suggestion beats at least one range |
| GamePlay.SuggestionAtMaxScore | core/game.py:35-36 | at the ceiling, with no payout listed above it, banking is suggested exactly when the ceiling pays something |
| GamePlay.NewGame | core/game.py:10-11 | a new game keeps its configuration and has no score, statistics or suggestion yet |
| GamePlay.SetScore | core/game.py:17-21 | setting the score stores it, recomputes the statistics for it and stores the suggestion rule's choice for those statistics, which is banking exactly when the score's profit beats the average range action |
| GamePlay.SetScoreForgetsHistory | core/game.py:17-21 | the state after setting a score depends only on the configuration and that score; setting it twice is the same as once |

## Left out

- Value iteration (`mdp.ValueIteration` from `mdptoolbox`, core/solver.py:72-79) is a foreign library. Its convergence, epsilon, iteration cap and tie-breaking are not visible. `Solve` takes the solver's policy vector as a parameter. The source does not check for non-convergence.
- numpy arrays are modelled as sequences of sequences of `real`.
- The second `if action.value.final` at core/solver.py:33-35 is unreachable, because line 29 already handles final actions. `TransitionRow` has no such branch.
- Reading a missing key of a `defaultdict` inserts it. That mutation is not modelled; lookups are pure total functions.
- A configuration built from a plain `dict` raises `KeyError` when a statistic or an outcome reads a score missing from the table. The model always uses the payout default 0, as the presets do.
- `Solver.__init__` caches the offered actions per score in `available_actions_by_score`. The model calls `Available` directly, which gives the same sets.
- The policy map's `if score <= max_score` filter (core/solver.py:83) always holds for the listed scores, so `Solve` has no such test.
- ScoreStatistics.ComputeForAction: requires lo <= hi. Its only callers use 1..8, 4..7 and 0..0. With lo == hi + 1 the source divides by zero; with lo >= hi + 2 the range size is negative, every sum is empty, and all three statistics come out as -0.0.
- Hint strings, number formatting and printing (core/game.py:23-29, 45-61) are not modelled. The suggestion is the `Suggestion` datatype, not the formatted text.
- Reading `Game.score` before any score is set returns `None`, and the source then has no statistics attribute at all. The model has `None` for both.
- The console loop (main_naive_method.py) and the JSON output (main_intelligent_method.py) are not part of this model.

## Findings

| source | as written | input that shows it | evidently intended | confidence | as-written member | corrected member |
|---|---|---|---|---|---|---|
| core/action.py:24-32 | `apply` adds `ActionResult` records to a Python `set`. `ActionResult` is a non-frozen dataclass, so it has no hash, and the first `add` raises `TypeError`. Only a final action, which has no increments, returns. | `ActionEnum.ONE_TO_EIGHT.value.apply(ConfigEnum.NORMALIZED, 1)` | the set of distinct outcomes, one per increment k, for the score s + k with its payout, profit and offered actions | not executed | Actions.ApplyAsWritten, Actions.ApplyAsWrittenRaises | Actions.Apply |
