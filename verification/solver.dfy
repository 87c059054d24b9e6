/**
  The game as a Markov decision process: the ordered state list (scores
  1..maxScore, then overflow, then terminal), one transition matrix per
  action, the state-by-action reward matrix, and the score-to-label policy
  map read off the solver's result.
 */
module Solver {
  import opened Series
  import opened Configuration
  import opened Actions
  import opened ScoreStatistics

  /** The first score of a game. */
  const InitialScore: int := 1

  /** The scores that are states of their own: 1..maxScore. */
  function Scores(c: Config): seq<int> {
    Interval(InitialScore, c.maxScore)
  }

  /** Number of states: one per score, then overflow, then terminal. */
  function NumStates(c: Config): nat {
    |Scores(c)| + 2
  }

  function OverflowIndex(c: Config): nat {
    |Scores(c)|
  }

  function TerminalIndex(c: Config): nat {
    |Scores(c)| + 1
  }

  /** A state of the process: a score within the ceiling, any score above it, or the end of the game. */
  datatype State = ScoreState(score: int) | Overflow | Terminal

  predicate IsState(c: Config, st: State) {
    st.ScoreState? ==> 1 <= st.score <= c.maxScore
  }

  /** The state at position i of the state list. */
  function StateAt(c: Config, i: nat): (st: State)
    requires i < NumStates(c)
    ensures IsState(c, st)
  {
    if i < |Scores(c)| then ScoreState(Scores(c)[i])
    else if i == OverflowIndex(c) then Overflow
    else Terminal
  }

  /** The position of a state in the state list (`scores.index`, -2 and -1 in core/solver.py). */
  function IndexOf(c: Config, st: State): (i: nat)
    requires IsState(c, st)
    ensures i < NumStates(c)
  {
    match st
    case ScoreState(s) => s - InitialScore
    case Overflow => OverflowIndex(c)
    case Terminal => TerminalIndex(c)
  }

  /** Positions and states are in one-to-one correspondence. */
  lemma StateIndexRoundTrip(c: Config, i: nat, st: State)
    ensures i < NumStates(c) ==> IndexOf(c, StateAt(c, i)) == i
    ensures IsState(c, st) ==> StateAt(c, IndexOf(c, st)) == st
  {
  }

  /* ---------------------------------------------------------------- rows */

  function Zeros(n: nat): (r: seq<real>)
    ensures |r| == n
    ensures forall j :: 0 <= j < n ==> r[j] == 0.0
  {
    seq(n, _ => 0.0)
  }

  /** The total probability mass of a row. */
  function RowSum(row: seq<real>): real {
    if |row| == 0 then 0.0 else row[0] + RowSum(row[1..])
  }

  /** Overwriting one entry changes the row sum by the difference. */
  lemma {:induction false} RowSumUpdate(row: seq<real>, j: nat, v: real)
    requires j < |row|
    ensures RowSum(row[j := v]) == RowSum(row) - row[j] + v
  {
    if j > 0 {
      assert row[j := v][1..] == row[1..][j - 1 := v];
      RowSumUpdate(row[1..], j - 1, v);
    } else {
      assert row[j := v][1..] == row[1..];
    }
  }

  lemma {:induction false} RowSumZeros(n: nat)
    ensures RowSum(Zeros(n)) == 0.0
  {
    if n > 0 {
      assert Zeros(n)[1..] == Zeros(n - 1);
      RowSumZeros(n - 1);
    }
  }

  /** The row with all mass on position j. */
  function Unit(n: nat, j: nat): (r: seq<real>)
    requires j < n
    ensures |r| == n
    ensures r[j] == 1.0 && forall k :: 0 <= k < n && k != j ==> r[k] == 0.0
    ensures RowSum(r) == 1.0
  {
    RowSumZeros(n);
    RowSumUpdate(Zeros(n), j, 1.0);
    Zeros(n)[j := 1.0]
  }

  /** Every entry is a probability and the entries sum to exactly 1. */
  predicate Stochastic(row: seq<real>) {
    && (forall j :: 0 <= j < |row| ==> 0.0 <= row[j] <= 1.0)
    && RowSum(row) == 1.0
  }

  /* --------------------------------------------------------- transitions */

  /**
    The state reached on landing at score t: the score's own state while t
    is within the ceiling, the overflow state above it.
   */
  function Target(c: Config, t: int): (i: nat)
    requires t >= InitialScore
    ensures i <= OverflowIndex(c)
    ensures StateAt(c, i) == if t > c.maxScore then Overflow else ScoreState(t)
  {
    if t > c.maxScore then OverflowIndex(c) else IndexOf(c, ScoreState(t))
  }

  /** Every increment leads from s to a score of at least 1. */
  predicate Landable(s: int, incs: seq<int>) {
    forall i :: 0 <= i < |incs| ==> s + incs[i] >= InitialScore
  }

  lemma LandableTail(s: int, incs: seq<int>)
    requires |incs| > 0 && Landable(s, incs)
    ensures Landable(s, incs[1..])
  {
    forall i | 0 <= i < |incs| - 1
      ensures s + incs[1..][i] >= InitialScore
    {
      assert incs[1..][i] == incs[i + 1];
    }
  }

  /** How many of the increments lead from s to state j. */
  function Hits(c: Config, s: int, incs: seq<int>, j: nat): (h: nat)
    requires Landable(s, incs)
    ensures h <= |incs|
  {
    if |incs| == 0 then 0
    else (if Target(c, s + incs[0]) == j then 1 else 0) + Hits(c, s, incs[1..], j)
  }

  /** h shares of mass p, added one at a time. */
  function Share(h: nat, p: real): real {
    if h == 0 then 0.0 else p + Share(h - 1, p)
  }

  /** h shares of p make h * p. */
  lemma {:induction false} ShareIsProduct(h: nat, p: real)
    ensures Share(h, p) == h as real * p
  {
    if h > 0 {
      ShareIsProduct(h - 1, p);
      assert h as real * p == p + (h - 1) as real * p;
    }
  }

  /**
    Adds mass p to the target of s + k for each increment k in turn, as the
    `+=` loop of core/solver.py does. Each entry gains one share per increment landing
    on it, so the row sum grows by one share per increment.
   */
  function Scatter(c: Config, s: int, incs: seq<int>, p: real, row: seq<real>): (r: seq<real>)
    requires |row| == NumStates(c)
    requires Landable(s, incs)
    ensures |r| == |row|
    ensures RowSum(r) == RowSum(row) + Share(|incs|, p)
    ensures forall j :: 0 <= j < |r| ==> r[j] == row[j] + Share(Hits(c, s, incs, j), p)
    decreases |incs|
  {
    if |incs| == 0 then row
    else
      var t := Target(c, s + incs[0]);
      var next := row[t := row[t] + p];
      var rest := incs[1..];
      LandableTail(s, incs);
      RowSumUpdate(row, t, row[t] + p);
      Scatter(c, s, rest, p, next)
  }

  /** Scattered onto an empty row, each entry holds one share per increment landing on it. */
  lemma ScatterFromZeros(c: Config, s: int, incs: seq<int>, p: real)
    requires Landable(s, incs)
    ensures forall j :: 0 <= j < NumStates(c) ==>
              Scatter(c, s, incs, p, Zeros(NumStates(c)))[j] == Share(Hits(c, s, incs, j), p)
  {
  }

  /** h shares of 1 / n make h / n. */
  lemma ShareIsFraction(h: nat, n: nat)
    requires n > 0
    ensures Share(h, 1.0 / n as real) == h as real / n as real
  {
    ShareIsProduct(h, 1.0 / n as real);
  }

  /** A share of h out of n equal parts of 1 / n lies in [0, 1]; all n parts make 1. */
  lemma FractionBounds(h: nat, n: nat)
    requires 0 < n && h <= n
    ensures 0.0 <= Share(h, 1.0 / n as real) <= 1.0
    ensures Share(n, 1.0 / n as real) == 1.0
  {
    ShareIsProduct(h, 1.0 / n as real);
    ShareIsProduct(n, 1.0 / n as real);
    assert h as real * (1.0 / n as real) == h as real / n as real;
  }

  /** The score a score-state position stands for. */
  function ScoreAtIndex(c: Config, i: nat): int
    requires i < |Scores(c)|
  {
    Scores(c)[i]
  }

  /**
    The row of a range action from score s: one share of 1 / |incs| per
    increment, on the state each increment lands on.
   */
  function SpreadRow(c: Config, s: int, incs: seq<int>): (row: seq<real>)
    requires |incs| > 0 && Landable(s, incs)
    ensures |row| == NumStates(c)
    ensures Stochastic(row)
    ensures forall j :: 0 <= j < |row| ==> row[j] == Share(Hits(c, s, incs, j), 1.0 / |incs| as real)
  {
    var n := NumStates(c);
    var p := 1.0 / |incs| as real;
    RowSumZeros(n);
    var row := Scatter(c, s, incs, p, Zeros(n));
    ScatterFromZeros(c, s, incs, p);
    forall j | 0 <= j < n
      ensures 0.0 <= row[j] <= 1.0
    {
      FractionBounds(Hits(c, s, incs, j), |incs|);
    }
    FractionBounds(0, |incs|);
    row
  }

  /**
    Row i of action a's transition matrix. From a score where a is final or
    not offered, the game ends; otherwise each increment carries an equal
    share of the mass to its target. Overflow and terminal lead to terminal.
   */
  function TransitionRow(c: Config, a: Action, i: nat): (row: seq<real>)
    requires i < NumStates(c)
    ensures |row| == NumStates(c)
    ensures Stochastic(row)
    ensures i < |Scores(c)| && !a.Final() && a in Available(c, ScoreAtIndex(c, i)) ==>
              forall j :: 0 <= j < |row| ==>
                row[j] == Share(Hits(c, ScoreAtIndex(c, i), a.Increments(), j), 1.0 / |a.Increments()| as real)
    ensures !(i < |Scores(c)| && !a.Final() && a in Available(c, ScoreAtIndex(c, i))) ==>
              row == Unit(NumStates(c), TerminalIndex(c))
  {
    if i < |Scores(c)| then
      var s := ScoreAtIndex(c, i);
      if a.Final() || a !in Available(c, s) then
        Unit(NumStates(c), TerminalIndex(c))
      else
        SpreadRow(c, s, a.Increments())
    else
      Unit(NumStates(c), TerminalIndex(c))
  }

  /** The transition tensor: one N x N matrix per action, in enumeration order. */
  function Transitions(c: Config): (t: seq<seq<seq<real>>>)
    ensures |t| == |AllActions|
    ensures forall ai :: 0 <= ai < |t| ==> |t[ai]| == NumStates(c)
    ensures forall ai, i :: 0 <= ai < |t| && 0 <= i < NumStates(c) ==> Stochastic(t[ai][i])
    ensures forall ai, i :: 0 <= ai < |t| && 0 <= i < NumStates(c) ==> |t[ai][i]| == NumStates(c)
    ensures forall ai, i :: 0 <= ai < |t| && 0 <= i < NumStates(c) ==> t[ai][i] == TransitionRow(c, AllActions[ai], i)
  {
    seq(|AllActions|, ai requires 0 <= ai < |AllActions| =>
      seq(NumStates(c), i requires 0 <= i < NumStates(c) => TransitionRow(c, AllActions[ai], i)))
  }

  /** Score s sits at position s - 1 of the state list. */
  lemma ScorePosition(c: Config, s: int)
    requires 1 <= s <= c.maxScore
    ensures IndexOf(c, ScoreState(s)) == s - 1
    ensures ScoreAtIndex(c, s - 1) == s
  {
  }

  /**
    From score s (at position s - 1), a final action or one not offered at s
    puts all mass on the terminal state.
   */
  lemma TransitionEndsGame(c: Config, a: Action, s: int)
    requires 1 <= s <= c.maxScore
    requires a.Final() || a !in Available(c, s)
    ensures TransitionRow(c, a, s - 1) == Unit(NumStates(c), TerminalIndex(c))
  {
    ScorePosition(c, s);
  }

  /** Row i of an offered range action, entry by entry. */
  lemma TransitionSpreadsMassAt(c: Config, a: Action, i: nat, j: nat)
    requires i < |Scores(c)|
    requires !a.Final() && a in Available(c, ScoreAtIndex(c, i))
    requires j < NumStates(c)
    ensures TransitionRow(c, a, i)[j]
            == Share(Hits(c, ScoreAtIndex(c, i), a.Increments(), j), 1.0 / |a.Increments()| as real)
  {
  }

  /**
    From score s (at position s - 1), a range action offered there gives each state j one share
    of 1 / |increments| per increment landing on j; landing above the
    ceiling means the overflow state (see `Target`).
   */
  lemma TransitionSpreadsMass(c: Config, a: Action, s: int, j: nat)
    requires 1 <= s <= c.maxScore
    requires !a.Final() && a in Available(c, s)
    requires j < NumStates(c)
    ensures TransitionRow(c, a, s - 1)[j]
            == Share(Hits(c, s, a.Increments(), j), 1.0 / |a.Increments()| as real)
  {
    ScorePosition(c, s);
    TransitionSpreadsMassAt(c, a, s - 1, j);
  }

  /** From overflow and from terminal every action leads to terminal with certainty. */
  lemma TransitionFromOverflowAndTerminal(c: Config, a: Action)
    ensures TransitionRow(c, a, OverflowIndex(c)) == Unit(NumStates(c), TerminalIndex(c))
    ensures TransitionRow(c, a, TerminalIndex(c)) == Unit(NumStates(c), TerminalIndex(c))
  {
  }

  /** Increments lo..hi that reach overflow from s are exactly those that bust. */
  lemma {:induction false} OverflowHitsAreBusts(c: Config, s: int, lo: int, hi: int)
    requires s >= 1 && lo >= 1
    ensures Landable(s, Interval(lo, hi))
    ensures Hits(c, s, Interval(lo, hi), OverflowIndex(c)) as real == Sum(BustIndicator(c, s), lo, hi)
    decreases hi - lo
  {
    var incs := Interval(lo, hi);
    if lo <= hi {
      assert incs[1..] == Interval(lo + 1, hi);
      OverflowHitsAreBusts(c, s, lo + 1, hi);
      assert (Target(c, s + lo) == OverflowIndex(c)) == (s + lo > c.maxScore);
    }
  }

  /** The overflow shares of increments lo..hi from s add up to the bust probability over lo..hi. */
  lemma OverflowShareIsBustProbability(c: Config, s: int, lo: int, hi: int)
    requires 1 <= s && 1 <= lo <= hi
    ensures Landable(s, Interval(lo, hi))
    ensures Share(Hits(c, s, Interval(lo, hi), OverflowIndex(c)), 1.0 / (hi - lo + 1) as real)
            == ComputeForAction(c, s, lo, hi).probabilityAboveMaxScore
  {
    OverflowHitsAreBusts(c, s, lo, hi);
    BustCountIsSum(c, s, lo, hi);
    var h := Hits(c, s, Interval(lo, hi), OverflowIndex(c));
    assert h == BustCount(c, s, lo, hi);
    ShareIsFraction(h, hi - lo + 1);
  }

  /**
    For a range action whose increments are lo..hi, the mass it sends from
    score s to overflow is the statistics' bust probability over lo..hi.
   */
  lemma OverflowMassOfRange(c: Config, a: Action, s: int, lo: int, hi: int)
    requires 1 <= s <= c.maxScore
    requires !a.Final() && a in Available(c, s)
    requires 1 <= lo <= hi && a.Increments() == Interval(lo, hi)
    ensures TransitionRow(c, a, s - 1)[OverflowIndex(c)]
            == ComputeForAction(c, s, lo, hi).probabilityAboveMaxScore
  {
    TransitionSpreadsMass(c, a, s, OverflowIndex(c));
    OverflowShareIsBustProbability(c, s, lo, hi);
  }

  /**
    From score s, the mass an offered range action sends to overflow is the
    bust probability the statistics give for the same increment range.
   */
  lemma OverflowMassIsBustProbability(c: Config, a: Action, s: int)
    requires 1 <= s <= c.maxScore
    requires !a.Final() && a in Available(c, s)
    ensures a == OneToEight ==>
              TransitionRow(c, a, s - 1)[OverflowIndex(c)]
              == ComputeForScore(c, s).action18.probabilityAboveMaxScore
    ensures a == FourToSeven ==>
              TransitionRow(c, a, s - 1)[OverflowIndex(c)]
              == ComputeForScore(c, s).action47.probabilityAboveMaxScore
  {
    IncrementsAreIntervals();
    if a == OneToEight {
      OverflowMassOfRange(c, a, s, 1, 8);
    } else {
      OverflowMassOfRange(c, a, s, 4, 7);
    }
  }

  /* ------------------------------------------------------------- rewards */

  /** The reward of taking an action in a state; a forbidden action is never chosen. */
  datatype Reward = Forbidden | Finite(value: real)

  /**
    The reward of action a in state i: at a score, forbidden when a is not
    offered, 0 for an offered range action, the profit there for the payout;
    at overflow, the profit just above the ceiling for the payout and
    forbidden otherwise; at terminal, 0.
   */
  function RewardAt(c: Config, i: nat, a: Action): (r: Reward)
    requires i < NumStates(c)
    ensures r.Forbidden? <==>
              || (i < |Scores(c)| && a !in Available(c, ScoreAtIndex(c, i)))
              || (i == OverflowIndex(c) && !a.Final())
    ensures i == TerminalIndex(c) ==> r == Finite(0.0)
    ensures r.Finite? && a.Final() && i <= OverflowIndex(c) ==>
              r.value == c.Profit(if i < |Scores(c)| then ScoreAtIndex(c, i) else c.maxScore + 1)
  {
    if i < |Scores(c)| then
      var s := ScoreAtIndex(c, i);
      if a !in Available(c, s) then Forbidden
      else if !a.Final() then Finite(0.0)
      else Finite(c.Profit(s))
    else if i == OverflowIndex(c) then
      if a.Final() then Finite(c.Profit(c.maxScore + 1)) else Forbidden
    else
      Finite(0.0)
  }

  /** The reward matrix: one row per state, one column per action in enumeration order. */
  function Rewards(c: Config): (r: seq<seq<Reward>>)
    ensures |r| == NumStates(c)
    ensures forall i :: 0 <= i < |r| ==> |r[i]| == |AllActions|
    ensures forall i, ai :: 0 <= i < |r| && 0 <= ai < |AllActions| ==> r[i][ai] == RewardAt(c, i, AllActions[ai])
  {
    seq(NumStates(c), i requires 0 <= i < NumStates(c) =>
      seq(|AllActions|, ai requires 0 <= ai < |AllActions| => RewardAt(c, i, AllActions[ai])))
  }

  /**
    At a score, an action is forbidden exactly when it is not offered; the
    offered payout earns the profit of that score and an offered range
    action earns nothing yet.
   */
  lemma RewardAtScore(c: Config, s: int, a: Action)
    requires 1 <= s <= c.maxScore
    ensures RewardAt(c, IndexOf(c, ScoreState(s)), a).Forbidden? <==> a !in Available(c, s)
    ensures a in Available(c, s) && a.Final() ==>
              RewardAt(c, IndexOf(c, ScoreState(s)), a) == Finite(c.Payout(s) - c.entryCost as real)
    ensures a in Available(c, s) && !a.Final() ==> RewardAt(c, IndexOf(c, ScoreState(s)), a) == Finite(0.0)
  {
    assert ScoreAtIndex(c, s - 1) == s;
  }

  /**
    At overflow only the payout is allowed, earning the profit of the score
    just above the ceiling; at terminal nothing is forbidden and nothing is earned.
   */
  lemma RewardAtOverflowAndTerminal(c: Config, a: Action)
    ensures RewardAt(c, OverflowIndex(c), a).Forbidden? <==> a != Payout
    ensures a == Payout ==> RewardAt(c, OverflowIndex(c), a) == Finite(c.Profit(c.maxScore + 1))
    ensures RewardAt(c, TerminalIndex(c), a) == Finite(0.0)
  {
  }

  /** A forbidden action, if it were taken, would end the game at once. */
  lemma ForbiddenEndsGame(c: Config, i: nat, a: Action)
    requires i < NumStates(c)
    requires RewardAt(c, i, a).Forbidden?
    ensures TransitionRow(c, a, i) == Unit(NumStates(c), TerminalIndex(c))
  {
    if i < |Scores(c)| {
      TransitionEndsGame(c, a, ScoreAtIndex(c, i));
    }
  }

  /** When banking is allowed somewhere within the ceiling, every state allows some action. */
  lemma EveryStateAllowsAnAction(c: Config, i: nat)
    requires c.minScorePayout <= c.maxScore
    requires i < NumStates(c)
    ensures exists a :: a in AllActions && !RewardAt(c, i, a).Forbidden?
  {
    if i < |Scores(c)| {
      var s := ScoreAtIndex(c, i);
      AvailableNonEmpty(c, s);
      if s < c.maxScore {
        assert !RewardAt(c, i, OneToEight).Forbidden?;
      } else {
        assert !RewardAt(c, i, Payout).Forbidden?;
      }
    } else {
      assert !RewardAt(c, i, Payout).Forbidden?;
    }
  }

  /* -------------------------------------------------------------- policy */

  /**
    The policy map `solve` returns: for every score state, the label of the
    action at the index the value iteration chose for it. The value
    iteration is not modelled; its policy vector is a parameter.
   */
  function Solve(c: Config, policy: seq<nat>): (r: map<int, string>)
    requires |policy| == NumStates(c)
    requires forall i :: 0 <= i < |policy| ==> policy[i] < |AllActions|
    ensures forall s :: s in r <==> 1 <= s <= c.maxScore
    ensures forall s :: s in r ==> r[s] in {"payout", "1-8", "4-7"}
    ensures forall s :: 1 <= s <= c.maxScore ==> r[s] == AllActions[policy[s - 1]].Label()
  {
    var scores := Scores(c);
    forall s
      ensures s in scores <==> 1 <= s <= c.maxScore
    {
      IntervalMembership(InitialScore, c.maxScore, s);
    }
    map s | s in scores :: AllActions[policy[s - 1]].Label()
  }

  /**
    A policy that never picks a forbidden action banks at the ceiling,
    because the payout is the only action offered there.
   */
  lemma AllowedPolicyBanksAtMaxScore(c: Config, policy: seq<nat>)
    requires 1 <= c.minScorePayout <= c.maxScore
    requires |policy| == NumStates(c)
    requires forall i :: 0 <= i < |policy| ==> policy[i] < |AllActions|
    requires forall i :: 0 <= i < |policy| ==> !RewardAt(c, i, AllActions[policy[i]]).Forbidden?
    ensures Solve(c, policy)[c.maxScore] == "payout"
  {
    var i := IndexOf(c, ScoreState(c.maxScore));
    AvailableAtMaxScore(c);
    RewardAtScore(c, c.maxScore, AllActions[policy[i]]);
  }
}
