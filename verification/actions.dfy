/**
  The closed set of actions: bank the payout (final), or advance by a random
  increment drawn from [1, 8] or [4, 7]; which of them are offered at a
  score; and the outcomes of applying one.
 */
module Actions {
  import opened Wrappers
  import opened Series
  import opened Configuration

  datatype Action = Payout | OneToEight | FourToSeven
  {
    function Label(): string {
      match this
      case Payout => "payout"
      case OneToEight => "1-8"
      case FourToSeven => "4-7"
    }

    /** The possible score increments, each drawn with equal probability. */
    function Increments(): (r: seq<int>)
      ensures forall i :: 0 <= i < |r| ==> r[i] >= 1
    {
      match this
      case Payout => []
      case OneToEight => [1, 2, 3, 4, 5, 6, 7, 8]
      case FourToSeven => [4, 5, 6, 7]
    }

    /** An action is final when it has no increments: it ends the game. */
    predicate Final()
      ensures Final() <==> this == Payout
    {
      |Increments()| == 0
    }
  }

  /**
    The three labels differ, so the enumeration's three values differ and
    none of its members is an alias of another.
   */
  lemma LabelsIdentifyActions(a: Action, b: Action)
    ensures a.Label() == b.Label() <==> a == b
    ensures a.Increments() == b.Increments() <==> a == b
  {
  }

  /** The actions in the enumeration's declaration order. */
  const AllActions: seq<Action> := [Payout, OneToEight, FourToSeven]

  /**
    The smallest increment of a non-final action (Python's `min(increments)`);
    each increment list is written in increasing order, so it is the first.
   */
  function MinIncrement(a: Action): (m: int)
    requires !a.Final()
    ensures m in a.Increments()
    ensures forall k :: k in a.Increments() ==> m <= k
  {
    a.Increments()[0]
  }

  /** The smallest increments are 1 for 1-8 and 4 for 4-7. */
  lemma MinIncrementValues()
    ensures MinIncrement(OneToEight) == 1
    ensures MinIncrement(FourToSeven) == 4
  {
  }

  /** The increments of each range action are exactly its interval. */
  lemma IncrementsAreIntervals()
    ensures OneToEight.Increments() == Interval(1, 8)
    ensures FourToSeven.Increments() == Interval(4, 7)
  {
    assert Interval(1, 8)[0] == 1 && Interval(4, 7)[0] == 4;
  }

  /**
    The actions offered at score s: the payout from `minScorePayout` on, and a
    range action while its smallest increment keeps the score within
    `maxScore` (larger increments of the same action may still overshoot).
   */
  function Available(c: Config, s: int): (r: set<Action>)
    ensures Payout in r <==> s >= c.minScorePayout
    ensures OneToEight in r <==> s <= c.maxScore - 1
    ensures FourToSeven in r <==> s <= c.maxScore - 4
  {
    MinIncrementValues();
    var payout: set<Action> := if s >= c.minScorePayout then {Payout} else {};
    var wide: set<Action> := if s <= c.maxScore - MinIncrement(OneToEight) then {OneToEight} else {};
    var narrow: set<Action> := if s <= c.maxScore - MinIncrement(FourToSeven) then {FourToSeven} else {};
    payout + wide + narrow
  }

  /** The final actions are exactly {Payout}. */
  lemma FinalIffPayout(a: Action)
    ensures a.Final() <==> a == Payout
  {
  }

  /**
    A range action is offered at s exactly when at least one of its
    increments keeps the score within `maxScore`; the payout exactly when s
    has reached `minScorePayout`.
   */
  lemma AvailableIffSomeIncrementFits(c: Config, s: int, a: Action)
    ensures a.Final() ==> (a in Available(c, s) <==> s >= c.minScorePayout)
    ensures !a.Final() ==>
              (a in Available(c, s) <==> exists k :: k in a.Increments() && s + k <= c.maxScore)
  {
    if !a.Final() {
      var m := MinIncrement(a);
      if a in Available(c, s) {
        assert m in a.Increments() && s + m <= c.maxScore by {
          assert a.Increments()[0] == m;
        }
      }
    }
  }

  /** Wherever 4-7 is offered, 1-8 is too; nothing else is ever offered. */
  lemma AvailableShape(c: Config, s: int)
    ensures FourToSeven in Available(c, s) ==> OneToEight in Available(c, s)
    ensures Available(c, s) <= {Payout, OneToEight, FourToSeven}
  {
  }

  /** At the score ceiling only the payout is offered. */
  lemma AvailableAtMaxScore(c: Config)
    requires c.minScorePayout <= c.maxScore
    ensures Available(c, c.maxScore) == {Payout}
  {
    var r := Available(c, c.maxScore);
    forall a | a in r
      ensures a == Payout
    {
    }
  }

  /** At every score up to the ceiling some action is offered. */
  lemma AvailableNonEmpty(c: Config, s: int)
    requires c.minScorePayout <= c.maxScore
    requires s <= c.maxScore
    ensures Available(c, s) != {}
  {
    if s < c.maxScore {
      assert OneToEight in Available(c, s);
    } else {
      assert Payout in Available(c, s);
    }
  }

  /** The outcome of landing on score t. */
  datatype ActionResult = ActionResult(score: int, payout: real, profit: real, availableActions: set<Action>)

  function ResultAt(c: Config, t: int): ActionResult {
    ActionResult(t, c.Payout(t), c.Profit(t), Available(c, t))
  }

  /**
    The distinct outcomes of applying action a at score s: one per increment
    k, for the score s + k, its payout and profit, and the actions offered
    there. A final action has no outcomes.
   */
  function Apply(a: Action, c: Config, s: int): (r: set<ActionResult>)
    ensures a.Final() ==> r == {}
    ensures forall x :: x in r <==> exists k :: k in a.Increments() && LandsOn(c, s, k, x)
  {
    OutcomesMembers(c, s, a.Increments());
    Outcomes(c, s, a.Increments())
  }

  /** The outcomes of landing on s + k for each k in incs, added one increment at a time. */
  function Outcomes(c: Config, s: int, incs: seq<int>): set<ActionResult> {
    if |incs| == 0 then {} else {ResultAt(c, s + incs[0])} + Outcomes(c, s, incs[1..])
  }

  /** x is the outcome of landing on s + k. */
  predicate LandsOn(c: Config, s: int, k: int, x: ActionResult) {
    && x.score == s + k
    && x.payout == c.Payout(s + k) && x.profit == c.Profit(s + k)
    && x.availableActions == Available(c, s + k)
  }

  /** The outcomes are exactly the landings of the increments. */
  lemma {:induction false} OutcomesMembers(c: Config, s: int, incs: seq<int>)
    ensures forall x :: x in Outcomes(c, s, incs) <==> exists k :: k in incs && LandsOn(c, s, k, x)
  {
    if |incs| > 0 {
      var rest := incs[1..];
      OutcomesMembers(c, s, rest);
      assert Outcomes(c, s, incs) == {ResultAt(c, s + incs[0])} + Outcomes(c, s, rest);
      forall x
        ensures x in Outcomes(c, s, incs) <==> exists k :: k in incs && LandsOn(c, s, k, x)
      {
        if x in Outcomes(c, s, rest) {
          var k :| k in rest && LandsOn(c, s, k, x);
          var j :| 0 <= j < |rest| && rest[j] == k;
          assert incs[j + 1] == k;
        } else if x == ResultAt(c, s + incs[0]) {
          assert LandsOn(c, s, incs[0], x);
        }
        if exists k :: k in incs && LandsOn(c, s, k, x) {
          var k :| k in incs && LandsOn(c, s, k, x);
          assert x == ResultAt(c, s + k);
          if k != incs[0] {
            var j :| 0 <= j < |incs| && incs[j] == k;
            assert j != 0 && rest[j - 1] == k;
            assert k in rest;
          }
        }
      }
    }
  }

  /** Every increment of an action yields the outcome of landing on s + k. */
  lemma ApplyReachesEveryIncrement(a: Action, c: Config, s: int, k: int)
    requires k in a.Increments()
    ensures ResultAt(c, s + k) in Apply(a, c, s)
  {
    assert LandsOn(c, s, k, ResultAt(c, s + k));
  }

  /** Outcomes of increments all above m land above s + m. */
  lemma {:induction false} OutcomesAbove(c: Config, s: int, incs: seq<int>, m: int)
    requires forall i :: 0 <= i < |incs| ==> incs[i] > m
    ensures forall x :: x in Outcomes(c, s, incs) ==> x.score > s + m
  {
    if |incs| > 0 {
      var rest := incs[1..];
      assert forall i :: 0 <= i < |rest| ==> rest[i] == incs[i + 1];
      OutcomesAbove(c, s, rest, m);
    }
  }

  /** Strictly increasing increments land on distinct scores: one outcome each. */
  lemma {:induction false} OutcomesCount(c: Config, s: int, incs: seq<int>)
    requires forall i, j :: 0 <= i < j < |incs| ==> incs[i] < incs[j]
    ensures |Outcomes(c, s, incs)| == |incs|
  {
    if |incs| > 0 {
      var rest := incs[1..];
      assert forall i :: 0 <= i < |rest| ==> rest[i] == incs[i + 1];
      OutcomesCount(c, s, rest);
      OutcomesAbove(c, s, rest, incs[0]);
      assert ResultAt(c, s + incs[0]) !in Outcomes(c, s, rest);
    }
  }

  /**
    Distinct increments land on distinct scores, so applying an action has
    exactly as many outcomes as the action has increments.
   */
  lemma ApplyCount(a: Action, c: Config, s: int)
    ensures |Apply(a, c, s)| == |a.Increments()|
  {
    IncrementsAreIntervals();
    OutcomesCount(c, s, a.Increments());
  }

  /** What `Action.apply` raises instead of returning. */
  datatype PythonError = UnhashableResult

  /**
    `Action.apply` as written: adding the first outcome to a Python set fails,
    because the outcome record is a mutable dataclass holding a set and so has
    no hash. Only a final action (no increments) returns, with the empty set.
   */
  function ApplyAsWritten(a: Action, c: Config, s: int): (r: Result<set<ActionResult>, PythonError>)
    ensures r.Success? <==> a.Final()
    ensures r.Success? ==> r.value == Apply(a, c, s)
  {
    if |a.Increments()| == 0 then Success({}) else Failure(UnhashableResult)
  }

  /**
    The discrepancy: applying 1-8 at score 1 raises, while its intended
    outcomes include landing on score 2.
   */
  lemma ApplyAsWrittenRaises(c: Config)
    ensures ApplyAsWritten(OneToEight, c, 1).Failure?
    ensures ResultAt(c, 2) in Apply(OneToEight, c, 1)
  {
    ApplyReachesEveryIncrement(OneToEight, c, 1, 1);
  }
}
