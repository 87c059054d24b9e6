/**
  The economics of one game: entry cost, a sparse payout table, the score
  ceiling, and the two values derived from them at construction time (the
  least score at which banking is allowed, and the total profit function).
 */
module Configuration {
  import opened Wrappers

  /** Construction fails only when the payout table has no key to take the minimum of. */
  datatype ConfigError = EmptyPayoutTable

  /** m is the least element of keys. */
  predicate IsLeast(m: int, keys: set<int>) {
    m in keys && forall k :: k in keys ==> m <= k
  }

  /**
    A game configuration. `minScorePayout` is derived; `Valid` says it agrees
    with the payout table, as every configuration built by `NewConfig` does.
   */
  datatype Config = Config(entryCost: int, payoutByScore: map<int, real>, maxScore: int, minScorePayout: int)
  {
    ghost predicate Valid() {
      payoutByScore.Keys != {} && IsLeast(minScorePayout, payoutByScore.Keys)
    }

    /** Payout of banking at score s; scores missing from the table pay 0. */
    function Payout(s: int): (p: real)
      ensures s in payoutByScore ==> p == payoutByScore[s]
      ensures s !in payoutByScore ==> p == 0.0
    {
      if s in payoutByScore then payoutByScore[s] else 0.0
    }

    /**
      Profit of banking at score s: built from the table entries alone, with
      the default `-entryCost` for every score the table does not list.
     */
    function Profit(s: int): (p: real)
      ensures p == Payout(s) - entryCost as real
      ensures s !in payoutByScore ==> p == -(entryCost as real)
    {
      if s in payoutByScore then payoutByScore[s] - entryCost as real else -(entryCost as real)
    }
  }

  /** A set is either empty or has a member. */
  lemma EmptyOrInhabited(s: set<int>)
    ensures s == {} || exists x :: x in s
  {
    if forall x :: x !in s {
      assert s == {};
    }
  }

  /** A non-empty finite set of integers has a least element. */
  lemma {:induction false} LeastExists(keys: set<int>)
    requires keys != {}
    ensures exists m :: IsLeast(m, keys)
    decreases |keys|
  {
    EmptyOrInhabited(keys);
    var x :| x in keys;
    var rest := keys - {x};
    if rest == {} {
      assert keys == {x};
      assert IsLeast(x, keys);
    } else {
      LeastExists(rest);
      var m :| IsLeast(m, rest);
      forall k | k in keys
        ensures Min(x, m) <= k
      {
        if k != x {
          assert k in rest;
        }
      }
      assert IsLeast(Min(x, m), keys);
    }
  }

  /** The smaller of two integers. */
  function Min(a: int, b: int): int {
    if a < b then a else b
  }

  /** The least key of a non-empty set (Python's `min(d.keys())`). */
  function MinKey(keys: set<int>): (m: int)
    requires keys != {}
    ensures IsLeast(m, keys)
  {
    LeastExists(keys);
    var m :| IsLeast(m, keys); m
  }

  /** Default score ceiling of a configuration. */
  const DefaultMaxScore: int := 20

  /**
    Builds a configuration, deriving `minScorePayout` from the table; an
    empty table has no minimum and fails.
   */
  function NewConfig(entryCost: int, payoutByScore: map<int, real>, maxScore: int := DefaultMaxScore)
    : (r: Result<Config, ConfigError>)
    ensures r.Failure? <==> payoutByScore.Keys == {}
    ensures r.Failure? ==> r.error == EmptyPayoutTable
    ensures r.Success? ==>
              && r.value.Valid()
              && r.value.entryCost == entryCost
              && r.value.payoutByScore == payoutByScore
              && r.value.maxScore == maxScore
  {
    if payoutByScore.Keys == {} then
      Failure(EmptyPayoutTable)
    else
      Success(Config(entryCost, payoutByScore, maxScore, MinKey(payoutByScore.Keys)))
  }

  /** The three named presets. */
  datatype Preset = Normalized | LowStakes | HighStakes

  function PresetEntryCost(p: Preset): int {
    match p
    case Normalized => 1
    case LowStakes => 20
    case HighStakes => 200
  }

  /** Payouts at scores 15..20; every other score pays 0. */
  function PresetPayouts(p: Preset): map<int, real> {
    match p
    case Normalized => map[15 := 0.25, 16 := 0.5, 17 := 1.0, 18 := 1.25, 19 := 1.5, 20 := 2.0]
    case LowStakes => map[15 := 5.0, 16 := 10.0, 17 := 20.0, 18 := 25.0, 19 := 30.0, 20 := 40.0]
    case HighStakes => map[15 := 50.0, 16 := 100.0, 17 := 200.0, 18 := 250.0, 19 := 300.0, 20 := 400.0]
  }

  /** The preset's configuration, built with the default score ceiling. */
  function PresetConfig(p: Preset): (c: Config)
    ensures c.Valid()
    ensures c.entryCost == PresetEntryCost(p) && c.payoutByScore == PresetPayouts(p)
    ensures c.maxScore == 20
    ensures c.minScorePayout == 15 <= c.maxScore
  {
    var table := PresetPayouts(p);
    assert 15 in table;
    var r := NewConfig(PresetEntryCost(p), table);
    assert forall k :: k in table.Keys ==> 15 <= k;
    r.value
  }

  /** In every preset, profit strictly increases from score 15 to score 20. */
  lemma PresetProfitIncreasing(p: Preset, s: int, t: int)
    requires 15 <= s < t <= 20
    ensures PresetConfig(p).Profit(s) < PresetConfig(p).Profit(t)
  {
  }

  /** In the normalized preset, profit(20) = 1 > profit(15) = -0.75 > profit(1) = -1. */
  lemma NormalizedProfitOrdering()
    ensures PresetConfig(Normalized).Profit(20) == 1.0
    ensures PresetConfig(Normalized).Profit(15) == -0.75
    ensures PresetConfig(Normalized).Profit(1) == -1.0
  {
  }
}
