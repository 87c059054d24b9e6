/**
  Integer intervals and finite sums over them: the `range(lo, hi + 1)` loops
  and the `sum(...)` generator expressions of the game model.
 */
module Series {

  /** The integers lo, lo + 1, ..., hi in increasing order; empty when lo > hi. */
  function Interval(lo: int, hi: int): (r: seq<int>)
    ensures |r| == if lo <= hi then hi - lo + 1 else 0
    ensures forall i :: 0 <= i < |r| ==> r[i] == lo + i
    decreases hi - lo
  {
    if lo > hi then [] else [lo] + Interval(lo + 1, hi)
  }

  /** k is a member of Interval(lo, hi) exactly when lo <= k <= hi. */
  lemma IntervalMembership(lo: int, hi: int, k: int)
    ensures k in Interval(lo, hi) <==> lo <= k <= hi
  {
    var r := Interval(lo, hi);
    if lo <= k <= hi {
      assert r[k - lo] == k;
    }
  }

  /** The sum of f(k) over the integers lo..hi (zero when the interval is empty). */
  function Sum(f: int -> real, lo: int, hi: int): real
    decreases hi - lo
  {
    if lo > hi then 0.0 else f(lo) + Sum(f, lo + 1, hi)
  }

  /** Shifting every term of a sum by the same amount d shifts the sum by n * d. */
  lemma {:induction false} SumShift(f: int -> real, g: int -> real, d: real, lo: int, hi: int)
    requires lo <= hi + 1
    requires forall k :: lo <= k <= hi ==> f(k) == g(k) - d
    ensures Sum(f, lo, hi) == Sum(g, lo, hi) - (hi - lo + 1) as real * d
    decreases hi - lo
  {
    if lo <= hi {
      SumShift(f, g, d, lo + 1, hi);
    }
  }

  /** Two functions that agree on lo..hi have the same sum there. */
  lemma {:induction false} SumCongruent(f: int -> real, g: int -> real, lo: int, hi: int)
    requires forall k :: lo <= k <= hi ==> f(k) == g(k)
    ensures Sum(f, lo, hi) == Sum(g, lo, hi)
    decreases hi - lo
  {
    if lo <= hi {
      SumCongruent(f, g, lo + 1, hi);
    }
  }

  /** A sum of zero terms is zero. */
  lemma {:induction false} SumOfZeros(f: int -> real, lo: int, hi: int)
    requires forall k :: lo <= k <= hi ==> f(k) == 0.0
    ensures Sum(f, lo, hi) == 0.0
    decreases hi - lo
  {
    if lo <= hi {
      SumOfZeros(f, lo + 1, hi);
    }
  }

  /**
    Reindexing: when f(k) is g(k + d) on lo..hi, summing f over lo..hi is
    summing g over the translated range lo + d..hi + d.
   */
  lemma {:induction false} SumTranslate(f: int -> real, g: int -> real, d: int, lo: int, hi: int)
    requires forall k :: lo <= k <= hi ==> f(k) == g(k + d)
    ensures Sum(f, lo, hi) == Sum(g, lo + d, hi + d)
    decreases hi - lo
  {
    if lo <= hi {
      SumTranslate(f, g, d, lo + 1, hi);
    }
  }
}
