/** What the yield-sum scripts share after accumulation: the ratio-to-nominal result record, the
    divisor that replaces a zero nominal sum by 1.0, and the fixed envelope positions. */
module Envelopes {
  import opened Order

  /** Order-statistic positions of the envelope in a sorted sample of 100 (16th and 84th smallest). */
  const LowIndex: nat := 15
  const HighIndex: nat := 83

  /** The 16th smallest of a sample (at least 84 values). */
  function LowOf(vals: seq<real>): real
    requires |vals| > HighIndex
  {
    SortedSeq(vals)[LowIndex]
  }

  /** The 84th smallest of a sample (at least 84 values). */
  function HighOf(vals: seq<real>): real
    requires |vals| > HighIndex
  {
    SortedSeq(vals)[HighIndex]
  }

  /** The two order statistics are values of the sample, and the lower one is not above the
      upper one. */
  lemma OrderStatistics(vals: seq<real>)
    requires |vals| > HighIndex
    ensures LowOf(vals) <= HighOf(vals)
    ensures LowOf(vals) in multiset(vals) && HighOf(vals) in multiset(vals)
  {
    var sorted := SortedSeq(vals);
    assert sorted[LowIndex] in multiset(sorted) && sorted[HighIndex] in multiset(sorted);
  }

  /** A normalised result: nominal (1.0), low and high bounds and the replica ratios. */
  datatype Envelope = Envelope(nominal: real, low: real, high: real, replicas: seq<real>)

  /** The divisor of every ratio: the nominal sum, or 1.0 when it is zero. */
  function Divisor(nominalSum: real): (d: real)
    ensures d != 0.0
    ensures nominalSum != 0.0 ==> d == nominalSum
    ensures nominalSum == 0.0 ==> d == 1.0
  {
    if nominalSum == 0.0 then 1.0 else nominalSum
  }

  /** Dividing by a positive divisor keeps the order of two values. */
  lemma DivMonotone(x: real, y: real, d: real)
    requires x <= y && d > 0.0
    ensures x / d <= y / d
  {
    assert y / d - x / d == (y - x) / d;
  }

  /** A nonzero value divided by itself is 1. */
  lemma DivSelf(c: real)
    requires c != 0.0
    ensures c / c == 1.0
  {
  }

  /** Multiplying a ratio back by its nonzero divisor gives the value. */
  lemma DivRoundTrip(x: real, d: real)
    requires d != 0.0
    ensures (x / d) * d == x
  {
  }

  /** The same, for every entry of a sequence of ratios. */
  lemma RatiosRoundTrip(vals: seq<real>, ratios: seq<real>, d: real)
    requires d != 0.0 && |ratios| == |vals|
    requires forall k :: 0 <= k < |vals| ==> ratios[k] == vals[k] / d
    ensures forall k :: 0 <= k < |vals| ==> ratios[k] * d == vals[k]
  {
    forall k | 0 <= k < |vals|
      ensures ratios[k] * d == vals[k]
    {
      DivRoundTrip(vals[k], d);
    }
  }

  /** `env` is the sample `vals` with bounds `lo` and `hi` divided by `d`: multiplying its bounds
      and its replicas back by `d` gives the values they came from. */
  predicate ScalesBack(env: Envelope, lo: real, hi: real, vals: seq<real>, d: real)
  {
    && env.low * d == lo && env.high * d == hi
    && |env.replicas| == |vals|
    && forall k :: 0 <= k < |vals| ==> env.replicas[k] * d == vals[k]
  }

  /** The envelope of a sample whose bounds are `lo` and `hi`, every value divided by the
      nominal divisor `d`. */
  function Normalised(lo: real, hi: real, vals: seq<real>, d: real): (env: Envelope)
    requires d != 0.0
    ensures env.nominal == 1.0 && |env.replicas| == |vals|
    ensures ScalesBack(env, lo, hi, vals, d)
  {
    var ratios := seq(|vals|, k requires 0 <= k < |vals| => vals[k] / d);
    RatiosRoundTrip(vals, ratios, d);
    DivRoundTrip(lo, d);
    DivRoundTrip(hi, d);
    Envelope(1.0, lo / d, hi / d, ratios)
  }
}
