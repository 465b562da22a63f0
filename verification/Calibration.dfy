/**
 The robust aggregate of swap-duration samples and the loop that measures and stores it
 (src/core/calibration.ts). Durations are reals, so `Math.round` is the only rounding.
 */
module Calibration {
  import opened Wrappers
  import opened Medians

  function SwapSample(withSwap: real, withoutSwap: real): real {
    if withSwap - withoutSwap > 0.0 then withSwap - withoutSwap else 0.0
  }

  function Abs(x: real): real { if x < 0.0 then -x else x }

  function Positive(xs: seq<real>): (r: seq<real>)
    ensures forall i :: 0 <= i < |r| ==> r[i] > 0.0 && r[i] in xs
    ensures |r| == 0 <==> forall i :: 0 <= i < |xs| ==> xs[i] <= 0.0
  {
    if |xs| == 0 then []
    else
      assert xs == xs[..|xs| - 1] + [xs[|xs| - 1]];
      Positive(xs[..|xs| - 1]) + if xs[|xs| - 1] > 0.0 then [xs[|xs| - 1]] else []
  }

  function Deviations(xs: seq<real>, from: real): (r: seq<real>)
    ensures |r| == |xs|
  { if |xs| == 0 then [] else Deviations(xs[..|xs| - 1], from) + [Abs(xs[|xs| - 1] - from)] }

  lemma {:induction false} DeviationAt(xs: seq<real>, from: real, i: nat)
    requires i < |xs|
    ensures Deviations(xs, from)[i] == Abs(xs[i] - from)
  {
    if i < |xs| - 1 { DeviationAt(xs[..|xs| - 1], from, i); }
  }

  function Near(xs: seq<real>, center: real, reach: real): (r: seq<real>)
    ensures forall i :: 0 <= i < |r| ==> Abs(r[i] - center) <= reach && r[i] in xs
    ensures |r| == 0 <==> forall i :: 0 <= i < |xs| ==> Abs(xs[i] - center) > reach
  {
    if |xs| == 0 then []
    else
      assert xs == xs[..|xs| - 1] + [xs[|xs| - 1]];
      Near(xs[..|xs| - 1], center, reach) + if Abs(xs[|xs| - 1] - center) <= reach then [xs[|xs| - 1]] else []
  }

  function Mad(xs: seq<real>): real { Median(Deviations(xs, Median(xs))) }

  function Cutoff(madK: real, mad: real): real { madK * mad }

  function Kept(xs: seq<real>, madK: real): seq<real> {
    if Mad(xs) > 0.0 then Near(xs, Median(xs), Cutoff(madK, Mad(xs))) else xs
  }

  function Estimate(positive: seq<real>, madK: real): real {
    var kept := Kept(positive, madK);
    Median(if |kept| > 0 then kept else positive)
  }

  /** Rounds halves up. */
  function Round(x: real): int { (x + 0.5).Floor }

  function MadK(opt: Option<real>): real { if opt.Some? then opt.value else 3.0 }

  function CalibrateSwapDuration(samples: seq<real>, madK: Option<real>): Option<int> {
    var positive := Positive(samples);
    if |positive| == 0 then None
    else
      var result := Estimate(positive, MadK(madK));
      if result > 0.0 then Some(Round(result)) else None
  }

  lemma {:induction false} CountDeviations(xs: seq<real>, from: real, lo: real, hi: real)
    requires In(from, lo, hi)
    ensures Count(Deviations(xs, from), 0.0, hi - lo) >= Count(xs, lo, hi)
  {
    if |xs| > 0 {
      CountDeviations(xs[..|xs| - 1], from, lo, hi);
      var d := Deviations(xs, from);
      assert d[..|d| - 1] == Deviations(xs[..|xs| - 1], from);
    }
  }

  /** A majority in a range of width w has its median deviation in [0, w]. */
  lemma MadBounded(xs: seq<real>, lo: real, hi: real)
    requires 2 * Count(xs, lo, hi) > |xs|
    ensures In(Median(xs), lo, hi) && In(Mad(xs), 0.0, hi - lo)
  {
    hide Median, Count, Deviations;
    MajorityHolds(xs, lo, hi);
    CountDeviations(xs, Median(xs), lo, hi);
    MajorityHolds(Deviations(xs, Median(xs)), 0.0, hi - lo);
  }

  /** With a factor of at least 1 the outlier filter never removes every sample. */
  lemma KeptIsNeverEmpty(xs: seq<real>, madK: real)
    requires |xs| > 0 && madK >= 1.0
    ensures |Kept(xs, madK)| > 0
  {
    hide Median, Deviations, Near;
    if Mad(xs) > 0.0 {
      var d := Deviations(xs, Median(xs));
      MedianReached(d);
      var i :| 0 <= i < |d| && d[i] <= Median(d);
      assert madK * Mad(xs) >= Mad(xs);
      DeviationAt(xs, Median(xs), i);
      assert Abs(xs[i] - Median(xs)) <= Cutoff(madK, Mad(xs));
    }
  }

  /** What survives the filter is near the median, and so is its own median. */
  lemma KeptMedianNear(xs: seq<real>, madK: real, near: real)
    requires Mad(xs) > 0.0 && |Kept(xs, madK)| > 0 && near == madK * Mad(xs)
    ensures near >= 0.0 && In(Median(Kept(xs, madK)), Median(xs) - near, Median(xs) + near)
  {
    hide Median, Mad, Near;
    var kept := Kept(xs, madK);
    assert forall i :: 0 <= i < |kept| ==> Abs(kept[i] - Median(xs)) <= near;
    hide Kept;
    assert near >= Abs(kept[0] - Median(xs)) >= 0.0;
    MedianWithin(kept, Median(xs) - near, Median(xs) + near);
  }

  function Reach(madK: real, w: real): real { if madK > 0.0 then madK * w else 0.0 }

  lemma ReachCovers(madK: real, mad: real, w: real)
    requires 0.0 <= mad <= w
    ensures madK > 0.0 ==> madK * mad <= Reach(madK, w)
    ensures madK <= 0.0 ==> madK * mad <= 0.0
    ensures Reach(madK, w) >= 0.0
  {
  }

  /**
   The breakdown bound: when more than half of the positive samples lie in [lo, hi], the estimate
   lies within madK times its width of it, whatever the other samples are and for every factor.
   */
  lemma BreakdownBound(positive: seq<real>, madK: real, lo: real, hi: real)
    requires 2 * Count(positive, lo, hi) > |positive|
    ensures In(Estimate(positive, madK), lo - Reach(madK, hi - lo), hi + Reach(madK, hi - lo))
  {
    hide Median, Mad, Count, Near;
    var mad := Mad(positive);
    MadBounded(positive, lo, hi);
    ReachCovers(madK, mad, hi - lo);
    hide Reach;
    if mad > 0.0 && |Kept(positive, madK)| > 0 {
      KeptMedianNear(positive, madK, madK * mad);
    }
  }

  predicate TwoApart(xs: seq<real>) { |xs| == 2 && xs[0] == 1.0 && xs[1] == 3.0 }

  lemma TwoApartMad(xs: seq<real>)
    requires TwoApart(xs)
    ensures Median(xs) == 2.0 && Mad(xs) == 1.0
  {
    var d := Deviations(xs, 2.0);
    DeviationAt(xs, 2.0, 0);
    DeviationAt(xs, 2.0, 1);
    assert IsSorted(xs) && IsSorted(d);
    hide IsSorted, Sort, Deviations;
    MedianOfSorted(xs);
    MedianOfSorted(d);
  }

  lemma TwoApartKept(xs: seq<real>, madK: real)
    requires TwoApart(xs) && madK >= 1.0
    ensures Near(xs, 2.0, madK) == xs
  {
    assert Near(xs[..1], 2.0, madK) == [1.0] by { assert xs[..1][..0] == []; }
    assert xs == [1.0] + [3.0];
  }

  lemma TwoApartEstimate(xs: seq<real>, madK: real)
    requires TwoApart(xs) && madK >= 1.0
    ensures Estimate(xs, madK) == 2.0
  {
    hide Median, Mad, Near;
    TwoApartMad(xs);
    TwoApartKept(xs, madK);
    var near := madK * Mad(xs);
    assert near == madK;
    assert Kept(xs, madK) == Near(xs, Median(xs), near);
  }

  /** Exactly half of the samples is not a majority: the bound can fail. */
  lemma HalfIsNotEnough(xs: seq<real>, madK: real)
    requires TwoApart(xs) && madK >= 1.0
    ensures 2 * Count(xs, 1.0, 1.0) == |xs|
    ensures !In(Estimate(xs, madK), 1.0 - Reach(madK, 0.0), 1.0 + Reach(madK, 0.0))
  {
    hide Estimate;
    TwoApartEstimate(xs, madK);
    assert Count(xs[..1], 1.0, 1.0) == 1;
  }

  lemma KeptAreSamples(xs: seq<real>, madK: real, x: real)
    requires x in Kept(xs, madK)
    ensures x in xs
  {
    hide Mad, Median, Near;
  }

  lemma EstimateAtLeast(positive: seq<real>, madK: real, least: real)
    requires |positive| > 0 && forall i :: 0 <= i < |positive| ==> positive[i] >= least
    ensures Estimate(positive, madK) >= least
  {
    hide Median, Kept;
    var kept := Kept(positive, madK);
    if |kept| > 0 {
      forall i | 0 <= i < |kept|
        ensures kept[i] >= least
      { KeptAreSamples(positive, madK, kept[i]); }
      MedianAtLeast(kept, least);
    } else {
      MedianAtLeast(positive, least);
    }
  }

  lemma {:induction false} Least(xs: seq<real>) returns (m: real)
    requires |xs| > 0
    ensures m in xs && forall i :: 0 <= i < |xs| ==> m <= xs[i]
  {
    if |xs| == 1 {
      m := xs[0];
    } else {
      m := Least(xs[..|xs| - 1]);
      if xs[|xs| - 1] < m { m := xs[|xs| - 1]; }
    }
  }

  /** There is a value exactly when some sample is positive. */
  lemma UsableExactly(samples: seq<real>, madK: Option<real>)
    ensures CalibrateSwapDuration(samples, madK).Some? <==> exists i :: 0 <= i < |samples| && samples[i] > 0.0
  {
    var positive := Positive(samples);
    if |positive| > 0 {
      var m := Least(positive);
      EstimateAtLeast(positive, MadK(madK), m);
    }
  }

  /** Samples of whole milliseconds never give 0; a smaller positive estimate is rounded to 0. */
  lemma WholeMillisecondsAreKept(samples: seq<real>, madK: Option<real>)
    requires forall i :: 0 <= i < |samples| ==> samples[i] > 0.0 ==> samples[i] >= 1.0
    ensures CalibrateSwapDuration(samples, madK).Some? ==> CalibrateSwapDuration(samples, madK).value >= 1
  {
    var positive := Positive(samples);
    if |positive| > 0 { EstimateAtLeast(positive, MadK(madK), 1.0); }
  }

  /** The bound for the rounded value that is stored. */
  lemma CalibrationBound(samples: seq<real>, madK: Option<real>, lo: real, hi: real)
    requires 2 * Count(Positive(samples), lo, hi) > |Positive(samples)|
    ensures CalibrateSwapDuration(samples, madK).Some?
    ensures var w := Reach(MadK(madK), hi - lo);
            lo - w - 0.5 <= CalibrateSwapDuration(samples, madK).value as real <= hi + w + 0.5
  {
    hide Estimate, Reach, Count, Positive;
    var positive := Positive(samples);
    UsableExactly(samples, madK);
    assert positive[0] in samples;
    BreakdownBound(positive, MadK(madK), lo, hi);
  }

  // ---- the order of the samples does not matter ----

  lemma {:induction false} PositiveCounts(xs: seq<real>, x: real)
    ensures multiset(Positive(xs))[x] == if x > 0.0 then multiset(xs)[x] else 0
  {
    if |xs| > 0 {
      SplitLast(xs);
      PositiveCounts(xs[..|xs| - 1], x);
    }
  }

  lemma {:induction false} NearCounts(xs: seq<real>, center: real, reach: real, x: real)
    ensures multiset(Near(xs, center, reach))[x] == if Abs(x - center) <= reach then multiset(xs)[x] else 0
  {
    if |xs| > 0 {
      SplitLast(xs);
      NearCounts(xs[..|xs| - 1], center, reach, x);
    }
  }

  lemma AppendCounts(s: seq<real>, x: real, y: real)
    ensures multiset(s + [x])[y] == multiset(s)[y] + if x == y then 1 else 0
  {
  }

  /** How many values deviate by exactly `d`. */
  function AtDistance(xs: seq<real>, from: real, d: real): nat {
    if d > 0.0 then multiset(xs)[from + d] + multiset(xs)[from - d] else if d == 0.0 then multiset(xs)[from] else 0
  }

  lemma AtDistanceAppend(s: seq<real>, x: real, from: real, d: real)
    ensures AtDistance(s + [x], from, d) == AtDistance(s, from, d) + if Abs(x - from) == d then 1 else 0
  {
    if d >= 0.0 {
      AppendCounts(s, x, from + d);
      AppendCounts(s, x, from - d);
    }
  }

  lemma {:induction false} DeviationCounts(xs: seq<real>, from: real, d: real)
    ensures multiset(Deviations(xs, from))[d] == AtDistance(xs, from, d)
  {
    if |xs| == 0 {
      assert Deviations(xs, from) == xs == [];
    } else {
      var front, x := xs[..|xs| - 1], xs[|xs| - 1];
      assert Deviations(xs, from) == Deviations(front, from) + [Abs(x - from)];
      hide Deviations, AtDistance, Abs;
      DeviationCounts(front, from, d);
      assert xs == front + [x];
      AppendCounts(Deviations(front, from), Abs(x - from), d);
      AtDistanceAppend(front, x, from, d);
    }
  }

  lemma SamePositive(xs: seq<real>, ys: seq<real>)
    requires multiset(xs) == multiset(ys)
    ensures multiset(Positive(xs)) == multiset(Positive(ys))
  {
    forall x: real
      ensures multiset(Positive(xs))[x] == multiset(Positive(ys))[x]
    {
      PositiveCounts(xs, x);
      PositiveCounts(ys, x);
    }
  }

  lemma SameNear(xs: seq<real>, ys: seq<real>, center: real, reach: real)
    requires multiset(xs) == multiset(ys)
    ensures multiset(Near(xs, center, reach)) == multiset(Near(ys, center, reach))
  {
    forall x: real
      ensures multiset(Near(xs, center, reach))[x] == multiset(Near(ys, center, reach))[x]
    {
      NearCounts(xs, center, reach, x);
      NearCounts(ys, center, reach, x);
    }
  }

  lemma SameDeviations(xs: seq<real>, ys: seq<real>, from: real)
    requires multiset(xs) == multiset(ys)
    ensures multiset(Deviations(xs, from)) == multiset(Deviations(ys, from))
  {
    forall d: real
      ensures multiset(Deviations(xs, from))[d] == multiset(Deviations(ys, from))[d]
    {
      DeviationCounts(xs, from, d);
      DeviationCounts(ys, from, d);
    }
  }

  lemma SameMad(xs: seq<real>, ys: seq<real>)
    requires multiset(xs) == multiset(ys)
    ensures Median(xs) == Median(ys) && Mad(xs) == Mad(ys)
  {
    hide Median, Deviations;
    OrderDoesNotMatter(xs, ys);
    SameDeviations(xs, ys, Median(xs));
    OrderDoesNotMatter(Deviations(xs, Median(xs)), Deviations(ys, Median(xs)));
  }

  lemma SameKept(xs: seq<real>, ys: seq<real>, madK: real)
    requires multiset(xs) == multiset(ys)
    ensures multiset(Kept(xs, madK)) == multiset(Kept(ys, madK))
  {
    hide Median, Mad, Near, Cutoff;
    SameMad(xs, ys);
    SameNear(xs, ys, Median(xs), Cutoff(madK, Mad(xs)));
  }

  lemma SameEstimate(xs: seq<real>, ys: seq<real>, madK: real)
    requires multiset(xs) == multiset(ys)
    ensures Estimate(xs, madK) == Estimate(ys, madK)
  {
    hide Median, Kept;
    SameKept(xs, ys, madK);
    SameSize(Kept(xs, madK), Kept(ys, madK));
    OrderDoesNotMatter(Kept(xs, madK), Kept(ys, madK));
    OrderDoesNotMatter(xs, ys);
  }

  /** Any order of the same samples calibrates to the same value. */
  lemma SampleOrderDoesNotMatter(xs: seq<real>, ys: seq<real>, madK: Option<real>)
    requires multiset(xs) == multiset(ys)
    ensures CalibrateSwapDuration(xs, madK) == CalibrateSwapDuration(ys, madK)
  {
    hide Estimate, Positive;
    SamePositive(xs, ys);
    SameSize(Positive(xs), Positive(ys));
    SameEstimate(Positive(xs), Positive(ys), MadK(madK));
  }

  // ---- the measuring loop ----

  /** The samples of the first `n` iterations; a failed run of a pair gives none. */
  function Samples(measure: (int, bool) -> Option<real>, n: nat): seq<real> {
    if n == 0 then []
    else
      var base, swap := measure(n - 1, false), measure(n - 1, true);
      Samples(measure, n - 1) + if base.Some? && swap.Some? then [SwapSample(swap.value, base.value)] else []
  }

  /** The setting `swap_duration_ms`. */
  class CalibrationRunner {
    var swapDurationMs: Option<int>
    const madK: Option<real>

    constructor (stored: Option<int>, madK: Option<real>)
      ensures swapDurationMs == stored && this.madK == madK
    {
      swapDurationMs, this.madK := stored, madK;
    }

    /** `measure(i, withSwap)` is what the i-th run of each kind takes, if it does not fail. */
    method Run(measure: (int, bool) -> Option<real>, iterations: int)
        returns (samples: seq<real>, updated: Option<int>, stored: Option<int>)
      modifies this
      ensures samples == Samples(measure, if iterations > 0 then iterations else 0)
      ensures updated == CalibrateSwapDuration(samples, madK)
      ensures swapDurationMs == if updated.Some? then updated else old(swapDurationMs)
      ensures stored == swapDurationMs
    {
      hide CalibrateSwapDuration, SwapSample;
      samples := [];
      var i := 0;
      while i < iterations
        invariant 0 <= i && (i <= iterations || i == 0)
        invariant samples == Samples(measure, i)
      {
        var base := measure(i, false);
        var swap := measure(i, true);
        if base.Some? && swap.Some? {
          samples := samples + [SwapSample(swap.value, base.value)];
        }
        i := i + 1;
      }
      updated := CalibrateSwapDuration(samples, madK);
      if updated.Some? { swapDurationMs := updated; }
      stored := swapDurationMs;
    }
  }

  predicate Usable(measure: (int, bool) -> Option<real>, i: int) {
    && measure(i, false).Some? && measure(i, true).Some?
    && measure(i, true).value > measure(i, false).value
  }

  lemma {:induction false} PositiveSamples(measure: (int, bool) -> Option<real>, n: nat)
    ensures (exists k :: 0 <= k < |Samples(measure, n)| && Samples(measure, n)[k] > 0.0)
            <==> exists i :: 0 <= i < n && Usable(measure, i)
  {
    if n > 0 {
      PositiveSamples(measure, n - 1);
      var s, t := Samples(measure, n - 1), Samples(measure, n);
      assert forall k :: 0 <= k < |s| ==> t[k] == s[k];
      if Usable(measure, n - 1) { assert t[|t| - 1] > 0.0; }
    }
  }

  /**
   The stored setting is replaced exactly when in some iteration both runs succeeded and the one with
   the swap took longer.
   */
  lemma SettingReplacedExactly(measure: (int, bool) -> Option<real>, n: nat, madK: Option<real>)
    ensures CalibrateSwapDuration(Samples(measure, n), madK).Some? <==> exists i :: 0 <= i < n && Usable(measure, i)
  {
    PositiveSamples(measure, n);
    UsableExactly(Samples(measure, n), madK);
  }
}
