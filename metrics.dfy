/** Reducing a sample set to summary statistics: `metrics_t` and
    `collect_metrics`, and the `metric_t` accumulator of the three-way
    comparison program. */
module Metrics {

  const Int64Max: int := 0x7FFF_FFFF_FFFF_FFFF
  const Int64Min: int := -0x8000_0000_0000_0000

  /** A `std::chrono::nanoseconds` duration measured on a steady clock:
      never negative, and held in a signed 64-bit count. */
  type Duration = d: int | 0 <= d <= Int64Max

  /** The exact total of the samples. */
  function Sum(s: seq<Duration>): nat
  {
    if s == [] then 0 else Sum(s[..|s| - 1]) + s[|s| - 1]
  }

  /** The smallest sample. */
  function MinOf(s: seq<Duration>): (m: Duration)
    requires |s| >= 1
    ensures m in s
    ensures forall i :: 0 <= i < |s| ==> m <= s[i]
  {
    if |s| == 1 then s[0]
    else
      var rest := MinOf(s[..|s| - 1]);
      if rest > s[|s| - 1] then s[|s| - 1] else rest
  }

  /** The largest sample. */
  function MaxOf(s: seq<Duration>): (m: Duration)
    requires |s| >= 1
    ensures m in s
    ensures forall i :: 0 <= i < |s| ==> s[i] <= m
  {
    if |s| == 1 then s[0]
    else
      var rest := MaxOf(s[..|s| - 1]);
      if rest < s[|s| - 1] then s[|s| - 1] else rest
  }

  predicate Sorted(s: seq<Duration>)
  {
    forall i, j :: 0 <= i <= j < |s| ==> s[i] <= s[j]
  }

  /** The nearest-rank 98th-percentile index `floor(n * 0.98)`, computed
      exactly. It always lies inside a non-empty sample set. */
  function P98Index(n: nat): (k: nat)
    ensures n >= 1 ==> k < n
    ensures k <= n
  {
    (98 * n) / 100
  }

  /** `metrics_t`. */
  datatype Summary = Summary(minTime: int, maxTime: int, avgTime: int, p98Time: int)

  /** What `collect_metrics` computes: every sample is added to the running
      sum twice, so the average is twice the mean (truncated). */
  function CollectedSummary(samples: seq<Duration>): Summary
    requires |samples| >= 1
  {
    Summary(MinOf(samples), MaxOf(samples), (2 * Sum(samples)) / |samples|,
            samples[P98Index(|samples|)])
  }

  /** The sum of a concatenation is the sum of the parts. */
  lemma {:induction false} SumConcat(a: seq<Duration>, b: seq<Duration>)
    ensures Sum(a + b) == Sum(a) + Sum(b)
    decreases |b|
  {
    if b == [] {
      assert a + b == a;
    } else {
      var b' := b[..|b| - 1];
      assert (a + b)[..|a + b| - 1] == a + b';
      assert (a + b)[|a + b| - 1] == b[|b| - 1];
      SumConcat(a, b');
    }
  }

  /** Taking one sample out of the middle lowers the sum by that sample. */
  lemma SumRemove(s: seq<Duration>, j: nat)
    requires j < |s|
    ensures Sum(s) == Sum(s[..j] + s[j + 1..]) + s[j]
  {
    assert s == s[..j] + ([s[j]] + s[j + 1..]);
    SumConcat(s[..j], [s[j]] + s[j + 1..]);
    SumConcat([s[j]], s[j + 1..]);
    SumConcat(s[..j], s[j + 1..]);
    assert Sum([s[j]]) == s[j] by {
      assert [s[j]][..0] == [];
    }
  }

  /** The sum does not depend on the order of the samples. */
  lemma {:induction false} SumPermutation(s: seq<Duration>, t: seq<Duration>)
    requires multiset(s) == multiset(t)
    ensures Sum(s) == Sum(t)
    decreases |s|
  {
    if s != [] {
      var x := s[|s| - 1];
      assert s == s[..|s| - 1] + [x];
      assert multiset(s[..|s| - 1]) == multiset(s) - multiset{x};
      assert x in multiset(t);
      var j :| 0 <= j < |t| && t[j] == x;
      assert t == t[..j] + [x] + t[j + 1..];
      var t' := t[..j] + t[j + 1..];
      assert multiset(t') == multiset(t) - multiset{x};
      SumPermutation(s[..|s| - 1], t');
      SumRemove(t, j);
    } else {
      assert t == [];
    }
  }

  /** Minimum and maximum do not depend on the order of the samples. */
  lemma MinMaxPermutation(s: seq<Duration>, t: seq<Duration>)
    requires |s| >= 1 && multiset(s) == multiset(t)
    ensures |t| == |s|
    ensures MinOf(s) == MinOf(t) && MaxOf(s) == MaxOf(t)
  {
    assert |t| == |multiset(t)| == |multiset(s)| == |s|;
    var ms, mt := MinOf(s), MinOf(t);
    assert ms in multiset(t) && mt in multiset(s);
    var xs, xt := MaxOf(s), MaxOf(t);
    assert xs in multiset(t) && xt in multiset(s);
  }

  /** Multiplying by a count keeps the order. */
  lemma MulMonotone(n: nat, a: int, b: int)
    requires a <= b
    ensures n * a <= n * b
  {
  }

  /** One more copy of `x`. */
  lemma MulStep(n: nat, x: int)
    ensures (n + 1) * x == n * x + x
  {
  }

  /** Multiplying by a positive count reflects a strict order. */
  lemma MulCancel(n: nat, a: int, b: int)
    requires n * a < n * b
    ensures a < b
  {
  }

  /** `n` samples add up to at least `n` times the smallest. */
  lemma {:induction false} SumAtLeast(s: seq<Duration>)
    requires |s| >= 1
    ensures |s| * MinOf(s) <= Sum(s)
  {
    var n := |s|;
    var p := s[..n - 1];
    assert Sum(s) == Sum(p) + s[n - 1];
    if n > 1 {
      SumAtLeast(p);
      var lo, lower := MinOf(s), MinOf(p);
      assert lo <= lower by {
        assert lower in s;
      }
      MulMonotone(n - 1, lo, lower);
      MulStep(n - 1, lo);
    } else {
      assert p == [];
    }
  }

  /** `n` samples add up to at most `n` times the largest. */
  lemma {:induction false} SumAtMost(s: seq<Duration>)
    requires |s| >= 1
    ensures Sum(s) <= |s| * MaxOf(s)
  {
    var n := |s|;
    var p := s[..n - 1];
    assert Sum(s) == Sum(p) + s[n - 1];
    if n > 1 {
      SumAtMost(p);
      var hi, upper := MaxOf(s), MaxOf(p);
      assert upper <= hi by {
        assert upper in s;
      }
      MulMonotone(n - 1, upper, hi);
      MulStep(n - 1, hi);
    } else {
      assert p == [];
    }
  }

  /** A total between `n * lo` and `n * hi`, divided by `n`, lands between
      `lo` and `hi`. */
  lemma DivWithin(total: nat, n: nat, lo: int, hi: int)
    requires n >= 1 && n * lo <= total <= n * hi
    ensures lo <= total / n <= hi
  {
    var q, r := total / n, total % n;
    assert total == n * q + r && 0 <= r < n;
    assert n * (lo - 1) == n * lo - n;
    MulCancel(n, lo - 1, q);
    assert n * (hi + 1) == n * hi + n;
    MulCancel(n, q, hi + 1);
  }

  /** The mean of the samples, truncated, lies between the smallest and the
      largest sample. */
  lemma MeanWithinRange(s: seq<Duration>)
    requires |s| >= 1
    ensures MinOf(s) <= Sum(s) / |s| <= MaxOf(s)
  {
    SumAtLeast(s);
    SumAtMost(s);
    DivWithin(Sum(s), |s|, MinOf(s), MaxOf(s));
  }

  /** `collect_metrics` (benchmark_utils.h): one pass keeps the running
      minimum (starting at the largest 64-bit count), the running maximum
      (starting at the smallest) and the doubled running sum; then the
      average and the 98th-percentile sample are taken. `samples` must be
      non-empty: on an empty set the source divides by zero and reads out of
      bounds. */
  method CollectMetrics(samples: seq<Duration>) returns (metrics: Summary)
    requires |samples| >= 1
    ensures metrics == CollectedSummary(samples)
    ensures metrics.minTime in samples && metrics.maxTime in samples
    ensures forall i :: 0 <= i < |samples| ==> metrics.minTime <= samples[i] <= metrics.maxTime
    ensures metrics.avgTime == (2 * Sum(samples)) / |samples|
    ensures metrics.minTime <= metrics.p98Time <= metrics.maxTime
    ensures Sorted(samples) ==> metrics.minTime == samples[0] && metrics.maxTime == samples[|samples| - 1]
    ensures Sorted(samples) ==>
      (forall i :: 0 <= i <= P98Index(|samples|) ==> samples[i] <= metrics.p98Time) &&
      (forall i :: P98Index(|samples|) <= i < |samples| ==> metrics.p98Time <= samples[i])
  {
    var minTime: int := Int64Max;
    var maxTime: int := Int64Min;
    var sum: nat := 0;
    for i := 0 to |samples|
      invariant sum == 2 * Sum(samples[..i])
      invariant i == 0 ==> minTime == Int64Max && maxTime == Int64Min
      invariant i > 0 ==> minTime == MinOf(samples[..i]) && maxTime == MaxOf(samples[..i])
    {
      var sample := samples[i];
      assert samples[..i + 1][..i] == samples[..i];
      sum := sum + sample;
      if minTime > sample {
        minTime := sample;
      }
      if maxTime < sample {
        maxTime := sample;
      }
      sum := sum + sample;
    }
    assert samples[..|samples|] == samples;
    metrics := Summary(minTime, maxTime, sum / |samples|, samples[P98Index(|samples|)]);
  }

  /** What the sample set reduces to when each sample is counted once (as
      `metric_t` does): the mean lies between minimum and maximum, and so
      does the 98th-percentile sample of the sorted copy. */
  function MeanSummary(samples: seq<Duration>): (r: Summary)
    requires |samples| >= 1
    ensures r.minTime <= r.avgTime <= r.maxTime
    ensures r.minTime <= r.p98Time <= r.maxTime
    ensures r.avgTime == Sum(samples) / |samples|
  {
    MeanWithinRange(samples);
    var sorted := SortSamples(samples);
    MinMaxPermutation(samples, sorted);
    Summary(MinOf(samples), MaxOf(samples), Sum(samples) / |samples|,
            sorted[P98Index(|samples|)])
  }

  /** A sample no larger than the head of a sorted set extends it. */
  lemma SortedCons(d: Duration, s: seq<Duration>)
    requires Sorted(s) && (s != [] ==> d <= s[0])
    ensures Sorted([d] + s)
  {
  }

  /** `std::sort` on a sample vector: sorted insertion of `x`. */
  function Insert(x: Duration, s: seq<Duration>): (r: seq<Duration>)
    requires Sorted(s)
    ensures Sorted(r)
    ensures multiset(r) == multiset(s) + multiset{x}
    ensures r[0] == (if s == [] || x <= s[0] then x else s[0])
  {
    if s == [] || x <= s[0] then
      SortedCons(x, s);
      [x] + s
    else
      assert s == [s[0]] + s[1..];
      var rest := Insert(x, s[1..]);
      SortedCons(s[0], rest);
      [s[0]] + rest
  }

  /** `std::sort` on a sample vector: ascending, and a permutation of the
      input. */
  function SortSamples(s: seq<Duration>): (r: seq<Duration>)
    ensures Sorted(r)
    ensures multiset(r) == multiset(s)
  {
    if s == [] then []
    else
      assert s == s[..|s| - 1] + [s[|s| - 1]];
      Insert(s[|s| - 1], SortSamples(s[..|s| - 1]))
  }

  /** `collect_metrics` on a single sample `d`: minimum, maximum and 98th
      percentile are `d`, but the average is `2 * d`. */
  lemma SingleSample(d: Duration)
    ensures CollectedSummary([d]) == Summary(d, d, 2 * d, d)
  {
    assert [d][..0] == [];
    assert Sum([d]) == d;
    assert P98Index(1) == 0;
  }

  /** The doubled sum makes the average of `collect_metrics` exceed the
      maximum: on the sample set `[1]` the average is 2. */
  lemma DoubledAverageExceedsMax()
    ensures CollectedSummary([1]).avgTime > CollectedSummary([1]).maxTime
  {
  }

  /** On a sorted sample set the minimum and the maximum are the first and
      the last samples; the reduction expects already sorted samples
      (benchmark_utils.h:115). */
  lemma SortedEnds(s: seq<Duration>)
    requires |s| >= 1 && Sorted(s)
    ensures MinOf(s) == s[0] && MaxOf(s) == s[|s| - 1]
  {
  }

  /** A thousand samples put the 98th percentile at index 980, the 981st
      smallest. */
  lemma ThousandSamples()
    ensures P98Index(1000) == 980
  {
  }

  /** The running minimum `metric_t` keeps: the largest 64-bit count
      before any sample, then the smaller of it and each new sample. */
  function RunningMin(s: seq<Duration>): Duration
  {
    if s == [] then Int64Max
    else
      var rest := RunningMin(s[..|s| - 1]);
      if rest > s[|s| - 1] then s[|s| - 1] else rest
  }

  /** The running maximum `metric_t` keeps: 0 before any sample, then the
      larger of it and each new sample. */
  function RunningMax(s: seq<Duration>): Duration
  {
    if s == [] then 0
    else
      var rest := RunningMax(s[..|s| - 1]);
      if rest < s[|s| - 1] then s[|s| - 1] else rest
  }

  /** After at least one update, the running minimum is the smallest sample
      and the running maximum the largest. */
  lemma {:induction false} RunningIsMinMax(s: seq<Duration>)
    requires |s| >= 1
    ensures RunningMin(s) == MinOf(s) && RunningMax(s) == MaxOf(s)
  {
    if |s| > 1 {
      RunningIsMinMax(s[..|s| - 1]);
    } else {
      assert s[..0] == [];
    }
  }

  /** `metric_t` ends in the same state whatever the order of the samples
      fed to it. */
  lemma RunningOrderIndependent(s: seq<Duration>, t: seq<Duration>)
    requires multiset(s) == multiset(t)
    ensures RunningMin(s) == RunningMin(t) && RunningMax(s) == RunningMax(t) && Sum(s) == Sum(t)
  {
    SumPermutation(s, t);
    if s == [] {
      assert t == [] by {
        assert |t| == |multiset(t)| == 0;
      }
    } else {
      MinMaxPermutation(s, t);
      RunningIsMinMax(s);
      RunningIsMinMax(t);
    }
  }

  /** `metric_t`: a running minimum, maximum and sum over the samples fed
      to `update`. */
  class MetricAccumulator {
    var min: int
    var max: int
    var sum: int
    /** The samples fed so far. */
    ghost var seen: seq<Duration>

    ghost predicate Valid()
      reads this
    {
      min == RunningMin(seen) && max == RunningMax(seen) && sum == Sum(seen)
    }

    constructor ()
      ensures Valid() && seen == []
      ensures min == Int64Max && max == 0 && sum == 0
    {
      min, max, sum := Int64Max, 0, 0;
      seen := [];
    }

    /** `metric_t::update`. */
    method Update(newSample: Duration)
      requires Valid()
      modifies this
      ensures Valid() && seen == old(seen) + [newSample]
      ensures min == (if old(min) > newSample then newSample else old(min))
      ensures max == (if old(max) < newSample then newSample else old(max))
      ensures sum == old(sum) + newSample
    {
      if min > newSample {
        min := newSample;
      }
      if max < newSample {
        max := newSample;
      }
      sum := sum + newSample;
      seen := seen + [newSample];
      assert seen[..|seen| - 1] == old(seen);
    }
  }
}
