/** The `main` of `main.cpp`: time all three variants on the same random
    inputs, accumulate each variant's durations in a `metric_t`, and report
    minimum, maximum, average and the 98th percentile of the sorted
    durations. */
module Comparison {
  import opened PalindromeSpec
  import opened InputGen
  import opened Metrics

  /** `sample_t`: the durations of the three variants on one input. */
  datatype SampleTriple = SampleTriple(originalTime: Duration, arrayTime: Duration, bitsetTime: Duration)

  datatype Variant = Original | ArrayBased | BitsetBased

  function TimeOf(sample: SampleTriple, v: Variant): Duration
  {
    match v
    case Original => sample.originalTime
    case ArrayBased => sample.arrayTime
    case BitsetBased => sample.bitsetTime
  }

  /** The durations of one variant, in the order of the runs. */
  function Column(samples: seq<SampleTriple>, v: Variant): (r: seq<Duration>)
    ensures |r| == |samples|
  {
    seq<Duration>(|samples|, i requires 0 <= i < |samples| => TimeOf(samples[i], v))
  }

  /** The three reports of the program. */
  datatype Report = Report(original: Summary, arrayBased: Summary, bitsetBased: Summary)

  /** The program fails only on a wrong argument count, so a rejection
      carries no reason. */
  datatype ComparisonOutcome = Compared(report: Report) | Rejected

  /** The samples of the sampling loop, in run order. */
  function MeasuredSamples(measure: (nat, seq<Byte>) -> SampleTriple, targetRuns: nat,
                           size: nat, draw: nat -> Byte): (r: seq<SampleTriple>)
    ensures |r| == targetRuns
  {
    seq(targetRuns, i requires 0 <= i => measure(i, RandomInput(size, draw)))
  }

  /** The sampling loop: `targetRuns` random inputs, each measured once by
      `measure` (which stands for `measure`, the steady-clock timing of the
      three variants, in run `i`). */
  method CollectSamples(measure: (nat, seq<Byte>) -> SampleTriple, targetRuns: nat,
                        size: nat, draw: nat -> Byte) returns (samples: seq<SampleTriple>)
    ensures |samples| == targetRuns
    ensures forall i :: 0 <= i < targetRuns ==> samples[i] == measure(i, RandomInput(size, draw))
    ensures samples == MeasuredSamples(measure, targetRuns, size, draw)
  {
    samples := [];
    for i := 0 to targetRuns
      invariant |samples| == i
      invariant forall j :: 0 <= j < i ==> samples[j] == measure(j, RandomInput(size, draw))
    {
      var input := GenerateRandomInput(size, draw);
      samples := samples + [measure(i, input)];
    }
  }

  /** Extending a prefix by one element. */
  lemma PrefixStep(s: seq<Duration>, i: nat)
    requires i < |s|
    ensures s[..i + 1] == s[..i] + [s[i]]
  {
  }

  /** The `metric_t` loop: one accumulator per variant, fed in run order. */
  method AccumulateMetrics(samples: seq<SampleTriple>)
    returns (metricsForOg: MetricAccumulator, metricsForArray: MetricAccumulator,
             metricsForBitset: MetricAccumulator)
    ensures fresh(metricsForOg) && fresh(metricsForArray) && fresh(metricsForBitset)
    ensures metricsForOg.Valid() && metricsForOg.seen == Column(samples, Original)
    ensures metricsForArray.Valid() && metricsForArray.seen == Column(samples, ArrayBased)
    ensures metricsForBitset.Valid() && metricsForBitset.seen == Column(samples, BitsetBased)
  {
    metricsForOg := new MetricAccumulator();
    metricsForArray := new MetricAccumulator();
    metricsForBitset := new MetricAccumulator();
    ghost var og, ar, bs := Column(samples, Original), Column(samples, ArrayBased), Column(samples, BitsetBased);
    for i := 0 to |samples|
      invariant metricsForOg.Valid() && metricsForOg.seen == og[..i]
      invariant metricsForArray.Valid() && metricsForArray.seen == ar[..i]
      invariant metricsForBitset.Valid() && metricsForBitset.seen == bs[..i]
    {
      PrefixStep(og, i);
      PrefixStep(ar, i);
      PrefixStep(bs, i);
      metricsForOg.Update(samples[i].originalTime);
      metricsForArray.Update(samples[i].arrayTime);
      metricsForBitset.Update(samples[i].bitsetTime);
    }
    assert og[..|samples|] == og && ar[..|samples|] == ar && bs[..|samples|] == bs;
  }

  /** The copying loop: each variant's durations pushed into its own vector,
      in run order. */
  method SplitColumns(samples: seq<SampleTriple>)
    returns (ogSamples: seq<Duration>, arraySamples: seq<Duration>, bitsetSamples: seq<Duration>)
    ensures ogSamples == Column(samples, Original)
    ensures arraySamples == Column(samples, ArrayBased)
    ensures bitsetSamples == Column(samples, BitsetBased)
  {
    ghost var og, ar, bs := Column(samples, Original), Column(samples, ArrayBased), Column(samples, BitsetBased);
    ogSamples, arraySamples, bitsetSamples := [], [], [];
    for i := 0 to |samples|
      invariant ogSamples == og[..i] && arraySamples == ar[..i] && bitsetSamples == bs[..i]
    {
      ogSamples := ogSamples + [samples[i].originalTime];
      arraySamples := arraySamples + [samples[i].arrayTime];
      bitsetSamples := bitsetSamples + [samples[i].bitsetTime];
      PrefixStep(og, i);
      PrefixStep(ar, i);
      PrefixStep(bs, i);
    }
    assert og[..|samples|] == og && ar[..|samples|] == ar && bs[..|samples|] == bs;
  }

  /** One variant's report: the accumulator's minimum, maximum and sum over
      the run count, and the 98th-percentile entry of the sorted durations. */
  function VariantReport(times: seq<Duration>, min: int, max: int, sum: int): (r: Summary)
    requires |times| >= 1
    requires min == RunningMin(times) && max == RunningMax(times) && sum == Sum(times)
    ensures r == MeanSummary(times)
  {
    RunningIsMinMax(times);
    var sorted := SortSamples(times);
    MinMaxPermutation(times, sorted);
    Summary(min, max, sum / |times|, sorted[P98Index(|times|)])
  }

  /** Reduce the samples of one run of the program. Each report is the
      single-sum summary of its variant's durations, so its average lies
      between its minimum and its maximum. */
  method Summarize(samples: seq<SampleTriple>) returns (report: Report)
    requires |samples| >= 1
    ensures report.original == MeanSummary(Column(samples, Original))
    ensures report.arrayBased == MeanSummary(Column(samples, ArrayBased))
    ensures report.bitsetBased == MeanSummary(Column(samples, BitsetBased))
  {
    var metricsForOg, metricsForArray, metricsForBitset := AccumulateMetrics(samples);
    var ogSamples, arraySamples, bitsetSamples := SplitColumns(samples);
    report := Report(
      VariantReport(ogSamples, metricsForOg.min, metricsForOg.max, metricsForOg.sum),
      VariantReport(arraySamples, metricsForArray.min, metricsForArray.max, metricsForArray.sum),
      VariantReport(bitsetSamples, metricsForBitset.min, metricsForBitset.max, metricsForBitset.sum));
  }

  /** The whole program, up to its output: `argv` must hold the program
      name and three arguments (the last names the output file, which is
      not modelled); `parseCount` stands for `std::stoull`. A run count of 0
      would divide by zero and index an empty vector, so a well-formed
      command line asks for at least one run. */
  method RunComparison(argv: seq<string>, parseCount: string -> nat,
                       measure: (nat, seq<Byte>) -> SampleTriple, draw: nat -> Byte)
    returns (outcome: ComparisonOutcome)
    requires |argv| == 4 ==> parseCount(argv[2]) >= 1
    ensures |argv| != 4 <==> outcome == Rejected
    ensures |argv| == 4 ==>
      var samples := MeasuredSamples(measure, parseCount(argv[2]), parseCount(argv[1]), draw);
      && outcome.Compared?
      && outcome.report.original == MeanSummary(Column(samples, Original))
      && outcome.report.arrayBased == MeanSummary(Column(samples, ArrayBased))
      && outcome.report.bitsetBased == MeanSummary(Column(samples, BitsetBased))
  {
    if |argv| != 4 {
      return Rejected;
    }
    var size := parseCount(argv[1]);
    var targetAmountOfRuns := parseCount(argv[2]);
    var samples := CollectSamples(measure, targetAmountOfRuns, size, draw);
    var summaries := Summarize(samples);
    outcome := Compared(summaries);
  }
}
