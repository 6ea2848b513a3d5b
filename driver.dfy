/** `benchmark`: the counted loop that generates a fresh input and times
    one call of the function under test on it, once per run. */
module Driver {
  import opened PalindromeSpec
  import opened InputGen
  import opened Metrics

  /** The samples `benchmark` collects. `sampler(i, input)` is the duration
      that timing the function under test on `input` in run `i` yields (the
      fenced steady-clock reads of `sample` are not modelled); run `i`
      contributes sample `i`. */
  function BenchmarkSamples(sampler: (nat, seq<Byte>) -> Duration, runCount: nat,
                            inputSize: nat, t: GenerationType, draw: nat -> Byte): (r: seq<Duration>)
    ensures |r| == runCount
  {
    seq<Duration>(runCount, i requires 0 <= i => sampler(i, Input(inputSize, t, draw)))
  }

  /** `benchmark`: exactly `runCount` samples, in the order of the runs,
      each taken on a freshly generated input of size `inputSize`. */
  method Benchmark(sampler: (nat, seq<Byte>) -> Duration, runCount: nat,
                   inputSize: nat, t: GenerationType, draw: nat -> Byte) returns (samples: seq<Duration>)
    ensures |samples| == runCount
    ensures forall i :: 0 <= i < runCount ==> samples[i] == sampler(i, Input(inputSize, t, draw))
    ensures samples == BenchmarkSamples(sampler, runCount, inputSize, t, draw)
  {
    samples := [];
    for i := 0 to runCount
      invariant |samples| == i
      invariant forall j :: 0 <= j < i ==> samples[j] == sampler(j, Input(inputSize, t, draw))
    {
      var input := GenerateInput(inputSize, t, draw);
      samples := samples + [sampler(i, input)];
    }
  }
}
