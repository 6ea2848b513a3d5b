/** The `main` of the single-variant programs (`array.cpp`, `bitset.cpp`):
    check the argument count, parse the generation type, benchmark, sort
    and reduce. The two programs differ only in the function under test,
    which the benchmark sees only through its sampler. */
module Cli {
  import opened PalindromeSpec
  import opened InputGen
  import opened Metrics
  import opened Driver

  datatype Option<T> = None | Some(value: T)

  /** The two ways the program exits with `EXIT_FAILURE` before
      benchmarking. */
  datatype ExitFailure = Usage | UnknownGenerationType

  datatype Outcome = Reported(metrics: Summary) | Failed(reason: ExitFailure)

  /** The command-line spelling of each generation type. */
  function GenerationTypeName(t: GenerationType): string
  {
    match t
    case Random => "random"
    case Spread => "spread"
    case Homogenous => "homogenous"
  }

  /** The if-chain on `argv[3]`: exactly the three names are recognised,
      each as its own generation type. */
  function ParseGenerationType(s: string): (r: Option<GenerationType>)
    ensures r.Some? <==> s in {"random", "spread", "homogenous"}
    ensures r.Some? ==> GenerationTypeName(r.value) == s
  {
    if s == "random" then Some(Random)
    else if s == "spread" then Some(Spread)
    else if s == "homogenous" then Some(Homogenous)
    else None
  }

  /** Parsing the name of a generation type gives that type back. */
  lemma ParseName(t: GenerationType)
    ensures ParseGenerationType(GenerationTypeName(t)) == Some(t)
  {
  }

  /** The whole program. `argv[0]` is the program name; `parseCount` stands
      for `std::stoull`. A run count of 0 would make the reduction divide by
      zero, so a well-formed command line must ask for at least one run. */
  method RunBenchmarkProgram(argv: seq<string>, parseCount: string -> nat,
                             sampler: (nat, seq<Byte>) -> Duration, draw: nat -> Byte)
    returns (outcome: Outcome)
    requires |argv| == 4 && ParseGenerationType(argv[3]).Some? ==> parseCount(argv[2]) >= 1
    ensures |argv| != 4 ==> outcome == Failed(Usage)
    ensures |argv| == 4 && ParseGenerationType(argv[3]).None? ==> outcome == Failed(UnknownGenerationType)
    ensures |argv| == 4 && ParseGenerationType(argv[3]).Some? ==>
      var samples := BenchmarkSamples(sampler, parseCount(argv[2]), parseCount(argv[1]),
                                      ParseGenerationType(argv[3]).value, draw);
      var sorted := SortSamples(samples);
      && outcome == Reported(CollectedSummary(sorted))
      && outcome.metrics.minTime == sorted[0]
      && outcome.metrics.maxTime == sorted[|sorted| - 1]
      && (forall i :: 0 <= i <= P98Index(|sorted|) ==> sorted[i] <= outcome.metrics.p98Time)
      && (forall i :: P98Index(|sorted|) <= i < |sorted| ==> outcome.metrics.p98Time <= sorted[i])
  {
    if |argv| != 4 {
      return Failed(Usage);
    }
    var generationType := ParseGenerationType(argv[3]);
    if generationType.None? {
      return Failed(UnknownGenerationType);
    }
    var samples := Benchmark(sampler, parseCount(argv[2]), parseCount(argv[1]), generationType.value, draw);
    var sorted := SortSamples(samples);
    assert |sorted| == |samples| by {
      assert |multiset(sorted)| == |multiset(samples)|;
    }
    var metrics := CollectMetrics(sorted);
    outcome := Reported(metrics);
  }
}
