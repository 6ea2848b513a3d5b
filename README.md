# is-palindrome-benchmark, modelled in Dafny

A model of a small C++ micro-benchmark. The benchmark times three ways of
asking whether a byte string is a permutation of some palindrome, that is,
whether at most one byte value occurs an odd number of times. The model covers:

- the three candidate predicates: a hash-map counter with an early exit, 256
  wrapping `unsigned char` counters, and a 256-bit parity set. Each is
  modelled as the loop it is and proved equal to one specification
  (`PalindromeSpec.IsPermutationPalindrome`), so the three always agree;
- the input generators (homogenous, spread, random) and their dispatch;
- the benchmark driver, which collects one sample per fresh input;
- the metrics reduction `collect_metrics` and the `metric_t` accumulator of
  the three-way comparison program;
- the `main` functions, up to their output: the argument-count check, the
  parsing of the generation type, the sort before the reduction, and the
  98th-percentile lookup.

Files, one module each: `palindrome_spec.dfy` (the specification),
`palindrome_original.dfy`, `palindrome_array.dfy`, `palindrome_bitset.dfy`,
`palindrome_agreement.dfy`, `input_gen.dfy`, `driver.dfy`, `metrics.dfy`,
`cli.dfy` (the `main` of `array.cpp` and `bitset.cpp`) and `comparison.dfy`
(the `main` of `main.cpp`).

Conventions:

- A character is a `Byte` in 0..255, the value `static_cast<uint8_t>` or
  `unsigned char` gives it.
- A duration is a `Duration`: a nanosecond count in 0..INT64_MAX. A steady
  clock never goes backwards, and the count is a signed 64-bit value.
- Timing a call is an abstract function of the run index and the input
  (`sampler`, `measure`).
- The random generator's output stream is an abstract function `draw`; byte
  `i` of a random input is `draw(i)`.
- `std::stoull` is an abstract function `parseCount`.

## Model

| member | source | states |
|---|---|---|
| PalindromeSpec.ShortTextsQualify | main.cpp:12-56 | the empty string and every one-character string are permutations of a palindrome |
| PalindromeSpec.PermutationInvariant | array.cpp:13-18 | reordering the text never changes the answer |
| PalindromeSpec.PairedAppendKeepsOddValues | bitset.cpp:15-16 | appending two copies of a byte leaves the set of odd-count values unchanged |
| OriginalVariant.CountOccurrences | main.cpp:17-21 | after the counting loop the map's keys are exactly the characters of the text, and each key maps to its occurrence count |
| OriginalVariant.IsPermutationPalindromeOriginal | main.cpp:12-35 | the result is true iff at most one value has an odd count, whatever order the map is walked in; the early `return false` at the second odd count gives the same answer as a full count |
| ArrayVariant.WrapKeepsParity | array.cpp:14-17 | a counter that wraps at 256 keeps the parity of the true count |
| ArrayVariant.CountWrapped | array.cpp:14-16 | after the loop, counter `c` holds the occurrence count of `c` modulo 256 |
| ArrayVariant.CountOddCounters | array.cpp:17 | `count_if` returns the number of odd counters |
| ArrayVariant.IsPermutationPalindromeArray | array.cpp:13-18 | fewer than two odd counters iff at most one value has an odd count (the same function appears at main.cpp:39-44) |
| BitsetVariant.FlipAllIsOddValues | bitset.cpp:13-16 | after flipping once per character, bit `c` is set iff `c` occurs an odd number of times |
| BitsetVariant.FlipTwiceCancels | bitset.cpp:16 | flipping is an involution: two more copies of a byte leave the bitset unchanged |
| BitsetVariant.FlipAllOrderIndependent | bitset.cpp:15-16 | the final bitset does not depend on the order of the text |
| BitsetVariant.OddCharacters | bitset.cpp:13-16 | the flipping loop leaves bit `c` set exactly for the values flipped an odd number of times |
| BitsetVariant.PopCount | bitset.cpp:18 | `count()` returns the number of set bits |
| BitsetVariant.IsPermutationPalindromeBitset | bitset.cpp:11-19 | popcount at most 1 iff at most one value has an odd count (the same function appears at main.cpp:48-56) |
| Agreement.RunAllVariants | main.cpp:12-56 | the three variants return the same value on every input, and all return true on texts of length at most 1 |
| InputGen.Input | benchmark_utils.h:75-92 | the selected generator's output always has the requested length |
| InputGen.SpreadStep | benchmark_utils.h:52-56 | adding the stride to the wrapping `unsigned char` gives the next byte of the spread pattern |
| InputGen.SpreadPeriod | benchmark_utils.h:49-59 | with a 64-bit word the spread pattern repeats every 4 bytes |
| InputGen.SpreadValues | benchmark_utils.h:49-59 | a spread input of size 4 is [0, 64, 128, 192], and every spread byte is one of these values |
| InputGen.RandomPrefix | benchmark_utils.h:63-73 | each call starts from the same seed, so the random input of size n is a prefix of that of any size m >= n |
| InputGen.HomogenousQualifies | benchmark_utils.h:43-47 | a homogenous input is always a permutation of a palindrome |
| InputGen.GenerateHomogenousInput | benchmark_utils.h:43-47 | the output has length `size` and every byte is 'a' |
| InputGen.GenerateSpreadInput | benchmark_utils.h:49-59 | the output has length `size` and byte i is (i * 64) mod 256 |
| InputGen.GenerateRandomInput | benchmark_utils.h:63-73 | the output has length `size`, and byte i is the i-th draw of the freshly seeded generator |
| InputGen.GenerateInput | benchmark_utils.h:75-92 | the output is that of the generator matching the type; the throwing `default` branch cannot be reached |
| Driver.Benchmark | benchmark_utils.h:94-106 | exactly `run_count` samples come back; sample i comes from run i, on a freshly generated input |
| Metrics.MinOf | benchmark_utils.h:123-125 | the running minimum is a sample and is no larger than any sample |
| Metrics.MaxOf | benchmark_utils.h:127-129 | the running maximum is a sample and is no smaller than any sample |
| Metrics.P98Index | benchmark_utils.h:135 | the index floor(0.98 n) lies inside any non-empty sample set |
| Metrics.ThousandSamples | benchmark_utils.h:135 | a thousand samples put the 98th percentile at index 980 |
| Metrics.CollectMetrics | benchmark_utils.h:116-138 | min and max are the smallest and largest samples; avg is (2 * sum) / n, because each sample is added twice; p98 is the sample at floor(0.98 n); on sorted input, min and max are the first and last samples, and p98 is at least every sample before it and at most every sample after it |
| Metrics.SingleSample | benchmark_utils.h:119-135 | on one sample d, the reduction gives min = max = p98 = d but avg = 2d |
| Metrics.DoubledAverageExceedsMax | benchmark_utils.h:121-134 | the doubled sum lets the average exceed the maximum |
| Metrics.SortedEnds | benchmark_utils.h:115-129 | on sorted input the scanned minimum and maximum are the first and last samples |
| Metrics.SortSamples | array.cpp:47 | `std::sort` yields an ascending permutation of the samples |
| Metrics.SumPermutation | main.cpp:136-140 | the sum of the samples does not depend on their order |
| Metrics.MeanWithinRange | main.cpp:142 | the truncated mean lies between the smallest and the largest sample |
| Metrics.MeanSummary | main.cpp:133-167 | with the sum taken once, min <= avg <= max, and min <= p98 <= max |
| Metrics.RunningIsMinMax | main.cpp:94-110 | after at least one update, `metric_t`'s min and max are the sequence minimum and maximum |
| Metrics.RunningOrderIndependent | main.cpp:94-110 | `metric_t` ends in the same state whatever order the samples are fed in |
| Metrics.MetricAccumulator.constructor | main.cpp:94-97 | a new `metric_t` holds min = INT64_MAX, max = 0, sum = 0 |
| Metrics.MetricAccumulator.Update | main.cpp:99-109 | `update` lowers min to the sample if it is smaller, raises max to it if it is larger, and adds it to sum; the accumulator then summarises the samples seen, with the new one last |
| Cli.ParseGenerationType | array.cpp:29-40 | exactly "random", "spread" and "homogenous" are recognised, each as the type of that name; every other string fails |
| Cli.ParseName | bitset.cpp:31-42 | parsing a generation type's name gives that type back |
| Cli.RunBenchmarkProgram | array.cpp:22-48 | an argument count other than 4 fails before anything else; an unknown type fails next; otherwise the samples are benchmarked, sorted and reduced, so the reduction's sortedness precondition holds (the same `main` is at bitset.cpp:24-50) |
| Comparison.CollectSamples | main.cpp:125-131 | `samples` ends with exactly `target_amount_of_runs` entries, entry i being run i's measurement of a random input |
| Comparison.AccumulateMetrics | main.cpp:133-140 | each variant's `metric_t` has been fed that variant's durations, in run order |
| Comparison.SplitColumns | main.cpp:146-156 | each variant's vector holds that variant's durations, in run order |
| Comparison.VariantReport | main.cpp:142-167 | a variant's report is min, max, sum over the run count, and the entry at floor(0.98 n) of the sorted durations |
| Comparison.Summarize | main.cpp:133-167 | each variant's report is the single-sum summary of its durations |
| Comparison.RunComparison | main.cpp:116-160 | an argument count other than 4 is the only failure; with 4 arguments the program always reports, and each variant's report is the single-sum summary of its durations over `target_amount_of_runs` measurements of random inputs |

## Left out

- Timing (`sample` at benchmark_utils.h:25-35, `measure` at main.cpp:67-92). Steady-clock reads, sequentially consistent fences and `volatile` sinks concern memory ordering and the optimiser, which Dafny cannot express. Their results are the abstract parameters `sampler` and `measure`.
- Random byte values. `std::minstd_rand0` read through `std::uniform_int_distribution<char>` maps values in a way the standard library defines. The stream is the parameter `draw`, and its default range [0, CHAR_MAX] is not imposed. input_gen.h (included by main.cpp) repeats benchmark_utils.h:63-73 word for word; the one model `InputGen.GenerateRandomInput` stands for both definitions, and `Comparison.CollectSamples` uses it for the call at main.cpp:128.
- Signed `char`. Bytes are their unsigned values 0..255; where `char` is signed, the spread bytes 128 and 192 read as -128 and -64. The three predicates only compare characters, so this changes nothing.
- Word size. `sizeof(std::size_t) * CHAR_BIT` is fixed at 64, as on a 64-bit target.
- Floating-point percentile index. `static_cast<double>(n) * 0.98` and `size_t * 0.98` are modelled as the exact integer (98 * n) / 100. Whether double rounding matches it for every n is not verified.
- Duration width. The model does not wrap on signed 64-bit overflow of the running sums. It also leaves out the unsigned common type of `sum / samples.size()`. Samples are bounded by INT64_MAX; sums are unbounded.
- Output and I/O. Printing, output streams, the output file and its fallback to stderr (main.cpp:162-191, array.cpp:49-53, bitset.cpp:51-55) are not modelled. `std::stoull` and its exceptions are reduced to the parameter `parseCount`.
- The unused `pmr::monotonic_buffer_resource` scratch buffer (main.cpp:14-16) has no effect on the map.
- `std::sort` sorts in place. It is modelled on values by the reference insertion sort `Metrics.SortSamples`.
- The iteration order of `std::unordered_map` is unspecified. The second loop of the original variant therefore picks any unvisited key, and it is proved correct for every order.
- An empty sample set. The code has no check for it: `collect_metrics` and `main.cpp` divide by zero and index out of bounds. The reduction members therefore require at least one sample, and the two program entries require a run count of at least 1 once the arguments are well formed. The code raises no error on an empty sample set or a run count of 0, so the model makes n >= 1 a precondition.
- The 98th-percentile index. The code does not clamp it to n - 1; `Metrics.P98Index` shows that n >= 1 keeps it in bounds.
- Comparison.RunComparison: does not report the `EXIT_FAILURE` that follows a failed output-file open, since output is not modelled.

## Findings

| source | as written | input that shows it | evidently intended | confidence | as-written member | corrected member |
|---|---|---|---|---|---|---|
| benchmark_utils.h:121-134 | `sum += sample` runs twice per sample, so `avg_time` is (2 * sum) / n | the sample set [1]: avg_time = 2, max_time = 1 | the mean sum / n, which lies between min and max (main.cpp:142 computes it this way) | not executed | Metrics.DoubledAverageExceedsMax | Metrics.MeanSummary |

`Metrics.CollectMetrics` and `Cli.RunBenchmarkProgram` keep the doubled
average, because that is what the single-variant programs print. The
comparison program (`Comparison.Summarize`) uses the corrected summary
`Metrics.MeanSummary`, because that is how it computes the average.
