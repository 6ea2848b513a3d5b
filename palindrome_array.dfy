/** `is_permutation_palindrome_array`: 256 `unsigned char` counters, one
    per byte value, followed by a `count_if` of the odd ones. */
module ArrayVariant {
  import opened PalindromeSpec

  /** An `unsigned char` counter wraps around at 256, but its parity is that
      of the true count, because 256 is even. */
  lemma WrapKeepsParity(n: nat)
    ensures (n % 256) % 2 == n % 2
  {
  }

  /** The counting loop: `++counts[c]` for every byte of `s`. Each counter
      ends as the occurrence count of its byte, reduced modulo 256. */
  method CountWrapped(s: seq<Byte>) returns (counts: array<Byte>)
    ensures fresh(counts) && counts.Length == ByteValues
    ensures forall c :: 0 <= c < ByteValues ==> counts[c] == multiset(s)[c] % 256
  {
    counts := new Byte[ByteValues](_ => 0);
    for i := 0 to |s|
      invariant forall c :: 0 <= c < ByteValues ==> counts[c] == multiset(s[..i])[c] % 256
    {
      var c := s[i];
      counts[c] := (counts[c] as int + 1) % 256;
      assert s[..i + 1] == s[..i] + [c];
    }
    assert s[..|s|] == s;
  }

  /** The byte values below `bound` whose counter is odd. */
  function OddCounters(counts: seq<Byte>, bound: nat): set<int>
    requires bound <= |counts|
  {
    set c | 0 <= c < bound && counts[c] % 2 == 1
  }

  /** Scanning one more counter adds it to the odd counters exactly when it
      is odd. */
  lemma OddCountersStep(counts: seq<Byte>, bound: nat)
    requires bound < |counts|
    ensures counts[bound] % 2 == 1 ==> |OddCounters(counts, bound + 1)| == |OddCounters(counts, bound)| + 1
    ensures counts[bound] % 2 != 1 ==> OddCounters(counts, bound + 1) == OddCounters(counts, bound)
  {
    if counts[bound] % 2 == 1 {
      assert OddCounters(counts, bound + 1) == OddCounters(counts, bound) + {bound};
    }
  }

  /** `std::count_if(counts, a % 2)`: the number of odd counters. */
  method CountOddCounters(counts: array<Byte>) returns (n: nat)
    ensures n == |OddCounters(counts[..], counts.Length)|
  {
    n := 0;
    for c := 0 to counts.Length
      invariant n == |OddCounters(counts[..], c)|
    {
      OddCountersStep(counts[..], c);
      if counts[c] % 2 == 1 {
        n := n + 1;
      }
    }
  }

  /** The whole predicate: fewer than two counters are odd. Despite the
      wrap-around this is the same as at most one odd occurrence count. */
  method IsPermutationPalindromeArray(s: seq<Byte>) returns (r: bool)
    ensures r == IsPermutationPalindrome(s)
  {
    var counts := CountWrapped(s);
    var odd := CountOddCounters(counts);
    forall c | 0 <= c < ByteValues
      ensures counts[c] % 2 == multiset(s)[c] % 2
    {
      assert counts[c] == multiset(s)[c] % 256;
      WrapKeepsParity(multiset(s)[c]);
    }
    assert OddCounters(counts[..], ByteValues) == OddValues(s) by {
      OddValuesByRange(s);
    }
    r := odd < 2;
  }
}
