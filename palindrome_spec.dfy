/** The predicate every benchmarked function computes: whether some
    permutation of a byte string is a palindrome, i.e. whether at most one
    byte value occurs an odd number of times. */
module PalindromeSpec {

  /** One character of a `std::string`, read through `unsigned char`. */
  type Byte = b: int | 0 <= b < 256

  /** Number of distinct byte values (`1u + (unsigned char)-1`). */
  const ByteValues: nat := 256

  /** The byte values that occur an odd number of times in `text`. */
  function OddValues(text: seq<Byte>): set<Byte>
  {
    set c | c in multiset(text) && multiset(text)[c] % 2 == 1
  }

  /** At most one byte value has an odd occurrence count. */
  predicate IsPermutationPalindrome(text: seq<Byte>)
  {
    |OddValues(text)| <= 1
  }

  /** The odd values, described by a scan over the whole byte range (the
      form that the array and bitset variants compute). */
  lemma OddValuesByRange(text: seq<Byte>)
    ensures OddValues(text) == set c: int | 0 <= c < ByteValues && multiset(text)[c] % 2 == 1
  {
  }

  /** A subset never has more elements than its superset. */
  lemma {:induction false} SubsetCardinality<T>(small: set<T>, big: set<T>)
    requires small <= big
    ensures |small| <= |big|
  {
    if small != {} {
      var x :| x in small;
      SubsetCardinality(small - {x}, big - {x});
    }
  }

  /** Reordering the text never changes the answer. */
  lemma PermutationInvariant(s: seq<Byte>, t: seq<Byte>)
    requires multiset(s) == multiset(t)
    ensures IsPermutationPalindrome(s) == IsPermutationPalindrome(t)
  {
  }

  /** The empty string and every one-character string qualify. */
  lemma ShortTextsQualify(text: seq<Byte>)
    requires |text| <= 1
    ensures IsPermutationPalindrome(text)
  {
    if |text| == 1 {
      assert multiset(text) == multiset{text[0]};
      assert OddValues(text) == {text[0]};
    } else {
      assert multiset(text) == multiset{};
    }
  }

  /** Appending two copies of one byte leaves the odd values as they were. */
  lemma PairedAppendKeepsOddValues(text: seq<Byte>, c: Byte)
    ensures OddValues(text + [c, c]) == OddValues(text)
  {
    assert multiset(text + [c, c]) == multiset(text) + multiset{c, c};
  }
}
