/** `is_permutation_palindrome_bitset`: a `std::bitset<256>` whose bit `c`
    is flipped for every occurrence of byte `c`; the text qualifies when at
    most one bit ends up set. */
module BitsetVariant {
  import opened PalindromeSpec

  /** `std::bitset::flip(c)` on the set of positions whose bit is set. */
  function Flip(bits: set<Byte>, c: Byte): set<Byte>
  {
    if c in bits then bits - {c} else bits + {c}
  }

  /** The bits set after flipping once per character of `text`, in order. */
  function FlipAll(text: seq<Byte>): set<Byte>
  {
    if text == [] then {} else Flip(FlipAll(text[..|text| - 1]), text[|text| - 1])
  }

  /** Bit `c` ends up set exactly when `c` occurs an odd number of times. */
  lemma {:induction false} FlipAllIsOddValues(text: seq<Byte>)
    ensures FlipAll(text) == OddValues(text)
  {
    if text != [] {
      var prefix, c := text[..|text| - 1], text[|text| - 1];
      FlipAllIsOddValues(prefix);
      assert text == prefix + [c];
      assert multiset(text) == multiset(prefix) + multiset{c};
    }
  }

  /** Flipping is an involution: two more copies of any byte leave the
      bitset as it was. */
  lemma FlipTwiceCancels(text: seq<Byte>, c: Byte)
    ensures FlipAll(text + [c, c]) == FlipAll(text)
  {
    assert (text + [c, c])[..|text| + 1] == text + [c];
    assert (text + [c])[..|text|] == text;
  }

  /** The final bitset depends only on how often each byte occurs, not on
      their order. */
  lemma FlipAllOrderIndependent(s: seq<Byte>, t: seq<Byte>)
    requires multiset(s) == multiset(t)
    ensures FlipAll(s) == FlipAll(t)
  {
    FlipAllIsOddValues(s);
    FlipAllIsOddValues(t);
  }

  /** The flipping loop over a zeroed `std::bitset<256>`. */
  method OddCharacters(text: seq<Byte>) returns (bits: array<bool>)
    ensures fresh(bits) && bits.Length == ByteValues
    ensures forall c :: 0 <= c < ByteValues ==> (bits[c] <==> c in FlipAll(text))
  {
    bits := new bool[ByteValues](_ => false);
    for i := 0 to |text|
      invariant forall c :: 0 <= c < ByteValues ==> (bits[c] <==> c in FlipAll(text[..i]))
    {
      var ch := text[i];
      bits[ch] := !bits[ch];
      assert text[..i + 1][..i] == text[..i];
    }
    assert text[..|text|] == text;
  }

  /** The positions below `bound` whose bit is set. */
  function SetBits(bits: seq<bool>, bound: nat): set<int>
    requires bound <= |bits|
  {
    set c | 0 <= c < bound && bits[c]
  }

  /** Scanning one more bit adds its position exactly when it is set. */
  lemma SetBitsStep(bits: seq<bool>, bound: nat)
    requires bound < |bits|
    ensures bits[bound] ==> |SetBits(bits, bound + 1)| == |SetBits(bits, bound)| + 1
    ensures !bits[bound] ==> SetBits(bits, bound + 1) == SetBits(bits, bound)
  {
    if bits[bound] {
      assert SetBits(bits, bound + 1) == SetBits(bits, bound) + {bound};
    }
  }

  /** `std::bitset::count`: the number of set bits. */
  method PopCount(bits: array<bool>) returns (n: nat)
    ensures n == |SetBits(bits[..], bits.Length)|
  {
    n := 0;
    for c := 0 to bits.Length
      invariant n == |SetBits(bits[..], c)|
    {
      SetBitsStep(bits[..], c);
      if bits[c] {
        n := n + 1;
      }
    }
  }

  /** The whole predicate: the popcount of the final bitset is at most one. */
  method IsPermutationPalindromeBitset(text: seq<Byte>) returns (r: bool)
    ensures r == IsPermutationPalindrome(text)
  {
    var oddCharacters := OddCharacters(text);
    var setCount := PopCount(oddCharacters);
    FlipAllIsOddValues(text);
    OddValuesByRange(text);
    assert SetBits(oddCharacters[..], ByteValues) == OddValues(text);
    r := setCount <= 1;
  }
}
