/** The three candidate predicates that `main.cpp` times side by side. */
module Agreement {
  import opened PalindromeSpec
  import OriginalVariant
  import ArrayVariant
  import BitsetVariant

  /** Run all three variants on one input, as one measurement does. They
      always agree, and they all accept the empty string and every
      one-character string. */
  method RunAllVariants(text: seq<Byte>) returns (original: bool, arrayBased: bool, bitsetBased: bool)
    ensures original == arrayBased && arrayBased == bitsetBased
    ensures original <==> IsPermutationPalindrome(text)
    ensures |text| <= 1 ==> original
  {
    original := OriginalVariant.IsPermutationPalindromeOriginal(text);
    arrayBased := ArrayVariant.IsPermutationPalindromeArray(text);
    bitsetBased := BitsetVariant.IsPermutationPalindromeBitset(text);
    if |text| <= 1 {
      ShortTextsQualify(text);
    }
  }
}
