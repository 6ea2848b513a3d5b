/** `is_permutation_palindrome_original`: count every character in a hash
    map, then walk the map and give up at the second odd count. */
module OriginalVariant {
  import opened PalindromeSpec

  /** The counting loop: `++counter_map[ch]` for every character, where a
      missing key starts at 0. Afterwards the keys are exactly the characters
      of `text` and each holds its occurrence count. */
  method CountOccurrences(text: seq<Byte>) returns (counterMap: map<Byte, nat>)
    ensures forall c :: c in counterMap <==> c in multiset(text)
    ensures forall c :: c in counterMap ==> counterMap[c] == multiset(text)[c]
  {
    counterMap := map[];
    for i := 0 to |text|
      invariant forall c :: c in counterMap <==> c in multiset(text[..i])
      invariant forall c :: c in counterMap ==> counterMap[c] == multiset(text[..i])[c]
    {
      var ch := text[i];
      var current := if ch in counterMap then counterMap[ch] else 0;
      counterMap := counterMap[ch := current + 1];
      assert text[..i + 1] == text[..i] + [ch];
    }
    assert text[..|text|] == text;
  }

  /** The keys among `visited` whose count is odd. */
  function OddKeys(counterMap: map<Byte, nat>, visited: set<Byte>): set<Byte>
  {
    set c | c in visited && c in counterMap && counterMap[c] % 2 == 1
  }

  /** Once the map holds every occurrence count, its odd keys are exactly
      the odd values of the text. */
  lemma OddKeysOfFullCount(text: seq<Byte>, counterMap: map<Byte, nat>)
    requires forall c :: c in counterMap <==> c in multiset(text)
    requires forall c :: c in counterMap ==> counterMap[c] == multiset(text)[c]
    ensures OddKeys(counterMap, counterMap.Keys) == OddValues(text)
  {
  }

  /** Visiting one more key adds it to the odd keys exactly when its count
      is odd. */
  lemma OddKeysStep(counterMap: map<Byte, nat>, visited: set<Byte>, ch: Byte)
    requires ch in counterMap && ch !in visited
    ensures counterMap[ch] % 2 == 1 ==>
      |OddKeys(counterMap, visited + {ch})| == |OddKeys(counterMap, visited)| + 1
    ensures counterMap[ch] % 2 != 1 ==>
      OddKeys(counterMap, visited + {ch}) == OddKeys(counterMap, visited)
  {
    if counterMap[ch] % 2 == 1 {
      assert OddKeys(counterMap, visited + {ch}) == OddKeys(counterMap, visited) + {ch};
    }
  }

  /** The whole predicate. The map is walked in an unspecified order (the
      order of an `unordered_map`), modelled by picking any unvisited key;
      the early `return false` at the second odd count gives the same answer
      as counting every key. */
  method IsPermutationPalindromeOriginal(text: seq<Byte>) returns (r: bool)
    ensures r == IsPermutationPalindrome(text)
  {
    var counterMap := CountOccurrences(text);
    OddKeysOfFullCount(text, counterMap);

    var numberOfOddChars := 0;
    var toVisit := counterMap.Keys;
    ghost var visited: set<Byte> := {};
    while toVisit != {}
      invariant toVisit + visited == counterMap.Keys && toVisit !! visited
      invariant numberOfOddChars == |OddKeys(counterMap, visited)|
      invariant numberOfOddChars <= 1
      decreases |toVisit|
    {
      var ch :| ch in toVisit;
      OddKeysStep(counterMap, visited, ch);
      if counterMap[ch] % 2 == 1 {
        numberOfOddChars := numberOfOddChars + 1;
        if numberOfOddChars > 1 {
          SubsetCardinality(OddKeys(counterMap, visited + {ch}), OddKeys(counterMap, counterMap.Keys));
          return false;
        }
      }
      toVisit := toVisit - {ch};
      visited := visited + {ch};
    }
    assert visited == counterMap.Keys;
    return true;
  }
}
