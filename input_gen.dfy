/** The input generators of the benchmark: each one fills a fresh
    buffer of exactly the requested size. */
module InputGen {
  import opened PalindromeSpec

  /** `input_generation_type`. */
  datatype GenerationType = Homogenous | Spread | Random

  /** The character `'a'`. */
  const LetterA: Byte := 97

  /** `sizeof(std::size_t) * CHAR_BIT` on a 64-bit target: the stride of the
      spread generator. */
  const WordBits: nat := 64

  /** Byte `i` of a spread input: the stride added `i` times to an
      `unsigned char` that starts at 0 and wraps at 256. */
  function SpreadByte(i: nat): Byte
  {
    (i * WordBits) % 256
  }

  /** The homogenous input: every byte is `'a'`. */
  function HomogenousInput(size: nat): seq<Byte>
  {
    seq(size, _ => LetterA)
  }

  /** The spread input. */
  function SpreadInput(size: nat): seq<Byte>
  {
    seq(size, i requires 0 <= i => SpreadByte(i))
  }

  /** The random input. `draw(i)` is the `i`-th value that a freshly
      default-seeded `std::minstd_rand0`, read through
      `std::uniform_int_distribution<char>`, yields; that value mapping is
      left to the standard library, so the stream is a parameter. */
  function RandomInput(size: nat, draw: nat -> Byte): seq<Byte>
  {
    seq(size, i requires 0 <= i => draw(i))
  }

  /** `generate_input`: the generator that `t` selects. */
  function Input(size: nat, t: GenerationType, draw: nat -> Byte): (r: seq<Byte>)
    ensures |r| == size
  {
    match t
    case Homogenous => HomogenousInput(size)
    case Spread => SpreadInput(size)
    case Random => RandomInput(size, draw)
  }

  /** One step of the spread loop: adding the stride to the wrapped byte
      gives the next byte of the pattern. */
  lemma SpreadStep(i: nat)
    ensures (SpreadByte(i) + WordBits) % 256 == SpreadByte(i + 1)
  {
  }

  /** With a 64-bit stride the spread input repeats with period 4. */
  lemma SpreadPeriod(i: nat)
    ensures SpreadByte(i + 4) == SpreadByte(i)
  {
  }

  /** The first four spread bytes are 0, 64, 128, 192, so every spread byte
      is one of them. */
  lemma SpreadValues(i: nat)
    ensures SpreadInput(4) == [0, 64, 128, 192]
    ensures SpreadByte(i) in {0, 64, 128, 192}
  {
  }

  /** The random input of a size is a prefix of the random input of any
      larger size: each call starts from the same fixed seed. */
  lemma RandomPrefix(n: nat, m: nat, draw: nat -> Byte)
    requires n <= m
    ensures RandomInput(n, draw) == RandomInput(m, draw)[..n]
  {
  }

  /** Every homogenous input is a permutation of a palindrome: only `'a'`
      occurs, so at most one byte value has an odd count. */
  lemma HomogenousQualifies(size: nat)
    ensures IsPermutationPalindrome(HomogenousInput(size))
  {
    var text := HomogenousInput(size);
    forall c | c in OddValues(text)
      ensures c == LetterA
    {
      assert c in multiset(text);
      assert c in text;
    }
    SubsetCardinality(OddValues(text), {LetterA});
  }

  /** `generate_homogenous_input`: a zeroed buffer filled with `'a'`. */
  method GenerateHomogenousInput(size: nat) returns (r: seq<Byte>)
    ensures |r| == size
    ensures forall i :: 0 <= i < size ==> r[i] == LetterA
    ensures r == HomogenousInput(size)
  {
    var result := new Byte[size](_ => 0);
    for i := 0 to size
      invariant forall j :: 0 <= j < i ==> result[j] == LetterA
    {
      result[i] := LetterA;
    }
    r := result[..];
  }

  /** `generate_spread_input`: a zeroed buffer whose bytes take the value of
      a wrapping `unsigned char` that grows by the stride each step. */
  method GenerateSpreadInput(size: nat) returns (r: seq<Byte>)
    ensures |r| == size
    ensures forall i :: 0 <= i < size ==> r[i] == (i * WordBits) % 256
    ensures r == SpreadInput(size)
  {
    var result := new Byte[size](_ => 0);
    var startChar: Byte := 0;
    for i := 0 to size
      invariant startChar == SpreadByte(i)
      invariant forall j :: 0 <= j < i ==> result[j] == SpreadByte(j)
    {
      result[i] := startChar;
      SpreadStep(i);
      startChar := (startChar + WordBits) % 256;
    }
    r := result[..];
  }

  /** `generate_random_input`: a zeroed buffer filled front to back with
      successive draws of a freshly seeded generator. */
  method GenerateRandomInput(size: nat, draw: nat -> Byte) returns (r: seq<Byte>)
    ensures |r| == size
    ensures forall i :: 0 <= i < size ==> r[i] == draw(i)
    ensures r == RandomInput(size, draw)
  {
    var result := new Byte[size](_ => 0);
    var drawn := 0;
    for i := 0 to size
      invariant drawn == i
      invariant forall j :: 0 <= j < i ==> result[j] == draw(j)
    {
      result[i] := draw(drawn);
      drawn := drawn + 1;
    }
    r := result[..];
  }

  /** `generate_input`: dispatch on the generation type. The `default`
      branch that throws `std::logic_error` cannot be reached, since the
      type has exactly these three values. */
  method GenerateInput(size: nat, t: GenerationType, draw: nat -> Byte) returns (r: seq<Byte>)
    ensures |r| == size
    ensures r == Input(size, t, draw)
  {
    match t
    case Homogenous => r := GenerateHomogenousInput(size);
    case Spread => r := GenerateSpreadInput(size);
    case Random => r := GenerateRandomInput(size, draw);
  }
}
