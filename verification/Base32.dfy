/** The 32-bit integer operators of JavaScript, on bit patterns 0 .. 2^32 - 1.
    `<<` drops what leaves the word at the top and `>>>` reads its operand as unsigned,
    so the sign JavaScript gives the pattern never reaches an operator used here. */
module Int32 {

  const WORD: nat := 0x1_0000_0000

  function ShiftLeft(v: nat, k: nat): nat
    decreases k
  {
    if k == 0 then v else ShiftLeft(2 * v % WORD, k - 1)
  }

  function ShiftRight(v: nat, k: nat): nat {
    if k == 0 then v else ShiftRight(v / 2, k - 1)
  }

  /** Bitwise or, one binary digit at a time. */
  function Or(x: nat, y: nat): nat {
    if x == 0 && y == 0 then 0
    else 2 * Or(x / 2, y / 2) + (if x % 2 == 1 || y % 2 == 1 then 1 else 0)
  }

  /** Bitwise and, one binary digit at a time. */
  function And(x: nat, y: nat): nat {
    if x == 0 || y == 0 then 0
    else 2 * And(x / 2, y / 2) + (if x % 2 == 1 && y % 2 == 1 then 1 else 0)
  }
}

/** Bit strings, most significant bit first. */
module Bits {
  import opened Int32

  type byte = b: int | 0 <= b < 256

  const QUINTET: nat := 5
  const OCTET: nat := 8

  function Pow2(n: nat): (p: nat)
    ensures p > 0
  {
    if n == 0 then 1 else 2 * Pow2(n - 1)
  }

  /** The low n bits of a number; everything above them is ignored. */
  function LowBits(v: nat, n: nat): (bits: seq<bool>)
    ensures |bits| == n
  {
    if n == 0 then [] else LowBits(v / 2, n - 1) + [v % 2 == 1]
  }

  /** The number a bit string denotes. */
  function Value(bits: seq<bool>): (v: nat)
    ensures v < Pow2(|bits|)
  {
    if bits == [] then 0
    else 2 * Value(bits[..|bits| - 1]) + (if bits[|bits| - 1] then 1 else 0)
  }

  function Zeros(n: nat): (bits: seq<bool>)
    ensures |bits| == n
  {
    seq(n, _ => false)
  }

  /** The octets of a buffer, written out bit after bit. */
  function BitString(bytes: seq<byte>): (bits: seq<bool>)
    ensures |bits| == 8 * |bytes|
  {
    if bytes == [] then [] else BitString(bytes[..|bytes| - 1]) + LowBits(bytes[|bytes| - 1], OCTET)
  }

  lemma {:induction false} LowBitsOfValue(bits: seq<bool>)
    ensures LowBits(Value(bits), |bits|) == bits
  {
    if bits == [] {
    } else {
      LowBitsOfValue(bits[..|bits| - 1]);
    }
  }

  lemma {:induction false} ValueOfLowBits(v: nat, n: nat)
    requires v < Pow2(n)
    ensures Value(LowBits(v, n)) == v
  {
    if n == 0 {
    } else {
      ValueOfLowBits(v / 2, n - 1);
      assert LowBits(v, n)[..n - 1] == LowBits(v / 2, n - 1);
    }
  }

  // ----- the operators, bit by bit

  lemma Concat3(a: seq<bool>, b: seq<bool>, c: seq<bool>)
    ensures (a + b) + c == a + (b + c)
  {
  }

  lemma HalveMod(x: nat, p: nat)
    requires p > 0
    ensures x % (2 * p) / 2 == x / 2 % p && x % (2 * p) % 2 == x % 2
  {
    var q, r := x / (2 * p), x % (2 * p);
    assert x == 2 * (p * q) + r;
    assert x / 2 == p * q + r / 2 && 0 <= r / 2 < p;
    Remainder(x / 2, p, q, r / 2);
  }

  lemma Remainder(x: int, d: int, q: int, r: int)
    requires d > 0 && x == d * q + r && 0 <= r < d
    ensures x % d == r
  {
    var q' := x / d;
    assert d * (q - q') == x % d - r;
    if q > q' {
      Scale(d, q - q');
    } else if q < q' {
      Scale(d, q' - q);
    }
  }

  lemma Scale(d: nat, k: nat)
    requires k > 0
    ensures d * k >= d
  {
  }

  /** Reducing modulo 2^m leaves the low m bits alone. */
  lemma {:induction false} LowBitsWrap(v: nat, m: nat, n: nat)
    requires n <= m
    ensures LowBits(v % Pow2(m), n) == LowBits(v, n)
  {
    if n == 0 {
    } else {
      HalveMod(v, Pow2(m - 1));
      LowBitsWrap(v / 2, m - 1, n - 1);
    }
  }

  lemma WordIsPow2()
    ensures Pow2(32) == WORD
  {
    assert Pow2(8) == 0x100;
    assert Pow2(16) == 0x1_0000;
    assert Pow2(24) == 0x100_0000;
  }

  lemma {:induction false} ShiftLeftBits(v: nat, n: nat, k: nat)
    requires n + k <= 32
    ensures LowBits(ShiftLeft(v, k), n + k) == LowBits(v, n) + Zeros(k)
    decreases k
  {
    if k == 0 {
    } else {
      WordIsPow2();
      ShiftLeftBits(2 * v % WORD, n + 1, k - 1);
      LowBitsWrap(2 * v, 32, n + 1);
      assert LowBits(2 * v, n + 1) == LowBits(v, n) + [false];
      assert [false] + Zeros(k - 1) == Zeros(k);
    }
  }

  lemma {:induction false} ShiftRightBits(v: nat, n: nat, k: nat)
    ensures LowBits(v, n + k)[..n] == LowBits(ShiftRight(v, k), n)
  {
    if k == 0 {
    } else {
      ShiftRightBits(v / 2, n, k - 1);
      assert LowBits(v, n + k)[..n] == LowBits(v / 2, n + k - 1)[..n];
    }
  }

  lemma {:induction false} LowBitsTail(v: nat, n: nat, k: nat)
    ensures LowBits(v, n + k)[n..] == LowBits(v, k)
  {
    if k > 0 {
      LowBitsTail(v / 2, n, k - 1);
      assert LowBits(v, n + k)[n..] == LowBits(v / 2, n + k - 1)[n..] + [v % 2 == 1];
    } else {
      assert LowBits(v, n)[n..] == [];
    }
  }

  lemma {:induction false} OrBits(x: nat, y: nat, n: nat)
    ensures forall i :: 0 <= i < n ==> (LowBits(Or(x, y), n)[i] <==> LowBits(x, n)[i] || LowBits(y, n)[i])
  {
    if n == 0 {
    } else {
      OrBits(x / 2, y / 2, n - 1);
    }
  }

  /** A number below 2^k has nothing but zeros above its low k bits. */
  lemma {:induction false} HighZeros(b: nat, n: nat, k: nat)
    requires b < Pow2(k)
    ensures LowBits(b, n + k) == Zeros(n) + LowBits(b, k)
  {
    if k > 0 {
      HighZeros(b / 2, n, k - 1);
    } else if n > 0 {
      HighZeros(0, n - 1, 0);
    }
  }

  /** Masking with k ones reads the low k bits. */
  lemma {:induction false} AndMask(x: nat, m: nat, k: nat)
    requires m + 1 == Pow2(k)
    ensures And(x, m) == Value(LowBits(x, k))
  {
    if k == 0 {
    } else {
      AndMask(x / 2, m / 2, k - 1);
      assert LowBits(x, k)[..k - 1] == LowBits(x / 2, k - 1);
      assert m % 2 == 1;
    }
  }

  // ----- the two moves of a streaming codec

  /** k fresh bits enter at the bottom; the unmasked accumulator loses bits at the top,
      none of them among the n that count. */
  lemma Enter(v: nat, n: nat, b: nat, k: nat)
    requires b < Pow2(k) && n + k <= 32
    ensures LowBits(Or(ShiftLeft(v, k), b), n + k) == LowBits(v, n) + LowBits(b, k)
  {
    ShiftLeftBits(v, n, k);
    HighZeros(b, n, k);
    OrBits(ShiftLeft(v, k), b, n + k);
  }

  /** Reading a partial group: shifting left fills it up with zeros. */
  lemma LeavePartial(v: nat, n: nat, m: nat, k: nat)
    requires n <= k <= 32 && m + 1 == Pow2(k)
    ensures And(ShiftLeft(v, k - n), m) < Pow2(k)
    ensures LowBits(And(ShiftLeft(v, k - n), m), k) == LowBits(v, n) + Zeros(k - n)
  {
    ShiftLeftBits(v, n, k - n);
    AndMask(ShiftLeft(v, k - n), m, k);
    LowBitsOfValue(LowBits(ShiftLeft(v, k - n), k));
  }

  /** Reading k bits above the lowest n: shift right, then mask. */
  lemma Leave(v: nat, n: nat, m: nat, k: nat)
    requires m + 1 == Pow2(k)
    ensures And(ShiftRight(v, n), m) < Pow2(k)
    ensures LowBits(v, k + n) == LowBits(And(ShiftRight(v, n), m), k) + LowBits(v, n)
  {
    ShiftRightBits(v, k, n);
    LowBitsTail(v, k, n);
    AndMask(ShiftRight(v, n), m, k);
    LowBitsOfValue(LowBits(ShiftRight(v, n), k));
  }
}

/** The codec, each loop proved against the bit-string reading of section 6 of RFC 4648. */
module Base32 {
  import opened Int32
  import opened Bits

  const ALPHABET: string := "ABCDEFGHIJKLMNOPQRSTUVWXYZ234567"

  /** The i-th letter of the alphabet. */
  function Letter(i: nat): (c: char)
    requires i < 32
    ensures IsLetter(c)
  {
    if i < 26 then (i + 'A' as int) as char else (i - 26 + '2' as int) as char
  }

  predicate IsLetter(c: char) {
    'A' <= c <= 'Z' || '2' <= c <= '7'
  }

  /** The position of a character in the alphabet, or -1. */
  function IndexOf(c: char): (i: int)
    ensures -1 <= i < 32 && (i == -1 <==> !IsLetter(c))
    ensures i != -1 ==> Letter(i) == c
  {
    if 'A' <= c <= 'Z' then c as int - 'A' as int
    else if '2' <= c <= '7' then c as int - '2' as int + 26
    else -1
  }

  /** `Letter` and `IndexOf` are indexing and searching in the alphabet's own string. */
  lemma AlphabetLookup(c: char)
    ensures ALPHABET == "ABCDEFGHIJKLMNOPQRSTUVWXYZ234567"
    ensures |ALPHABET| == 32 && forall i | 0 <= i < 32 :: ALPHABET[i] == Letter(i)
    ensures IndexOf(c) == -1 <==> c !in ALPHABET
    ensures IndexOf(c) != -1 ==> ALPHABET[IndexOf(c)] == c && c !in ALPHABET[..IndexOf(c)]
  {
    assert forall i | 0 <= i < 32 :: ALPHABET[i] == Letter(i);
    assert forall i | 0 <= i < 32 :: IsLetter(Letter(i)) && IndexOf(Letter(i)) == i;
  }

  lemma IndexOfLetter(i: nat)
    requires i < 32
    ensures IndexOf(Letter(i)) == i
  {
  }

  predicate IsLetters(s: string) {
    forall i | 0 <= i < |s| :: IsLetter(s[i])
  }

  /** The number of zero bits that fill n bits up to a multiple of five. */
  function Padding(n: nat): (p: nat)
    ensures p < 5 && (n + p) % 5 == 0
  {
    if n % 5 == 0 then 0 else 5 - n % 5
  }

  lemma PaddingOf(k: nat, bits: nat)
    requires bits < 5
    ensures Padding(5 * k + bits) == if bits == 0 then 0 else 5 - bits
  {
  }

  /** The number of groups of five that n bits and their padding make. */
  function Groups(n: nat): (k: nat)
    ensures n + Padding(n) == 5 * k
  {
    (n + Padding(n)) / 5
  }

  // ----- bit-string reading

  function CharBits(c: char): seq<bool> {
    if IsLetter(c) then LowBits(IndexOf(c), QUINTET) else []
  }

  /** The five bits of each letter, one letter after another; other characters carry none. */
  function LetterBits(s: string): seq<bool> {
    if s == "" then [] else LetterBits(s[..|s| - 1]) + CharBits(s[|s| - 1])
  }

  /** One letter for each group of five bits. */
  function Letters(bits: seq<bool>): string {
    if |bits| < 5 then ""
    else
      var n := |bits| - 5;
      assert Pow2(QUINTET) == 32;
      Letters(bits[..n]) + [Letter(Value(bits[n..]))]
  }

  /** One octet for each group of eight bits. */
  function Octets(bits: seq<bool>): seq<byte> {
    if |bits| < 8 then []
    else
      var n := |bits| - 8;
      assert Pow2(OCTET) == 256;
      Octets(bits[..n]) + [Value(bits[n..])]
  }

  /** The standard's encoding: concatenate the octets, add zeros up to a multiple of five
      bits, and write one letter for each group of five. */
  function Encoding(bytes: seq<byte>): string {
    var bits := BitString(bytes);
    Letters(bits + Zeros(Padding(|bits|)))
  }

  /** The whole octets in a bit string; what does not fill one is dropped. */
  function WholeOctets(bits: seq<bool>): seq<byte> {
    Octets(bits[..|bits| - |bits| % 8])
  }

  /** The standard's decoding, skipping the characters outside the alphabet. */
  function Decoding(s: string): seq<byte> {
    WholeOctets(LetterBits(s))
  }

  lemma AppendChar(s: string, c: char)
    ensures LetterBits(s + [c]) == LetterBits(s) + CharBits(c)
  {
    assert (s + [c])[..|s|] == s;
  }

  lemma CharBitsOfGroup(group: seq<bool>)
    requires |group| == QUINTET
    ensures Value(group) < 32 && CharBits(Letter(Value(group))) == group
  {
    assert Pow2(QUINTET) == 32;
    IndexOfLetter(Value(group));
    LowBitsOfValue(group);
  }

  lemma {:induction false} LetterBitsOfLetters(bits: seq<bool>, k: nat)
    requires |bits| == 5 * k
    ensures LetterBits(Letters(bits)) == bits && IsLetters(Letters(bits)) && |Letters(bits)| == k
  {
    hide LowBits, Value, CharBits;
    if k == 0 {
    } else {
      var n := |bits| - 5;
      LetterBitsOfLetters(bits[..n], k - 1);
      CharBitsOfGroup(bits[n..]);
      AppendChar(Letters(bits[..n]), Letter(Value(bits[n..])));
      assert bits == bits[..n] + bits[n..];
    }
  }

  lemma {:induction false} LettersOfLetterBits(s: string)
    requires IsLetters(s)
    ensures |LetterBits(s)| == 5 * |s| && Letters(LetterBits(s)) == s
  {
    TooFewBits([]);
    hide Letters, LowBits, Value;
    if s == "" {
    } else {
      var init, c := s[..|s| - 1], s[|s| - 1];
      LettersOfLetterBits(init);
      AppendLetter(LetterBits(init), IndexOf(c));
      assert LetterBits(s) == LetterBits(init) + CharBits(c);
      assert Letters(LetterBits(s)) == init + [c];
    }
  }

  lemma TooFewBits(bits: seq<bool>)
    ensures |bits| < 5 ==> Letters(bits) == ""
    ensures |bits| < 8 ==> Octets(bits) == []
  {
  }

  lemma AppendLetter(bits: seq<bool>, i: nat)
    requires i < 32
    ensures Letters(bits + LowBits(i, QUINTET)) == Letters(bits) + [Letter(i)]
  {
    var more := bits + LowBits(i, QUINTET);
    assert more[..|bits|] == bits && more[|bits|..] == LowBits(i, QUINTET);
    assert Pow2(QUINTET) == 32;
    ValueOfLowBits(i, QUINTET);
  }

  lemma AppendOctet(bits: seq<bool>, b: byte)
    ensures Octets(bits + LowBits(b, OCTET)) == Octets(bits) + [b]
  {
    var more := bits + LowBits(b, OCTET);
    assert more[..|bits|] == bits && more[|bits|..] == LowBits(b, OCTET);
    assert Pow2(OCTET) == 256;
    ValueOfLowBits(b, OCTET);
  }

  lemma {:induction false} OctetsOfBitString(bytes: seq<byte>)
    ensures Octets(BitString(bytes)) == bytes
  {
    TooFewBits([]);
    hide Octets, LowBits, Value;
    if bytes == [] {
    } else {
      OctetsOfBitString(bytes[..|bytes| - 1]);
      AppendOctet(BitString(bytes[..|bytes| - 1]), bytes[|bytes| - 1]);
    }
  }

  lemma {:induction false} BitStringOfOctets(bits: seq<bool>, k: nat)
    requires |bits| == 8 * k
    ensures BitString(Octets(bits)) == bits
  {
    hide LowBits, Value;
    if k == 0 {
    } else {
      var n := |bits| - 8;
      BitStringOfOctets(bits[..n], k - 1);
      LowBitsOfValue(bits[n..]);
      var bytes := Octets(bits);
      assert bytes[..|bytes| - 1] == Octets(bits[..n]);
      assert bits == bits[..n] + bits[n..];
    }
  }

  /** Octets followed by fewer than eight stray bits cut back into those octets. */
  lemma CutDropsRest(bytes: seq<byte>, rest: seq<bool>, bits: seq<bool>)
    requires |rest| < 8 && bits == BitString(bytes) + rest
    ensures WholeOctets(bits) == bytes
  {
    assert |bits| % 8 == |rest|;
    assert bits[..|bits| - |rest|] == BitString(bytes);
    OctetsOfBitString(bytes);
  }

  // ----- the laws

  /** One letter for every five bits begun. */
  lemma EncodingLength(bytes: seq<byte>)
    ensures |Encoding(bytes)| == (8 * |bytes| + 4) / 5
  {
    var bits := BitString(bytes);
    LetterBitsOfLetters(bits + Zeros(Padding(|bits|)), Groups(|bits|));
  }

  /** Decoding undoes encoding; the zero to four padding bits never make an extra octet. */
  lemma RoundTrip(bytes: seq<byte>)
    ensures IsLetters(Encoding(bytes)) && Decoding(Encoding(bytes)) == bytes
  {
    var bits := BitString(bytes);
    LetterBitsOfLetters(bits + Zeros(Padding(|bits|)), Groups(|bits|));
    CutDropsRest(bytes, Zeros(Padding(|bits|)), bits + Zeros(Padding(|bits|)));
  }

  /** Letters only, and fewer than five bits left over from the octets, all of them zero. */
  predicate Canonical(s: string) {
    IsLetters(s) &&
    var bits := LetterBits(s);
    var left := |bits| % 8;
    left < 5 && bits[|bits| - left..] == Zeros(left)
  }

  /** Re-encoding what a string decodes to gives the string back exactly when it is canonical. */
  lemma CanonicalIffEncoding(s: string)
    ensures Encoding(Decoding(s)) == s <==> Canonical(s)
  {
    hide LetterBits, Letters, BitString, Octets, Padding, Zeros;
    var bits := LetterBits(s);
    var whole, rest := bits[..|bits| - |bits| % 8], bits[|bits| - |bits| % 8..];
    var padded := whole + Zeros(Padding(|whole|));
    BitStringOfOctets(whole, |bits| / 8);
    assert Encoding(Decoding(s)) == Letters(padded);
    LetterBitsOfLetters(padded, Groups(|whole|));
    if IsLetters(s) {
      LettersOfLetterBits(s);
      assert Letters(padded) == s <==> bits == padded;
      PaddingIsTheRest(bits, whole, rest, |s|);
    }
  }

  lemma PaddingIsTheRest(bits: seq<bool>, whole: seq<bool>, rest: seq<bool>, k: nat)
    requires bits == whole + rest && |bits| == 5 * k
    ensures bits == whole + Zeros(Padding(|whole|)) <==> |rest| < 5 && rest == Zeros(|rest|)
  {
    assert bits[|whole|..] == rest;
    assert (whole + Zeros(Padding(|whole|)))[|whole|..] == Zeros(Padding(|whole|));
    assert |rest| < 5 ==> Padding(|whole|) == |rest|;
  }

  // ----- cleaning the input of the decoder

  /** `toUpperCase` for ASCII; what it makes of other characters is left to a table. */
  function UpperChar(c: char, others: char -> string): string {
    if 'a' <= c <= 'z' then [(c as int - 'a' as int + 'A' as int) as char]
    else if c < 128 as char then [c]
    else others(c)
  }

  function UpperCase(s: string, others: char -> string): string {
    if s == "" then "" else UpperCase(s[..|s| - 1], others) + UpperChar(s[|s| - 1], others)
  }

  /** `replace(/=+$/, '')` */
  function StripPadding(s: string): string {
    if s != "" && s[|s| - 1] == '=' then StripPadding(s[..|s| - 1]) else s
  }

  /** The characters `\s` matches. */
  predicate IsSpace(c: char) {
    c == ' ' || '\t' <= c <= '\r' || c == '\U{00A0}' || c == '\U{1680}' || '\U{2000}' <= c <= '\U{200A}' ||
    c == '\U{2028}' || c == '\U{2029}' || c == '\U{202F}' || c == '\U{205F}' || c == '\U{3000}' || c == '\U{FEFF}'
  }

  /** By code point: tab to carriage return, the spaces, both separators and the byte order mark. */
  lemma SpacesByCodePoint(c: char)
    ensures IsSpace(c) <==>
            9 <= c as int <= 13 || 8192 <= c as int <= 8202 ||
            c as int in {32, 160, 5760, 8232, 8233, 8239, 8287, 12288, 65279}
  {
  }

  /** `replace(/\s+/g, '')` */
  function DropSpaces(s: string): string {
    if s == "" then "" else DropSpaces(s[..|s| - 1]) + (if IsSpace(s[|s| - 1]) then "" else [s[|s| - 1]])
  }

  function Clean(input: string, others: char -> string): string {
    DropSpaces(UpperCase(StripPadding(input), others))
  }

  lemma SpaceIsNoLetter(c: char)
    ensures IsSpace(c) ==> CharBits(c) == []
  {
  }

  lemma {:induction false} SpacesCarryNoBits(s: string)
    ensures LetterBits(DropSpaces(s)) == LetterBits(s)
  {
    if s == "" {
    } else {
      var init, c := s[..|s| - 1], s[|s| - 1];
      SpacesCarryNoBits(init);
      SpaceIsNoLetter(c);
      AppendChar(DropSpaces(init), c);
      assert DropSpaces(s) == if IsSpace(c) then DropSpaces(init) else DropSpaces(init) + [c];
    }
  }

  lemma {:induction false} PaddingCarriesNoBits(s: string, others: char -> string)
    ensures LetterBits(UpperCase(StripPadding(s), others)) == LetterBits(UpperCase(s, others))
  {
    if s != "" && s[|s| - 1] == '=' {
      var init := s[..|s| - 1];
      PaddingCarriesNoBits(init, others);
      AppendChar(UpperCase(init, others), '=');
      assert UpperCase(s, others) == UpperCase(init, others) + ['='];
      assert LetterBits(UpperCase(s, others)) == LetterBits(UpperCase(init, others));
    }
  }

  lemma CleanCarriesTheSameBits(input: string, others: char -> string)
    ensures LetterBits(Clean(input, others)) == LetterBits(UpperCase(input, others))
  {
    SpacesCarryNoBits(UpperCase(StripPadding(input), others));
    PaddingCarriesNoBits(input, others);
  }

  lemma {:induction false} UpperCaseOfLetters(s: string, others: char -> string)
    requires IsLetters(s)
    ensures UpperCase(s, others) == s
  {
    if s == "" {
    } else {
      UpperCaseOfLetters(s[..|s| - 1], others);
    }
  }

  /** One character of a typed secret: a blank, or a letter in either case. */
  predicate TypedChar(c: char, l: char) {
    c == l || ('A' <= l <= 'Z' && c as int == l as int + 32)
  }

  /** The letters typed in either case, with blanks and line breaks anywhere between them. */
  predicate TypedAs(typed: string, letters: string) {
    if typed == "" then letters == ""
    else
      var c := typed[|typed| - 1];
      if c in " \t\r\n" then TypedAs(typed[..|typed| - 1], letters)
      else
        letters != "" && TypedChar(c, letters[|letters| - 1]) &&
        TypedAs(typed[..|typed| - 1], letters[..|letters| - 1])
  }

  lemma TypedCharRead(c: char, l: char, others: char -> string)
    ensures IsLetter(l) && TypedChar(c, l) ==> UpperChar(c, others) == [l] && !IsSpace(l)
    ensures c in " \t\r\n" ==> UpperChar(c, others) == [c] && IsSpace(c)
  {
  }

  lemma {:induction false} TypedLetters(typed: string, letters: string, others: char -> string)
    requires TypedAs(typed, letters) && IsLetters(letters)
    ensures DropSpaces(UpperCase(typed, others)) == letters
  {
    hide UpperChar, IsSpace, IsLetter, TypedChar;
    if typed == "" {
    } else {
      var init, c := typed[..|typed| - 1], typed[|typed| - 1];
      if c in " \t\r\n" {
        TypedLetters(init, letters, others);
        TypedCharRead(c, c, others);
      } else {
        TypedLetters(init, letters[..|letters| - 1], others);
        TypedCharRead(c, letters[|letters| - 1], others);
      }
      hide DropSpaces;
      DropSpacesAppend(UpperCase(init, others), UpperChar(c, others)[0]);
    }
  }

  lemma DropSpacesAppend(s: string, c: char)
    ensures DropSpaces(s + [c]) == DropSpaces(s) + (if IsSpace(c) then "" else [c])
  {
    assert (s + [c])[..|s|] == s;
  }

  lemma NotPadded(typed: string, letters: string)
    requires TypedAs(typed, letters) && IsLetters(letters)
    ensures StripPadding(typed) == typed
  {
  }

  lemma {:induction false} StripAll(s: string, pads: nat)
    ensures StripPadding(s + seq(pads, _ => '=')) == StripPadding(s)
  {
    var padded := s + seq(pads, _ => '=');
    if pads == 0 {
      assert padded == s;
    } else {
      StripAll(s, pads - 1);
      assert padded[..|padded| - 1] == s + seq(pads - 1, _ => '=');
    }
  }

  /** Trailing padding is stripped, spaces are dropped, and lower case is upper case. */
  lemma TypedIsClean(typed: string, letters: string, pads: nat, others: char -> string)
    requires TypedAs(typed, letters) && IsLetters(letters)
    ensures Clean(typed + seq(pads, _ => '='), others) == letters
  {
    hide StripPadding, DropSpaces, UpperCase, TypedAs, IsLetters;
    StripAll(typed, pads);
    NotPadded(typed, letters);
    TypedLetters(typed, letters, others);
  }

  // ----- the streaming loops

  function Push<T>(xs: seq<T>, x: T): (ys: seq<T>)
    ensures |ys| == |xs| + 1
  {
    xs + [x]
  }

  /** The bits put out, one more letter included. */
  ghost function PutOut(done: seq<bool>, i: nat): (more: seq<bool>)
    ensures |more| == |done| + 5
  {
    done + LowBits(i, QUINTET)
  }

  /** What has been put out and the low bits of the accumulator that still count make up the
      stream read so far. */
  ghost predicate Pending(done: seq<bool>, value: nat, bits: nat, stream: seq<bool>) {
    done + LowBits(value, bits) == stream
  }

  /** The bits of the first i octets, and of the first i characters. */
  ghost function OctetsRead(bytes: seq<byte>, i: nat): seq<bool>
    requires i <= |bytes|
  {
    BitString(bytes[..i])
  }

  ghost function LettersRead(s: string, i: nat): seq<bool>
    requires i <= |s|
  {
    LetterBits(s[..i])
  }

  lemma AllOctetsRead(bytes: seq<byte>)
    ensures OctetsRead(bytes, |bytes|) == BitString(bytes)
  {
    assert bytes[..|bytes|] == bytes;
  }

  lemma AllLettersRead(s: string)
    ensures LettersRead(s, |s|) == LetterBits(s)
  {
    assert s[..|s|] == s;
  }

  lemma NoOctetsRead(bytes: seq<byte>)
    ensures Pending([], 0, 0, OctetsRead(bytes, 0)) && Letters([]) == ""
  {
    TooFewBits([]);
  }

  lemma NoLettersRead(s: string)
    ensures Pending(BitString([]), 0, 0, LettersRead(s, 0))
  {
  }

  lemma DecodingUnfolds(s: string)
    ensures Decoding(s) == WholeOctets(LetterBits(s))
  {
  }

  lemma PendingGrows(done: seq<bool>, value: nat, bits: nat, stream: seq<bool>, next: nat, k: nat, more: seq<bool>)
    requires Pending(done, value, bits, stream) && LowBits(next, bits + k) == LowBits(value, bits) + more
    ensures Pending(done, next, bits + k, stream + more)
  {
    hide LowBits;
    Concat3(done, LowBits(value, bits), more);
  }

  lemma BitStringStep(bytes: seq<byte>, i: nat)
    requires i < |bytes|
    ensures BitString(bytes[..i + 1]) == BitString(bytes[..i]) + LowBits(bytes[i], OCTET)
  {
    assert bytes[..i + 1][..i] == bytes[..i];
  }

  lemma EnterOctet(done: seq<bool>, value: nat, bits: nat, bytes: seq<byte>, i: nat)
    requires i < |bytes| && bits <= 24 && Pending(done, value, bits, OctetsRead(bytes, i))
    ensures Pending(done, Or(ShiftLeft(value, OCTET), bytes[i]), bits + 8, OctetsRead(bytes, i + 1))
  {
    assert Pow2(OCTET) == 256;
    hide Or, ShiftLeft, LowBits, Pow2, BitString, Pending;
    Enter(value, bits, bytes[i], 8);
    BitStringStep(bytes, i);
    PendingGrows(done, value, bits, BitString(bytes[..i]), Or(ShiftLeft(value, OCTET), bytes[i]), OCTET,
                 LowBits(bytes[i], OCTET));
  }

  /** `(value >>> (bits - 5)) & 31` */
  function TopQuintet(value: nat, bits: nat): (i: nat)
    requires bits >= 5
    ensures i < 32 && LowBits(i, QUINTET) + LowBits(value, bits - 5) == LowBits(value, bits)
  {
    assert Pow2(QUINTET) == 32;
    Leave(value, bits - 5, 31, QUINTET);
    And(ShiftRight(value, bits - 5), 31)
  }

  /** `(value << (5 - bits)) & 31` */
  function LastQuintet(value: nat, bits: nat): (i: nat)
    requires bits < 5
    ensures i < 32 && LowBits(i, QUINTET) == LowBits(value, bits) + Zeros(5 - bits)
  {
    assert Pow2(QUINTET) == 32;
    LeavePartial(value, bits, 31, QUINTET);
    And(ShiftLeft(value, QUINTET - bits), 31)
  }

  lemma EmitLetter(done: seq<bool>, value: nat, bits: nat, stream: seq<bool>)
    requires bits >= 5 && Pending(done, value, bits, stream)
    ensures var i := TopQuintet(value, bits);
            Letters(PutOut(done, i)) == Push(Letters(done), Letter(i)) &&
            Pending(PutOut(done, i), value, bits - 5, stream)
  {
    hide LowBits, Letters, TopQuintet;
    AppendLetter(done, TopQuintet(value, bits));
  }

  method Base32Encode(buffer: seq<byte>) returns (output: string)
    ensures output == Encoding(buffer)
  {
    hide *;
    NoOctetsRead(buffer);
    var bits, value := 0, 0;
    output := "";
    ghost var done: seq<bool> := [];
    for i := 0 to |buffer|
      invariant 0 <= bits < 5 && 0 <= value
      invariant output == Letters(done) && |done| == 5 * |output|
      invariant Pending(done, value, bits, OctetsRead(buffer, i))
    {
      EnterOctet(done, value, bits, buffer, i);
      value := Or(ShiftLeft(value, OCTET), buffer[i]);
      bits := bits + 8;
      while bits >= 5
        invariant 0 <= bits <= 12
        invariant output == Letters(done) && |done| == 5 * |output|
        invariant Pending(done, value, bits, OctetsRead(buffer, i + 1))
      {
        EmitLetter(done, value, bits, OctetsRead(buffer, i + 1));
        done := PutOut(done, TopQuintet(value, bits));
        output := Push(output, Letter(TopQuintet(value, bits)));
        bits := bits - 5;
      }
    }
    AllOctetsRead(buffer);
    EmitRemainder(done, value, bits, buffer, |output|);
    if bits > 0 {
      output := Push(output, Letter(LastQuintet(value, bits)));
    }
  }

  /** The last, partial group of five is filled up with zeros. */
  lemma EmitRemainder(done: seq<bool>, value: nat, bits: nat, buffer: seq<byte>, k: nat)
    requires bits < 5 && |done| == 5 * k
    requires Pending(done, value, bits, BitString(buffer))
    ensures bits == 0 ==> Letters(done) == Encoding(buffer)
    ensures bits > 0 ==> Push(Letters(done), Letter(LastQuintet(value, bits))) == Encoding(buffer)
  {
    hide LowBits, BitString, Letters, LastQuintet, Padding;
    PaddingOf(k, bits);
    if bits == 0 {
      assert done == BitString(buffer) + Zeros(0);
    } else {
      AppendLetter(done, LastQuintet(value, bits));
      assert done + LowBits(LastQuintet(value, bits), QUINTET) == BitString(buffer) + Zeros(5 - bits);
    }
  }

  lemma LetterBitsStep(s: string, i: nat)
    requires i < |s|
    ensures LetterBits(s[..i + 1]) == LetterBits(s[..i]) + CharBits(s[i])
  {
    assert s[..i + 1][..i] == s[..i];
  }

  lemma EnterLetter(done: seq<bool>, value: nat, bits: nat, clean: string, i: nat)
    requires i < |clean| && bits <= 27 && Pending(done, value, bits, LettersRead(clean, i))
    ensures var idx := IndexOf(clean[i]);
            if idx == -1 then LettersRead(clean, i + 1) == LettersRead(clean, i)
            else Pending(done, Or(ShiftLeft(value, QUINTET), idx), bits + 5, LettersRead(clean, i + 1))
  {
    assert Pow2(QUINTET) == 32;
    var idx := IndexOf(clean[i]);
    assert CharBits(clean[i]) == if idx == -1 then [] else LowBits(idx, QUINTET);
    hide Or, ShiftLeft, LowBits, Pow2, LetterBits, CharBits, Pending, IndexOf;
    LetterBitsStep(clean, i);
    if idx != -1 {
      Enter(value, bits, idx, 5);
      PendingGrows(done, value, bits, LetterBits(clean[..i]), Or(ShiftLeft(value, QUINTET), idx), QUINTET,
                   LowBits(idx, QUINTET));
    }
  }

  /** `(value >>> (bits - 8)) & 0xff` */
  function TopOctet(value: nat, bits: nat): byte
    requires bits >= 8
  {
    assert Pow2(OCTET) == 256;
    Leave(value, bits - 8, 0xff, OCTET);
    And(ShiftRight(value, bits - 8), 0xff)
  }

  lemma EmitOctet(bytes: seq<byte>, value: nat, bits: nat, stream: seq<bool>)
    requires bits >= 8 && Pending(BitString(bytes), value, bits, stream)
    ensures Pending(BitString(Push(bytes, TopOctet(value, bits))), value, bits - 8, stream)
  {
    hide LowBits, BitString, TopOctet, Push;
    TopOctetBits(value, bits);
    BitStringPush(bytes, TopOctet(value, bits));
    Concat3(BitString(bytes), LowBits(TopOctet(value, bits), OCTET), LowBits(value, bits - 8));
  }

  lemma TopOctetBits(value: nat, bits: nat)
    requires bits >= 8
    ensures LowBits(value, bits) == LowBits(TopOctet(value, bits), OCTET) + LowBits(value, bits - 8)
  {
    assert Pow2(OCTET) == 256;
    hide LowBits, Pow2;
    Leave(value, bits - 8, 0xff, OCTET);
  }

  lemma BitStringPush(bytes: seq<byte>, b: byte)
    ensures BitString(Push(bytes, b)) == BitString(bytes) + LowBits(b, OCTET)
  {
    var more := Push(bytes, b);
    assert more[..|bytes|] == bytes;
  }

  lemma PendingIs(done: seq<bool>, value: nat, bits: nat, stream: seq<bool>)
    ensures Pending(done, value, bits, stream) <==> stream == done + LowBits(value, bits)
    ensures |LowBits(value, bits)| == bits
  {
  }

  /** Only the letters in the upper-cased input count. */
  method Base32Decode(input: string, others: char -> string) returns (bytes: seq<byte>)
    ensures bytes == Decoding(UpperCase(input, others))
  {
    hide *;
    DecodingUnfolds(UpperCase(input, others));
    var clean := Clean(input, others);
    NoLettersRead(clean);
    var bits, value := 0, 0;
    bytes := [];
    for i := 0 to |clean|
      invariant 0 <= bits < 8 && 0 <= value
      invariant Pending(BitString(bytes), value, bits, LettersRead(clean, i))
    {
      var idx := IndexOf(clean[i]);
      EnterLetter(BitString(bytes), value, bits, clean, i);
      if idx == -1 {
        continue;
      }
      value := Or(ShiftLeft(value, QUINTET), idx);
      bits := bits + 5;
      if bits >= 8 {
        EmitOctet(bytes, value, bits, LettersRead(clean, i + 1));
        bytes := Push(bytes, TopOctet(value, bits));
        bits := bits - 8;
      }
    }
    AllLettersRead(clean);
    CleanCarriesTheSameBits(input, others);
    PendingIs(BitString(bytes), value, bits, LetterBits(clean));
    CutDropsRest(bytes, LowBits(value, bits), LetterBits(clean));
  }
}
