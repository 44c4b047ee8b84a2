/** One-time codes: section 5.3 of RFC 4226 over the counter of RFC 6238, with HMAC-SHA-1
    left as an arbitrary function from key and message to twenty octets. */
module Totp {
  import opened Int32
  import opened Bits
  import Base32

  type Hmac = (seq<byte>, seq<byte>) -> seq<byte>

  /** What a call comes back with: a value, or the RangeError of `writeBigUInt64BE`. */
  datatype Result<T> = Ok(value: T) | RangeError

  const STEP_MS: int := 30_000
  const DIGITS: nat := 6
  const MODULUS: nat := 1_000_000
  const LAST_DATE_MS: int := 8_640_000_000_000_000

  // ----- the message: eight octets, most significant first

  function BigEndian(counter: nat, n: nat): (message: seq<byte>)
    ensures |message| == n
  {
    if n == 0 then [] else BigEndian(counter / 256, n - 1) + [counter % 256]
  }

  function Number(message: seq<byte>): nat {
    if message == [] then 0 else 256 * Number(message[..|message| - 1]) + message[|message| - 1]
  }

  function Pow256(n: nat): nat {
    if n == 0 then 1 else 256 * Pow256(n - 1)
  }

  /** No two counters share a message. */
  lemma {:induction false} MessageNamesCounter(counter: nat, n: nat)
    requires counter < Pow256(n)
    ensures Number(BigEndian(counter, n)) == counter
  {
    if n == 0 {
    } else {
      MessageNamesCounter(counter / 256, n - 1);
      assert BigEndian(counter, n)[..n - 1] == BigEndian(counter / 256, n - 1);
    }
  }

  // ----- dynamic truncation

  function Offset(hmac: seq<byte>): (o: nat)
    requires |hmac| == 20
    ensures o < 16
  {
    hmac[19] % 16
  }

  /** The word the code assembles with shifts and ors from the octets at the offset. */
  function Word(a: byte, b: byte, c: byte, d: byte): nat {
    Or(Or(Or(ShiftLeft(a, 3 * OCTET), ShiftLeft(b, 2 * OCTET)), ShiftLeft(c, OCTET)), d)
  }

  lemma {:induction false} OrBound(x: nat, y: nat, n: nat)
    requires x < Pow2(n) && y < Pow2(n)
    ensures Or(x, y) < Pow2(n)
  {
    if n == 0 {
    } else {
      OrBound(x / 2, y / 2, n - 1);
    }
  }

  lemma {:induction false} ShiftLeftBound(v: nat, k: nat)
    requires v < WORD
    ensures ShiftLeft(v, k) < WORD
    decreases k
  {
    if k == 0 {
    } else {
      ShiftLeftBound(2 * v % WORD, k - 1);
    }
  }

  lemma WordBound(a: byte, b: byte, c: byte, d: byte)
    ensures Word(a, b, c, d) < Pow2(32)
  {
    hide Or, ShiftLeft;
    WordIsPow2();
    ShiftLeftBound(a, 3 * OCTET);
    ShiftLeftBound(b, 2 * OCTET);
    ShiftLeftBound(c, OCTET);
    var ab := Or(ShiftLeft(a, 3 * OCTET), ShiftLeft(b, 2 * OCTET));
    OrBound(ShiftLeft(a, 3 * OCTET), ShiftLeft(b, 2 * OCTET), 32);
    OrBound(ab, ShiftLeft(c, OCTET), 32);
    OrBound(Or(ab, ShiftLeft(c, OCTET)), d, 32);
  }

  /** One octet moved to its place in an otherwise empty word. */
  lemma PlaceOctet(b: byte, k: nat)
    requires k <= 24
    ensures LowBits(ShiftLeft(b, k), 32) == Zeros(24 - k) + LowBits(b, OCTET) + Zeros(k)
  {
    hide ShiftLeft;
    ShiftLeftBits(b, 32 - k, k);
    assert Pow2(OCTET) == 256;
    HighZeros(b, 24 - k, OCTET);
  }

  /** Or puts disjoint halves side by side. */
  lemma OrJoins(x: nat, y: nat, n: nat, high: seq<bool>, low: seq<bool>)
    requires LowBits(x, n) == high + Zeros(|low|)
    requires LowBits(y, n) == Zeros(|high|) + low
    ensures LowBits(Or(x, y), n) == high + low
  {
    hide *;
    OrBits(x, y, n);
    JoinHalves(LowBits(x, n), LowBits(y, n), LowBits(Or(x, y), n), high, low);
  }

  lemma JoinHalves(x: seq<bool>, y: seq<bool>, r: seq<bool>, high: seq<bool>, low: seq<bool>)
    requires |x| == |y| == |r| && forall i | 0 <= i < |r| :: r[i] <==> x[i] || y[i]
    requires x == high + Zeros(|low|) && y == Zeros(|high|) + low
    ensures r == high + low
  {
    forall i | 0 <= i < |r|
      ensures r[i] == (high + low)[i]
    {
      if i < |high| {
        assert y[i] == Zeros(|high|)[i];
      } else {
        assert x[i] == Zeros(|low|)[i - |high|];
      }
    }
  }

  lemma NoZeros(bits: seq<bool>)
    ensures Zeros(0) + bits == bits && bits + Zeros(0) == bits
  {
  }

  /** The next octet goes into the first eight of the zeros that are left. */
  lemma AddOctet(word: nat, high: seq<bool>, b: byte, k: nat)
    requires k <= 24 && |high| == 24 - k && LowBits(word, 32) == high + Zeros(OCTET + k)
    ensures LowBits(Or(word, ShiftLeft(b, k)), 32) == (high + LowBits(b, OCTET)) + Zeros(k)
  {
    hide *;
    var bits := LowBits(b, OCTET);
    PlaceOctet(b, k);
    Concat3(Zeros(24 - k), bits, Zeros(k));
    OrJoins(word, ShiftLeft(b, k), 32, high, bits + Zeros(k));
    Concat3(high, bits, Zeros(k));
  }

  lemma WordUnfolds(a: byte, b: byte, c: byte, d: byte)
    ensures OCTET == 8
    ensures Word(a, b, c, d) ==
            Or(Or(Or(ShiftLeft(a, 3 * OCTET), ShiftLeft(b, 2 * OCTET)), ShiftLeft(c, OCTET)), ShiftLeft(d, 0))
  {
  }

  /** The assembled word is the four octets side by side. */
  lemma WordBits(a: byte, b: byte, c: byte, d: byte)
    ensures LowBits(Word(a, b, c, d), 32) ==
            LowBits(a, OCTET) + LowBits(b, OCTET) + LowBits(c, OCTET) + LowBits(d, OCTET)
  {
    hide *;
    WordUnfolds(a, b, c, d);
    var A, B, C, D := LowBits(a, OCTET), LowBits(b, OCTET), LowBits(c, OCTET), LowBits(d, OCTET);
    var first := ShiftLeft(a, 3 * OCTET);
    var second := Or(first, ShiftLeft(b, 2 * OCTET));
    var third := Or(second, ShiftLeft(c, OCTET));
    PlaceOctet(a, 3 * OCTET);
    NoZeros(A);
    AddOctet(first, A, b, 2 * OCTET);
    AddOctet(second, A + B, c, OCTET);
    AddOctet(third, A + B + C, d, 0);
    NoZeros(A + B + C + D);
  }

  /** The truncated value: a 31-bit number, most significant octet first. */
  function Truncated(hmac: seq<byte>): nat
    requires |hmac| == 20
  {
    var o := Offset(hmac);
    Word(hmac[o] % 128, hmac[o + 1], hmac[o + 2], hmac[o + 3])
  }

  /** Section 5.3 of RFC 4226: the low half of the last octet names one of the first sixteen, and the
      four octets from there on, without their first bit, are one number, most significant octet first. */
  lemma TruncatedIsBigEndian(hmac: seq<byte>)
    requires |hmac| == 20
    ensures var o := hmac[19] % 16;
            var a: nat, b: nat, c: nat, d: nat := hmac[o] % 128, hmac[o + 1], hmac[o + 2], hmac[o + 3];
            Truncated(hmac) == Number([a, b, c, d]) == 0x100_0000 * a + 0x1_0000 * b + 0x100 * c + d < 0x8000_0000
  {
    hide Word, Number;
    var o := hmac[19] % 16;
    WordIsFourOctets(hmac[o] % 128, hmac[o + 1], hmac[o + 2], hmac[o + 3]);
    NumberOfFour(hmac[o] % 128, hmac[o + 1], hmac[o + 2], hmac[o + 3]);
  }

  lemma NumberOfFour(a: byte, b: byte, c: byte, d: byte)
    ensures Number([a, b, c, d]) == 0x100_0000 * a + 0x1_0000 * b + 0x100 * c + d
  {
    assert [a, b, c, d][..3] == [a, b, c];
    assert [a, b, c][..2] == [a, b];
    assert [a, b][..1] == [a];
    assert Number([a]) == a;
    assert Number([a, b]) == 0x100 * a + b;
    assert Number([a, b, c]) == 0x1_0000 * a + 0x100 * b + c;
  }

  lemma ValueAppend(bits: seq<bool>, last: bool)
    ensures Value(bits + [last]) == 2 * Value(bits) + (if last then 1 else 0)
    ensures Pow2(|bits + [last]|) == 2 * Pow2(|bits|)
  {
    assert (bits + [last])[..|bits|] == bits;
  }

  lemma Doubled(p: nat, v: nat)
    ensures (2 * p) * v == 2 * (p * v)
  {
  }

  lemma {:induction false} ValueConcat(high: seq<bool>, low: seq<bool>)
    ensures Value(high + low) == Pow2(|low|) * Value(high) + Value(low)
  {
    assert Pow2(0) == 1 && Value([]) == 0;
    hide Value, Pow2;
    if low == [] {
      assert high + low == high;
    } else {
      var init, last := low[..|low| - 1], low[|low| - 1];
      ValueConcat(high, init);
      ValueAppend(init, last);
      ValueAppend(high + init, last);
      assert high + low == (high + init) + [last] && low == init + [last];
      Doubled(Pow2(|init|), Value(high));
    }
  }

  lemma WordIsFourOctets(a: byte, b: byte, c: byte, d: byte)
    ensures Word(a, b, c, d) == 0x100_0000 * a + 0x1_0000 * b + 0x100 * c + d
  {
    assert Pow2(OCTET) == 256;
    hide Word, LowBits, Value;
    WordBound(a, b, c, d);
    ValueOfLowBits(Word(a, b, c, d), 32);
    WordBits(a, b, c, d);
    var A, B, C, D := LowBits(a, OCTET), LowBits(b, OCTET), LowBits(c, OCTET), LowBits(d, OCTET);
    ValueOfLowBits(a, OCTET);
    ValueOfLowBits(b, OCTET);
    ValueOfLowBits(c, OCTET);
    ValueOfLowBits(d, OCTET);
    ValueConcat(A, B);
    ValueConcat(A + B, C);
    ValueConcat(A + B + C, D);
  }

  // ----- six digits

  function Digit(d: nat): char
    requires d < 10
  {
    ('0' as int + d) as char
  }

  /** `toString()` of a natural number. */
  function Decimal(n: nat): (s: string)
    ensures s != ""
  {
    if n < 10 then [Digit(n)] else Decimal(n / 10) + [Digit(n % 10)]
  }

  function Repeat(c: char, n: nat): (s: string)
    ensures |s| == n
  {
    seq(n, _ => c)
  }

  function PadStart(s: string, width: nat): string {
    if |s| >= width then s else Repeat('0', width - |s|) + s
  }

  /** n written with exactly k digits. */
  function Digits(n: nat, k: nat): (s: string)
    ensures |s| == k && IsDigits(s)
  {
    if k == 0 then "" else Digits(n / 10, k - 1) + [Digit(n % 10)]
  }

  predicate IsDigits(s: string) {
    forall i | 0 <= i < |s| :: '0' <= s[i] <= '9'
  }

  function Pow10(k: nat): nat {
    if k == 0 then 1 else 10 * Pow10(k - 1)
  }

  function DigitsValue(s: string): nat
    requires IsDigits(s)
  {
    if s == "" then 0 else 10 * DigitsValue(s[..|s| - 1]) + (s[|s| - 1] as int - '0' as int)
  }

  /** Zero-padding the decimal numeral gives all k digits, leading zeros included. */
  lemma {:induction false} PaddedNumeral(n: nat, k: nat)
    requires k > 0 && n < Pow10(k)
    ensures PadStart(Decimal(n), k) == Digits(n, k)
  {
    if k > 1 {
      if n < 10 {
        PaddedZero(k - 1);
        assert Digits(n, k) == Repeat('0', k - 1) + [Digit(n)];
      } else {
        PaddedNumeral(n / 10, k - 1);
        var s := Decimal(n / 10);
        assert PadStart(s, k - 1) + [Digit(n % 10)] == PadStart(s + [Digit(n % 10)], k);
      }
    } else {
      assert Digits(n, 1) == [Digit(n)];
    }
  }

  lemma {:induction false} PaddedZero(k: nat)
    ensures Digits(0, k) == Repeat('0', k)
  {
    if k == 0 {
    } else {
      PaddedZero(k - 1);
      assert Repeat('0', k) == Repeat('0', k - 1) + ['0'];
    }
  }

  lemma {:induction false} DigitsNameNumber(n: nat, k: nat)
    requires n < Pow10(k)
    ensures DigitsValue(Digits(n, k)) == n
  {
    if k == 0 {
    } else {
      DigitsNameNumber(n / 10, k - 1);
      assert Digits(n, k)[..k - 1] == Digits(n / 10, k - 1);
    }
  }

  // ----- the code of a counter, and its verification

  /** The key behind a secret as somebody typed it. */
  function Key(secret: string, others: char -> string): seq<byte> {
    Base32.Decoding(Base32.UpperCase(secret, others))
  }

  function HotpValue(hmac: Hmac, key: seq<byte>, counter: nat): (v: nat)
    requires forall k, m :: |hmac(k, m)| == 20
    ensures v < MODULUS
  {
    Truncated(hmac(key, BigEndian(counter, 8))) % MODULUS
  }

  /** The code of a counter: six digits. */
  function Code(hmac: Hmac, key: seq<byte>, counter: nat): (code: string)
    requires forall k, m :: |hmac(k, m)| == 20
    ensures IsCode(code)
  {
    Digits(HotpValue(hmac, key, counter), DIGITS)
  }

  /** `/^\d{6}$/` */
  predicate IsCode(s: string) {
    |s| == 6 && IsDigits(s)
  }

  /** Codes are equal only for equal truncated values. */
  lemma CodeNamesValue(hmac: Hmac, key: seq<byte>, counter: nat)
    requires forall k, m :: |hmac(k, m)| == 20
    ensures DigitsValue(Code(hmac, key, counter)) == HotpValue(hmac, key, counter)
  {
    assert Pow10(DIGITS) == MODULUS;
    DigitsNameNumber(HotpValue(hmac, key, counter), DIGITS);
  }

  /** Six characters, read from left to right in base ten. */
  lemma SixDigits(s: string)
    requires |s| == 6 && IsDigits(s)
    ensures DigitsValue(s) ==
            100_000 * (s[0] as int - 48) + 10_000 * (s[1] as int - 48) + 1_000 * (s[2] as int - 48) +
            100 * (s[3] as int - 48) + 10 * (s[4] as int - 48) + (s[5] as int - 48)
    ensures forall i | 0 <= i < 6 :: 48 <= s[i] as int <= 57
  {
    assert DigitsValue("") == 0;
    assert s[..1][..0] == "" && s[..2][..1] == s[..1] && s[..3][..2] == s[..2] && s[..4][..3] == s[..3] &&
           s[..5][..4] == s[..4];
    assert DigitsValue(s[..1]) == s[0] as int - 48;
    assert DigitsValue(s[..2]) == 10 * DigitsValue(s[..1]) + (s[1] as int - 48);
    assert DigitsValue(s[..3]) == 10 * DigitsValue(s[..2]) + (s[2] as int - 48);
    assert DigitsValue(s[..4]) == 10 * DigitsValue(s[..3]) + (s[3] as int - 48);
    assert DigitsValue(s[..5]) == 10 * DigitsValue(s[..4]) + (s[4] as int - 48);
  }

  /** Sections 5.3 and 5.4 of RFC 4226 for one digest: the number its last octet points at, modulo a million. */
  lemma ValueOfDigest(hmac: Hmac, key: seq<byte>, counter: nat)
    requires forall k, m :: |hmac(k, m)| == 20
    ensures var digest := hmac(key, BigEndian(counter, 8));
            var o := digest[19] % 16;
            var a: nat, b: nat, c: nat, d: nat := digest[o] % 128, digest[o + 1], digest[o + 2], digest[o + 3];
            DigitsValue(Code(hmac, key, counter)) == (0x100_0000 * a + 0x1_0000 * b + 0x100 * c + d) % 1_000_000
  {
    hide Digits, DigitsValue, Truncated, BigEndian;
    CodeNamesValue(hmac, key, counter);
    TruncatedIsBigEndian(hmac(key, BigEndian(counter, 8)));
  }

  /** The digits of a code denote the 31-bit number that the last octet of the digest points at,
      modulo a million. */
  method Generate(hmac: Hmac, secret: string, counter: int, others: char -> string) returns (r: Result<string>)
    requires forall k, m :: |hmac(k, m)| == 20
    requires counter < 0x1_0000_0000_0000_0000
    ensures counter < 0 ==> r == RangeError
    ensures counter >= 0 ==> r == Ok(Code(hmac, Key(secret, others), counter))
    ensures counter >= 0 ==>
              var digest := hmac(Base32.Decoding(Base32.UpperCase(secret, others)), BigEndian(counter, 8));
              var o := digest[19] % 16;
              var a: nat, b: nat, c: nat, d: nat := digest[o] % 128, digest[o + 1], digest[o + 2], digest[o + 3];
              |r.value| == 6 && IsDigits(r.value) &&
              DigitsValue(r.value) == (0x100_0000 * a + 0x1_0000 * b + 0x100 * c + d) % 1_000_000
  {
    hide *;
    var key := Base32.Base32Decode(secret, others);
    KeyUnfolds(secret, others);
    if counter < 0 {
      return RangeError;
    }
    var digest := hmac(key, BigEndian(counter, 8));
    var binary := Truncated(digest);
    ValueOfDigest(hmac, key, counter);
    CodeIsPadded(hmac, key, counter);
    r := Ok(PadStart(Decimal(binary % MODULUS), DIGITS));
  }

  lemma KeyUnfolds(secret: string, others: char -> string)
    ensures Key(secret, others) == Base32.Decoding(Base32.UpperCase(secret, others))
  {
  }

  lemma CodeIsPadded(hmac: Hmac, key: seq<byte>, counter: nat)
    requires forall k, m :: |hmac(k, m)| == 20
    ensures MODULUS > 0
    ensures PadStart(Decimal(Truncated(hmac(key, BigEndian(counter, 8))) % MODULUS), DIGITS) == Code(hmac, key, counter)
    ensures |Code(hmac, key, counter)| == 6 && IsDigits(Code(hmac, key, counter))
  {
    assert Pow10(DIGITS) == MODULUS;
    hide Digits, Truncated, BigEndian, Decimal, PadStart;
    PaddedNumeral(HotpValue(hmac, key, counter), DIGITS);
  }

  /** A secret the service hands out decodes to the very octets it was made from, and so does
      whatever cleans to that secret. */
  lemma SecretKeepsKey(key: seq<byte>, typed: string, others: char -> string)
    requires Base32.Clean(typed, others) == Base32.Encoding(key)
    ensures Key(typed, others) == key && Key(Base32.Encoding(key), others) == key
  {
    Base32.CleanCarriesTheSameBits(typed, others);
    Base32.RoundTrip(key);
    Base32.UpperCaseOfLetters(Base32.Encoding(key), others);
  }

  /** That is the secret typed back in lower case, in groups, or with trailing padding. */
  lemma TypedSecretKeepsKey(key: seq<byte>, typed: string, pads: nat, others: char -> string)
    requires Base32.TypedAs(typed, Base32.Encoding(key))
    ensures Key(typed + seq(pads, _ => '='), others) == key
  {
    Base32.RoundTrip(key);
    Base32.TypedIsClean(typed, Base32.Encoding(key), pads, others);
    SecretKeepsKey(key, typed + seq(pads, _ => '='), others);
  }

  /** Thirty seconds a step, counted from the epoch. */
  function Step(nowMs: int): int {
    nowMs / STEP_MS
  }

  /** After the first step of the epoch the verdict is exactly acceptance: the test for six
      digits turns away no code the generator can produce. In the first step the previous
      counter is negative, and a well-formed token makes the encoding of it throw. */
  method Verify(hmac: Hmac, secret: string, token: string, nowMs: int, others: char -> string)
      returns (r: Result<bool>)
    requires forall k, m :: |hmac(k, m)| == 20
    requires nowMs <= LAST_DATE_MS
    ensures var code, key := Base32.DropSpaces(token), Key(secret, others);
            if nowMs >= 30_000
            then r == Ok(exists c: nat :: -1 <= c - nowMs / 30_000 <= 1 && Code(hmac, key, c) == code)
            else if |code| == 6 && IsDigits(code) then r == RangeError
            else r == Ok(false)
  {
    hide *;
    IsCodeUnfolds(Base32.DropSpaces(token));
    StepUnfolds(nowMs);
    var normalized := Base32.DropSpaces(token);
    if !IsCode(normalized) {
      return Ok(false);
    }
    var counter := Step(nowMs);
    for drift := -1 to 2
      invariant drift > -1 ==> counter >= 1
      invariant forall c: nat :: counter - 1 <= c < counter + drift ==> Code(hmac, Key(secret, others), c) != normalized
    {
      var code := Generate(hmac, secret, counter + drift, others);
      if code.RangeError? {
        return RangeError;
      }
      if code.value == normalized {
        assert Code(hmac, Key(secret, others), counter + drift) == normalized;
        return Ok(true);
      }
    }
    r := Ok(false);
  }

  lemma IsCodeUnfolds(s: string)
    ensures IsCode(s) <==> |s| == 6 && IsDigits(s)
  {
  }

  lemma StepUnfolds(nowMs: int)
    ensures Step(nowMs) == nowMs / 30_000 && (nowMs >= 30_000 <==> Step(nowMs) >= 1)
    ensures nowMs <= LAST_DATE_MS ==> Step(nowMs) < 0x1_0000_0000_0000
  {
  }

  /** A code made at one moment is still good half a minute before and after it. */
  lemma SkewTolerated(hmac: Hmac, key: seq<byte>, madeMs: nat, checkedMs: nat)
    requires forall k, m :: |hmac(k, m)| == 20
    requires -30_000 <= checkedMs - madeMs <= 30_000
    ensures exists c: nat ::
              -1 <= c - checkedMs / 30_000 <= 1 && Code(hmac, key, c) == Code(hmac, key, madeMs / 30_000)
  {
    hide Code;
    var c: nat := madeMs / 30_000;
    assert -1 <= c - checkedMs / 30_000 <= 1 && Code(hmac, key, c) == Code(hmac, key, madeMs / 30_000);
  }
}
