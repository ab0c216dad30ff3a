/** Byte strings of the auth client: the hex codec and XOR. */
module Hex {
  import opened Results

  type Byte = n: nat | n < 256

  // ---- The codec ----

  predicate IsHexChar(c: char) {
    '0' <= c <= '9' || 'a' <= c <= 'f' || 'A' <= c <= 'F'
  }

  /** One or more pairs of hex characters. */
  predicate IsHexString(s: string) {
    s != "" && |s| % 2 == 0 && forall i :: 0 <= i < |s| ==> IsHexChar(s[i])
  }

  /** `parseInt` of one hex character. */
  function Value(c: char): (n: nat)
    requires IsHexChar(c)
    ensures n < 16
  {
    if c <= '9' then c as int - '0' as int else if c <= 'F' then c as int - 'A' as int + 10
        else c as int - 'a' as int + 10
  }

  function Digit(n: nat): (c: char)
    requires n < 16
    ensures IsHexChar(c)
  {
    if n < 10 then '0' + n as char else 'a' + (n - 10) as char
  }

  function Pairs(s: string): seq<Byte>
    requires |s| % 2 == 0 && forall i :: 0 <= i < |s| ==> IsHexChar(s[i])
  {
    if s == "" then [] else [16 * Value(s[0]) + Value(s[1])] + Pairs(s[2..])
  }

  function HexToUint8(s: string): Result<seq<Byte>> {
    if IsHexString(s) then Ok(Pairs(s)) else Err
  }

  /** `byte.toString(16)`: one digit below 16, two otherwise. */
  function ToString16(b: Byte): string {
    if b < 16 then [Digit(b)] else [Digit(b / 16), Digit(b % 16)]
  }

  /** `('00' + byte.toString(16)).slice(-2)`. */
  function TwoDigits(b: Byte): string {
    var padded := "00" + ToString16(b);
    padded[|padded| - 2..]
  }

  function Uint8ToHex(bytes: seq<Byte>): string {
    if bytes == [] then "" else TwoDigits(bytes[0]) + Uint8ToHex(bytes[1..])
  }

  function LowerChar(c: char): char {
    if 'A' <= c <= 'F' then c - 'A' + 'a' else c
  }

  /** The string with its hex digits in lower case. */
  function Lower(s: string): (r: string)
    ensures |r| == |s| && forall i :: 0 <= i < |s| ==> r[i] == LowerChar(s[i])
  {
    seq(|s|, i requires 0 <= i < |s| => LowerChar(s[i]))
  }

  lemma TwoDigitsAre(b: Byte)
    ensures TwoDigits(b) == [Digit(b / 16), Digit(b % 16)]
  {
  }

  lemma DigitValue(n: nat)
    requires n < 16
    ensures Value(Digit(n)) == n
  {
  }

  lemma ValueDigit(c: char)
    requires IsHexChar(c)
    ensures LowerChar(c) == Digit(Value(c))
  {
  }

  lemma {:induction false} HexIsHex(bytes: seq<Byte>)
    ensures |Uint8ToHex(bytes)| == 2 * |bytes| && forall i :: 0 <= i < |Uint8ToHex(bytes)| ==>
              IsHexChar(Uint8ToHex(bytes)[i])
    ensures Pairs(Uint8ToHex(bytes)) == bytes
  {
    if bytes != [] {
      var b, rest := bytes[0], bytes[1..];
      HexIsHex(rest);
      TwoDigitsAre(b);
      DigitValue(b / 16);
      DigitValue(b % 16);
      assert Uint8ToHex(bytes)[2..] == Uint8ToHex(rest);
    }
  }

  /** Decoding undoes encoding exactly on the arrays that are not empty. */
  lemma HexRoundTrip(bytes: seq<Byte>)
    ensures HexToUint8(Uint8ToHex(bytes)) == Ok(bytes) <==> bytes != []
  {
    HexIsHex(bytes);
  }

  lemma {:induction false} PairsBack(s: string)
    requires |s| % 2 == 0 && forall i :: 0 <= i < |s| ==> IsHexChar(s[i])
    ensures Uint8ToHex(Pairs(s)) == Lower(s) && |Pairs(s)| == |s| / 2
  {
    hide Lower, LowerChar, TwoDigits, Digit, Value, IsHexChar, Uint8ToHex;
    if s == "" {
      HexOfNothing();
    } else {
      PairsBack(s[2..]);
      PairBack(s[0], s[1]);
      HexOfMore(16 * Value(s[0]) + Value(s[1]), Pairs(s[2..]));
      assert Lower(s) == [LowerChar(s[0]), LowerChar(s[1])] + Lower(s[2..]);
    }
  }

  lemma HexOfNothing()
    ensures Uint8ToHex([]) == "" == Lower("")
  {
  }

  lemma HexOfMore(b: Byte, bytes: seq<Byte>)
    ensures Uint8ToHex([b] + bytes) == TwoDigits(b) + Uint8ToHex(bytes)
  {
  }

  lemma PairBack(c: char, d: char)
    requires IsHexChar(c) && IsHexChar(d)
    ensures 16 * Value(c) + Value(d) < 256 && TwoDigits(16 * Value(c) + Value(d)) == [LowerChar(c), LowerChar(d)]
  {
    var b := 16 * Value(c) + Value(d);
    TwoDigitsAre(b);
    ValueDigit(c);
    ValueDigit(d);
    assert b / 16 == Value(c) && b % 16 == Value(d);
  }

  /** Encoding undoes decoding up to the case of the digits. */
  lemma HexBack(s: string)
    requires HexToUint8(s).Ok?
    ensures Uint8ToHex(HexToUint8(s).value) == Lower(s)
  {
    PairsBack(s);
  }

  /** What the encoding is: each byte as two digits of the usual sixteen, the higher one first. */
  lemma {:induction false} HexIsNumeral(bytes: seq<Byte>, i: nat)
    requires i < |bytes|
    ensures |Uint8ToHex(bytes)| == 2 * |bytes|
    ensures Uint8ToHex(bytes)[2 * i] == "0123456789abcdef"[bytes[i] / 16]
    ensures Uint8ToHex(bytes)[2 * i + 1] == "0123456789abcdef"[bytes[i] % 16]
  {
    TwoDigitsAre(bytes[0]);
    DigitIs(bytes[0] / 16);
    DigitIs(bytes[0] % 16);
    HexIsHex(bytes);
    if i > 0 {
      HexIsNumeral(bytes[1..], i - 1);
    }
  }

  lemma DigitIs(n: nat)
    requires n < 16
    ensures Digit(n) == "0123456789abcdef"[n]
  {
  }

  // ---- XOR ----

  /** The binary digit of weight 2^i. */
  function Bit(n: nat, i: nat): nat {
    if i == 0 then n % 2 else Bit(n / 2, i - 1)
  }


  /** XOR of the last `k` bits. */
  function XorBits(a: nat, b: nat, k: nat): nat {
    if k == 0 then 0 else 2 * XorBits(a / 2, b / 2, k - 1) + if a % 2 == b % 2 then 0 else 1
  }

  function Pow2(k: nat): nat {
    if k == 0 then 1 else 2 * Pow2(k - 1)
  }

  lemma {:induction false} XorBitsTwice(a: nat, b: nat, k: nat)
    requires a < Pow2(k)
    ensures XorBits(a, b, k) < Pow2(k) && XorBits(XorBits(a, b, k), b, k) == a
    decreases k
  {
    if k > 0 {
      XorBitsTwice(a / 2, b / 2, k - 1);
      assert XorBits(a, b, k) / 2 == XorBits(a / 2, b / 2, k - 1);
    }
  }

  lemma EightBits(a: Byte, b: Byte)
    ensures XorBits(a, b, 8) < 256 && XorBits(XorBits(a, b, 8), b, 8) == a
  {
    assert Pow2(8) == 256;
    XorBitsTwice(a, b, 8);
  }

  function XorByte(a: Byte, b: Byte): Byte {
    EightBits(a, b);
    XorBits(a, b, 8)
  }

  /** XOR with a key; where the key is too short the byte stays as it is. */
  function Xor(a: seq<Byte>, key: seq<Byte>): (r: seq<Byte>)
    ensures |r| == |a|
  {
    seq(|a|, i requires 0 <= i < |a| => if i < |key| then XorByte(a[i], key[i]) else a[i])
  }

  lemma {:induction false} XorBitsBit(a: nat, b: nat, k: nat, i: nat)
    requires i < k
    ensures Bit(XorBits(a, b, k), i) == if Bit(a, i) == Bit(b, i) then 0 else 1
    decreases k
  {
    if i > 0 {
      XorBitsBit(a / 2, b / 2, k - 1, i - 1);
      assert XorBits(a, b, k) / 2 == XorBits(a / 2, b / 2, k - 1);
    }
  }

  /** What the result is: a bit is set exactly where the two bytes differ. */
  lemma XorIsBitwise(a: seq<Byte>, key: seq<Byte>, j: nat, i: nat)
    requires j < |a| && j < |key| && i < 8
    ensures Bit(Xor(a, key)[j], i) == if Bit(a[j], i) == Bit(key[j], i) then 0 else 1
  {
    hide XorBits, Bit;
    XorBitsBit(a[j], key[j], 8, i);
  }

  lemma {:induction false} XorBitsZero(a: nat, k: nat)
    requires a < Pow2(k)
    ensures XorBits(a, 0, k) == a
    decreases k
  {
    if k > 0 {
      XorBitsZero(a / 2, k - 1);
    }
  }

  /** A key of zeros changes nothing. */
  lemma XorZero(a: seq<Byte>, key: seq<Byte>)
    requires forall i :: 0 <= i < |key| ==> key[i] == 0
    ensures Xor(a, key) == a
  {
    hide XorBits;
    forall i | 0 <= i < |a| ensures Xor(a, key)[i] == a[i] {
      assert Pow2(8) == 256;
      XorBitsZero(a[i], 8);
    }
  }

  /** XOR with the same key is its own inverse, whatever the lengths. */
  lemma XorTwice(a: seq<Byte>, key: seq<Byte>)
    ensures Xor(Xor(a, key), key) == a
  {
    hide XorByte;
    forall i | 0 <= i < |a| ensures Xor(Xor(a, key), key)[i] == a[i] {
      if i < |key| {
        XorByteTwice(a[i], key[i]);
      }
    }
  }

  lemma XorByteTwice(a: Byte, b: Byte)
    ensures XorByte(XorByte(a, b), b) == a
  {
    hide XorBits;
    EightBits(a, b);
  }

  lemma {:induction false} XorBitsCommute(a: nat, b: nat, k: nat)
    ensures XorBits(a, b, k) == XorBits(b, a, k)
    decreases k
  {
    if k > 0 {
      XorBitsCommute(a / 2, b / 2, k - 1);
    }
  }

  /** Different keys give different results. */
  lemma XorDistinguishes(a: seq<Byte>, key: seq<Byte>, key': seq<Byte>)
    requires |a| == |key| == |key'| && Xor(a, key) == Xor(a, key')
    ensures key == key'
  {
    forall i | 0 <= i < |a| ensures key[i] == key'[i] {
      assert Xor(a, key)[i] == Xor(a, key')[i];
      hide XorBits;
      XorBitsCommute(a[i], key[i], 8);
      XorBitsCommute(a[i], key'[i], 8);
      EightBits(key[i], a[i]);
      EightBits(key'[i], a[i]);
    }
  }
}
