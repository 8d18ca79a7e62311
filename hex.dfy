/** Lowercase hexadecimal text of a byte array:
    `bytes.map(b => b.toString(16).padStart(2, "0")).join("")`, the step
    shared by generateFileName (src/app/upload/actions.ts:24-28) and
    computeSHA256 (src/components/uploadCard.tsx:39-41). */
module Hex {

  type Byte = b: int | 0 <= b < 256

  /** The lowercase hex digit of a value below 16. */
  function Digit(n: nat): char
    requires n < 16
  {
    if n < 10 then ('0' as int + n) as char else ('a' as int + n - 10) as char
  }

  predicate IsHexDigit(c: char) {
    '0' <= c <= '9' || 'a' <= c <= 'f'
  }

  /** `n.toString(16)` for a byte: no leading zeros, lowercase letters. */
  function ToBase16(b: Byte): string {
    if b < 16 then [Digit(b)] else [Digit(b / 16), Digit(b % 16)]
  }

  /** `s.padStart(width, pad)` */
  function PadStart(s: string, width: nat, pad: char): string {
    if |s| >= width then s else seq(width - |s|, _ => pad) + s
  }

  /** One byte as exactly two lowercase hex digits, high nibble first. */
  function ByteHex(b: Byte): (s: string)
    ensures |s| == 2
    ensures s[0] == Digit(b / 16) && s[1] == Digit(b % 16)
  {
    PadStart(ToBase16(b), 2, '0')
  }

  /** The hex text of a byte sequence, in order. */
  function HexString(bytes: seq<Byte>): (s: string)
    ensures |s| == 2 * |bytes|
    ensures forall c :: c in s ==> IsHexDigit(c)
  {
    if bytes == [] then [] else ByteHex(bytes[0]) + HexString(bytes[1..])
  }

  /** Each byte occupies its own two characters, in order. */
  lemma {:induction false} HexStringAt(bytes: seq<Byte>, i: nat)
    requires i < |bytes|
    ensures HexString(bytes)[2 * i] == Digit(bytes[i] / 16)
    ensures HexString(bytes)[2 * i + 1] == Digit(bytes[i] % 16)
  {
    if i > 0 {
      HexStringAt(bytes[1..], i - 1);
      assert HexString(bytes) == ByteHex(bytes[0]) + HexString(bytes[1..]);
    }
  }

  /** The value of a hex digit. */
  function DigitValue(c: char): (v: nat)
    requires IsHexDigit(c)
    ensures v < 16 && Digit(v) == c
  {
    if c <= '9' then c as int - '0' as int else c as int - 'a' as int + 10
  }

  /** Reads two hex digits at a time back into bytes. */
  function HexDecode(s: string): seq<Byte>
    requires |s| % 2 == 0
    requires forall c :: c in s ==> IsHexDigit(c)
  {
    if s == [] then []
    else [DigitValue(s[0]) * 16 + DigitValue(s[1])] + HexDecode(s[2..])
  }

  /** The hex text determines the bytes: decoding it gives them back. */
  lemma {:induction false} HexRoundTrip(bytes: seq<Byte>)
    ensures HexDecode(HexString(bytes)) == bytes
  {
    if bytes != [] {
      var s := HexString(bytes);
      var pair, rest := ByteHex(bytes[0]), HexString(bytes[1..]);
      assert s == pair + rest;
      assert s[0] == pair[0] && s[1] == pair[1] && s[2..] == rest;
      ByteHexDecode(bytes[0]);
      HexRoundTrip(bytes[1..]);
    }
  }

  /** The two digits of a byte read back as that byte. */
  lemma ByteHexDecode(b: Byte)
    ensures DigitValue(ByteHex(b)[0]) * 16 + DigitValue(ByteHex(b)[1]) == b
  {
    var hi, lo := b / 16, b % 16;
    assert Digit(DigitValue(ByteHex(b)[0])) == Digit(hi);
    DigitInjective(DigitValue(ByteHex(b)[0]), hi);
    DigitInjective(DigitValue(ByteHex(b)[1]), lo);
  }

  lemma DigitInjective(m: nat, n: nat)
    requires m < 16 && n < 16 && Digit(m) == Digit(n)
    ensures m == n
  {
  }
}
