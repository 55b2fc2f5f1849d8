/** The hexadecimal text the advertisement handler feeds to the decoder:
    `QByteArray::number(n, 16)` (lower-case digits, no leading zeros),
    `rightJustified(4, '0')` (left padding that never truncates),
    `QByteArray::toHex()` (two lower-case digits per byte) and
    `endian_flip_16` (a swap of the two bytes of a 16-bit value). Each
    encoder is paired with a parser so that the round trips can be stated. */
module Hex {

  type Byte = b: int | 0 <= b < 0x100
  type Uint16 = n: int | 0 <= n < 0x1_0000

  const Digits: string := "0123456789abcdef"

  predicate IsHexDigit(c: char) {
    '0' <= c <= '9' || 'a' <= c <= 'f'
  }

  predicate IsHexString(s: string) {
    forall i :: 0 <= i < |s| ==> IsHexDigit(s[i])
  }

  function DigitChar(d: nat): (c: char)
    requires d < 16
    ensures IsHexDigit(c)
    ensures DigitValue(c) == d
  {
    Digits[d]
  }

  /** The value of a hex digit; any other character reads as 0. */
  function DigitValue(c: char): (d: nat)
    ensures d < 16
  {
    if '0' <= c <= '9' then c as int - '0' as int
    else if 'a' <= c <= 'f' then c as int - 'a' as int + 10
    else 0
  }

  /** `endian_flip_16`: the low byte becomes the high byte and vice versa.
      The helper's definition is not part of this model; this is the
      behaviour its name and use (a little-endian company identifier printed
      most significant digit first) imply. */
  function EndianFlip16(x: Uint16): (r: Uint16)
    ensures r / 0x100 == x % 0x100 && r % 0x100 == x / 0x100
  {
    (x % 0x100) * 0x100 + x / 0x100
  }

  /** Swapping twice gives back the original value, so the printed identifier
      determines the company identifier. */
  lemma EndianFlip16Involution(x: Uint16)
    ensures EndianFlip16(EndianFlip16(x)) == x
  {
    var lo, hi := x % 0x100, x / 0x100;
    var y := lo * 0x100 + hi;
    assert y % 0x100 == hi && y / 0x100 == lo;
  }

  /** Hex strings are closed under concatenation, and so under slicing back. */
  lemma ConcatHex(a: string, b: string)
    requires IsHexString(a) && IsHexString(b)
    ensures IsHexString(a + b)
    ensures (a + b)[..|a|] == a && (a + b)[|a|..] == b
  {
    forall i | 0 <= i < |a + b| ensures IsHexDigit((a + b)[i]) {
      if i < |a| {
        assert (a + b)[i] == a[i];
      } else {
        assert (a + b)[i] == b[i - |a|];
      }
    }
  }

  /** `QByteArray::number(n, 16)`: most significant digit first, no leading zeros. */
  function HexNumber(n: nat): (s: string)
    ensures 1 <= |s|
    ensures IsHexString(s)
    ensures n < 0x10 ==> |s| == 1
    ensures n >= 0x10 ==> s[0] != '0'
  {
    if n < 0x10 then [DigitChar(n)]
    else HexNumber(n / 0x10) + [DigitChar(n % 0x10)]
  }

  /** Reads a string of hex digits back as a number, most significant first. */
  function ParseHex(s: string): nat
  {
    if s == [] then 0
    else ParseHex(s[..|s| - 1]) * 0x10 + DigitValue(s[|s| - 1])
  }

  /** A 16-bit value never needs more than four digits. */
  lemma {:induction false} HexNumberWidth(n: nat)
    ensures n < 0x1_0000 ==> |HexNumber(n)| <= 4
    ensures n < 0x1000 ==> |HexNumber(n)| <= 3
    ensures n < 0x100 ==> |HexNumber(n)| <= 2
  {
    if n >= 0x10 {
      HexNumberWidth(n / 0x10);
    }
  }

  lemma {:induction false} HexNumberRoundTrip(n: nat)
    ensures ParseHex(HexNumber(n)) == n
  {
    if n >= 0x10 {
      HexNumberRoundTrip(n / 0x10);
      var s := HexNumber(n);
      assert s[..|s| - 1] == HexNumber(n / 0x10);
    }
  }

  /** `k` copies of `c`. */
  function Repeat(c: char, k: nat): (s: string)
    ensures |s| == k
    ensures forall i :: 0 <= i < k ==> s[i] == c
  {
    if k == 0 then [] else [c] + Repeat(c, k - 1)
  }

  /** `rightJustified(width, fill)` with Qt's default of not truncating. */
  function RightJustified(s: string, width: nat, fill: char): (r: string)
    ensures |r| == if |s| < width then width else |s|
    ensures r[|r| - |s|..] == s
    ensures forall i :: 0 <= i < |r| - |s| ==> r[i] == fill
  {
    if |s| < width then Repeat(fill, width - |s|) + s else s
  }

  /** Leading zeros do not change the value that is read back. */
  lemma {:induction false} ParseHexLeadingZeros(k: nat, s: string)
    requires IsHexString(s)
    ensures IsHexString(Repeat('0', k) + s)
    ensures ParseHex(Repeat('0', k) + s) == ParseHex(s)
    decreases |s|
  {
    var z := Repeat('0', k);
    assert IsHexString(z + s);
    if s == [] {
      assert z + s == z;
      ParseHexZeros(k);
    } else {
      var s' := s[..|s| - 1];
      assert (z + s)[..|z + s| - 1] == z + s';
      ParseHexLeadingZeros(k, s');
    }
  }

  lemma {:induction false} ParseHexZeros(k: nat)
    ensures IsHexString(Repeat('0', k))
    ensures ParseHex(Repeat('0', k)) == 0
  {
    var z := Repeat('0', k);
    assert IsHexString(z);
    if k > 0 {
      assert z[..k - 1] == Repeat('0', k - 1);
      ParseHexZeros(k - 1);
    }
  }

  /** A 16-bit value printed in hex and padded to width 4: always exactly four
      hex digits. */
  function Hex4(n: Uint16): (s: string)
    ensures |s| == 4
    ensures IsHexString(s)
  {
    var h := HexNumber(n);
    HexNumberWidth(n);
    ParseHexZeros(4 - |h|);
    ConcatHex(Repeat('0', 4 - |h|), h);
    assert RightJustified(h, 4, '0') == Repeat('0', 4 - |h|) + h;
    RightJustified(h, 4, '0')
  }

  /** The four digits are the number's own digits after the padding zeros. */
  lemma Hex4Padded(n: Uint16)
    ensures |HexNumber(n)| <= 4 && Hex4(n) == Repeat('0', 4 - |HexNumber(n)|) + HexNumber(n)
  {
    HexNumberWidth(n);
  }

  /** Reading the four digits back gives the value: the padding zeros add nothing. */
  lemma Hex4RoundTrip(n: Uint16)
    ensures ParseHex(Hex4(n)) == n
  {
    var h := HexNumber(n);
    Hex4Padded(n);
    HexNumberRoundTrip(n);
    ParseHexLeadingZeros(4 - |h|, h);
  }

  /** `QByteArray::toHex()`: two lower-case digits per byte, in order. */
  function ToHex(bytes: seq<Byte>): (s: string)
    ensures |s| == 2 * |bytes|
    ensures IsHexString(s)
  {
    if bytes == [] then []
    else [DigitChar(bytes[0] / 0x10), DigitChar(bytes[0] % 0x10)] + ToHex(bytes[1..])
  }

  /** Reads pairs of hex digits back as bytes. */
  function FromHex(s: string): seq<Byte>
    decreases |s|
  {
    if |s| < 2 then []
    else [DigitValue(s[0]) * 0x10 + DigitValue(s[1])] + FromHex(s[2..])
  }

  lemma {:induction false} ToHexRoundTrip(bytes: seq<Byte>)
    ensures FromHex(ToHex(bytes)) == bytes
  {
    if bytes != [] {
      ToHexRoundTrip(bytes[1..]);
      assert ToHex(bytes)[2..] == ToHex(bytes[1..]);
    }
  }

  /** A worked manufacturer field: Apple's company identifier 0x004C is
      byte-swapped to 0x4C00 and printed as "4c00" (already four digits, so
      `rightJustified` adds nothing), and the iBeacon payload prefix 02 15
      prints as "0215". */
  lemma AppleBeaconDigitsExample()
    ensures EndianFlip16(0x004C) == 0x4C00
    ensures HexNumber(0x4C00) == "4c00"
    ensures ToHex([0x02, 0x15]) == "0215"
  {
    assert HexNumber(0x4C00) == "4c00" by {
      assert DigitChar(0x4) == '4' && DigitChar(0xC) == 'c' && DigitChar(0) == '0';
      assert HexNumber(0x4) == "4";
      assert HexNumber(0x4C) == HexNumber(0x4) + [DigitChar(0xC)] == "4c";
      assert HexNumber(0x4C0) == HexNumber(0x4C) + [DigitChar(0)] == "4c0";
      assert HexNumber(0x4C00) == HexNumber(0x4C0) + [DigitChar(0)];
    }
    assert ToHex([0x02, 0x15]) == "0215" by {
      var p: seq<Byte> := [0x02, 0x15];
      assert p[1..] == [0x15] && p[1..][1..] == [];
    }
  }
}
