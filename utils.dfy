/** `bytes_to_hex`: the device serial rendered as upper-case, two-digit hexadecimal. */
module Utils {
  import opened Bytes

  const DIGITS := "0123456789ABCDEF"

  /** The characters `{:X}` can print: `0-9` and upper-case `A-F`. */
  predicate IsHexDigit(c: char) {
    '0' <= c <= '9' || 'A' <= c <= 'F'
  }

  /** A string made of an even number of such characters. */
  predicate IsHexString(s: string) {
    |s| % 2 == 0 && forall k :: 0 <= k < |s| ==> IsHexDigit(s[k])
  }

  /** The digit `{:X}` prints for a nibble. */
  function Digit(nibble: int): (c: char)
    requires 0 <= nibble < 16
    ensures IsHexDigit(c)
  {
    DIGITS[nibble]
  }

  /** The `{:02X}` rendering of each byte, in input order. */
  function Hex(bytes: seq<Byte>): (s: string)
    ensures |s| == 2 * |bytes|
  {
    if bytes == [] then ""
    else
      var last := bytes[|bytes| - 1];
      Hex(bytes[..|bytes| - 1]) + [Digit(last / 16), Digit(last % 16)]
  }

  /** The loop of `bytes_to_hex`: two characters appended to `s` per byte. */
  method BytesToHex(bytes: seq<Byte>) returns (s: string)
    ensures s == Hex(bytes)
  {
    s := "";
    for i := 0 to |bytes|
      invariant s == Hex(bytes[..i])
    {
      assert bytes[..i + 1][..i] == bytes[..i];
      s := s + [Digit(bytes[i] / 16), Digit(bytes[i] % 16)];
    }
    assert bytes[..|bytes|] == bytes;
  }

  /** Characters `2i` and `2i+1` are the high and the low nibble of byte `i`. */
  lemma {:induction false} HexAt(bytes: seq<Byte>, i: nat)
    requires i < |bytes|
    ensures Hex(bytes)[2 * i] == Digit(bytes[i] / 16)
    ensures Hex(bytes)[2 * i + 1] == Digit(bytes[i] % 16)
  {
    if i < |bytes| - 1 {
      var init := bytes[..|bytes| - 1];
      HexAt(init, i);
      assert Hex(bytes)[2 * i] == Hex(init)[2 * i];
      assert Hex(bytes)[2 * i + 1] == Hex(init)[2 * i + 1];
    }
  }

  /** Every character of the rendering is one of `0-9A-F`: no lower-case letters. */
  lemma UpperCaseDigitsOnly(bytes: seq<Byte>)
    ensures forall k :: 0 <= k < |Hex(bytes)| ==> IsHexDigit(Hex(bytes)[k])
    ensures IsHexString(Hex(bytes))
  {
    forall k | 0 <= k < |Hex(bytes)|
      ensures IsHexDigit(Hex(bytes)[k])
    {
      HexAt(bytes, k / 2);
      assert k == 2 * (k / 2) || k == 2 * (k / 2) + 1;
    }
  }

  /** The value of a hexadecimal digit: the inverse of `Digit`. */
  function DigitValue(c: char): (n: int)
    requires IsHexDigit(c)
    ensures 0 <= n < 16 && Digit(n) == c
  {
    if '0' <= c <= '9' then c as int - '0' as int else c as int - 'A' as int + 10
  }

  /** Reads a rendering back: pairs of digits, high nibble first. */
  function ParseHex(s: string): (bytes: seq<Byte>)
    requires IsHexString(s)
    ensures |bytes| * 2 == |s|
  {
    if s == [] then []
    else ParseHex(s[..|s| - 2]) + [DigitValue(s[|s| - 2]) * 16 + DigitValue(s[|s| - 1])]
  }

  /** Digit values pick the nibbles back out of a byte. */
  lemma DigitsOfByte(b: Byte)
    ensures DigitValue(Digit(b / 16)) * 16 + DigitValue(Digit(b % 16)) == b
  {
    DigitValueOfDigit(b / 16);
    DigitValueOfDigit(b % 16);
  }

  lemma DigitValueOfDigit(n: int)
    requires 0 <= n < 16
    ensures DigitValue(Digit(n)) == n
  {
    if n < 10 {
      assert DIGITS[n] as int == '0' as int + n;
    } else {
      assert DIGITS[n] as int == 'A' as int + n - 10;
    }
  }

  /** Two more digits keep a string a rendering. */
  lemma HexStringSnoc(s: string, high: char, low: char)
    requires IsHexString(s) && IsHexDigit(high) && IsHexDigit(low)
    ensures IsHexString(s + [high, low])
  {
  }

  /** The two digits of one more byte at the end of a rendering parse to that byte. */
  lemma ParseHexSnoc(s: string, b: Byte)
    requires IsHexString(s)
    ensures IsHexString(s + [Digit(b / 16), Digit(b % 16)])
    ensures ParseHex(s + [Digit(b / 16), Digit(b % 16)]) == ParseHex(s) + [b]
  {
    var high, low := Digit(b / 16), Digit(b % 16);
    HexStringSnoc(s, high, low);
    var t := s + [high, low];
    assert t[..|t| - 2] == s && t[|t| - 2] == high && t[|t| - 1] == low;
    DigitsOfByte(b);
  }

  /** The rendering is read back to the bytes it came from. */
  lemma {:induction false} ParseHexOfHex(bytes: seq<Byte>)
    ensures IsHexString(Hex(bytes)) && ParseHex(Hex(bytes)) == bytes
    decreases |bytes|
  {
    if bytes != [] {
      var init := bytes[..|bytes| - 1];
      var last := bytes[|bytes| - 1];
      ParseHexOfHex(init);
      ParseHexSnoc(Hex(init), last);
      assert init + [last] == bytes;
    }
  }

  /** Distinct serials are rendered as distinct strings. */
  lemma HexInjective(a: seq<Byte>, b: seq<Byte>)
    requires Hex(a) == Hex(b)
    ensures a == b
  {
    ParseHexOfHex(a);
    ParseHexOfHex(b);
  }
}
