/** Text as bytes and numbers as text: UTF-8, hexadecimal digests and decimal numerals, each of which
    can be read back in only one way. */
module Encoding {
  import opened PyText

  function Utf8Char(c: char): Bytes
  {
    var n := c as int;
    if n < 0x80 then [n]
    else if n < 0x800 then [0xC0 + n / 64, 0x80 + n % 64]
    else if n < 0x10000 then [0xE0 + n / 4096, 0x80 + n / 64 % 64, 0x80 + n % 64]
    else [0xF0 + n / 262144, 0x80 + n / 4096 % 64, 0x80 + n / 64 % 64, 0x80 + n % 64]
  }

  /** `text.encode()` */
  function Utf8(text: string): Bytes
  {
    if text == "" then [] else Utf8Char(text[0]) + Utf8(text[1..])
  }

  /** The first byte tells how long a character's encoding is. */
  function LengthFrom(first: Byte): nat
  {
    if first < 0x80 then 1 else if first < 0xE0 then 2 else if first < 0xF0 then 3 else 4
  }

  function Utf8Value(b: seq<int>): int
  {
    if |b| == 1 then b[0]
    else if |b| == 2 then (b[0] - 0xC0) * 64 + (b[1] - 0x80)
    else if |b| == 3 then (b[0] - 0xE0) * 4096 + (b[1] - 0x80) * 64 + (b[2] - 0x80)
    else if |b| == 4 then (b[0] - 0xF0) * 262144 + (b[1] - 0x80) * 4096 + (b[2] - 0x80) * 64 + (b[3] - 0x80)
    else 0
  }

  /** A character can be told from its encoding. */
  lemma Utf8Decodes(c: char)
    ensures |Utf8Char(c)| == LengthFrom(Utf8Char(c)[0])
    ensures Utf8Value(Utf8Char(c)) == c as int
  {
    var n := c as int;
    assert n / 4096 == n / 64 / 64 && n / 262144 == n / 64 / 64 / 64;
  }

  /** The shortest form: the length follows from the code point, and every byte but the first is a continuation byte. */
  lemma Utf8Shortest(c: char)
    ensures var n, b := c as int, Utf8Char(c);
            && |b| == (if n <= 0x7F then 1 else if n <= 0x7FF then 2 else if n <= 0xFFFF then 3 else 4)
            && forall i :: 1 <= i < |b| ==> 0x80 <= b[i] <= 0xBF
  {
  }

  /** A text is encoded character by character, in order. */
  lemma {:induction false} Utf8Concat(a: string, b: string)
    ensures Utf8(a + b) == Utf8(a) + Utf8(b)
    ensures |a| == 1 ==> Utf8(a) == Utf8Char(a[0])
  {
    if a == "" {
      assert a + b == b;
    } else {
      assert (a + b)[0] == a[0] && (a + b)[1..] == a[1..] + b;
      Utf8Concat(a[1..], b);
    }
  }

  lemma {:induction false} Utf8Injective(a: string, b: string)
    requires Utf8(a) == Utf8(b)
    ensures a == b
  {
    if a != "" && b != "" {
      var x, y := Utf8Char(a[0]), Utf8Char(b[0]);
      assert x[0] == Utf8(a)[0] && y[0] == Utf8(b)[0];
      Utf8Decodes(a[0]);
      Utf8Decodes(b[0]);
      assert Utf8(a)[..|x|] == x && Utf8(b)[..|y|] == y;
      assert Utf8(a)[|x|..] == Utf8(a[1..]) && Utf8(b)[|y|..] == Utf8(b[1..]);
      Utf8Injective(a[1..], b[1..]);
      assert a == [a[0]] + a[1..] && b == [b[0]] + b[1..];
    }
  }

  const HEX_DIGITS := "0123456789abcdef"

  function HexByte(b: Byte): string
  {
    [HEX_DIGITS[b / 16], HEX_DIGITS[b % 16]]
  }

  /** `bytes.hex()` */
  function Hex(bytes: Bytes): (text: string)
    ensures |text| == 2 * |bytes|
  {
    if bytes == [] then "" else HexByte(bytes[0]) + Hex(bytes[1..])
  }

  /** The number that a hexadecimal digit stands for. */
  function HexValue(digit: char): int
  {
    if '0' <= digit <= '9' then digit as int - '0' as int
    else if 'a' <= digit <= 'f' then digit as int - 'a' as int + 10
    else -1
  }

  lemma HexDigitIs(i: nat)
    requires i < 16
    ensures HexValue(HEX_DIGITS[i]) == i
  {
  }

  /** Each byte reads back from its two lower-case digits. */
  lemma {:induction false} HexReads(bytes: Bytes, i: nat)
    requires i < |bytes|
    ensures var high, low := HexValue(Hex(bytes)[2 * i]), HexValue(Hex(bytes)[2 * i + 1]);
            0 <= high < 16 && 0 <= low < 16 && 16 * high + low == bytes[i]
  {
    if i == 0 {
      HexDigitIs(bytes[0] / 16);
      HexDigitIs(bytes[0] % 16);
    } else {
      assert Hex(bytes)[2..] == Hex(bytes[1..]);
      HexReads(bytes[1..], i - 1);
    }
  }

  lemma HexInjective(a: Bytes, b: Bytes)
    requires Hex(a) == Hex(b)
    ensures a == b
  {
    forall i | 0 <= i < |a| ensures a[i] == b[i] {
      HexReads(a, i);
      HexReads(b, i);
    }
  }

  lemma HexChars(bytes: Bytes, i: nat)
    requires i < |Hex(bytes)|
    ensures 0 <= HexValue(Hex(bytes)[i]) < 16
  {
    HexReads(bytes, i / 2);
  }

  /** `str(n)` for a natural number */
  function Decimal(n: nat): (text: string)
    ensures text != ""
  {
    if n < 10 then [HEX_DIGITS[n]] else Decimal(n / 10) + [HEX_DIGITS[n % 10]]
  }

  /** The number that a text of decimal digits stands for. */
  function Numeral(text: string): int
  {
    if text == "" then 0 else 10 * Numeral(text[..|text| - 1]) + (text[|text| - 1] as int - '0' as int)
  }

  /** The numeral consists of decimal digits, does not begin with a zero unless it is one, and reads back as n. */
  lemma {:induction false} DecimalReads(n: nat)
    ensures Numeral(Decimal(n)) == n
    ensures forall i :: 0 <= i < |Decimal(n)| ==> '0' <= Decimal(n)[i] <= '9'
    ensures Decimal(n)[0] == '0' ==> n == 0
  {
    var text := Decimal(n);
    HexDigitIs(n % 10);
    if n < 10 {
      assert text[..0] == "";
    } else {
      DecimalReads(n / 10);
      assert text[..|text| - 1] == Decimal(n / 10);
    }
  }

  lemma DecimalInjective(m: nat, n: nat)
    requires Decimal(m) == Decimal(n)
    ensures m == n
  {
    DecimalReads(m);
    DecimalReads(n);
  }
}
