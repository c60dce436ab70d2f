/** The text encodings: decimal and hexadecimal numerals, and the padded block
    encodings base32hex and base64url of RFC 4648. */
module Encodings {
  import opened Basics
  import opened Numerals

  /** The `n` consecutive characters starting at `first`. */
  function Span(first: char, n: nat): (s: Bytes)
    requires first as int + n <= 256
    ensures |s| == n
  {
    seq(n, i requires 0 <= i < n => (first as int + i) as char)
  }

  const DECIMAL := Span('0', 10)
  const BASE32HEX := Span('0', 10) + Span('A', 22)
  const BASE64URL := Span('A', 26) + Span('a', 26) + Span('0', 10) + "-_"
  const OCTETS := Span(0 as char, 256)

  lemma Alphabets()
    ensures IsSorted(DECIMAL) && IsSorted(BASE32HEX) && IsSorted(OCTETS)
    ensures IsAlphabet(DECIMAL) && IsAlphabet(BASE32HEX) && IsAlphabet(OCTETS) && IsAlphabet(BASE64URL)
  {
  }

  lemma OctetNumeral(b: Bytes)
    requires Octets(b)
    ensures IsNumeral(OCTETS, b)
  {
    forall i | 0 <= i < |b|
      ensures b[i] in OCTETS
    {
      assert OCTETS[b[i] as int] == b[i];
    }
  }

  // ---- decimal ----

  function Decimal(n: nat): (s: Bytes)
    ensures s != ""
  {
    (if n < 10 then "" else Decimal(n / 10)) + [DECIMAL[n % 10]]
  }

  function Zeros(n: nat): (s: Bytes)
    ensures |s| == n
  {
    seq(n, i => '0')
  }

  /** Go's "%0{width}d". */
  function PaddedDecimal(width: nat, n: nat): Bytes {
    var s := Decimal(n);
    if |s| < width then Zeros(width - |s|) + s else s
  }

  lemma {:induction false} ReadDecimal(n: nat)
    ensures IsNumeral(DECIMAL, Decimal(n)) && Read(DECIMAL, Decimal(n)) == n
  {
    Alphabets();
    if n < 10 {
      ReadAppend(DECIMAL, "", n);
      assert Decimal(n) == "" + [DECIMAL[n]];
    } else {
      ReadDecimal(n / 10);
      ReadAppend(DECIMAL, Decimal(n / 10), n % 10);
    }
  }

  lemma DecimalInjective(m: nat, n: nat)
    requires Decimal(m) == Decimal(n)
    ensures m == n
  {
    ReadDecimal(m);
    ReadDecimal(n);
  }

  lemma {:induction false} WriteZero(width: nat)
    ensures Write(DECIMAL, width, 0) == Zeros(width)
  {
    if width > 0 {
      WriteZero(width - 1);
      assert Zeros(width) == Zeros(width - 1) + ['0'];
    }
  }

  /** Below 10^width the padded numeral is exactly the `width`-digit numeral. */
  lemma {:induction false} PaddedIsWrite(width: nat, n: nat)
    requires width > 0 && Fits(10, width, n)
    ensures |Decimal(n)| <= width
    ensures PaddedDecimal(width, n) == Write(DECIMAL, width, n)
  {
    if n < 10 {
      WriteZero(width - 1);
      assert Decimal(n) == [DECIMAL[n]];
      assert PaddedDecimal(width, n) == Zeros(width - 1) + [DECIMAL[n]];
    } else {
      assert Fits(10, width - 1, n / 10);
      PaddedIsWrite(width - 1, n / 10);
      var d := Decimal(n / 10);
      OneDigitMore(Zeros(width - 1 - |d|), d, DECIMAL[n % 10]);
    }
  }

  lemma OneDigitMore(zeros: string, digits: string, c: char)
    ensures zeros + (digits + [c]) == (zeros + digits) + [c]
  {
  }

  lemma PaddedOctets(width: nat, n: nat)
    ensures Octets(PaddedDecimal(width, n))
  {
    ReadDecimal(n);
    forall c | c in DECIMAL
      ensures c as int < 256
    {
    }
  }

  // ---- hexadecimal ----

  function HexDigit(c: char): (d: Option<nat>)
    ensures d.Some? ==> d.value < 16
  {
    if '0' <= c <= '9' then Some(c as int - '0' as int)
    else if 'a' <= c <= 'f' then Some(c as int - 'a' as int + 10)
    else if 'A' <= c <= 'F' then Some(c as int - 'A' as int + 10)
    else None
  }

  function HexChar(d: nat): (c: char)
    requires d < 16
    ensures HexDigit(c) == Some(d)
  {
    if d < 10 then ('0' as int + d) as char else ('a' as int + d - 10) as char
  }

  predicate IsHex(s: Bytes) {
    forall i :: 0 <= i < |s| ==> HexDigit(s[i]).Some?
  }

  function HexEncode(b: Bytes): Bytes
    requires Octets(b)
  {
    if b == [] then "" else [HexChar(b[0] as int / 16), HexChar(b[0] as int % 16)] + HexEncode(b[1..])
  }

  function HexDecode(s: string): Option<Bytes> {
    if s == "" then Some([])
    else if |s| == 1 then None
    else match (HexDigit(s[0]), HexDigit(s[1]), HexDecode(s[2..]))
      case (Some(h), Some(l), Some(rest)) => Some([(h * 16 + l) as char] + rest)
      case _ => None
  }

  lemma HexPair(c: char, d: char, t: string, h: nat, l: nat)
    requires HexDigit(c) == Some(h) && HexDigit(d) == Some(l)
    ensures HexDecode([c, d] + t) == if HexDecode(t).Some? then Some([(h * 16 + l) as char] + HexDecode(t).value)
      else None
  {
    assert ([c, d] + t)[2..] == t;
  }

  lemma {:induction false} HexRoundTrip(b: Bytes)
    requires Octets(b)
    ensures HexDecode(HexEncode(b)) == Some(b)
  {
    if b != [] {
      HexRoundTrip(b[1..]);
      var h, l := b[0] as int / 16, b[0] as int % 16;
      HexPair(HexChar(h), HexChar(l), HexEncode(b[1..]), h, l);
      DivMod(16, b[0] as int);
      assert b == [b[0]] + b[1..];
    }
  }

  /** Digits in lower case. */
  predicate IsLowerHex(s: string) {
    forall i :: 0 <= i < |s| ==> '0' <= s[i] <= '9' || 'a' <= s[i] <= 'f'
  }

  lemma {:induction false} HexShape(b: Bytes)
    requires Octets(b)
    ensures |HexEncode(b)| == 2 * |b| && IsLowerHex(HexEncode(b))
  {
    if b != [] {
      HexShape(b[1..]);
    }
  }

  /** The shortest hexadecimal numeral of `n`. */
  function HexText(n: nat): (s: Bytes)
    ensures s != ""
  {
    (if n < 16 then "" else HexText(n / 16)) + [HexChar(n % 16)]
  }

  function HexValue(s: Bytes): nat
    requires IsHex(s)
  {
    if s == [] then 0 else HexValue(s[..|s| - 1]) * 16 + HexDigit(s[|s| - 1]).value
  }

  lemma HexAppend(s: Bytes, d: nat)
    requires d < 16 && IsHex(s)
    ensures IsHex(s + [HexChar(d)]) && HexValue(s + [HexChar(d)]) == HexValue(s) * 16 + d
  {
    assert (s + [HexChar(d)])[..|s|] == s;
  }

  lemma {:induction false} HexTextValue(n: nat)
    ensures IsHex(HexText(n)) && HexValue(HexText(n)) == n
  {
    if n < 16 {
      HexAppend("", n);
      assert "" + [HexChar(n)] == [HexChar(n)];
    } else {
      HexTextValue(n / 16);
      HexAppend(HexText(n / 16), n % 16);
      assert HexText(n) == HexText(n / 16) + [HexChar(n % 16)];
      DivMod(16, n);
    }
  }
}
