/** The padded block encodings of RFC 4648: base32hex (section 7) and base64url
    (section 5).  A block of bytes is one number; its text is that number written
    in the larger base, left-aligned, and padded with '='. */
module BlockCodec {
  import opened Basics
  import opened Order
  import opened Numerals
  import opened Encodings

  /** A block of `r` bytes is written with `chars[r - 1]` characters, after moving it
      left by the spare bits: multiplying by `shifts[r - 1]`. */
  datatype Scheme = Scheme(alphabet: string, width: nat, chars: seq<nat>, shifts: seq<nat>)

  const BASE32 := Scheme(BASE32HEX, 8, [2, 4, 5, 7, 8], [4, 16, 2, 8, 1])
  const BASE64 := Scheme(BASE64URL, 4, [2, 3, 4], [16, 4, 1])

  predicate Shaped(s: Scheme) {
    && s.alphabet != "" && |s.chars| == |s.shifts| > 0
    && forall i :: 0 <= i < |s.chars| ==> s.chars[i] <= s.width && s.shifts[i] >= 1
  }

  /** Every block value fits the characters set aside for it. */
  ghost predicate Sound(s: Scheme) {
    && Shaped(s) && IsAlphabet(s.alphabet)
    && forall r, v :: 1 <= r <= |s.chars| && Fits(256, r, v) ==> Fits(|s.alphabet|, s.chars[r - 1], v * s.shifts[r - 1])
  }

  function Padding(n: nat): (p: string)
    ensures |p| == n
  {
    seq(n, i => '=')
  }

  function EncodeBlock(s: Scheme, b: Bytes): (t: string)
    requires Shaped(s) && 1 <= |b| <= |s.chars|
    ensures |t| == s.width
  {
    var r := |b| - 1;
    Write(s.alphabet, s.chars[r], Read(OCTETS, b) * s.shifts[r]) + Padding(s.width - s.chars[r])
  }

  function Encode(s: Scheme, b: Bytes): string
    requires Shaped(s)
  {
    if b == [] then ""
    else if |b| <= |s.chars| then EncodeBlock(s, b)
    else EncodeBlock(s, b[..|s.chars|]) + Encode(s, b[|s.chars|..])
  }

  /** Decoding one padded block of characters; bits beyond the last whole byte are
      dropped. */
  function DecodeBlock(s: Scheme, t: string, r: nat): (b: Option<string>)
    requires Shaped(s) && 1 <= r <= |s.chars| && |t| == s.width
    ensures b.Some? ==> |b.value| == r
  {
    var n := s.chars[r - 1];
    if IsNumeral(s.alphabet, t[..n]) && t[n..] == Padding(s.width - n)
    then Some(Write(OCTETS, r, Read(s.alphabet, t[..n]) / s.shifts[r - 1]))
    else None
  }

  // ---- one block ----

  lemma Powers()
    ensures Pow(256, 1) == 0x100 && Pow(256, 2) == 0x1_0000 && Pow(256, 3) == 0x100_0000
    ensures Pow(256, 4) == 0x1_0000_0000 && Pow(256, 5) == 0x100_0000_0000
    ensures Pow(64, 2) == 0x1000 && Pow(64, 3) == 0x4_0000 && Pow(64, 4) == 0x100_0000
    ensures Pow(32, 2) == 0x400 && Pow(32, 4) == 0x10_0000 && Pow(32, 5) == 0x200_0000
    ensures Pow(32, 7) == 0x8_0000_0000 && Pow(32, 8) == 0x100_0000_0000
  {
  }

  lemma Base32Sound()
    ensures Sound(BASE32)
  {
    Alphabets();
    forall r, v | 1 <= r <= 5 && Fits(256, r, v)
      ensures Fits(32, BASE32.chars[r - 1], v * BASE32.shifts[r - 1])
    {
      Powers();
      FitsPow(256, r, v);
      FitsPow(32, BASE32.chars[r - 1], v * BASE32.shifts[r - 1]);
    }
  }

  lemma Base64Sound()
    ensures Sound(BASE64)
  {
    Alphabets();
    forall r, v | 1 <= r <= 3 && Fits(256, r, v)
      ensures Fits(64, BASE64.chars[r - 1], v * BASE64.shifts[r - 1])
    {
      Powers();
      FitsPow(256, r, v);
      FitsPow(64, BASE64.chars[r - 1], v * BASE64.shifts[r - 1]);
    }
  }

  lemma BlockValue(b: Bytes)
    requires Octets(b)
    ensures Fits(256, |b|, Read(OCTETS, b)) && Write(OCTETS, |b|, Read(OCTETS, b)) == b
  {
    Alphabets();
    OctetNumeral(b);
    WriteRead(OCTETS, b);
  }

  lemma BlockFits(s: Scheme, b: Bytes)
    requires Octets(b) && Sound(s) && 1 <= |b| <= |s.chars|
    ensures Fits(|s.alphabet|, s.chars[|b| - 1], Read(OCTETS, b) * s.shifts[|b| - 1])
  {
    BlockValue(b);
  }

  /** The characters of an encoded block are its number, then padding. */
  lemma BlockText(s: Scheme, b: Bytes)
    requires Octets(b) && Sound(s) && 1 <= |b| <= |s.chars|
    ensures var (n, t) := (s.chars[|b| - 1], EncodeBlock(s, b));
      && IsNumeral(s.alphabet, t[..n]) && t[n..] == Padding(s.width - n)
      && Read(s.alphabet, t[..n]) == Read(OCTETS, b) * s.shifts[|b| - 1]
  {
    var n, x := s.chars[|b| - 1], Read(OCTETS, b) * s.shifts[|b| - 1];
    BlockFits(s, b);
    ReadWrite(s.alphabet, n, x);
    Glue(Write(s.alphabet, n, x), Padding(s.width - n));
  }

  lemma Glue(x: string, y: string)
    ensures (x + y)[..|x|] == x && (x + y)[|x|..] == y
  {
  }

  lemma BlockRoundTrip(s: Scheme, b: Bytes)
    requires Octets(b) && Sound(s) && 1 <= |b| <= |s.chars|
    ensures DecodeBlock(s, EncodeBlock(s, b), |b|) == Some(b)
  {
    BlockText(s, b);
    BlockValue(b);
    QuotientRemainder(s.shifts[|b| - 1], Read(OCTETS, b), 0);
  }

  lemma BlockOrder(s: Scheme, a: Bytes, b: Bytes)
    requires Octets(a) && Octets(b) && Sound(s) && IsSorted(s.alphabet) && 1 <= |a| == |b| <= |s.chars|
    ensures Less(EncodeBlock(s, a), EncodeBlock(s, b)) <==> Less(a, b)
  {
    BytesOrder(a, b);
    BlockFits(s, a);
    BlockFits(s, b);
    BlockNumberOrder(s, |a|, Read(OCTETS, a), Read(OCTETS, b));
  }

  lemma BytesOrder(a: Bytes, b: Bytes)
    requires Octets(a) && Octets(b) && |a| == |b|
    ensures Less(a, b) <==> Read(OCTETS, a) < Read(OCTETS, b)
  {
    BlockValue(a);
    BlockValue(b);
    OctetOrder(|a|, Read(OCTETS, a), Read(OCTETS, b));
  }

  lemma BlockNumberOrder(s: Scheme, r: nat, v: nat, w: nat)
    requires Shaped(s) && IsSorted(s.alphabet) && 1 <= r <= |s.chars|
    requires Fits(|s.alphabet|, s.chars[r - 1], v * s.shifts[r - 1]) &&
      Fits(|s.alphabet|, s.chars[r - 1], w * s.shifts[r - 1])
    ensures var (n, k) := (s.chars[r - 1], s.shifts[r - 1]);
      var (a, b) := (Write(s.alphabet, n, v * k), Write(s.alphabet, n, w * k));
      Less(a + Padding(s.width - n), b + Padding(s.width - n)) <==> v < w
  {
    var n, x, y := s.chars[r - 1], v * s.shifts[r - 1], w * s.shifts[r - 1];
    WriteOrder(s.alphabet, n, x, y);
    ScaleOrder(s.shifts[r - 1], v, w);
    LessIrreflexive(Padding(s.width - n));
    LessAppend(Write(s.alphabet, n, x), Write(s.alphabet, n, y), Padding(s.width - n), Padding(s.width - n));
  }

  lemma OctetOrder(n: nat, v: nat, w: nat)
    requires Fits(256, n, v) && Fits(256, n, w)
    ensures Less(Write(OCTETS, n, v), Write(OCTETS, n, w)) <==> v < w
  {
    Alphabets();
    WriteOrder(OCTETS, n, v, w);
  }

  lemma ScaleOrder(k: nat, v: nat, w: nat)
    requires k >= 1
    ensures v * k < w * k <==> v < w
  {
    if v < w { MulMonotone(k, v + 1, w); } else { MulMonotone(k, w, v); }
  }

  // ---- whole texts ----

  /** A block encoding over a sorted alphabet keeps the order of byte strings of
      equal length. */
  lemma {:induction false} EncodeKeepsOrder(s: Scheme, a: Bytes, b: Bytes)
    requires Octets(a) && Octets(b) && Sound(s) && IsSorted(s.alphabet) && |a| == |b|
    ensures Less(Encode(s, a), Encode(s, b)) <==> Less(a, b)
  {
    var g := |s.chars|;
    if a == [] {
    } else if |a| <= g {
      BlockOrder(s, a, b);
    } else {
      var (ha, ta, hb, tb) := (a[..g], a[g..], b[..g], b[g..]);
      EncodeKeepsOrder(s, ta, tb);
      HeadsKeepOrder(s, ha, hb, ta, tb, Encode(s, ta), Encode(s, tb));
      assert a == ha + ta && b == hb + tb;
    }
  }

  lemma HeadsKeepOrder(s: Scheme, a: Bytes, b: Bytes, x: Bytes, y: Bytes, x': string, y': string)
    requires Octets(a) && Octets(b) && Sound(s) && IsSorted(s.alphabet) && 0 < |a| == |b| <= |s.chars|
    requires Less(x', y') <==> Less(x, y)
    ensures Less(EncodeBlock(s, a) + x', EncodeBlock(s, b) + y') <==> Less(a + x, b + y)
  {
    BlockOrder(s, a, b);
    BlockOrder(s, b, a);
    PairOrder(a, b, x, y, EncodeBlock(s, a), EncodeBlock(s, b), x', y');
  }

  lemma PairOrder(a: string, b: string, x: string, y: string, a': string, b': string, x': string, y': string)
    requires |a| == |b| && |a'| == |b'|
    requires (Less(a, b) <==> Less(a', b')) && (Less(b, a) <==> Less(b', a')) && (Less(x, y) <==> Less(x', y'))
    ensures Less(a' + x', b' + y') <==> Less(a + x, b + y)
  {
    LessAppend(a, b, x, y);
    LessAppend(a', b', x', y');
    LessTotal(a, b);
    LessTotal(a', b');
    LessIrreflexive(a);
    LessIrreflexive(a');
  }

  /** Go's base64 decoder: line breaks are skipped, blocks of four characters
      follow, and only the last may be padded. */
  function Decode64(t: string): Option<string> {
    DecodeBlocks64(SkipLineBreaks(t))
  }

  function SkipLineBreaks(t: string): string {
    if t == "" then ""
    else (if t[0] == '\r' || t[0] == '\n' then "" else [t[0]]) + SkipLineBreaks(t[1..])
  }

  function DecodeBlocks64(t: string): Option<string> {
    if t == "" then Some("")
    else if |t| < 4 then None
    else if |t| == 4 && DecodeBlock(BASE64, t, 1).Some? then DecodeBlock(BASE64, t, 1)
    else if |t| == 4 && DecodeBlock(BASE64, t, 2).Some? then DecodeBlock(BASE64, t, 2)
    else match (DecodeBlock(BASE64, t[..4], 3), DecodeBlocks64(t[4..]))
      case (Some(head), Some(rest)) => Some(head + rest)
      case _ => None
  }

  lemma NotADigit(c: char)
    requires c == '=' || c == '\r' || c == '\n'
    ensures c !in BASE64URL
  {
  }

  /** A block of bytes is not mistaken for a shorter one. */
  lemma BlockLength(s: Scheme, b: Bytes, r: nat)
    requires Octets(b) && Sound(s) && 1 <= r < |b| <= |s.chars| && s.chars[r - 1] < s.chars[|b| - 1] &&
      '=' !in s.alphabet
    ensures DecodeBlock(s, EncodeBlock(s, b), r).None?
  {
    BlockText(s, b);
    var t, m, n := EncodeBlock(s, b), s.chars[r - 1], s.chars[|b| - 1];
    assert t[..n][m] in s.alphabet;
    assert t[m..][0] == t[m] != '=';
  }

  lemma {:induction false} BlocksRoundTrip(b: Bytes)
    requires Octets(b)
    ensures DecodeBlocks64(Encode(BASE64, b)) == Some(b)
  {
    Base64Sound();
    NotADigit('=');
    if b == [] {
    } else if |b| <= 3 {
      BlockRoundTrip(BASE64, b);
      var t := EncodeBlock(BASE64, b);
      if |b| > 1 { BlockLength(BASE64, b, 1); }
      if |b| > 2 { BlockLength(BASE64, b, 2); }
      assert t[..4] == t && t[4..] == "";
      assert b + [] == b;
    } else {
      var head, rest := b[..3], b[3..];
      BlocksRoundTrip(rest);
      BlockRoundTrip(BASE64, head);
      var t := Encode(BASE64, b);
      assert t[..4] == EncodeBlock(BASE64, head) && t[4..] == Encode(BASE64, rest);
      EncodeNonEmpty(rest);
      assert b == head + rest;
    }
  }

  lemma EncodeNonEmpty(b: Bytes)
    ensures b != [] ==> |Encode(BASE64, b)| >= 4
  {
  }

  ghost predicate NoLineBreaks(t: string) {
    '\r' !in t && '\n' !in t
  }

  lemma {:induction false} SkipNothing(t: string)
    requires NoLineBreaks(t)
    ensures SkipLineBreaks(t) == t
  {
    if t != "" {
      SkipNothing(t[1..]);
    }
  }

  lemma BlockHasNoLineBreaks(b: Bytes)
    requires Octets(b) && 1 <= |b| <= 3
    ensures NoLineBreaks(EncodeBlock(BASE64, b))
  {
    Base64Sound();
    BlockText(BASE64, b);
    NotADigit('\r');
    NotADigit('\n');
    var n, t := BASE64.chars[|b| - 1], EncodeBlock(BASE64, b);
    assert t == t[..n] + t[n..];
  }

  lemma {:induction false} EncodedHasNoLineBreaks(b: Bytes)
    requires Octets(b)
    ensures NoLineBreaks(Encode(BASE64, b))
  {
    if b == [] {
    } else if |b| <= 3 {
      BlockHasNoLineBreaks(b);
    } else {
      BlockHasNoLineBreaks(b[..3]);
      EncodedHasNoLineBreaks(b[3..]);
    }
  }

  /** Decoding undoes encoding for every byte string. */
  lemma Base64RoundTrip(b: Bytes)
    requires Octets(b)
    ensures Decode64(Encode(BASE64, b)) == Some(b)
  {
    EncodedHasNoLineBreaks(b);
    SkipNothing(Encode(BASE64, b));
    BlocksRoundTrip(b);
  }
}
