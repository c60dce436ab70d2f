/** The framing of AWS SigV4 streaming uploads, what decoding a framed stream
    means, and what the resumable decoder does when the reader beneath it hands out
    its bytes in pieces. */
module Chunks {
  import opened Basics
  import opened Encodings

  const SIGNATURE_BYTES := 16 + 64 + 2
  const MAX_INT := 0x7FFF_FFFF_FFFF_FFFF

  // ---- the chunk size: Go's fmt.Fscanf(r, "%x;", &size) ----

  /** What is left after scanning, and the size scanned. */
  datatype Scanned = Size(size: int, rest: Bytes) | NoSize(error: Error)

  predicate IsBlank(c: char) {
    c == ' ' || c == '\r' || 9 as char == c || 11 as char == c || 12 as char == c
  }

  function SkipBlanks(s: Bytes): (r: Bytes)
    ensures |r| <= |s|
  {
    if s != [] && IsBlank(s[0]) then SkipBlanks(s[1..]) else s
  }

  function HexRun(s: Bytes): (n: nat)
    ensures n <= |s|
    ensures forall i :: 0 <= i < n ==> HexDigit(s[i]).Some?
    ensures n < |s| ==> HexDigit(s[n]).None?
  {
    if s != [] && HexDigit(s[0]).Some? then 1 + HexRun(s[1..]) else 0
  }

  function ScanSize(s: Bytes): (r: Scanned)
    ensures r.Size? ==> |r.rest| + 2 <= |s|
  {
    var t := SkipBlanks(s);
    var signed := t != [] && (t[0] == '+' || t[0] == '-');
    var u := if signed then t[1..] else t;
    var n := HexRun(u);
    if u == [] then NoSize(EOF)
    else if n == 0 || HexValue(u[..n]) > (if signed && t[0] == '-' then MAX_INT + 1 else MAX_INT) then NoSize(Malformed)
    else if n == |u| then NoSize(UnexpectedEOF)
    else if u[n] != ';' then NoSize(Malformed)
    else
      var v: int := HexValue(u[..n]);
      Size(if signed && t[0] == '-' then -v else v, u[n + 1..])
  }

  lemma {:induction false} BlanksSkippedSuffix(s: Bytes)
    ensures SkipBlanks(s) == s[|s| - |SkipBlanks(s)|..]
  {
    if s != [] && IsBlank(s[0]) {
      BlanksSkippedSuffix(s[1..]);
    }
  }

  lemma {:induction false} SkipMoreBlanks(b: Bytes, s: Bytes)
    requires forall i :: 0 <= i < |b| ==> b[i] in [' ', '\r', 9 as char, 11 as char, 12 as char]
    ensures SkipBlanks(b + s) == SkipBlanks(s)
  {
    if b != [] {
      SkipMoreBlanks(b[1..], s);
      assert (b + s)[1..] == b[1..] + s;
    } else {
      assert b + s == s;
    }
  }

  lemma ScansAlike(s: Bytes, t: Bytes)
    requires SkipBlanks(s) == SkipBlanks(t)
    ensures ScanSize(s) == ScanSize(t)
  {
  }

  /** Blanks before a size do not matter. */
  lemma BlanksSkipped(b: Bytes, s: Bytes)
    requires forall i :: 0 <= i < |b| ==> b[i] in [' ', '\r', 9 as char, 11 as char, 12 as char]
    ensures ScanSize(b + s) == ScanSize(s)
  {
    SkipMoreBlanks(b, s);
    ScansAlike(b + s, s);
  }

  /** Scanning leaves a suffix of its input. */
  lemma ScanLeavesSuffix(s: Bytes)
    requires ScanSize(s).Size?
    ensures var rest := ScanSize(s).rest; rest == s[|s| - |rest|..]
  {
    BlanksSkippedSuffix(s);
    var t, rest := SkipBlanks(s), ScanSize(s).rest;
    assert rest == t[|t| - |rest|..];
    SuffixOfSuffix(s, |s| - |t|, |t| - |rest|);
  }

  lemma SuffixOfSuffix(s: Bytes, i: nat, j: nat)
    requires i + j <= |s|
    ensures s[i..][j..] == s[i + j..]
  {
  }

  /** The header scanner, as a value: what follows on decoding holds of any. */
  type Scanner = f: Bytes -> Scanned | IsScanner(f)
    witness s => NoSize(EOF)

  ghost predicate IsScanner(f: Bytes -> Scanned) {
    && f([]) == NoSize(EOF)
    && forall s :: f(s).Size? ==> |f(s).rest| + 2 <= |s| && f(s).rest == s[|s| - |f(s).rest|..]
  }

  const Fscanf: Scanner := (FscanfIsScanner(); s => ScanSize(s))

  lemma FscanfIsScanner()
    ensures IsScanner(s => ScanSize(s))
  {
    forall s: Bytes | ScanSize(s).Size?
      ensures ScanSize(s).rest == s[|s| - |ScanSize(s).rest|..]
    {
      ScanLeavesSuffix(s);
    }
  }

  // ---- what a stream decodes to ----

  /** The bytes a stream delivers and the error that ends it. */
  datatype Outcome = Outcome(bytes: Bytes, error: Error)

  /** Where a decoder stands: bytes not yet read, bytes left of the current chunk,
      and whether a chunk has been entered. */
  datatype Position = Position(rest: Bytes, remain: int, entered: bool)

  function Start(stream: Bytes): Position {
    Position(stream, 0, false)
  }

  /** Moves past the end of the current chunk and the next chunk's header. */
  function Enter(scan: Scanner, p: Position): (r: Result<Position>)
    ensures r.Ok? ==> |r.value.rest| < |p.rest| && r.value.entered
  {
    if p.entered && |p.rest| < 2 then Err(EOF)
    else match scan(if p.entered then p.rest[2..] else p.rest)
      case NoSize(e) => Err(e)
      case Size(size, rest) =>
        if |rest| < SIGNATURE_BYTES then Err(EOF)
        else Ok(Position(rest[SIGNATURE_BYTES..], size, true))
  }

  /** The meaning of a stream, read from a position on. */
  function Decode(scan: Scanner, p: Position): (o: Outcome)
    ensures |o.bytes| <= |p.rest|
    decreases |p.rest|, p.remain > 0
  {
    if p.remain > 0 then
      if |p.rest| < p.remain then Outcome(p.rest, EOF)
      else
        var o := Decode(scan, Position(p.rest[p.remain..], 0, p.entered));
        Outcome(p.rest[..p.remain] + o.bytes, o.error)
    else match Enter(scan, p)
      case Err(e) => Outcome([], e)
      case Ok(q) => Decode(scan, q)
  }

  // ---- framing ----

  /** One chunk: its size as hexadecimal text, the signature field, its data. */
  datatype Chunk = Chunk(sizeText: Bytes, signature: Bytes, data: Bytes)

  predicate WellFormed(c: Chunk) {
    && c.sizeText != [] && IsHex(c.sizeText)
    && HexValue(c.sizeText) == |c.data| <= MAX_INT
    && |c.signature| == SIGNATURE_BYTES
  }

  predicate AllWellFormed(cs: seq<Chunk>) {
    forall i :: 0 <= i < |cs| ==> WellFormed(cs[i])
  }

  function Header(c: Chunk): Bytes {
    c.sizeText + ";" + c.signature
  }

  function Frame(cs: seq<Chunk>): Bytes {
    if cs == [] then [] else Header(cs[0]) + cs[0].data + "\r\n" + Frame(cs[1..])
  }

  function Payload(cs: seq<Chunk>): Bytes {
    if cs == [] then [] else cs[0].data + Payload(cs[1..])
  }

  // ---- decoding undoes framing ----

  lemma {:induction false} HexRunIs(s: Bytes, n: nat)
    requires n < |s| && (forall i :: 0 <= i < n ==> HexDigit(s[i]).Some?) && HexDigit(s[n]).None?
    ensures HexRun(s) == n
  {
    if n > 0 {
      HexRunIs(s[1..], n - 1);
    }
  }

  lemma {:induction false} HexRunAll(s: Bytes)
    requires IsHex(s)
    ensures HexRun(s) == |s|
  {
    if s != [] {
      HexRunAll(s[1..]);
    }
  }

  lemma ScanHeader(c: Chunk, tail: Bytes)
    requires WellFormed(c)
    ensures ScanSize(c.sizeText + ";" + tail) == Size(|c.data|, tail)
  {
    var s, n := c.sizeText + ";" + tail, |c.sizeText|;
    assert s[0] == c.sizeText[0] && HexDigit(s[0]).Some?;
    assert forall i :: 0 <= i < n ==> s[i] == c.sizeText[i];
    HexRunIs(s, n);
    assert s[..n] == c.sizeText && s[n + 1..] == tail;
  }

  lemma {:induction false} HexPrefixValue(s: Bytes, n: nat)
    requires n <= |s| && IsHex(s)
    ensures HexValue(s[..n]) <= HexValue(s)
  {
    if n < |s| {
      HexPrefixValue(s[..|s| - 1], n);
      assert s[..|s| - 1][..n] == s[..n];
    } else {
      assert s[..n] == s;
    }
  }

  ghost predicate CutError(e: Error) {
    e == EOF || e == UnexpectedEOF
  }

  lemma CutSize(c: Chunk, h: Bytes)
    requires WellFormed(c) && h <= c.sizeText
    ensures ScanSize(h).NoSize? && CutError(ScanSize(h).error)
  {
    HexRunAll(h);
    HexPrefixValue(c.sizeText, |h|);
    assert h == c.sizeText[..|h|] && h[..|h|] == h;
    assert h != [] ==> HexDigit(h[0]).Some?;
  }

  /** A scanner that reads the size of every well-formed chunk, and reports the end
      of its input when that cuts the size short. */
  ghost predicate Scans(scan: Scanner) {
    && (forall c, tail :: WellFormed(c) ==> scan(c.sizeText + ";" + tail) == Size(|c.data|, tail))
    && (forall c, h :: WellFormed(c) && h <= c.sizeText ==> scan(h).NoSize? && CutError(scan(h).error))
  }

  lemma FscanfScans()
    ensures Scans(Fscanf)
  {
    forall c, tail | WellFormed(c)
      ensures Fscanf(c.sizeText + ";" + tail) == Size(|c.data|, tail)
    {
      ScanHeader(c, tail);
    }
    forall c, h | WellFormed(c) && h <= c.sizeText
      ensures Fscanf(h).NoSize? && CutError(Fscanf(h).error)
    {
      CutSize(c, h);
    }
  }

  /** A decoder that has just finished a chunk enters the next one. */
  lemma EnterChunk(scan: Scanner, c: Chunk, tail: Bytes, entered: bool, gap: Bytes)
    requires Scans(scan) && WellFormed(c) && |gap| == (if entered then 2 else 0)
    ensures Enter(scan, Position(gap + Header(c) + tail, 0, entered)) == Ok(Position(tail, |c.data|, true))
  {
    var rest := gap + Header(c) + tail;
    assert (if entered then rest[2..] else rest) == c.sizeText + ";" + (c.signature + tail);
  }

  /** Data of the current chunk comes out as it stands. */
  lemma DecodeData(scan: Scanner, data: Bytes, tail: Bytes)
    ensures var o := Decode(scan, Position(tail, 0, true));
      Decode(scan, Position(data + tail, |data|, true)) == Outcome(data + o.bytes, o.error)
  {
    assert (data + tail)[..|data|] == data && (data + tail)[|data|..] == tail;
    if data == [] {
      assert data + tail == tail &&
        data + Decode(scan, Position(tail, 0, true)).bytes == Decode(scan, Position(tail, 0, true)).bytes;
    }
  }

  ghost predicate IsGap(gap: Bytes, entered: bool) {
    gap == if entered then "\r\n" else ""
  }

  lemma DecodeEnter(scan: Scanner, p: Position, q: Position)
    requires p.remain <= 0 && Enter(scan, p) == Ok(q)
    ensures Decode(scan, p) == Decode(scan, q)
  {
  }

  lemma DecodeStuck(scan: Scanner, p: Position)
    requires p.remain <= 0 && Enter(scan, p).Err?
    ensures Decode(scan, p) == Outcome([], Enter(scan, p).error)
  {
  }

  lemma DecodeChunk(scan: Scanner, c: Chunk, more: Bytes, entered: bool, gap: Bytes)
    requires Scans(scan) && WellFormed(c) && IsGap(gap, entered)
    ensures var o := Decode(scan, Position(more, 0, true));
      Decode(scan, Position(gap + Header(c) + (c.data + more), 0, entered)) == Outcome(c.data + o.bytes, o.error)
  {
    var p := Position(gap + Header(c) + (c.data + more), 0, entered);
    EnterChunk(scan, c, c.data + more, entered, gap);
    DecodeEnter(scan, p, Position(c.data + more, |c.data|, true));
    DecodeData(scan, c.data, more);
  }

  lemma DecodeEnd(scan: Scanner, entered: bool, gap: Bytes)
    requires IsGap(gap, entered)
    ensures Decode(scan, Position(gap, 0, entered)) == Outcome([], EOF)
  {
  }

  lemma Regrouped(gap: Bytes, h: Bytes, d: Bytes, e: Bytes, r: Bytes)
    ensures h + d + e + r == h + (d + (e + r)) && gap + (h + d + e + r) == gap + h + (d + (e + r))
  {
  }

  lemma FrameSplit(cs: seq<Chunk>, gap: Bytes)
    requires cs != []
    ensures Frame(cs) == Header(cs[0]) + (cs[0].data + ("\r\n" + Frame(cs[1..])))
    ensures gap + Frame(cs) == gap + Header(cs[0]) + (cs[0].data + ("\r\n" + Frame(cs[1..])))
  {
    Regrouped(gap, Header(cs[0]), cs[0].data, "\r\n", Frame(cs[1..]));
  }

  /** The framing law, from the start of a stream or from the end of any chunk. */
  lemma {:induction false} DecodeFramed(scan: Scanner, cs: seq<Chunk>, entered: bool, gap: Bytes)
    requires Scans(scan) && AllWellFormed(cs) && IsGap(gap, entered)
    ensures Decode(scan, Position(gap + Frame(cs), 0, entered)) == Outcome(Payload(cs), EOF)
  {
    if cs == [] {
      assert gap + Frame(cs) == gap;
      DecodeEnd(scan, entered, gap);
    } else {
      FrameSplit(cs, gap);
      DecodeChunk(scan, cs[0], "\r\n" + Frame(cs[1..]), entered, gap);
      DecodeFramed(scan, cs[1..], true, "\r\n");
    }
  }

  /** Decoding a framed stream yields exactly the payloads, in order, then EOF. */
  lemma DecodeUndoesFraming(cs: seq<Chunk>)
    requires AllWellFormed(cs)
    ensures Decode(Fscanf, Start(Frame(cs))) == Outcome(Payload(cs), EOF)
  {
    FscanfScans();
    DecodeFramed(Fscanf, cs, false, "");
    assert "" + Frame(cs) == Frame(cs);
  }

  // ---- streams that are cut short ----

  lemma CutHeader(scan: Scanner, c: Chunk, h: Bytes, entered: bool, gap: Bytes)
    requires Scans(scan) && WellFormed(c) && IsGap(gap, entered) && h < Header(c)
    ensures Enter(scan, Position(gap + h, 0, entered)).Err? &&
      CutError(Enter(scan, Position(gap + h, 0, entered)).error)
  {
    assert (if entered then (gap + h)[2..] else gap + h) == h;
    HeaderCut(c.sizeText, c.signature, h);
  }

  lemma HeaderCut(x: Bytes, y: Bytes, h: Bytes)
    requires h < x + ";" + y
    ensures if |h| <= |x| then h == x[..|h|] else h == x + ";" + y[..|h| - |x| - 1]
  {
    assert h == (x + ";" + y)[..|h|];
  }

  ghost predicate CutOutcome(o: Outcome, payload: Bytes) {
    o.bytes <= payload && CutError(o.error)
  }

  lemma PrefixRest(x: Bytes, y: Bytes, s: Bytes)
    requires s <= x + y
    ensures |s| < |x| ==> s < x
    ensures |s| >= |x| ==> s == x + s[|x|..] && s[|x|..] <= y
  {
    assert |s| < |x| ==> s == (x + y)[..|s|] == x[..|s|];
    if |s| >= |x| {
      assert s == (x + y)[..|s|];
      assert s[..|x|] == x && s[|x|..] == y[..|s| - |x|];
    }
  }

  /** A prefix of a framed stream delivers a prefix of the payload and ends with an
      end-of-file error, never with a malformed chunk. */
  lemma {:induction false} DecodeCut(scan: Scanner, cs: seq<Chunk>, entered: bool, gap: Bytes, s: Bytes)
    requires Scans(scan) && AllWellFormed(cs) && IsGap(gap, entered) && s <= gap + Frame(cs)
    ensures CutOutcome(Decode(scan, Position(s, 0, entered)), Payload(cs))
    decreases |cs|, 1
  {
    PrefixRest(gap, Frame(cs), s);
    if |s| >= |gap| {
      CutAfterGap(scan, cs, entered, gap, s[|gap|..]);
    }
  }

  lemma {:induction false} CutAfterGap(scan: Scanner, cs: seq<Chunk>, entered: bool, gap: Bytes, t: Bytes)
    requires Scans(scan) && AllWellFormed(cs) && IsGap(gap, entered) && t <= Frame(cs)
    ensures CutOutcome(Decode(scan, Position(gap + t, 0, entered)), Payload(cs))
    decreases |cs|, 0, 1
  {
    if cs == [] {
      assert gap + t == gap;
      DecodeEnd(scan, entered, gap);
    } else {
      CutAtHeader(cs, gap, t);
      if |t| < |Header(cs[0])| {
        CutInHeader(scan, cs[0], t, entered, gap, Payload(cs));
      } else {
        CutChunk(scan, cs, entered, gap, t[|Header(cs[0])|..]);
      }
    }
  }

  /** A frame is cut in its first header or after it. */
  lemma CutAtHeader(cs: seq<Chunk>, gap: Bytes, t: Bytes)
    requires cs != [] && t <= Frame(cs)
    ensures var (h, more) := (Header(cs[0]), cs[0].data + ("\r\n" + Frame(cs[1..])));
      if |t| < |h| then t < h else t[|h|..] <= more && gap + t == gap + h + t[|h|..]
  {
    FrameSplit(cs, gap);
    CutAfter(Header(cs[0]), cs[0].data + ("\r\n" + Frame(cs[1..])), gap, t);
  }

  lemma CutAfter(h: Bytes, more: Bytes, gap: Bytes, t: Bytes)
    requires t <= h + more
    ensures if |t| < |h| then t < h else t[|h|..] <= more && gap + t == gap + h + t[|h|..]
  {
    PrefixRest(h, more, t);
  }

  lemma CutInHeader(scan: Scanner, c: Chunk, h: Bytes, entered: bool, gap: Bytes, payload: Bytes)
    requires Scans(scan) && WellFormed(c) && IsGap(gap, entered) && h < Header(c)
    ensures CutOutcome(Decode(scan, Position(gap + h, 0, entered)), payload)
  {
    CutHeader(scan, c, h, entered, gap);
    DecodeStuck(scan, Position(gap + h, 0, entered));
  }

  lemma {:induction false} CutChunk(scan: Scanner, cs: seq<Chunk>, entered: bool, gap: Bytes, u: Bytes)
    requires Scans(scan) && cs != [] && AllWellFormed(cs) && IsGap(gap, entered)
    requires u <= cs[0].data + ("\r\n" + Frame(cs[1..]))
    ensures CutOutcome(Decode(scan, Position(gap + Header(cs[0]) + u, 0, entered)), Payload(cs))
    decreases |cs|, 0, 0
  {
    var c := cs[0];
    PrefixRest(c.data, "\r\n" + Frame(cs[1..]), u);
    if |u| < |c.data| {
      EnterChunk(scan, c, u, entered, gap);
      DecodeEnter(scan, Position(gap + Header(c) + u, 0, entered), Position(u, |c.data|, true));
    } else {
      var v := u[|c.data|..];
      DecodeChunk(scan, c, v, entered, gap);
      DecodeCut(scan, cs[1..], true, "\r\n", v);
    }
  }
}
