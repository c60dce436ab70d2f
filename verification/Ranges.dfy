/** Range headers and the part of an object they select, in 64-bit arithmetic. */
module Ranges {
  import opened Basics
  import opened Numerals
  import opened Encodings
  import opened Prefixes

  const MAX64 := 0x7FFF_FFFF_FFFF_FFFF
  const MIN64 := -0x8000_0000_0000_0000
  const RANGE_NO_END := -1

  /** Two's complement wrap-around of an int64. */
  function Wrap64(x: int): (w: int)
    ensures MIN64 <= w <= MAX64
    ensures MIN64 <= x <= MAX64 ==> w == x
  {
    (x + 0x8000_0000_0000_0000) % 0x1_0000_0000_0000_0000 - 0x8000_0000_0000_0000
  }

  datatype RangeRequest = RangeRequest(start: int, end: int, fromEnd: bool)

  datatype ObjectRange = ObjectRange(start: int, length: int)

  // ---- the header ----

  function TrimSpaceLeft(s: string): (t: string)
    ensures |t| <= |s|
  {
    if s != "" && IsSpace(s[0]) then TrimSpaceLeft(s[1..]) else s
  }

  function TrimSpaceRight(s: string): (t: string)
    ensures |t| <= |s|
  {
    if s != "" && IsSpace(s[|s| - 1]) then TrimSpaceRight(s[..|s| - 1]) else s
  }

  predicate IsSpace(c: char) {
    c == ' ' || c == '\t' || c == '\n' || c == '\r' || c == 11 as char || c == 12 as char
  }

  function TrimSpace(s: string): string {
    TrimSpaceRight(TrimSpaceLeft(s))
  }

  /** strconv.ParseInt(s, 10, 64). */
  function ParseInt64(s: string): (v: Option<int>)
    ensures v.Some? ==> MIN64 <= v.value <= MAX64
  {
    var signed := s != "" && (s[0] == '+' || s[0] == '-');
    var digits := if signed then s[1..] else s;
    if digits == "" || !IsNumeral(DECIMAL, digits) then None
    else
      var n: int := Read(DECIMAL, digits);
      if signed && s[0] == '-' then (if n <= MAX64 + 1 then Some(-n) else None)
      else if n <= MAX64 then Some(n) else None
  }

  function ParseRangeHeader(s: string): Result<Option<RangeRequest>> {
    if s == "" then Ok(None)
    else if !("bytes=" <= s) then Err(InvalidRange)
    else
      var ranges := Split(s[6..], ",");
      if |ranges| > 1 then Err(NotImplemented)
      else
        var rnge := TrimSpace(s[6..]);
        var i := Find(rnge, "-");
        if i == |rnge| then Err(InvalidRange)
        else ParseBounds(TrimSpace(rnge[..i]), TrimSpace(rnge[i + 1..]))
  }

  function ParseBounds(start: string, end: string): Result<Option<RangeRequest>> {
    if start == "" then
      match ParseInt64(end)
      case None => Err(InvalidRange)
      case Some(n) => Ok(Some(RangeRequest(0, n, true)))
    else match ParseInt64(start)
      case None => Err(InvalidRange)
      case Some(a) =>
        if a < 0 then Err(InvalidRange)
        else if end == "" then Ok(Some(RangeRequest(a, RANGE_NO_END, false)))
        else match ParseInt64(end)
          case None => Err(InvalidRange)
          case Some(b) => if a > b then Err(InvalidRange) else Ok(Some(RangeRequest(a, b, false)))
  }

  // ---- the range ----

  function Range(o: Option<RangeRequest>, size: int): Result<Option<ObjectRange>> {
    if o.None? then Ok(None)
    else
      var r := o.value;
      var start := if r.fromEnd then Wrap64(size - r.end) else r.start;
      var length := if r.fromEnd || r.end == RANGE_NO_END then Wrap64(size - start)
                    else Wrap64(Wrap64(r.end - start) + 1);
      if start < 0 || length < 0 || start >= size then Err(InvalidRange)
      else if Wrap64(start + length) > size then Ok(Some(ObjectRange(start, size - start)))
      else Ok(Some(ObjectRange(start, length)))
  }

  /** The slice toObject takes of a body; a slice out of range panics. */
  function Slice(o: Option<RangeRequest>, body: Bytes): Result<Bytes> {
    match Range(o, |body|)
    case Err(e) => Err(e)
    case Ok(None) => Ok(body)
    case Ok(Some(r)) =>
      var end := Wrap64(r.start + r.length);
      if 0 <= r.start <= end <= |body| then Ok(body[r.start..end]) else Err(Panic)
  }

  // ---- laws ----

  /** Requests that come from a header. */
  predicate FromHeader(r: RangeRequest) {
    && 0 <= r.start <= MAX64 && MIN64 <= r.end <= MAX64
    && (r.fromEnd ==> r.start == 0)
    && (!r.fromEnd ==> r.end == RANGE_NO_END || r.start <= r.end)
  }

  lemma HeadersGiveRequests(s: string)
    ensures ParseRangeHeader(s).Ok? && ParseRangeHeader(s).value.Some? ==> FromHeader(ParseRangeHeader(s).value.value)
  {
  }

  /** What a request selects of `size` bytes: from a first byte to before another. */
  function Selected(r: RangeRequest, size: nat): Option<(nat, nat)> {
    if r.fromEnd then
      if 1 <= r.end <= size then Some((size - r.end, size)) else None
    else if !(0 <= r.start < size) then None
    else if r.end == RANGE_NO_END || r.end >= size then Some((r.start, size))
    else if r.start <= r.end then Some((r.start, r.end + 1))
    else None
  }

  /** The code's slice is the selected one. */
  predicate SlicesRight(r: RangeRequest, body: Bytes) {
    Slice(Some(r), body) ==
    match Selected(r, |body|)
    case None => Err(InvalidRange)
    case Some(p) => if p.0 <= p.1 <= |body| then Ok(body[p.0..p.1]) else Err(Panic)
  }

  /** A request that comes from a header is served right except exactly when its end is
      the largest int64 and its start is within the object: then it panics, or is refused
      if it starts at zero. */
  lemma RequestsRightExactly(r: RangeRequest, body: Bytes)
    requires FromHeader(r) && |body| <= MAX64
    ensures var largest := !r.fromEnd && r.end == MAX64 && r.start < |body|;
      && (SlicesRight(r, body) <==> !largest)
      && (largest ==> Slice(Some(r), body) == Err(if r.start == 0 then InvalidRange else Panic))
    ensures Selected(r, |body|).Some? ==> var (a, b) := Selected(r, |body|).value; a < b <= |body|
  {
  }

  /** Whatever the header that is accepted, what is served is right, in bounds and not
      empty, with that exception and no other. */
  lemma SlicesRightExactly(header: string, r: RangeRequest, body: Bytes)
    requires ParseRangeHeader(header) == Ok(Some(r)) && |body| <= MAX64
    ensures var largest := !r.fromEnd && r.end == MAX64 && r.start < |body|;
      && (SlicesRight(r, body) <==> !largest)
      && (largest ==> Slice(Some(r), body) == Err(if r.start == 0 then InvalidRange else Panic))
    ensures Selected(r, |body|).Some? ==> var (a, b) := Selected(r, |body|).value; a < b <= |body|
  {
    HeadersGiveRequests(header);
    RequestsRightExactly(r, body);
  }

  // ---- consecutive ranges make the object ----

  function RangeHeader(a: nat, b: nat): string {
    "bytes=" + (Decimal(a) + "-" + Decimal(b))
  }

  /** Digits are neither blanks, nor signs, nor the separators of a header. */
  lemma DigitChars(s: string)
    requires IsNumeral(DECIMAL, s)
    ensures forall i :: 0 <= i < |s| ==> !IsSpace(s[i]) && s[i] != '-' && s[i] != '+' && s[i] != ','
  {
  }

  lemma {:induction false} FindAt(s: string, c: char, n: nat)
    requires n <= |s| && (forall i :: 0 <= i < n ==> s[i] != c) && (n < |s| ==> s[n] == c)
    ensures Find(s, [c]) == n
  {
    PrefixChar(s, c);
    if n > 0 {
      FindAt(s[1..], c, n - 1);
    }
  }

  lemma PrefixChar(s: string, c: char)
    ensures [c] <= s <==> s != "" && s[0] == c
  {
  }

  lemma TrimNothing(s: string)
    requires s != "" && !IsSpace(s[0]) && !IsSpace(s[|s| - 1])
    ensures TrimSpace(s) == s
  {
  }

  predicate AllSpace(s: string) {
    forall i :: 0 <= i < |s| ==> s[i] in [' ', '\t', '\n', '\r', 11 as char, 12 as char]
  }

  lemma {:induction false} TrimLeftSpace(b: string, s: string)
    requires AllSpace(b)
    ensures TrimSpaceLeft(b + s) == TrimSpaceLeft(s)
  {
    if b != "" {
      TrimLeftSpace(b[1..], s);
      assert (b + s)[1..] == b[1..] + s;
    } else {
      assert b + s == s;
    }
  }

  lemma {:induction false} TrimRightSpace(s: string, c: string)
    requires AllSpace(c)
    ensures TrimSpaceRight(s + c) == TrimSpaceRight(s)
  {
    if c != "" {
      TrimRightSpace(s, c[..|c| - 1]);
      assert (s + c)[..|s + c| - 1] == s + c[..|c| - 1];
    } else {
      assert s + c == s;
    }
  }

  /** Blanks around a part of a header do not matter. */
  lemma BlanksTrimmed(b: string, s: string, c: string)
    requires AllSpace(b) && AllSpace(c) && s != "" && !IsSpace(s[0]) && !IsSpace(s[|s| - 1])
    ensures TrimSpace(b + s + c) == s
  {
    assert b + s + c == b + (s + c);
    TrimLeftSpace(b, s + c);
    assert TrimSpaceLeft(s + c) == s + c;
    TrimRightSpace(s, c);
  }

  lemma ParseDigits(s: string, n: nat)
    requires s != "" && IsNumeral(DECIMAL, s) && Read(DECIMAL, s) == n <= MAX64 && s[0] != '+' && s[0] != '-'
    ensures ParseInt64(s) == Some(n)
  {
  }

  lemma ParseDecimal(n: nat)
    requires n <= MAX64
    ensures ParseInt64(Decimal(n)) == Some(n) && TrimSpace(Decimal(n)) == Decimal(n)
  {
    var s := Decimal(n);
    assert s != "" && IsNumeral(DECIMAL, s) && Read(DECIMAL, s) == n by {
      ReadDecimal(n);
    }
    DigitChars(s);
    ParseDigits(s, n);
    TrimNothing(s);
  }

  /** Between digits, the header splits at its hyphen. */
  lemma HeaderParts(x: string, y: string)
    requires IsNumeral(DECIMAL, x) && IsNumeral(DECIMAL, y)
    ensures ParseRangeHeader("bytes=" + (x + "-" + y)) == ParseBounds(TrimSpace(x), TrimSpace(y))
  {
    var s := x + "-" + y;
    DigitChars(x);
    DigitChars(y);
    assert Split(s, ",") == [s] by { FindAt(s, ',', |s|); }
    FindAt(s, '-', |x|);
    TrimNothing(s);
    assert s[..|x|] == x && s[|x| + 1..] == y;
    OneRangeParts("bytes=" + s, s, |x|);
  }

  lemma OneRangeParts(h: string, s: string, i: nat)
    requires h == "bytes=" + s && |Split(s, ",")| == 1 && TrimSpace(s) == s && Find(s, "-") == i < |s|
    ensures ParseRangeHeader(h) == ParseBounds(TrimSpace(s[..i]), TrimSpace(s[i + 1..]))
  {
    assert h[6..] == s && "bytes=" <= h;
  }

  /** The header a client writes for the bytes `a` to `b` is read back as that. */
  lemma HeaderReadsBack(a: nat, b: nat)
    requires a <= b <= MAX64
    ensures ParseRangeHeader(RangeHeader(a, b)) == Ok(Some(RangeRequest(a, b, false)))
  {
    ReadDecimal(a);
    ReadDecimal(b);
    HeaderParts(Decimal(a), Decimal(b));
    ParseDecimal(a);
    ParseDecimal(b);
    BoundsOf(a, b);
  }

  lemma BoundsOf(a: nat, b: nat)
    requires a <= b <= MAX64
    ensures ParseBounds(Decimal(a), Decimal(b)) == Ok(Some(RangeRequest(a, b, false)))
  {
    ParseDecimal(a);
    ParseDecimal(b);
  }

  lemma OpenParts(x: string)
    requires IsNumeral(DECIMAL, x)
    ensures ParseRangeHeader("bytes=" + (x + "-")) == ParseBounds(TrimSpace(x), TrimSpace(""))
  {
    HeaderParts(x, "");
    assert x + "-" + "" == x + "-";
  }

  lemma SuffixParts(y: string)
    requires IsNumeral(DECIMAL, y)
    ensures ParseRangeHeader("bytes=" + ("-" + y)) == ParseBounds(TrimSpace(""), TrimSpace(y))
  {
    HeaderParts("", y);
    assert "" + "-" + y == "-" + y;
  }

  lemma OpenHeader(a: nat)
    requires a <= MAX64
    ensures ParseRangeHeader("bytes=" + (Decimal(a) + "-")) == Ok(Some(RangeRequest(a, RANGE_NO_END, false)))
  {
    ReadDecimal(a);
    OpenParts(Decimal(a));
    ParseDecimal(a);
    OpenBounds(Decimal(a), a);
  }

  lemma OpenBounds(x: string, a: nat)
    requires x != "" && ParseInt64(x) == Some(a)
    ensures ParseBounds(x, TrimSpace("")) == Ok(Some(RangeRequest(a, RANGE_NO_END, false)))
  {
  }

  lemma SuffixHeader(n: nat)
    requires n <= MAX64
    ensures ParseRangeHeader("bytes=" + ("-" + Decimal(n))) == Ok(Some(RangeRequest(0, n, true)))
  {
    ReadDecimal(n);
    SuffixParts(Decimal(n));
    ParseDecimal(n);
    SuffixBounds(Decimal(n), n);
  }

  lemma SuffixBounds(y: string, n: nat)
    requires ParseInt64(y) == Some(n)
    ensures ParseBounds(TrimSpace(""), y) == Ok(Some(RangeRequest(0, n, true)))
  {
  }

  /** Without an end, a header asks for all from a byte on, and that is what is served. */
  lemma OpenRangeServes(a: nat, body: Bytes)
    requires a <= MAX64 && |body| <= MAX64
    ensures var r := ParseRangeHeader("bytes=" + (Decimal(a) + "-"));
      r.Ok? && Slice(r.value, body) == if a < |body| then Ok(body[a..]) else Err(InvalidRange)
  {
    OpenHeader(a);
    OpenSlice(a, body);
  }

  lemma OpenSlice(a: nat, body: Bytes)
    requires a <= MAX64 && |body| <= MAX64
    ensures Slice(Some(RangeRequest(a, RANGE_NO_END, false)), body) ==
      if a < |body| then Ok(body[a..]) else Err(InvalidRange)
  {
    RequestsRightExactly(RangeRequest(a, RANGE_NO_END, false), body);
    if a < |body| { assert body[a..|body|] == body[a..]; }
  }

  /** Without a start, a header asks for as many bytes from the end; more than there are
      are refused. */
  lemma SuffixRangeServes(n: nat, body: Bytes)
    requires n <= MAX64 && |body| <= MAX64
    ensures var r := ParseRangeHeader("bytes=" + ("-" + Decimal(n)));
      r.Ok? && Slice(r.value, body) == if 1 <= n <= |body| then Ok(body[|body| - n..]) else Err(InvalidRange)
  {
    SuffixHeader(n);
    SuffixSlice(n, body);
  }

  lemma SuffixSlice(n: nat, body: Bytes)
    requires n <= MAX64 && |body| <= MAX64
    ensures Slice(Some(RangeRequest(0, n, true)), body) ==
      if 1 <= n <= |body| then Ok(body[|body| - n..]) else Err(InvalidRange)
  {
    RequestsRightExactly(RangeRequest(0, n, true), body);
    if 1 <= n <= |body| { assert body[|body| - n..|body|] == body[|body| - n..]; }
  }

  type Parser = string -> Result<Option<RangeRequest>>

  /** The part of a body that the bytes `a` to `b` are served as. */
  function ServedRange(parse: Parser, body: Bytes, a: nat, b: nat): Bytes {
    match parse(RangeHeader(a, b))
    case Err(_) => []
    case Ok(o) => match Slice(o, body)
      case Err(_) => []
      case Ok(part) => part
  }

  /** The parts between consecutive cut points, one request each, put together. */
  function Served(serve: (nat, nat) -> Bytes, cuts: seq<nat>): Bytes
    decreases |cuts|
  {
    if |cuts| < 2 then []
    else (if cuts[1] > cuts[0] then serve(cuts[0], cuts[1] - 1) else []) + Served(serve, cuts[1..])
  }

  ghost predicate Increasing(cuts: seq<nat>) {
    forall i, j :: 0 <= i < j < |cuts| ==> cuts[i] < cuts[j]
  }

  lemma SliceMiddle(body: Bytes, a: nat, b: nat)
    requires a < b <= |body| <= MAX64
    ensures Slice(Some(RangeRequest(a, b - 1, false)), body) == Ok(body[a..b])
  {
    RequestsRightExactly(RangeRequest(a, b - 1, false), body);
  }

  /** A parser that reads back the headers a client writes. */
  ghost predicate ReadsBack(parse: Parser) {
    forall a: nat, b: nat :: a <= b <= MAX64 ==> parse(RangeHeader(a, b)) == Ok(Some(RangeRequest(a, b, false)))
  }

  lemma OneRange(parse: Parser, body: Bytes, a: nat, b: nat)
    requires ReadsBack(parse) && a < b <= |body| <= MAX64
    ensures ServedRange(parse, body, a, b - 1) == body[a..b]
  {
    SliceMiddle(body, a, b);
    assert parse(RangeHeader(a, b - 1)) == Ok(Some(RangeRequest(a, b - 1, false)));
  }

  lemma {:induction false} PartsJoin(serve: (nat, nat) -> Bytes, body: Bytes, cuts: seq<nat>)
    requires cuts != [] && Increasing(cuts) && cuts[|cuts| - 1] <= |body|
    requires forall a: nat, b: nat :: a < b <= |body| ==> serve(a, b - 1) == body[a..b]
    ensures cuts[0] <= cuts[|cuts| - 1] && Served(serve, cuts) == body[cuts[0]..cuts[|cuts| - 1]]
    decreases |cuts|
  {
    if |cuts| >= 2 {
      assert cuts[1] <= cuts[|cuts| - 1];
      PartsJoin(serve, body, cuts[1..]);
      SlicesJoin(body, cuts[0], cuts[1], cuts[|cuts| - 1]);
    } else {
      assert body[cuts[0]..cuts[0]] == [];
    }
  }

  lemma SlicesJoin(s: Bytes, a: nat, b: nat, c: nat)
    requires a <= b <= c <= |s|
    ensures s[a..b] + s[b..c] == s[a..c]
  {
  }

  /** Requests served from one body. */
  function Server(parse: Parser, body: Bytes): (nat, nat) -> Bytes {
    (a: nat, b: nat) => ServedRange(parse, body, a, b)
  }

  lemma ServerServes(parse: Parser, body: Bytes)
    requires ReadsBack(parse) && |body| <= MAX64
    ensures forall a: nat, b: nat :: a < b <= |body| ==> Server(parse, body)(a, b - 1) == body[a..b]
  {
    forall a: nat, b: nat | a < b <= |body|
      ensures Server(parse, body)(a, b - 1) == body[a..b]
    {
      OneRange(parse, body, a, b);
    }
  }

  lemma HeadersReadBack()
    ensures ReadsBack(ParseRangeHeader)
  {
    forall a: nat, b: nat | a <= b <= MAX64
      ensures ParseRangeHeader(RangeHeader(a, b)) == Ok(Some(RangeRequest(a, b, false)))
    {
      HeaderReadsBack(a, b);
    }
  }

  lemma AnyPartition(parse: Parser, body: Bytes, cuts: seq<nat>)
    requires ReadsBack(parse) && cuts != [] && Increasing(cuts) && cuts[|cuts| - 1] <= |body| <= MAX64
    ensures cuts[0] <= cuts[|cuts| - 1] && Served(Server(parse, body), cuts) == body[cuts[0]..cuts[|cuts| - 1]]
  {
    ServerServes(parse, body);
    PartsJoin(Server(parse, body), body, cuts);
  }

  /** Ranged reads partition an object: for increasing cut points the bodies of the
      requests between them concatenate to the object between the first and the last. */
  lemma RangesPartition(body: Bytes, cuts: seq<nat>)
    requires cuts != [] && Increasing(cuts) && cuts[|cuts| - 1] <= |body| <= MAX64
    ensures cuts[0] <= cuts[|cuts| - 1] &&
      Served(Server(ParseRangeHeader, body), cuts) == body[cuts[0]..cuts[|cuts| - 1]]
  {
    HeadersReadBack();
    AnyPartition(ParseRangeHeader, body, cuts);
  }
}
