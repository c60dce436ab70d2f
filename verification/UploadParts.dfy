/** The parts of a multipart upload: how they are kept, listed, checked and assembled. */
module UploadParts {
  import opened Basics
  import opened Numerals
  import opened Encodings
  import opened UploadIndex
  import Prefixes

  const MAX_UPLOAD_PART_NUMBER := 10000

  /** An entry of a complete request. */
  datatype CompletedPart = CompletedPart(number: int, etag: Bytes)

  // ---- etags ----

  function TrimRight(s: string, cutset: string): string {
    if s != "" && s[|s| - 1] in cutset then TrimRight(s[..|s| - 1], cutset) else s
  }

  /** strings.Trim with a double quote. */
  function TrimQuotes(s: string): string {
    TrimRight(Prefixes.TrimLeft(s, "\""), "\"")
  }

  function Quoted(s: string): string {
    "\"" + s + "\""
  }

  /** A hash of sixteen bytes in hexadecimal. */
  predicate IsHexOf(s: string, hash: Bytes) {
    |s| == 32 && IsLowerHex(s) && HexDecode(s) == Some(hash)
  }

  lemma HexOfDigest(md5: Digest, b: Bytes)
    ensures IsHexOf(HexEncode(md5(b)), md5(b))
  {
    HexShape(md5(b));
    HexRoundTrip(md5(b));
  }

  /** The etag of a part: the hash in quotes. */
  predicate IsPartEtag(etag: Bytes, hash: Bytes) {
    |etag| == 34 && etag[0] == '"' && IsHexOf(etag[1..33], hash) && etag[33] == '"'
  }

  function PartEtag(md5: Digest, body: Bytes): Bytes {
    Quoted(HexEncode(md5(body)))
  }

  lemma PartEtagIs(md5: Digest, body: Bytes)
    ensures IsPartEtag(PartEtag(md5, body), md5(body))
  {
    HexOfDigest(md5, body);
    assert PartEtag(md5, body)[1..33] == HexEncode(md5(body));
  }

  predicate NoQuotes(s: string) {
    forall i :: 0 <= i < |s| ==> s[i] != '"'
  }

  lemma TrimQuoted(s: string)
    requires NoQuotes(s)
    ensures TrimQuotes(Quoted(s)) == s && TrimQuotes(s) == s
  {
    var q, t := Quoted(s), s + "\"";
    assert q[1..] == t && t[..|s|] == s;
    if s == "" {
      assert Prefixes.TrimLeft(t, "\"") == Prefixes.TrimLeft(t[1..], "\"") == "";
    } else {
      assert t[0] == s[0] && Prefixes.TrimLeft(q, "\"") == Prefixes.TrimLeft(t, "\"") == t;
      assert TrimRight(t, "\"") == TrimRight(s, "\"") == s;
    }
  }

  lemma HexIsPlain(b: Bytes)
    requires Octets(b)
    ensures NoQuotes(HexEncode(b))
  {
    HexShape(b);
  }

  /** A stored etag decodes to the hash of the part. */
  lemma EtagDecodes(md5: Digest, body: Bytes)
    ensures HexDecode(TrimQuotes(PartEtag(md5, body))) == Some(md5(body))
  {
    HexIsPlain(md5(body));
    TrimQuoted(HexEncode(md5(body)));
    HexRoundTrip(md5(body));
  }

  // ---- the parts kept ----

  function PartAt(parts: seq<Option<Part>>, n: int): Option<Part> {
    if 0 <= n < |parts| then parts[n] else None
  }

  /** Room is made for a part number beyond the last. */
  function SetPart(parts: seq<Option<Part>>, n: nat, part: Part): seq<Option<Part>> {
    var grown := if n >= |parts| then parts + seq(n - |parts| + 1, i => None) else parts;
    grown[n := Some(part)]
  }

  /** The slice grows to hold the part; its number is not negative. */
  method StorePart(u: MultipartUpload, part: Part)
    requires part.number >= 0
    modifies u
    ensures u.parts == SetPart(old(u.parts), part.number, part)
  {
    if part.number >= |u.parts| {
      u.parts := u.parts + seq(part.number - |u.parts| + 1, i => None);
    }
    u.parts := u.parts[part.number := Some(part)];
  }

  lemma SetPartAt(parts: seq<Option<Part>>, n: nat, part: Part, m: int)
    ensures PartAt(SetPart(parts, n, part), m) == if m == n then Some(part) else PartAt(parts, m)
  {
  }

  /** Each part is under its number, with the etag of its body. */
  ghost predicate PartsOK(md5: Digest, parts: seq<Option<Part>>) {
    forall i :: 0 <= i < |parts| && parts[i].Some? ==>
      parts[i].value.number == i && parts[i].value.etag == PartEtag(md5, parts[i].value.body)
  }

  lemma SetPartOK(md5: Digest, parts: seq<Option<Part>>, n: nat, body: Bytes)
    requires PartsOK(md5, parts)
    ensures PartsOK(md5, SetPart(parts, n, Part(n, PartEtag(md5, body), body)))
  {
  }

  /** The parts after a number of part uploads, the first one earliest. */
  function AllSet(md5: Digest, uploads: seq<(nat, Bytes)>): seq<Option<Part>> {
    if uploads == [] then []
    else
      var (n, body) := uploads[|uploads| - 1];
      SetPart(AllSet(md5, uploads[..|uploads| - 1]), n, Part(n, PartEtag(md5, body), body))
  }

  lemma {:induction false} AllSetOK(md5: Digest, uploads: seq<(nat, Bytes)>)
    ensures PartsOK(md5, AllSet(md5, uploads))
  {
    if uploads != [] {
      AllSetOK(md5, uploads[..|uploads| - 1]);
      SetPartOK(md5, AllSet(md5, uploads[..|uploads| - 1]), uploads[|uploads| - 1].0, uploads[|uploads| - 1].1);
    }
  }

  /** The body uploaded last under a number, if any was. */
  function LatestBody(uploads: seq<(nat, Bytes)>, n: int): Option<Bytes> {
    if uploads == [] then None
    else
      var (m, body) := uploads[|uploads| - 1];
      if m == n then Some(body) else LatestBody(uploads[..|uploads| - 1], n)
  }

  lemma {:induction false} LatestBodyIs(uploads: seq<(nat, Bytes)>, n: int, body: Bytes)
    ensures LatestBody(uploads, n) == Some(body) <==>
      exists i :: 0 <= i < |uploads| && uploads[i] == (n, body) && forall j :: i < j < |uploads| ==> uploads[j].0 != n
  {
    if uploads != [] {
      var k := |uploads| - 1;
      LatestBodyIs(uploads[..k], n, body);
      if uploads[k].0 != n && LatestBody(uploads[..k], n) == Some(body) {
        var i :| 0 <= i < k && uploads[..k][i] == (n, body) && forall j :: i < j < k ==> uploads[..k][j].0 != n;
        assert uploads[i] == (n, body);
        forall j | i < j < |uploads|
          ensures uploads[j].0 != n
        {
          assert j < k ==> uploads[..k][j] == uploads[j];
        }
      }
      if i :| 0 <= i < k && uploads[i] == (n, body) && forall j :: i < j < |uploads| ==> uploads[j].0 != n {
        assert uploads[..k][i] == (n, body);
      }
    }
  }

  /** One more than the highest number uploaded. */
  function Slots(uploads: seq<(nat, Bytes)>): nat {
    if uploads == [] then 0
    else
      var n, m := uploads[|uploads| - 1].0, Slots(uploads[..|uploads| - 1]);
      if n >= m then n + 1 else m
  }

  /** A part is kept if and only if it was uploaded, and then with the latest body. */
  lemma {:induction false} LatestIsKept(md5: Digest, uploads: seq<(nat, Bytes)>, n: int)
    ensures PartAt(AllSet(md5, uploads), n) ==
      match LatestBody(uploads, n)
      case None => None
      case Some(body) => Some(Part(n, PartEtag(md5, body), body))
    ensures |AllSet(md5, uploads)| == Slots(uploads)
  {
    if uploads != [] {
      var front, last := uploads[..|uploads| - 1], uploads[|uploads| - 1];
      SetPartAt(AllSet(md5, front), last.0, Part(last.0, PartEtag(md5, last.1), last.1), n);
      LatestIsKept(md5, front, n);
    }
  }

  // ---- the checks of a complete request ----

  /** What is wrong with one entry; a negative part number is out of range of the slice. */
  function PartError(parts: seq<Option<Part>>, c: CompletedPart): Option<Error> {
    if c.number >= |parts| then Some(InvalidPart)
    else if c.number < 0 then Some(Panic)
    else if parts[c.number].None? then Some(InvalidPart)
    else if TrimQuotes(c.etag) != TrimQuotes(parts[c.number].value.etag) then Some(InvalidPart)
    else None
  }

  /** The error of the first entry from `i` on that has one. */
  function FirstError(parts: seq<Option<Part>>, cs: seq<CompletedPart>, i: nat): Option<Error>
    requires i <= |cs|
    decreases |cs| - i
  {
    if i == |cs| then None
    else if PartError(parts, cs[i]).Some? then PartError(parts, cs[i])
    else FirstError(parts, cs, i + 1)
  }

  lemma {:induction false} NoErrorMeansAll(parts: seq<Option<Part>>, cs: seq<CompletedPart>, i: nat)
    requires i <= |cs|
    ensures FirstError(parts, cs, i).None? <==> forall j :: i <= j < |cs| ==> PartError(parts, cs[j]).None?
    decreases |cs| - i
  {
    if i < |cs| {
      NoErrorMeansAll(parts, cs, i + 1);
    }
  }

  function Insert(x: int, s: seq<int>): seq<int> {
    if s == [] || x <= s[0] then [x] + s else [s[0]] + Insert(x, s[1..])
  }

  /** sort.Ints. */
  function SortInts(s: seq<int>): seq<int> {
    if s == [] then [] else Insert(s[0], SortInts(s[1..]))
  }

  predicate IntsAreSorted(s: seq<int>) {
    forall i :: 0 < i < |s| ==> s[i - 1] <= s[i]
  }

  /** CompleteMultipartUploadRequest.partIDs: it sorts what it collects. */
  method PartIDs(cs: seq<CompletedPart>) returns (ids: seq<int>)
    ensures ids == SortInts(seq(|cs|, i requires 0 <= i < |cs| => cs[i].number))
  {
    ids := [];
    for i := 0 to |cs|
      invariant ids == seq(i, j requires 0 <= j < i => cs[j].number)
    {
      ids := ids + [cs[i].number];
    }
    ids := SortInts(ids);
  }

  lemma {:induction false} InsertSorted(x: int, s: seq<int>)
    requires IntsAreSorted(s)
    ensures IntsAreSorted(Insert(x, s)) && (Insert(x, s)[0] == x || (s != [] && Insert(x, s)[0] == s[0]))
  {
    if s != [] && x > s[0] {
      assert forall i :: 0 < i < |s[1..]| ==> s[1..][i - 1] == s[i] && s[1..][i] == s[i + 1];
      InsertSorted(x, s[1..]);
      var t := Insert(x, s[1..]);
      forall i | 0 < i < |[s[0]] + t|
        ensures ([s[0]] + t)[i - 1] <= ([s[0]] + t)[i]
      {
        if i > 1 { assert t[i - 2] <= t[i - 1]; }
      }
    }
  }

  lemma {:induction false} SortSorts(s: seq<int>)
    ensures IntsAreSorted(SortInts(s)) && multiset(SortInts(s)) == multiset(s)
  {
    if s != [] {
      SortSorts(s[1..]);
      InsertSorted(s[0], SortInts(s[1..]));
      InsertAdds(s[0], SortInts(s[1..]));
      assert s == [s[0]] + s[1..];
    }
  }

  lemma {:induction false} InsertAdds(x: int, s: seq<int>)
    ensures multiset(Insert(x, s)) == multiset([x] + s)
  {
    if s != [] && x > s[0] {
      InsertAdds(x, s[1..]);
      assert s == [s[0]] + s[1..];
    }
  }

  /** partsAreSorted: it tests the ids after they have been sorted, so that the order of
      the request is never refused. */
  method PartsAreSorted(cs: seq<CompletedPart>) returns (b: bool)
    ensures b
  {
    var ids := PartIDs(cs);
    SortSorts(seq(|cs|, i requires 0 <= i < |cs| => cs[i].number));
    b := IntsAreSorted(ids);
  }

  method CheckParts(parts: seq<Option<Part>>, cs: seq<CompletedPart>) returns (err: Option<Error>)
    ensures err == FirstError(parts, cs, 0)
  {
    for i := 0 to |cs|
      invariant FirstError(parts, cs, 0) == FirstError(parts, cs, i)
    {
      err := PartError(parts, cs[i]);
      if err.Some? {
        return;
      }
    }
    err := None;
  }

  // ---- assembly ----

  /** The bodies put together, and the hashes of the parts. */
  datatype Assembly = Assembly(body: Bytes, hashes: Bytes)

  function BodyAt(parts: seq<Option<Part>>, n: int): Bytes {
    if PartAt(parts, n).Some? then PartAt(parts, n).value.body else []
  }

  /** The latest bodies of the first `n` listed parts, in request order. */
  function Bodies(parts: seq<Option<Part>>, cs: seq<CompletedPart>, n: nat): Bytes
    requires n <= |cs|
  {
    if n == 0 then [] else Bodies(parts, cs, n - 1) + BodyAt(parts, cs[n - 1].number)
  }

  function Hashes(md5: Digest, parts: seq<Option<Part>>, cs: seq<CompletedPart>, n: nat): Bytes
    requires n <= |cs|
  {
    if n == 0 then [] else Hashes(md5, parts, cs, n - 1) + md5(BodyAt(parts, cs[n - 1].number))
  }

  type HashOf = int -> Option<Bytes>

  /** What the assembly of the first `n` listed parts comes to, with a way to get at the
      hash behind a stored etag; without one that is an internal error. */
  function AssembledBy(hashOf: HashOf, parts: seq<Option<Part>>, cs: seq<CompletedPart>, n: nat): Result<Assembly>
    requires n <= |cs|
  {
    if n == 0 then Ok(Assembly([], []))
    else
      var r := AssembledBy(hashOf, parts, cs, n - 1);
      var h := hashOf(cs[n - 1].number);
      if r.Err? then r
      else if h.None? then Err(Internal)
      else Ok(Assembly(r.value.body + BodyAt(parts, cs[n - 1].number), r.value.hashes + h.value))
  }

  /** The stored etags are hexadecimal text in quotes. */
  function StoredHash(parts: seq<Option<Part>>): HashOf {
    n => HexDecode(TrimQuotes(EtagAt(parts, n)))
  }

  function Assembled(parts: seq<Option<Part>>, cs: seq<CompletedPart>): Result<Assembly> {
    AssembledBy(StoredHash(parts), parts, cs, |cs|)
  }

  function EtagAt(parts: seq<Option<Part>>, n: int): Bytes {
    if PartAt(parts, n).Some? then PartAt(parts, n).value.etag else []
  }

  lemma {:induction false} AssemblyFails(hashOf: HashOf, parts: seq<Option<Part>>, cs: seq<CompletedPart>, i: nat,
                                         n: nat)
    requires i <= n <= |cs| && AssembledBy(hashOf, parts, cs, i).Err?
    ensures AssembledBy(hashOf, parts, cs, n) == AssembledBy(hashOf, parts, cs, i)
  {
    if i < n {
      AssemblyFails(hashOf, parts, cs, i, n - 1);
    }
  }

  method Assemble(parts: seq<Option<Part>>, cs: seq<CompletedPart>) returns (r: Result<Assembly>)
    requires FirstError(parts, cs, 0).None?
    ensures r == Assembled(parts, cs)
  {
    ghost var hashOf := StoredHash(parts);
    var body, hashes := [], [];
    for i := 0 to |cs|
      invariant AssembledBy(hashOf, parts, cs, i) == Ok(Assembly(body, hashes))
    {
      ListedPart(parts, cs, i);
      var upPart := parts[cs[i].number].value;
      var hashBytes := HexDecode(TrimQuotes(upPart.etag));
      assert hashBytes == hashOf(cs[i].number);
      body := body + upPart.body;
      if hashBytes.None? {
        AssemblyFails(hashOf, parts, cs, i + 1, |cs|);
        return Err(Internal);
      }
      hashes := hashes + hashBytes.value;
    }
    r := Ok(Assembly(body, hashes));
  }

  lemma ListedPart(parts: seq<Option<Part>>, cs: seq<CompletedPart>, i: nat)
    requires FirstError(parts, cs, 0).None? && i < |cs|
    ensures var n := cs[i].number;
      0 <= n < |parts| && parts[n].Some? && EtagAt(parts, n) == parts[n].value.etag &&
        BodyAt(parts, n) == parts[n].value.body
  {
    NoErrorMeansAll(parts, cs, 0);
    assert PartError(parts, cs[i]).None?;
  }

  /** Where every listed part has the hash of its body, assembly succeeds. */
  lemma {:induction false} DecodableAssembles(md5: Digest, hashOf: HashOf, parts: seq<Option<Part>>,
                                              cs: seq<CompletedPart>, n: nat)
    requires n <= |cs| && forall i :: 0 <= i < |cs| ==> hashOf(cs[i].number) == Some(md5(BodyAt(parts, cs[i].number)))
    ensures AssembledBy(hashOf, parts, cs, n) == Ok(Assembly(Bodies(parts, cs, n), Hashes(md5, parts, cs, n)))
  {
    if n > 0 {
      DecodableAssembles(md5, hashOf, parts, cs, n - 1);
      AssembleStep(hashOf, parts, cs, n, Bodies(parts, cs, n - 1), Hashes(md5, parts, cs, n - 1),
                   md5(BodyAt(parts, cs[n - 1].number)));
    }
  }

  lemma AssembleStep(hashOf: HashOf, parts: seq<Option<Part>>, cs: seq<CompletedPart>, n: nat, body: Bytes,
                     hashes: Bytes, hash: Bytes)
    requires 0 < n <= |cs| && AssembledBy(hashOf, parts, cs, n - 1) == Ok(Assembly(body, hashes)) &&
      hashOf(cs[n - 1].number) == Some(hash)
    ensures AssembledBy(hashOf, parts, cs, n) == Ok(Assembly(body + BodyAt(parts, cs[n - 1].number), hashes + hash))
  {
  }

  /** The assembly of parts as they are stored: the latest bodies one after the other, and
      their hashes.  The internal error does not occur. */
  lemma AssembledIs(md5: Digest, parts: seq<Option<Part>>, cs: seq<CompletedPart>)
    requires PartsOK(md5, parts) && FirstError(parts, cs, 0).None?
    ensures Assembled(parts, cs) == Ok(Assembly(Bodies(parts, cs, |cs|), Hashes(md5, parts, cs, |cs|)))
  {
    forall i | 0 <= i < |cs|
      ensures StoredHash(parts)(cs[i].number) == Some(md5(BodyAt(parts, cs[i].number)))
    {
      ListedPart(parts, cs, i);
      EtagDecodes(md5, BodyAt(parts, cs[i].number));
    }
    DecodableAssembles(md5, StoredHash(parts), parts, cs, |cs|);
  }

  /** The hash of the part hashes, and the number of parts. */
  function CompleteEtag(md5: Digest, hashes: Bytes, n: nat): Bytes {
    Quoted(HexEncode(md5(hashes)) + "-" + Decimal(n))
  }

  /** In quotes: a hash in hexadecimal, a dash, and a number in decimal. */
  predicate IsObjectEtag(etag: Bytes, hash: Bytes, n: nat) {
    && |etag| > 35 && etag[0] == '"' && IsHexOf(etag[1..33], hash) && etag[33] == '-' && etag[|etag| - 1] == '"'
    && IsNumeral(DECIMAL, etag[34..|etag| - 1]) && Read(DECIMAL, etag[34..|etag| - 1]) == n
  }

  lemma CompleteEtagIs(md5: Digest, hashes: Bytes, n: nat)
    ensures IsObjectEtag(CompleteEtag(md5, hashes, n), md5(hashes), n)
  {
    HexOfDigest(md5, hashes);
    ReadDecimal(n);
    EtagPieces(HexEncode(md5(hashes)), Decimal(n));
  }

  lemma EtagPieces(h: string, d: string)
    requires |h| == 32
    ensures var etag := Quoted(h + "-" + d);
      && |etag| == 35 + |d| && etag[0] == '"' && etag[33] == '-' && etag[|etag| - 1] == '"'
      && etag[1..33] == h && etag[34..|etag| - 1] == d
  {
  }

  // ---- listing parts ----

  datatype PartItem = PartItem(etag: Bytes, size: nat, partNumber: nat)

  datatype PartList = PartList(parts: seq<PartItem>, isTruncated: bool, nextPartNumberMarker: nat)

  function ItemOfPart(parts: seq<Option<Part>>, i: nat): PartItem
    requires i < |parts| && parts[i].Some?
  {
    PartItem(parts[i].value.etag, |parts[i].value.body|, i)
  }

  /** The uploaded parts numbered from 0 up to `hi`. */
  function Present(parts: seq<Option<Part>>, hi: nat): seq<PartItem>
    requires hi <= |parts|
  {
    if hi == 0 then []
    else Present(parts, hi - 1) + if parts[hi - 1].Some? then [ItemOfPart(parts, hi - 1)] else []
  }

  lemma {:induction false} PresentGrows(parts: seq<Option<Part>>, lo: nat, hi: nat)
    requires lo <= hi <= |parts|
    ensures Present(parts, lo) <= Present(parts, hi)
  {
    if lo < hi {
      PresentGrows(parts, lo, hi - 1);
    }
  }

  /** The first `limit` parts, and whether there are more; if so, the number of the first
      one left out. */
  ghost predicate ListsParts(parts: seq<Option<Part>>, limit: int, r: PartList) {
    IsPartPage(Present(parts, |parts|), limit, r)
  }

  ghost predicate IsPartPage(all: seq<PartItem>, limit: int, r: PartList) {
    && r.parts == all[..if limit < 0 then 0 else if |all| <= limit then |all| else limit]
    && r.isTruncated == (|all| > limit && all != [])
    && (r.isTruncated ==> r.nextPartNumberMarker == all[|r.parts|].partNumber)
  }

  /** The loop over a slice of the parts. */
  method ListSlice(parts: seq<Option<Part>>, limit: int) returns (r: PartList)
    ensures ListsParts(parts, limit, r)
  {
    var items, cnt: int := [], 0;
    for i := 0 to |parts|
      invariant items == Present(parts, i) && cnt == |items| && (items != [] ==> cnt <= limit)
    {
      if parts[i].Some? {
        PresentGrows(parts, i + 1, |parts|);
        if cnt >= limit {
          PresentGrows(parts, i, |parts|);
          return PartList(items, true, i);
        }
        items := items + [ItemOfPart(parts, i)];
        cnt := cnt + 1;
      }
    }
    r := PartList(items, false, 0);
  }

  /** ListParts: the parts are cut at the marker, out of range or not, and numbered from
      there on. */
  method ListParts(parts: seq<Option<Part>>, marker: int, limit: int) returns (r: Result<PartList>)
    ensures if 0 <= marker <= |parts| then r.Ok? && ListsParts(parts[marker..], limit, r.value) else r == Err(Panic)
  {
    if marker < 0 || marker > |parts| {
      return Err(Panic);
    }
    var list := ListSlice(parts[marker..], limit);
    r := Ok(list);
  }

  /** What is listed: each uploaded part once, by ascending number. */
  lemma {:induction false} PresentExactly(parts: seq<Option<Part>>, hi: nat, item: PartItem)
    requires hi <= |parts|
    ensures item in Present(parts, hi) <==>
      && item.partNumber < hi && parts[item.partNumber].Some?
      && item.etag == parts[item.partNumber].value.etag && item.size == |parts[item.partNumber].value.body|
    ensures forall i, j :: 0 <= i < j < |Present(parts, hi)| ==>
      Present(parts, hi)[i].partNumber < Present(parts, hi)[j].partNumber
    ensures forall i :: 0 <= i < |Present(parts, hi)| ==> Present(parts, hi)[i].partNumber < hi
  {
    if hi > 0 {
      PresentExactly(parts, hi - 1, item);
    }
  }

  // ---- pages of parts ----

  function Renumbered(items: seq<PartItem>, lift: nat): (r: seq<PartItem>)
    ensures |r| == |items|
  {
    seq(|items|, i requires 0 <= i < |items| => items[i].(partNumber := items[i].partNumber + lift))
  }

  lemma RenumberMore(items: seq<PartItem>, item: PartItem, lift: nat)
    ensures Renumbered(items + [item], lift) == Renumbered(items, lift) + [item.(partNumber := item.partNumber + lift)]
  {
  }

  /** Cut at a marker, the same parts are listed under numbers too low by the marker. */
  lemma {:induction false} PresentAfter(parts: seq<Option<Part>>, marker: nat, hi: nat)
    requires marker <= hi <= |parts|
    ensures Present(parts, hi) == Present(parts, marker) + Renumbered(Present(parts[marker..], hi - marker), marker)
  {
    if marker < hi {
      PresentAfter(parts, marker, hi - 1);
      var rest := parts[marker..];
      assert rest[hi - 1 - marker] == parts[hi - 1];
      if parts[hi - 1].Some? {
        RenumberMore(Present(rest, hi - 1 - marker), ItemOfPart(rest, hi - 1 - marker), marker);
      }
    }
  }

  /** The parts numbered `marker` or higher. */
  function PresentFrom(parts: seq<Option<Part>>, marker: nat): seq<PartItem>
    requires marker <= |parts|
  {
    PresentGrows(parts, marker, |parts|);
    Present(parts, |parts|)[|Present(parts, marker)|..]
  }

  /** The page of the parts numbered `marker` or higher: the first `limit` of them, whether
      there are more, and the number of the first one left out. */
  ghost predicate RightParts(parts: seq<Option<Part>>, marker: nat, limit: int, r: PartList)
    requires marker <= |parts|
  {
    IsPartPage(PresentFrom(parts, marker), limit, r)
  }

  /** A page of parts is right if and only if it starts from zero or nothing is left to list. */
  lemma PartPagesExactly(parts: seq<Option<Part>>, marker: nat, limit: int, r: PartList)
    requires marker <= |parts| && ListsParts(parts[marker..], limit, r)
    ensures RightParts(parts, marker, limit, r) <==> marker == 0 || forall i :: marker <= i < |parts| ==> parts[i].None?
  {
    PresentAfter(parts, marker, |parts|);
    var low := Present(parts[marker..], |parts| - marker);
    assert PresentFrom(parts, marker) == Renumbered(low, marker);
    NonePresent(parts[marker..], |parts| - marker);
    assert forall i :: marker <= i < |parts| ==> parts[i] == parts[marker..][i - marker];
    SamePage(low, marker, limit, r);
  }

  lemma SamePage(low: seq<PartItem>, lift: nat, limit: int, r: PartList)
    requires IsPartPage(low, limit, r)
    ensures IsPartPage(Renumbered(low, lift), limit, r) <==> lift == 0 || low == []
  {
    var all := Renumbered(low, lift);
    if lift == 0 {
      assert all == low;
    } else if low != [] {
      if r.parts != [] {
        assert r.parts[0] == low[0] != all[0];
      }
    }
  }

  lemma {:induction false} NonePresent(parts: seq<Option<Part>>, hi: nat)
    requires hi <= |parts|
    ensures Present(parts, hi) == [] <==> forall i :: 0 <= i < hi ==> parts[i].None?
  {
    if hi > 0 {
      NonePresent(parts, hi - 1);
    }
  }
}
