/** What completing a multipart upload promises. */
module UploadLaws {
  import opened Basics
  import opened UploadIndex
  import opened UploadParts
  import opened Uploaders
  import opened Encodings

  /** Each listed part was uploaded and its etag is the one returned for it, quoted or not. */
  predicate AllMatch(parts: seq<Option<Part>>, cs: seq<CompletedPart>) {
    forall j :: 0 <= j < |cs| ==> Matches(parts, cs[j])
  }

  predicate Matches(parts: seq<Option<Part>>, c: CompletedPart) {
    PartAt(parts, c.number).Some? && TrimQuotes(c.etag) == TrimQuotes(PartAt(parts, c.number).value.etag)
  }

  lemma NoErrorIsMatch(parts: seq<Option<Part>>, c: CompletedPart)
    ensures PartError(parts, c).None? <==> Matches(parts, c)
  {
  }

  lemma PartsCompletion(md5: Digest, parts: seq<Option<Part>>, cs: seq<CompletedPart>)
    requires PartsOK(md5, parts)
    ensures Completion(parts, cs).Ok? <==> |cs| <= |parts| && AllMatch(parts, cs)
    ensures Completion(parts, cs).Ok? ==>
      Completion(parts, cs) == Ok(Assembly(Bodies(parts, cs, |cs|), Hashes(md5, parts, cs, |cs|)))
  {
    forall j | 0 <= j < |cs|
      ensures PartError(parts, cs[j]).None? <==> Matches(parts, cs[j])
    {
      NoErrorIsMatch(parts, cs[j]);
    }
    NoErrorMeansAll(parts, cs, 0);
    if FirstError(parts, cs, 0).None? {
      AssembledIs(md5, parts, cs);
    }
  }

  // ---- in terms of what was uploaded ----

  /** An entry names a part that was uploaded, by the hash of the body uploaded last under
      its number, in hexadecimal and quoted or not. */
  predicate Names(md5: Digest, uploads: seq<(nat, Bytes)>, c: CompletedPart) {
    var body := LatestBody(uploads, c.number);
    body.Some? && TrimQuotes(c.etag) == HexEncode(md5(body.value))
  }

  function LatestOrNothing(uploads: seq<(nat, Bytes)>, n: int): Bytes {
    if LatestBody(uploads, n).Some? then LatestBody(uploads, n).value else []
  }

  /** The latest bodies under the numbers listed, in request order, and their hashes. */
  function LatestBodies(uploads: seq<(nat, Bytes)>, cs: seq<CompletedPart>): Bytes {
    if cs == [] then []
    else LatestBodies(uploads, cs[..|cs| - 1]) + LatestOrNothing(uploads, cs[|cs| - 1].number)
  }

  function LatestHashes(md5: Digest, uploads: seq<(nat, Bytes)>, cs: seq<CompletedPart>): Bytes {
    if cs == [] then []
    else LatestHashes(md5, uploads, cs[..|cs| - 1]) + md5(LatestOrNothing(uploads, cs[|cs| - 1].number))
  }

  lemma NamesIsMatch(md5: Digest, uploads: seq<(nat, Bytes)>, c: CompletedPart)
    ensures Matches(AllSet(md5, uploads), c) <==> Names(md5, uploads, c)
  {
    LatestIsKept(md5, uploads, c.number);
    var body := LatestBody(uploads, c.number);
    if body.Some? {
      HexIsPlain(md5(body.value));
      TrimQuoted(HexEncode(md5(body.value)));
    }
  }

  lemma {:induction false} LatestAre(md5: Digest, uploads: seq<(nat, Bytes)>, cs: seq<CompletedPart>, n: nat)
    requires n <= |cs|
    ensures Bodies(AllSet(md5, uploads), cs, n) == LatestBodies(uploads, cs[..n])
    ensures Hashes(md5, AllSet(md5, uploads), cs, n) == LatestHashes(md5, uploads, cs[..n])
  {
    if n > 0 {
      LatestAre(md5, uploads, cs, n - 1);
      LatestIsKept(md5, uploads, cs[n - 1].number);
      assert cs[..n][..n - 1] == cs[..n - 1] && cs[..n][n - 1] == cs[n - 1];
    }
  }

  /** Exactly when a complete request is accepted, and what is then stored: for the parts
      that any uploads leave, it names uploaded parts, no more of them than the highest
      number allows; the latest bodies are put together in request order.  There is no
      other condition. */
  lemma CompletionExactly(md5: Digest, uploads: seq<(nat, Bytes)>, cs: seq<CompletedPart>)
    ensures Completion(AllSet(md5, uploads), cs).Ok? <==>
      |cs| <= Slots(uploads) && forall j :: 0 <= j < |cs| ==> Names(md5, uploads, cs[j])
    ensures Completion(AllSet(md5, uploads), cs).Ok? ==>
      Completion(AllSet(md5, uploads), cs) == Ok(Assembly(LatestBodies(uploads, cs), LatestHashes(md5, uploads, cs)))
  {
    AllSetOK(md5, uploads);
    PartsCompletion(md5, AllSet(md5, uploads), cs);
    LatestIsKept(md5, uploads, 0);
    LatestAre(md5, uploads, cs, |cs|);
    assert cs[..|cs|] == cs;
    forall j | 0 <= j < |cs|
      ensures Matches(AllSet(md5, uploads), cs[j]) <==> Names(md5, uploads, cs[j])
    {
      NamesIsMatch(md5, uploads, cs[j]);
    }
  }

  /** The order of the entries is never a reason to refuse a request. */
  lemma AnyOrderAccepted(md5: Digest, uploads: seq<(nat, Bytes)>, cs: seq<CompletedPart>, ds: seq<CompletedPart>)
    requires multiset(cs) == multiset(ds) && Completion(AllSet(md5, uploads), cs).Ok?
    ensures Completion(AllSet(md5, uploads), ds).Ok?
  {
    CompletionExactly(md5, uploads, cs);
    CompletionExactly(md5, uploads, ds);
    assert |cs| == |multiset(cs)| == |multiset(ds)| == |ds|;
    forall j | 0 <= j < |ds|
      ensures Names(md5, uploads, ds[j])
    {
      assert ds[j] in multiset(ds);
      assert ds[j] in cs;
    }
  }

  lemma Regroup(a: Bytes, b: Bytes, c: Bytes)
    ensures (a + b) + c == a + (b + c)
  {
  }

  lemma {:induction false} BodiesInOrder(uploads: seq<(nat, Bytes)>, cs: seq<CompletedPart>, ds: seq<CompletedPart>)
    ensures LatestBodies(uploads, cs + ds) == LatestBodies(uploads, cs) + LatestBodies(uploads, ds)
  {
    if ds == [] {
      assert cs + ds == cs;
    } else {
      var k := |ds| - 1;
      BodiesInOrder(uploads, cs, ds[..k]);
      assert (cs + ds)[..|cs + ds| - 1] == cs + ds[..k];
      Regroup(LatestBodies(uploads, cs), LatestBodies(uploads, ds[..k]), LatestOrNothing(uploads, ds[k].number));
    }
  }

  lemma {:induction false} HashesInOrder(md5: Digest, uploads: seq<(nat, Bytes)>, cs: seq<CompletedPart>,
                                         ds: seq<CompletedPart>)
    ensures LatestHashes(md5, uploads, cs + ds) == LatestHashes(md5, uploads, cs) + LatestHashes(md5, uploads, ds)
  {
    if ds == [] {
      assert cs + ds == cs;
    } else {
      var k := |ds| - 1;
      HashesInOrder(md5, uploads, cs, ds[..k]);
      assert (cs + ds)[..|cs + ds| - 1] == cs + ds[..k];
      Regroup(LatestHashes(md5, uploads, cs), LatestHashes(md5, uploads, ds[..k]),
              md5(LatestOrNothing(uploads, ds[k].number)));
    }
  }

  /** The bodies and the hashes are put together in the order of the entries ... */
  lemma InRequestOrder(md5: Digest, uploads: seq<(nat, Bytes)>, cs: seq<CompletedPart>, ds: seq<CompletedPart>)
    ensures LatestBodies(uploads, cs + ds) == LatestBodies(uploads, cs) + LatestBodies(uploads, ds)
    ensures LatestHashes(md5, uploads, cs + ds) == LatestHashes(md5, uploads, cs) + LatestHashes(md5, uploads, ds)
  {
    BodiesInOrder(uploads, cs, ds);
    HashesInOrder(md5, uploads, cs, ds);
  }

  /** ... each entry's as it was uploaded last. */
  lemma OneBody(md5: Digest, uploads: seq<(nat, Bytes)>, c: CompletedPart, body: Bytes)
    requires LatestBody(uploads, c.number) == Some(body)
    ensures LatestBodies(uploads, [c]) == body && LatestHashes(md5, uploads, [c]) == md5(body)
  {
    assert [c][..0] == [] && [] + body == body && [] + md5(body) == md5(body);
  }

  // ---- refusals ----

  lemma {:induction false} FirstErrorIs(parts: seq<Option<Part>>, cs: seq<CompletedPart>, i: nat) returns (k: nat)
    requires i <= |cs| && FirstError(parts, cs, i).Some?
    ensures i <= k < |cs| && PartError(parts, cs[k]) == FirstError(parts, cs, i)
    ensures forall j :: i <= j < k ==> PartError(parts, cs[j]).None?
    decreases |cs| - i
  {
    if PartError(parts, cs[i]).Some? {
      k := i;
    } else {
      k := FirstErrorIs(parts, cs, i + 1);
    }
  }

  /** The first entry that is wrong has a negative number. */
  ghost predicate NegativeFirst(md5: Digest, uploads: seq<(nat, Bytes)>, cs: seq<CompletedPart>) {
    exists i :: 0 <= i < |cs| && cs[i].number < 0 && forall j :: 0 <= j < i ==> Names(md5, uploads, cs[j])
  }

  lemma EntryError(md5: Digest, uploads: seq<(nat, Bytes)>, c: CompletedPart)
    ensures PartError(AllSet(md5, uploads), c) ==
      if Names(md5, uploads, c) then None else Some(if c.number < 0 then Panic else InvalidPart)
  {
    NoErrorIsMatch(AllSet(md5, uploads), c);
    NamesIsMatch(md5, uploads, c);
  }

  lemma FirstWrong(md5: Digest, uploads: seq<(nat, Bytes)>, cs: seq<CompletedPart>)
    requires FirstError(AllSet(md5, uploads), cs, 0).Some?
    ensures FirstError(AllSet(md5, uploads), cs, 0) ==
      Some(if NegativeFirst(md5, uploads, cs) then Panic else InvalidPart)
  {
    var k := FirstErrorIs(AllSet(md5, uploads), cs, 0);
    forall j | 0 <= j <= k
      ensures PartError(AllSet(md5, uploads), cs[j]) ==
        if Names(md5, uploads, cs[j]) then None else Some(if cs[j].number < 0 then Panic else InvalidPart)
    {
      EntryError(md5, uploads, cs[j]);
    }
    if i :| 0 <= i < |cs| && cs[i].number < 0 && forall j :: 0 <= j < i ==> Names(md5, uploads, cs[j]) {
      EntryError(md5, uploads, cs[i]);
      NegativeIsNoPart(uploads, cs[i].number);
    }
  }

  lemma {:induction false} NegativeIsNoPart(uploads: seq<(nat, Bytes)>, n: int)
    requires n < 0
    ensures LatestBody(uploads, n).None?
  {
    if uploads != [] {
      var m: nat := uploads[|uploads| - 1].0;
      assert m != n;
      NegativeIsNoPart(uploads[..|uploads| - 1], n);
    }
  }

  /** What a complete request that is not accepted is answered: that a part is invalid, but
      a negative part number, if nothing is wrong before it, makes the uploader panic. */
  lemma RefusedExactly(md5: Digest, uploads: seq<(nat, Bytes)>, cs: seq<CompletedPart>)
    requires Completion(AllSet(md5, uploads), cs).Err?
    ensures Completion(AllSet(md5, uploads), cs).error ==
      if |cs| <= Slots(uploads) && NegativeFirst(md5, uploads, cs) then Panic else InvalidPart
  {
    LatestIsKept(md5, uploads, 0);
    AllSetOK(md5, uploads);
    if FirstError(AllSet(md5, uploads), cs, 0).Some? {
      FirstWrong(md5, uploads, cs);
    } else {
      AssembledIs(md5, AllSet(md5, uploads), cs);
    }
  }
}
