/** Creating an object from a request: the reader chain and what it stores. */
module ObjectUploads {
  import opened Basics
  import opened Chunks
  import opened Readers
  import opened BucketModel
  import opened Backends
  import opened VersionIds
  import ChunkReads

  const KEY_SIZE_LIMIT := 1024

  /** What the headers of an upload say.  A stream of chunks declares its decoded length. */
  datatype Headers = Headers(framed: bool, contentLength: int, decodedLength: int, contentMD5: Option<Bytes>)

  /** The version id shown, if any, and the hash behind the ETag. */
  datatype Created = Created(versionID: string, hash: Bytes)

  function Declared(h: Headers): int {
    if h.framed then h.decodedLength else h.contentLength
  }

  /** How a request's body arrives: its bytes, in what pieces, and how the buffers grow
      of the reader that looks for more than was declared. */
  datatype Arrival = Arrival(stream: Bytes, pc: ChunkReads.Pieces, grow: Growth)

  function StandFor(scan: Scanner, h: Headers, a: Arrival): Stand {
    if h.framed then ChunkedAt(scan, Start(a.stream), a.pc) else PlainAt(a.stream)
  }

  /** What the inner reader delivers. */
  function Delivered(scan: Scanner, h: Headers, a: Arrival): Outcome
    requires Declared(h) >= 0
  {
    NowAt(StandFor(scan, h, a), Declared(h), a.grow)
  }

  /** The checks before anything is read.  A negative decoded length makes the buffer's
      allocation panic. */
  function Rejected(h: Headers, name: string): Option<Error> {
    if h.contentLength < 0 then Some(BadRequest)
    else if |name| > KEY_SIZE_LIMIT then Some(KeyTooLong)
    else if Declared(h) < 0 then Some(Panic)
    else None
  }

  /** The bytes that are stored, or the error that ends the upload before. */
  function Accepted(scan: Scanner, md5: Digest, h: Headers, name: string, a: Arrival): Result<Bytes> {
    var e := Rejected(h, name);
    if e.Some? then Err(e.value)
    else ReadAllResult(Hash(md5, h.contentMD5, [], Delivered(scan, h, a)), Declared(h))
  }

  /** What an upload of the given bytes comes to: the buckets after it, and its result. */
  function Creates(v: map<string, State>, bucket: string, name: string, accepted: Result<Bytes>, md5: Digest,
                   id: string):
    (map<string, State>, Result<Created>)
  {
    if bucket !in v then (v, Err(NoSuchBucket))
    else if accepted.Err? then (v, Err(accepted.error))
    else
      var (v', r) := Stores(v, bucket, name, accepted.value, md5, id);
      (v', if r.Ok? then Ok(Created(r.value, md5(accepted.value))) else Err(r.error))
  }

  /** The inner end of the chain. */
  method Inner(source: Source, h: Headers, ghost scan: Scanner, ghost grow: Growth) returns (body: Body)
    requires source.Valid() && scan == Fscanf
    ensures ValidBody(body) && forall x :: x in Objects(body) ==> x == source || fresh(x)
    ensures StandOf(body) == StandFor(scan, h, Arrival(source.Rest(), source.pc, grow))
  {
    if h.framed {
      var reader := new ChunkedReader(source);
      body := Chunked(reader);
    } else {
      body := Plain(source);
    }
  }

  method Chain(source: Source, h: Headers, md5: Digest, ghost scan: Scanner, ghost grow: Growth)
    returns (rdr: HashingReader)
    requires source.Valid() && scan == Fscanf
    ensures forall x :: x in ReaderObjects(Hashed(rdr)) ==> x == source || fresh(x)
    ensures rdr.Valid() && rdr.md5 == md5 && rdr.written == [] && rdr.expected == h.contentMD5
    ensures StandOf(rdr.inner) == StandFor(scan, h, Arrival(source.Rest(), source.pc, grow))
  {
    var body := Inner(source, h, scan, grow);
    rdr := new HashingReader(body, h.contentMD5, md5);
  }

  /** The chain, built beside a backend that it shares nothing with. */
  method ChainBeside(db: Backend, source: Source, h: Headers, ghost scan: Scanner, ghost grow: Growth)
    returns (rdr: HashingReader, ghost o: Outcome)
    requires db.Valid() && source.Valid() && source !in db.Footprint() && scan == Fscanf && Declared(h) >= 0
    ensures db.Valid() && db.View() == old(db.View()) && db.Parts() == old(db.Parts())
    ensures ReaderObjects(Hashed(rdr)) !! db.Footprint()
    ensures forall x :: x in ReaderObjects(Hashed(rdr)) ==> x == source || fresh(x)
    ensures rdr.Valid() && rdr.md5 == db.md5 && rdr.written == [] && rdr.expected == h.contentMD5
    ensures o == NowFrom(rdr.Stands(), Declared(h), grow)
    ensures o == Hash(db.md5, h.contentMD5, [], Delivered(scan, h, Arrival(old(source.Rest()), source.pc, grow)))
  {
    rdr := Chain(source, h, db.md5, scan, grow);
    o := NowFrom(rdr.Stands(), Declared(h), grow);
    db.BackendFrame();
  }

  /** The result of an upload, from that of the backend's PutObject. */
  function CreatedFrom(put: Result<string>, sum: Option<Bytes>): Result<Created> {
    if put.Err? then Err(put.error)
    else Ok(Created(put.value, if sum.Some? then sum.value else []))
  }

  lemma CreatesFrom(v: map<string, State>, v': map<string, State>, bucket: string, name: string, bts: Result<Bytes>,
                    md5: Digest, id: string, put: Result<string>, sum: Option<Bytes>)
    requires bucket in v && (v', put) == StoresRead(v, bucket, name, bts, md5, id)
    requires put.Ok? ==> bts.Ok? && sum == Some(md5(bts.value))
    ensures (v', CreatedFrom(put, sum)) == Creates(v, bucket, name, bts, md5, id)
  {
  }

  /** A fresh hashing reader has come to the hash of what was read through it. */
  lemma SumIs(rdr: HashingReader, md5: Digest, bts: Bytes)
    requires HashCame(Hashed(rdr), [], bts) && rdr.md5 == md5
    ensures rdr.sum == Some(md5(bts)) && (rdr.expected.Some? ==> md5(bts) == rdr.expected.value)
  {
    assert [] + bts == bts;
  }

  /** PutObject of what the chain delivers. */
  method PutThrough(db: Backend, bucket: string, name: string, rdr: HashingReader, size: nat, grow: Growth,
                    ghost o: Outcome)
    returns (r: Result<Created>, ghost id: string)
    requires db.Valid() && rdr.Valid() && ReaderObjects(Hashed(rdr)) !! db.Footprint() && bucket in db.View()
    requires rdr.md5 == db.md5 && rdr.written == [] && o == NowFrom(rdr.Stands(), size, grow)
    modifies ReaderObjects(Hashed(rdr)), db.Parts()
    ensures db.Valid() && db.Grown() && db.Minted() == CountAfter(old(db.Minted()), r.Ok?)
    ensures (db.View(), r) == Creates(old(db.View()), bucket, name, ReadAllResult(o, size), db.md5, id)
    ensures r.Ok? && db.Minted() < COUNTER_LIMIT ==> IsIdNumber(id, db.Minted())
  {
    ghost var v := db.View();
    var put;
    ghost var bts;
    put, id, bts := db.PutObject(bucket, name, Hashed(rdr), size, grow);
    if put.Ok? {
      SumIs(rdr, db.md5, bts.value);
    }
    CreatesFrom(v, db.View(), bucket, name, bts, db.md5, id, put, rdr.sum);
    r := CreatedFrom(put, rdr.sum);
  }

  lemma AcceptedIs(scan: Scanner, md5: Digest, h: Headers, name: string, a: Arrival, o: Outcome)
    requires Rejected(h, name).None? && o == Hash(md5, h.contentMD5, [], Delivered(scan, h, a))
    ensures ReadAllResult(o, Declared(h)) == Accepted(scan, md5, h, name, a)
  {
  }

  method StoreUpload(db: Backend, bucket: string, name: string, h: Headers, source: Source, grow: Growth,
                     ghost scan: Scanner, ghost a: Arrival)
    returns (r: Result<Created>, ghost id: string)
    requires db.Valid() && source.Valid() && source !in db.Footprint() && scan == Fscanf
    requires bucket in db.View() && Rejected(h, name).None? && a == Arrival(source.Rest(), source.pc, grow)
    modifies source, db.Parts()
    ensures db.Valid() && db.Grown() && db.Minted() == CountAfter(old(db.Minted()), r.Ok?)
    ensures (db.View(), r) == Creates(old(db.View()), bucket, name, Accepted(scan, db.md5, h, name, a), db.md5, id)
    ensures r.Ok? && db.Minted() < COUNTER_LIMIT ==> IsIdNumber(id, db.Minted())
  {
    var rdr;
    ghost var o;
    rdr, o := ChainBeside(db, source, h, scan, grow);
    AcceptedIs(scan, db.md5, h, name, a, o);
    r, id := PutThrough(db, bucket, name, rdr, Declared(h), grow, o);
  }

  /** createObject, without the creation of missing buckets: what is stored is what the
      chain of readers makes of the stream, in whatever pieces it arrives. */
  method CreateObject(db: Backend, bucket: string, name: string, h: Headers, source: Source, grow: Growth,
                      ghost scan: Scanner)
    returns (r: Result<Created>, ghost id: string)
    requires db.Valid() && source.Valid() && source !in db.Footprint() && scan == Fscanf
    modifies source, db.Parts()
    ensures db.Valid() && db.Grown() && db.Minted() == CountAfter(old(db.Minted()), r.Ok?)
    ensures (db.View(), r) == Creates(old(db.View()), bucket, name,
      Accepted(scan, db.md5, h, name, Arrival(old(source.Rest()), source.pc, grow)), db.md5, id)
    ensures r.Ok? && db.Minted() < COUNTER_LIMIT ==> IsIdNumber(id, db.Minted())
  {
    id := "";
    if bucket !in db.buckets {
      r := Err(NoSuchBucket);
      return;
    }
    var e := Rejected(h, name);
    if e.Some? {
      r := Err(e.value);
      return;
    }
    r, id := StoreUpload(db, bucket, name, h, source, grow, scan, Arrival(source.Rest(), source.pc, grow));
  }

  // ---- what is accepted ----

  /** What storing a whole stream under a declared size comes to, with or without an
      expected hash. */
  lemma AcceptedExactly(md5: Digest, expected: Option<Bytes>, payload: Bytes, size: nat)
    ensures ReadAllResult(Hash(md5, expected, [], Outcome(payload, EOF)), size) ==
      if expected.Some? && md5(payload) != expected.value then Err(BadDigest)
      else if |payload| == size then Ok(payload)
      else if payload == [] then Err(EOF)
      else Err(IncompleteBody)
  {
    assert [] + payload == payload;
  }

  /** The headers of an upload that is read at all. */
  predicate Admissible(h: Headers, name: string) {
    h.contentLength >= 0 && |name| <= 1024 && (h.framed ==> h.decodedLength >= 0)
  }

  /** Which error an upload is refused with that is not read. */
  lemma RefusedExactly(scan: Scanner, md5: Digest, h: Headers, name: string, a: Arrival)
    ensures h.contentLength < 0 ==> Accepted(scan, md5, h, name, a) == Err(BadRequest)
    ensures h.contentLength >= 0 && |name| > 1024 ==> Accepted(scan, md5, h, name, a) == Err(KeyTooLong)
    ensures h.contentLength >= 0 && |name| <= 1024 && h.framed && h.decodedLength < 0 ==>
      Accepted(scan, md5, h, name, a) == Err(Panic)
  {
  }

  /** Whatever the source, what is stored has the length that the headers declare, for a
      stream of chunks that of its payload, and the hash sent. */
  lemma AcceptedAsDeclared(scan: Scanner, md5: Digest, h: Headers, name: string, a: Arrival)
    ensures var r := Accepted(scan, md5, h, name, a);
      r.Ok? ==>
        && Admissible(h, name) && |r.value| == (if h.framed then h.decodedLength else h.contentLength)
        && (h.contentMD5.Some? ==> md5(r.value) == h.contentMD5.value)
  {
    if Rejected(h, name).None? {
      var o := Delivered(scan, h, a);
      assert [] + o.bytes == o.bytes;
    }
  }

  /** What an upload of a payload should come to, by the length and the hash sent. */
  function Wanted(md5: Digest, expected: Option<Bytes>, length: int, payload: Bytes): Result<Bytes> {
    if expected.Some? && md5(payload) != expected.value then Err(BadDigest)
    else if |payload| == length then Ok(payload)
    else if payload == [] then Err(EOF)
    else Err(IncompleteBody)
  }

  /** An upload as it is, over any source: it is accepted if and only if the content length
      is that of its bytes and a hash sent is theirs, and these bytes are stored. */
  lemma PlainAcceptedExactly(scan: Scanner, md5: Digest, h: Headers, name: string, a: Arrival)
    requires !h.framed && Admissible(h, name)
    ensures Accepted(scan, md5, h, name, a) == Wanted(md5, h.contentMD5, h.contentLength, a.stream)
  {
    AcceptedExactly(md5, h.contentMD5, a.stream, h.contentLength);
  }

  lemma ReadThenRestIsNow(scan: Scanner, at: Position, size: nat, pc: ChunkReads.Pieces, grow: Growth)
    ensures NowAt(ChunkedAt(scan, at, pc), size, grow) == ChunkReads.ReadThenRest(scan, at, size, 0, pc, grow)
  {
    if size == 0 {
      assert ChunkReads.Read(scan, at, 0, pc) == ChunkReads.Filled([], at);
      var o := ChunkReads.RestOf(scan, at, 0, pc, grow);
      assert [] + o.bytes == o.bytes;
    }
  }

  /** A stream of chunks that is read right comes to what its payload should. */
  lemma ReadRightIsWanted(md5: Digest, h: Headers, name: string, cs: seq<Chunk>, a: Arrival)
    requires h.framed && Admissible(h, name)
    requires ChunkReads.ReadThenRest(Fscanf, Start(a.stream), h.decodedLength, 0, a.pc, a.grow) ==
      Outcome(Payload(cs), EOF)
    ensures Accepted(Fscanf, md5, h, name, a) == Wanted(md5, h.contentMD5, h.decodedLength, Payload(cs))
  {
    ReadThenRestIsNow(Fscanf, Start(a.stream), h.decodedLength, a.pc, a.grow);
    AcceptedExactly(md5, h.contentMD5, Payload(cs), h.decodedLength);
  }

  /** An upload of framed chunks over any source, if the decoded length is at least the
      payload's or the source fills each request: it is accepted if and only if that length
      is the payload's and a hash sent is the payload's, and the payload is stored. */
  lemma FramedAcceptedExactly(md5: Digest, h: Headers, name: string, cs: seq<Chunk>, a: Arrival)
    requires h.framed && Admissible(h, name) && AllWellFormed(cs) && a.stream == Frame(cs)
    requires |Payload(cs)| <= h.decodedLength || forall size :: ChunkReads.Fills(a.pc, size)
    ensures Accepted(Fscanf, md5, h, name, a) == Wanted(md5, h.contentMD5, h.decodedLength, Payload(cs))
  {
    FscanfScans();
    ChunkReads.FramedReadThenRest(Fscanf, cs, h.decodedLength, a.pc, a.grow);
    ReadRightIsWanted(md5, h, name, cs, a);
  }

  /** An upload of chunks over a source that hands out at most `c` bytes at a time comes to
      what it should. */
  ghost predicate UploadRight(md5: Digest, h: Headers, name: string, c: nat, grow: Growth, cs: seq<Chunk>) {
    Accepted(Fscanf, md5, h, name, Arrival(Frame(cs), ChunkReads.Uniform(c), grow)) ==
      Wanted(md5, h.contentMD5, h.decodedLength, Payload(cs))
  }

  /** Over a source that hands out at most `c` bytes at a time, exactly when each framed
      upload of `total` bytes of payload comes to what it should: the declared length is no
      less, or it fits the pieces and so does each later buffer that does not take all. */
  lemma UploadsRightExactly(md5: Digest, h: Headers, name: string, c: nat, total: nat, grow: Growth)
    requires h.framed && Admissible(h, name) && 1 <= c && total <= MAX_INT
    ensures
      (forall cs :: AllWellFormed(cs) && |Payload(cs)| == total ==> UploadRight(md5, h, name, c, grow, cs))
      <==> Fitting(h.decodedLength, c, total, grow)
  {
    if Fitting(h.decodedLength, c, total, grow) {
      forall cs | AllWellFormed(cs) && |Payload(cs)| == total {
        UploadIsRight(md5, h, name, c, grow, cs);
      }
    } else {
      var cs := UploadWrong(md5, h, name, c, total, grow);
    }
  }

  predicate Fitting(declared: nat, c: nat, total: nat, grow: Growth) {
    total <= declared || (declared <= c && ChunkReads.RestFits(grow, c, 0, total - declared))
  }

  lemma UploadIsRight(md5: Digest, h: Headers, name: string, c: nat, grow: Growth, cs: seq<Chunk>)
    requires h.framed && Admissible(h, name) && AllWellFormed(cs)
    requires Fitting(h.decodedLength, c, |Payload(cs)|, grow)
    ensures UploadRight(md5, h, name, c, grow, cs)
  {
    FscanfScans();
    ChunkReads.RightReads(Fscanf, cs, h.decodedLength, c, grow);
    ReadRightIsWanted(md5, h, name, cs, Arrival(Frame(cs), ChunkReads.Uniform(c), grow));
  }

  lemma UploadWrong(md5: Digest, h: Headers, name: string, c: nat, total: nat, grow: Growth) returns (cs: seq<Chunk>)
    requires h.framed && Admissible(h, name) && 1 <= c && total <= MAX_INT
    requires !Fitting(h.decodedLength, c, total, grow)
    ensures AllWellFormed(cs) && |Payload(cs)| == total && !UploadRight(md5, h, name, c, grow, cs)
  {
    FscanfScans();
    ChunkReads.FscanfRejectsJunk();
    cs := ChunkReads.WrongReads(Fscanf, h.decodedLength, c, total, grow);
    MalformedIsNotWanted(md5, h, name, cs, Arrival(Frame(cs), ChunkReads.Uniform(c), grow));
  }

  lemma MalformedIsNotWanted(md5: Digest, h: Headers, name: string, cs: seq<Chunk>, a: Arrival)
    requires h.framed && Admissible(h, name)
    requires ChunkReads.ReadThenRest(Fscanf, Start(a.stream), h.decodedLength, 0, a.pc, a.grow).error == Malformed
    ensures Accepted(Fscanf, md5, h, name, a) ==
      Err(Malformed) != Wanted(md5, h.contentMD5, h.decodedLength, Payload(cs))
  {
    ReadThenRestIsNow(Fscanf, Start(a.stream), h.decodedLength, a.pc, a.grow);
  }

  /** Where the condition fails, more than an error may come of it: 4 bytes are stored for
      a payload of 9, as if it had been sent with the length declared. */
  lemma MayStoreOther(md5: Digest, h: Headers, name: string, grow: Growth)
    requires h.framed && Admissible(h, name) && h.decodedLength == 4 && h.contentMD5.None?
    ensures var cs := [ChunkReads.DECOY];
      && AllWellFormed(cs) && |Payload(cs)| == 9
      && Accepted(Fscanf, md5, h, name, Arrival(Frame(cs), ChunkReads.Uniform(1), grow)) == Ok("abcd")
      && Wanted(md5, None, 4, Payload(cs)) == Err(IncompleteBody)
  {
    FscanfScans();
    ChunkReads.DecoyReads(Fscanf, grow);
    ReadThenRestIsNow(Fscanf, Start(Frame([ChunkReads.DECOY])), 4, ChunkReads.Uniform(1), grow);
    AcceptedExactly(md5, None, "abcd", 4);
  }

  /** What was stored is what is read back, as the current version and under its id. */
  lemma StoredReadsBack(v: map<string, State>, bucket: string, name: string, body: Bytes, md5: Digest, id: string)
    requires StoreRefused(v, bucket, name).None? && id != ""
    ensures var (v', r) := Stores(v, bucket, name, body, md5, id);
      && r.Ok?
      && GetCurrent(v'[bucket], name, None) == Ok(Object(name, |body|, md5(body), body, r.value, false))
      && GetVersion(v'[bucket], name, id, None) == Ok(Object(name, |body|, md5(body), body, id, false))
  {
    assert body[0..|body|] == body;
  }

  /** Exactly when an upload succeeds, and which error it ends in otherwise; then its hash
      and its version id, if the bucket shows one, are answered, and the body is what is
      read back. */
  lemma CreatedExactly(v: map<string, State>, bucket: string, name: string, accepted: Result<Bytes>, md5: Digest,
                       id: string)
    requires id != ""
    ensures var (v', r) := Creates(v, bucket, name, accepted, md5, id);
      if bucket !in v then v' == v && r == Err(NoSuchBucket)
      else if accepted.Err? then v' == v && r == Err(accepted.error)
      else if name in v[bucket].objects.at && v[bucket].objects.at[name].data.None? then v' == v && r == Err(Panic)
      else
        var (body, shown) := (accepted.value, if v[bucket].versioning == Enabled then id else "");
        && r == Ok(Created(shown, md5(body)))
        && GetCurrent(v'[bucket], name, None) == Ok(Object(name, |body|, md5(body), body, shown, false))
        && GetVersion(v'[bucket], name, id, None) == Ok(Object(name, |body|, md5(body), body, id, false))
  {
    if bucket in v && accepted.Ok? && StoreRefused(v, bucket, name).None? {
      StoredReadsBack(v, bucket, name, accepted.value, md5, id);
    }
  }
}
