/** The reader chain of an upload: a byte source, the chunk decoder, the hashing
    reader, and the read of an exact number of bytes. */
module Readers {
  import opened Basics
  import opened Chunks
  import ChunkReads

  type Growth = ChunkReads.Growth

  /** The innermost reader: a byte stream handed out in pieces. */
  class Source {
    const data: Bytes
    const pc: ChunkReads.Pieces
    var pos: nat

    constructor (data: Bytes, pc: ChunkReads.Pieces)
      ensures this.data == data && this.pc == pc && Valid() && Rest() == data
    {
      this.data, this.pc, pos := data, pc, 0;
    }

    ghost predicate Valid()
      reads this
    {
      pos <= |data|
    }

    function Rest(): Bytes
      requires Valid()
      reads this
    {
      data[pos..]
    }

    method Read(p: array<char>, lo: nat, hi: nat) returns (n: nat, err: Option<Error>)
      requires Valid() && lo <= hi <= p.Length
      modifies this, p
      ensures Valid() && n == ChunkReads.Grant(pc, |old(Rest())|, hi - lo)
      ensures Rest() == old(Rest())[n..] && p[..lo + n] == old(p[..lo]) + old(Rest())[..n]
      ensures err == if ChunkReads.AtEnd(pc, |old(Rest())|, n) then Some(EOF) else None
    {
      var rest := Rest();
      n := ChunkReads.Grant(pc, |rest|, hi - lo);
      forall k | 0 <= k < n {
        p[lo + k] := rest[k];
      }
      pos := pos + n;
      err := if ChunkReads.AtEnd(pc, |rest|, n) then Some(EOF) else None;
    }

    /** io.CopyN to nowhere: short only when the source ends first. */
    method Discard(k: nat) returns (err: Option<Error>)
      requires Valid()
      modifies this
      ensures Valid()
      ensures if k <= |old(Rest())| then err == None && Rest() == old(Rest())[k..] else err == Some(EOF) && Rest() == []
    {
      var rest := Rest();
      if k <= |rest| {
        pos, err := pos + k, None;
      } else {
        pos, err := |data|, Some(EOF);
      }
    }

    /** fmt.Fscanf with "%x;".  After text that is no size, nothing is known of the
        position, except that an end-of-file error leaves nothing unread. */
    method ScanSize(scan: Scanner) returns (size: int, err: Option<Error>)
      requires Valid()
      modifies this
      ensures Valid()
      ensures var r := scan(old(Rest()));
        if r.Size? then err == None && size == r.size && Rest() == r.rest
        else err == Some(r.error) && (r.error == EOF ==> Rest() == [])
    {
      var rest := Rest();
      match scan(rest)
      case Size(v, tail) =>
        size, err := v, None;
        pos := |data| - |tail|;
      case NoSize(e) =>
        size, err := 0, Some(e);
        pos := |data|;
    }
  }

  /** The decoder of streaming uploads; its fields carry it from one call to the next. */
  class ChunkedReader {
    const inner: Source
    const scan: Scanner
    var chunkRemain: int
    var notFirstChunk: bool

    ghost predicate Valid()
      reads this, inner
    {
      inner.Valid() && (chunkRemain > 0 ==> notFirstChunk)
    }

    constructor (inner: Source)
      requires inner.Valid()
      ensures Valid() && this.inner == inner && scan == Fscanf && At() == Start(inner.Rest())
    {
      this.inner, scan, chunkRemain, notFirstChunk := inner, Fscanf, 0, false;
    }

    function At(): Position
      requires inner.Valid()
      reads this, inner
    {
      Position(inner.Rest(), chunkRemain, notFirstChunk)
    }

    /** Moves past a chunk's end and the next header. */
    method NextChunk() returns (err: Option<Error>)
      requires Valid() && chunkRemain <= 0
      modifies this, inner
      ensures Valid()
      ensures var r := Enter(scan, old(At()));
        if r.Ok? then err == None && At() == r.value
        else err == Some(r.error) && (r.error == EOF ==> inner.Rest() == [])
    {
      if !notFirstChunk {
        notFirstChunk := true;
      } else {
        err := inner.Discard(2);
        if err.Some? { return; }
      }
      var chunkSize;
      chunkSize, err := inner.ScanSize(scan);
      if err.Some? { return; }
      chunkRemain := chunkSize;
      err := inner.Discard(SIGNATURE_BYTES);
    }

    /** Reads more of the current chunk into the buffer, from `n` on. */
    method ReadData(p: array<char>, n: nat, sizeToRead: nat) returns (innerN: nat, err: Option<Error>)
      requires Valid() && n + sizeToRead == p.Length && sizeToRead > 0 && chunkRemain > 0
      modifies this, inner, p
      ensures Valid() && n + innerN <= p.Length
      ensures var t := TurnOf(scan, inner.pc, old(At()), sizeToRead);
        && p[..n + innerN] == old(p[..n]) + t.piece && innerN == |t.piece|
        && if t.Went? then err == None && At() == t.at else err == Some(t.error) && inner.Rest() == []
    {
      if chunkRemain > sizeToRead {
        chunkRemain := chunkRemain - sizeToRead;
        innerN, err := inner.Read(p, n, n + sizeToRead);
      } else {
        innerN, err := inner.Read(p, n, n + chunkRemain);
        chunkRemain := chunkRemain - innerN;
      }
    }

    /** One turn of the loop: data, or the way to the next chunk. */
    method Turn(p: array<char>, n: nat, sizeToRead: nat) returns (innerN: nat, err: Option<Error>)
      requires Valid() && n + sizeToRead == p.Length && sizeToRead > 0
      modifies this, inner, p
      ensures Valid() && n + innerN <= p.Length
      ensures var t := TurnOf(scan, inner.pc, old(At()), sizeToRead);
        && p[..n + innerN] == old(p[..n]) + t.piece && innerN == |t.piece|
        && if t.Went? then err == None && At() == t.at
           else err == Some(t.error) && (t.error == EOF ==> inner.Rest() == [])
    {
      if chunkRemain > 0 {
        innerN, err := ReadData(p, n, sizeToRead);
        return;
      }
      err := NextChunk();
      innerN := 0;
    }

    /** One turn, within a read that is to come out as `goal`. */
    method Resume(p: array<char>, n: nat, sizeToRead: nat, ghost goal: ChunkReads.Ran, ghost out: Bytes,
                  ghost q: Position)
      returns (innerN: nat, err: Option<Error>, ghost out': Bytes, ghost q': Position, ghost left': nat)
      requires Valid() && n + sizeToRead == p.Length && sizeToRead > 0
      requires p[..n] == out && At() == q && Resumes(scan, goal, inner.pc, out, q, sizeToRead)
      modifies this, inner, p
      ensures Valid() && innerN <= sizeToRead && p[..n + innerN] == out'
      ensures err.None? ==>
        && At() == q' && left' == sizeToRead - innerN && Resumes(scan, goal, inner.pc, out', q', left')
        && |q'.rest| < |q.rest|
      ensures err.Some? ==>
        goal == ChunkReads.Stopped(out', err.value) && (err.value == EOF ==> inner.Rest() == [])
    {
      ghost var t := TurnOf(scan, inner.pc, q, sizeToRead);
      TurnResumes(scan, goal, inner.pc, out, q, sizeToRead, t);
      innerN, err := Turn(p, n, sizeToRead);
      out', left' := out + t.piece, sizeToRead - |t.piece|;
      q' := if t.Went? then t.at else q;
    }

    method Read(p: array<char>) returns (n: nat, err: Option<Error>)
      requires Valid()
      modifies this, inner, p
      ensures Valid() && n <= p.Length
      ensures var r := ChunkReads.Read(scan, old(At()), p.Length, inner.pc);
        p[..n] == r.out &&
        if r.Filled? then err == None && n == p.Length && At() == r.at
        else err == Some(r.error) && (r.error == EOF ==> inner.Rest() == [])
    {
      var sizeToRead: nat := p.Length;
      n := 0;
      ghost var out: Bytes, q, left := [], At(), p.Length;
      ghost var goal := ChunkReads.Read(scan, q, left, inner.pc);
      ResumesAtStart(scan, q, left, inner.pc);
      while sizeToRead > 0
        invariant Valid() && n + sizeToRead == p.Length && p[..n] == out && At() == q && left == sizeToRead
        invariant Resumes(scan, goal, inner.pc, out, q, left)
        decreases |q.rest|
      {
        var innerN;
        innerN, err, out, q, left := Resume(p, n, sizeToRead, goal, out, q);
        sizeToRead, n := sizeToRead - innerN, n + innerN;
        if err.Some? { return; }
      }
      ResumesAtEnd(scan, goal, inner.pc, out, q);
      err := None;
    }
  }

  /** A read whose outcome is `goal` has delivered `out` and goes on from `p`. */
  ghost predicate Resumes(scan: Scanner, goal: ChunkReads.Ran, pc: ChunkReads.Pieces, out: Bytes, p: Position,
                          left: nat)
  {
    goal == ChunkReads.After(out, ChunkReads.Read(scan, p, left, pc))
  }

  lemma ResumesAtStart(scan: Scanner, p: Position, size: nat, pc: ChunkReads.Pieces)
    ensures Resumes(scan, ChunkReads.Read(scan, p, size, pc), pc, [], p, size)
  {
    var r := ChunkReads.Read(scan, p, size, pc);
    assert [] + r.out == r.out;
  }

  /** A resumed read with nothing left to ask for is complete. */
  lemma ResumesAtEnd(scan: Scanner, goal: ChunkReads.Ran, pc: ChunkReads.Pieces, out: Bytes, p: Position)
    requires Resumes(scan, goal, pc, out, p, 0)
    ensures goal == ChunkReads.Filled(out, p)
  {
    assert out + [] == out;
  }

  /** What one turn of the loop comes to: a piece of data, and where the decoder then
      stands or the error that ends the read. */
  datatype TurnEnd = Went(piece: Bytes, at: Position) | Ended(piece: Bytes, error: Error)

  function TurnOf(scan: Scanner, pc: ChunkReads.Pieces, p: Position, left: nat): (t: TurnEnd)
    ensures |t.piece| <= left
  {
    if p.remain > 0 then
      var n := ChunkReads.Grant(pc, |p.rest|, ChunkReads.Want(p, left));
      if ChunkReads.AtEnd(pc, |p.rest|, n) then Ended(p.rest[..n], EOF)
      else Went(p.rest[..n], Position(p.rest[n..], p.remain - (if p.remain > left then left else n), p.entered))
    else match Enter(scan, p)
      case Err(e) => Ended([], e)
      case Ok(q) => Went([], q)
  }

  lemma TurnResumes(scan: Scanner, goal: ChunkReads.Ran, pc: ChunkReads.Pieces, out: Bytes, p: Position, left: nat,
                    t: TurnEnd)
    requires Resumes(scan, goal, pc, out, p, left) && left > 0 && t == TurnOf(scan, pc, p, left)
    ensures if t.Went? then Resumes(scan, goal, pc, out + t.piece, t.at, left - |t.piece|) && |t.at.rest| < |p.rest|
            else goal == ChunkReads.Stopped(out + t.piece, t.error)
  {
    TurnReads(scan, pc, p, left, t);
    if t.Went? {
      AfterAfter(out, t.piece, ChunkReads.Read(scan, t.at, left - |t.piece|, pc));
    }
  }

  lemma TurnReads(scan: Scanner, pc: ChunkReads.Pieces, p: Position, left: nat, t: TurnEnd)
    requires left > 0 && t == TurnOf(scan, pc, p, left)
    ensures t.Went? ==> |t.at.rest| < |p.rest|
    ensures ChunkReads.Read(scan, p, left, pc) ==
      if t.Went? then ChunkReads.After(t.piece, ChunkReads.Read(scan, t.at, left - |t.piece|, pc))
      else ChunkReads.Stopped(t.piece, t.error)
  {
    if p.remain > 0 {
      DataReads(scan, pc, p, left, t);
    } else if t.Went? {
      var r := ChunkReads.Read(scan, t.at, left, pc);
      assert [] + r.out == r.out;
    }
  }

  lemma DataReads(scan: Scanner, pc: ChunkReads.Pieces, p: Position, left: nat, t: TurnEnd)
    requires left > 0 && p.remain > 0 && t == TurnOf(scan, pc, p, left)
    ensures t.Went? ==> |t.at.rest| < |p.rest|
    ensures ChunkReads.Read(scan, p, left, pc) ==
      if t.Went? then ChunkReads.After(t.piece, ChunkReads.Read(scan, t.at, left - |t.piece|, pc))
      else ChunkReads.Stopped(t.piece, t.error)
  {
    var n := ChunkReads.Grant(pc, |p.rest|, ChunkReads.Want(p, left));
    var q := Position(p.rest[n..], p.remain - (if p.remain > left then left else n), p.entered);
    assert t == if ChunkReads.AtEnd(pc, |p.rest|, n) then Ended(p.rest[..n], EOF) else Went(p.rest[..n], q);
    assert t.Went? ==> n > 0 && left - |t.piece| == left - n;
    ChunkReads.ReadData(scan, p, left, pc, n, q);
  }

  lemma AfterAfter(a: Bytes, b: Bytes, r: ChunkReads.Ran)
    ensures ChunkReads.After(a, ChunkReads.After(b, r)) == ChunkReads.After(a + b, r)
  {
    assert a + (b + r.out) == (a + b) + r.out;
  }

  // ---- request bodies ----

  /** A request's body: its bytes as they are, or framed in chunks. */
  datatype Body = Plain(source: Source) | Chunked(reader: ChunkedReader)

  ghost function Objects(b: Body): set<object> {
    match b
    case Plain(s) => {s}
    case Chunked(r) => {r, r.inner}
  }

  ghost predicate ValidBody(b: Body)
    reads Objects(b)
  {
    match b
    case Plain(s) => s.Valid()
    case Chunked(r) => r.Valid()
  }

  /** Where a body stands. */
  datatype Stand = PlainAt(rest: Bytes) | ChunkedAt(scan: Scanner, at: Position, pc: ChunkReads.Pieces)

  ghost function StandOf(b: Body): (s: Stand)
    requires ValidBody(b)
    reads Objects(b)
    ensures s.PlainAt? <==> b.Plain?
  {
    match b
    case Plain(s) => PlainAt(s.Rest())
    case Chunked(r) => ChunkedAt(r.scan, r.At(), r.inner.pc)
  }

  /** What is left for a reader to the end that has gathered `k` bytes. */
  function RestAt(s: Stand, k: nat, grow: Growth): Outcome {
    match s
    case PlainAt(rest) => Outcome(rest, EOF)
    case ChunkedAt(scan, at, pc) => ChunkReads.RestOf(scan, at, k, pc, grow)
  }

  /** The same, but for one read of `need` bytes before that. */
  function LeftAt(s: Stand, need: nat, k: nat, grow: Growth): Outcome {
    match s
    case PlainAt(rest) => Outcome(rest, EOF)
    case ChunkedAt(scan, at, pc) => ChunkReads.ReadThenRest(scan, at, need, k, pc, grow)
  }

  /** What is left for a read of exactly `need` bytes, and for what follows it. */
  function NowAt(s: Stand, need: nat, grow: Growth): Outcome {
    if need == 0 then RestAt(s, 0, grow) else LeftAt(s, need, 0, grow)
  }

  /** What io.Reader promises, for a reader that left `o` to be read before the call
      and `o'` after it: `got` was delivered into a buffer of `size` bytes. */
  ghost predicate ReadPromise(o: Outcome, o': Outcome, got: Bytes, size: nat, err: Option<Error>) {
    && |got| <= |o.bytes| && got == o.bytes[..|got|]
    && match err
       case None => o' == Outcome(o.bytes[|got|..], o.error) && (size > 0 ==> got != [])
       case Some(e) => o == Outcome(got, e) && (|got| == size ==> o' == Outcome([], e))
  }

  /** A read without an error uses up some of the source, and fills the buffer unless the
      body is plain. */
  ghost predicate UsesUp(b: Body, before: nat, after: nat, got: Bytes, size: nat, err: Option<Error>) {
    err.None? ==> (size > 0 ==> got != [] && after < before) && (b.Chunked? ==> |got| == size)
  }

  /** What the innermost reader still has. */
  ghost function Unread(b: Body): nat
    requires ValidBody(b)
    reads Objects(b)
  {
    match b
    case Plain(s) => |s.Rest()|
    case Chunked(r) => |r.inner.Rest()|
  }

  /** A read of the chunk decoder keeps the promise of a reader. */
  lemma ChunkedPromise(scan: Scanner, p: Position, size: nat, pc: ChunkReads.Pieces, q: Position, k: nat, grow: Growth)
    requires var r := ChunkReads.Read(scan, p, size, pc);
      if r.Filled? then q == r.at else r.error == EOF ==> q.rest == []
    ensures var r := ChunkReads.Read(scan, p, size, pc);
      ReadPromise(ChunkReads.ReadThenRest(scan, p, size, k, pc, grow), ChunkReads.RestOf(scan, q, k, pc, grow),
                  r.out, size, if r.Filled? then None else Some(r.error))
  {
    ChunkReads.OtherErrorsLeaveRoom(scan, p, size, pc);
    var r := ChunkReads.Read(scan, p, size, pc);
    if r.Stopped? && r.error == EOF {
      ChunkReads.RestDrained(scan, q, k, pc, grow);
    }
  }

  method ReadPlain(s: Source, p: array<char>) returns (n: nat, err: Option<Error>)
    requires s.Valid()
    modifies s, p
    ensures s.Valid() && n <= p.Length
    ensures ReadPromise(Outcome(old(s.Rest()), EOF), Outcome(s.Rest(), EOF), p[..n], p.Length, err)
    ensures UsesUp(Plain(s), |old(s.Rest())|, |s.Rest()|, p[..n], p.Length, err)
  {
    n, err := s.Read(p, 0, p.Length);
  }

  method ReadChunked(r: ChunkedReader, p: array<char>, ghost k: nat, ghost grow: Growth)
    returns (n: nat, err: Option<Error>)
    requires r.Valid()
    modifies r, r.inner, p
    ensures r.Valid() && n <= p.Length
    ensures ReadPromise(ChunkReads.ReadThenRest(r.scan, old(r.At()), p.Length, k, r.inner.pc, grow),
                        ChunkReads.RestOf(r.scan, r.At(), k, r.inner.pc, grow), p[..n], p.Length, err)
    ensures UsesUp(Chunked(r), |old(r.inner.Rest())|, |r.inner.Rest()|, p[..n], p.Length, err)
  {
    ghost var at := r.At();
    n, err := r.Read(p);
    ChunkedPromise(r.scan, at, p.Length, r.inner.pc, r.At(), k, grow);
  }

  method ReadBody(b: Body, p: array<char>, ghost k: nat, ghost grow: Growth) returns (n: nat, err: Option<Error>)
    requires ValidBody(b)
    modifies Objects(b), p
    ensures ValidBody(b) && n <= p.Length && UsesUp(b, old(Unread(b)), Unread(b), p[..n], p.Length, err)
    ensures ReadPromise(old(LeftAt(StandOf(b), p.Length, k, grow)), RestAt(StandOf(b), k, grow), p[..n], p.Length, err)
  {
    match b
    case Plain(s) =>
      n, err := ReadPlain(s, p);
    case Chunked(r) =>
      n, err := ReadChunked(r, p, k, grow);
  }

  /** A body is what it was while its objects are. */
  twostate lemma BodyFrame(b: Body)
    requires old(ValidBody(b)) && unchanged(Objects(b))
    ensures ValidBody(b) && StandOf(b) == old(StandOf(b)) && Unread(b) == old(Unread(b))
  {
  }

  // ---- the hashing reader ----

  /** The error that ends a hashed stream whose bytes are `all`. */
  function Checked(md5: Digest, expected: Option<Bytes>, all: Bytes, e: Error): Error {
    if e == EOF && expected.Some? && md5(all) != expected.value then BadDigest else e
  }

  /** A hash on the way: what it is to come to, if that was said, and the bytes so far. */
  datatype Hashing = Hashing(md5: Digest, expected: Option<Bytes>, written: Bytes)

  /** Where a reader stands. */
  datatype Standing = Standing(at: Stand, hash: Option<Hashing>)

  function Through(hash: Option<Hashing>, o: Outcome): Outcome {
    match hash
    case None => o
    case Some(h) => Hash(h.md5, h.expected, h.written, o)
  }

  /** What it delivers to a reader to the end that has gathered `k` bytes. */
  function RestFrom(s: Standing, k: nat, grow: Growth): Outcome {
    Through(s.hash, RestAt(s.at, k, grow))
  }

  /** The same, but for one read of `need` bytes before that. */
  function LeftFrom(s: Standing, need: nat, k: nat, grow: Growth): Outcome {
    Through(s.hash, LeftAt(s.at, need, k, grow))
  }

  function NowFrom(s: Standing, need: nat, grow: Growth): Outcome {
    Through(s.hash, NowAt(s.at, need, grow))
  }

  class HashingReader {
    const inner: Body
    const expected: Option<Bytes>
    const md5: Digest
    // the state of the running hash: the bytes written to it
    var written: Bytes
    var sum: Option<Bytes>

    constructor (inner: Body, expected: Option<Bytes>, md5: Digest)
      requires ValidBody(inner)
      ensures Valid() && this.inner == inner && this.expected == expected && this.md5 == md5
      ensures written == [] && sum == None
      ensures StandOf(inner) == old(StandOf(inner))
    {
      this.inner, this.expected, this.md5, written, sum := inner, expected, md5, [], None;
    }

    ghost predicate Valid()
      reads this, Objects(inner)
    {
      this !in Objects(inner) && ValidBody(inner)
    }

    ghost function Stands(): Standing
      requires Valid()
      reads this, Objects(inner)
    {
      Standing(StandOf(inner), Some(Hashing(md5, expected, written)))
    }

    /** Whatever the inner reader delivers goes through the hash, which is checked at its
        end. */
    method Read(p: array<char>, ghost k: nat, ghost grow: Growth) returns (n: nat, err: Option<Error>)
      requires Valid()
      modifies this, Objects(inner), p
      ensures Valid() && n <= p.Length && UsesUp(inner, old(Unread(inner)), Unread(inner), p[..n], p.Length, err)
      ensures ReadPromise(LeftFrom(old(Stands()), p.Length, k, grow), RestFrom(Stands(), k, grow), p[..n],
                          p.Length, err)
      ensures written == old(written) + p[..n] && (err == Some(EOF) ==> HashAgrees())
    {
      ghost var o := LeftAt(StandOf(inner), p.Length, k, grow);
      n, err := ReadBody(inner, p, k, grow);
      HashedPromise(md5, expected, written, p[..n], o, RestAt(StandOf(inner), k, grow), p.Length, err);
      err := Absorb(p[..n], err);
    }

    /** The hash is that of all the bytes, and the one expected. */
    ghost predicate HashAgrees()
      reads this
    {
      sum == Some(md5(written)) && (expected.Some? ==> sum == expected)
    }

    /** Feeds the hash, and at the end of the stream checks it. */
    method Absorb(got: Bytes, e: Option<Error>) returns (err: Option<Error>)
      requires Valid()
      modifies this
      ensures Valid() && StandOf(inner) == old(StandOf(inner)) && Unread(inner) == old(Unread(inner))
      ensures written == old(written) + got
      ensures err == if e.None? then None else Some(Checked(md5, expected, written, e.value))
      ensures err == Some(EOF) ==> HashAgrees()
    {
      written, err := written + got, e;
      if err == Some(EOF) {
        sum := Some(md5(written));
        if expected.Some? && sum != expected {
          err := Some(BadDigest);
        }
      }
      BodyFrame(inner);
    }
  }

  function Hash(md5: Digest, expected: Option<Bytes>, w: Bytes, o: Outcome): Outcome {
    Outcome(o.bytes, Checked(md5, expected, w + o.bytes, o.error))
  }

  /** Hashing what passes through keeps the promise, with the error checked. */
  lemma HashedPromise(md5: Digest, expected: Option<Bytes>, w: Bytes, got: Bytes, o: Outcome, o': Outcome, size: nat,
                      err: Option<Error>)
    requires ReadPromise(o, o', got, size, err)
    ensures ReadPromise(Hash(md5, expected, w, o), Hash(md5, expected, w + got, o'), got, size,
                        if err.None? then None else Some(Checked(md5, expected, w + got, err.value)))
  {
    assert (w + got) + [] == w + got;
    if err.None? {
      SameBytes(w, got, o.bytes, o'.bytes);
    }
  }

  lemma SameBytes(w: Bytes, got: Bytes, all: Bytes, rest: Bytes)
    requires |got| <= |all| && got == all[..|got|] && rest == all[|got|..]
    ensures w + all == (w + got) + rest
  {
  }

  // ---- reading a whole body ----

  /** What PutObject is given to read from. */
  datatype Reader = Raw(body: Body) | Hashed(hashing: HashingReader)

  ghost function ReaderObjects(r: Reader): set<object> {
    match r
    case Raw(b) => Objects(b)
    case Hashed(h) => {h} + Objects(h.inner)
  }

  function BodyOf(r: Reader): Body {
    match r
    case Raw(b) => b
    case Hashed(h) => h.inner
  }

  ghost predicate ValidReader(r: Reader)
    reads ReaderObjects(r)
  {
    match r
    case Raw(b) => ValidBody(b)
    case Hashed(h) => h.Valid()
  }

  ghost function StandingOf(r: Reader): Standing
    requires ValidReader(r)
    reads ReaderObjects(r)
  {
    match r
    case Raw(b) => Standing(StandOf(b), None)
    case Hashed(h) => h.Stands()
  }

  /** The bytes that have passed through the hash, if there is one. */
  function Written(r: Reader): Bytes
    reads ReaderObjects(r)
  {
    match r
    case Raw(_) => []
    case Hashed(h) => h.written
  }

  /** The hash the reader has come to. */
  function Summed(r: Reader): Option<Bytes>
    reads ReaderObjects(r)
  {
    match r
    case Raw(_) => None
    case Hashed(h) => h.sum
  }

  ghost predicate Counted(r: Reader, before: Bytes, got: Bytes)
    reads ReaderObjects(r)
  {
    r.Hashed? ==> Written(r) == before + got
  }

  /** At the end of the stream the hash is that of all its bytes, and the one expected. */
  ghost predicate SumDone(r: Reader, err: Option<Error>)
    reads ReaderObjects(r)
  {
    r.Hashed? && err == Some(EOF) ==> r.hashing.HashAgrees()
  }

  /** One Read call with a buffer of `size` bytes; `got` is what it delivered. */
  method ReadSome(r: Reader, size: nat, ghost k: nat, ghost grow: Growth)
    returns (got: Bytes, err: Option<Error>, ghost o: Outcome, ghost o': Outcome)
    requires ValidReader(r)
    modifies ReaderObjects(r)
    ensures ValidReader(r) && |got| <= size
    ensures UsesUp(BodyOf(r), old(Unread(BodyOf(r))), Unread(BodyOf(r)), got, size, err)
    ensures o == LeftFrom(old(StandingOf(r)), size, k, grow) && o' == RestFrom(StandingOf(r), k, grow)
    ensures ReadPromise(o, o', got, size, err)
    ensures Counted(r, old(Written(r)), got) && SumDone(r, err)
  {
    o := LeftFrom(StandingOf(r), size, k, grow);
    match r {
      case Raw(b) => got, err := ReadRaw(b, size, k, grow);
      case Hashed(h) => got, err := ReadHashed(h, size, k, grow);
    }
    o' := RestFrom(StandingOf(r), k, grow);
  }

  method ReadRaw(b: Body, size: nat, ghost k: nat, ghost grow: Growth) returns (got: Bytes, err: Option<Error>)
    requires ValidBody(b)
    modifies Objects(b)
    ensures ValidBody(b) && |got| <= size && UsesUp(b, old(Unread(b)), Unread(b), got, size, err)
    ensures ReadPromise(old(LeftAt(StandOf(b), size, k, grow)), RestAt(StandOf(b), k, grow), got, size, err)
  {
    var p := new char[size];
    var n;
    n, err := ReadBody(b, p, k, grow);
    got := p[..n];
  }

  method ReadHashed(h: HashingReader, size: nat, ghost k: nat, ghost grow: Growth)
    returns (got: Bytes, err: Option<Error>)
    requires h.Valid()
    modifies h, Objects(h.inner)
    ensures h.Valid() && |got| <= size
    ensures UsesUp(h.inner, old(Unread(h.inner)), Unread(h.inner), got, size, err)
    ensures ReadPromise(LeftFrom(old(h.Stands()), size, k, grow), RestFrom(h.Stands(), k, grow), got, size, err)
    ensures h.written == old(h.written) + got && (err == Some(EOF) ==> h.HashAgrees())
  {
    var p := new char[size];
    BodyFrame(h.inner);
    var n;
    n, err := h.Read(p, k, grow);
    got := p[..n];
  }

  /** Of a stream that was `o`, `got` has been gathered and `left` is left, unless an
      error ended it first. */
  ghost predicate Gathered(o: Outcome, got: Bytes, err: Option<Error>, left: Outcome, size: nat) {
    && |got| <= size && |got| <= |o.bytes| && got == o.bytes[..|got|]
    && if err.None? || |got| == size then left == Outcome(o.bytes[|got|..], o.error)
       else o == Outcome(got, err.value)
  }

  lemma CountStep(w: Bytes, got: Bytes, piece: Bytes)
    ensures (w + got) + piece == w + (got + piece)
  {
  }

  lemma GatherStep(o: Outcome, got: Bytes, left: Outcome, piece: Bytes, left': Outcome, err: Option<Error>, size: nat)
    requires Gathered(o, got, None, left, size) && |got| + |piece| <= size
    requires ReadPromise(left, left', piece, size - |got|, err)
    ensures Gathered(o, got + piece, err, left', size)
  {
    var n := |got| + |piece|;
    assert left.bytes[..|piece|] == o.bytes[|got|..n];
    assert got + piece == o.bytes[..n];
    assert left.bytes[|piece|..] == o.bytes[n..];
  }

  /** What io.ReadFull returns once `got` has been gathered: its error, if any. */
  function FullError(got: Bytes, size: nat, err: Option<Error>): Option<Error> {
    if |got| == size then None
    else if err == Some(EOF) && got != [] then Some(UnexpectedEOF)
    else err
  }

  ghost predicate FullRead(o: Outcome, got: Bytes, err: Option<Error>, left: Outcome, size: nat) {
    if |o.bytes| < size then
      got == o.bytes && err == Some(if o.error == EOF && got != [] then UnexpectedEOF else o.error)
    else
      err == None && |got| == size && got == o.bytes[..size] && left == Outcome(o.bytes[size..], o.error)
  }

  lemma GatheredIsFull(o: Outcome, got: Bytes, err: Option<Error>, left: Outcome, size: nat)
    requires Gathered(o, got, err, left, size) && (|got| == size || err.Some?)
    ensures FullRead(o, got, FullError(got, size, err), left, size)
  {
  }

  lemma GatherMoreAt(o: Outcome, got: Bytes, s: Standing, piece: Bytes, s': Standing, err: Option<Error>, size: nat,
                     grow: Growth, left: Outcome, left': Outcome)
    requires |got| < size && |got| + |piece| <= size && Gathered(o, got, None, NowFrom(s, size - |got|, grow), size)
    requires left == LeftFrom(s, size - |got|, 0, grow) && left' == RestFrom(s', 0, grow)
    requires ReadPromise(left, left', piece, size - |got|, err)
    requires err.None? ==> s'.at.PlainAt? || |piece| == size - |got|
    ensures Gathered(o, got + piece, err, NowFrom(s', size - |got + piece|, grow), size)
  {
    GatherStep(o, got, left, piece, left', err, size);
  }

  lemma PlainStands(r: Reader)
    requires ValidReader(r)
    ensures StandingOf(r).at.PlainAt? <==> !BodyOf(r).Chunked?
  {
  }

  /** One more read for ReadFull. */
  method GatherMore(r: Reader, got: Bytes, size: nat, ghost o: Outcome, ghost w: Bytes, ghost grow: Growth)
    returns (got': Bytes, err: Option<Error>)
    requires ValidReader(r) && |got| < size && Counted(r, w, got)
    requires Gathered(o, got, None, NowFrom(StandingOf(r), size - |got|, grow), size)
    modifies ReaderObjects(r)
    ensures ValidReader(r) && |got| <= |got'| <= size && Counted(r, w, got') && (err.None? ==> |got'| > |got|)
    ensures Gathered(o, got', err, NowFrom(StandingOf(r), size - |got'|, grow), size)
  {
    ghost var s := StandingOf(r);
    var piece;
    ghost var left, left';
    piece, err, left, left' := ReadSome(r, size - |got|, 0, grow);
    PlainStands(r);
    GatherMoreAt(o, got, s, piece, StandingOf(r), err, size, grow, left, left');
    CountStep(w, got, piece);
    got' := got + piece;
  }

  /** io.ReadFull: the error is dropped once the buffer is full. */
  method ReadFull(r: Reader, size: nat, ghost grow: Growth) returns (got: Bytes, err: Option<Error>)
    requires ValidReader(r)
    modifies ReaderObjects(r)
    ensures ValidReader(r) && Counted(r, old(Written(r)), got)
    ensures FullRead(NowFrom(old(StandingOf(r)), size, grow), got, err, RestFrom(StandingOf(r), 0, grow), size)
  {
    got, err := [], None;
    ghost var o, w := NowFrom(StandingOf(r), size, grow), Written(r);
    assert w + [] == w;
    while |got| < size && err.None?
      invariant ValidReader(r) && Counted(r, w, got) && |got| <= size
      invariant Gathered(o, got, err, NowFrom(StandingOf(r), size - |got|, grow), size)
      decreases size - |got|, err.None?
    {
      got, err := GatherMore(r, got, size, o, w, grow);
    }
    GatheredIsFull(o, got, err, NowFrom(StandingOf(r), size - |got|, grow), size);
    err := FullError(got, size, err);
  }

  /** ioutil.ReadAll on what is left: it only matters whether anything is. */
  method ReadRest(r: Reader, grow: Growth) returns (extra: Bytes, err: Option<Error>)
    requires ValidReader(r)
    modifies ReaderObjects(r)
    ensures ValidReader(r) && Counted(r, old(Written(r)), extra) && (err.None? ==> SumDone(r, Some(EOF)))
    ensures var o := RestFrom(old(StandingOf(r)), 0, grow);
      extra == o.bytes && err == if o.error == EOF then None else Some(o.error)
  {
    extra, err := [], None;
    ghost var o, w := RestFrom(StandingOf(r), 0, grow), Written(r);
    assert w + [] == w && [] + o.bytes == o.bytes;
    while err.None?
      invariant ValidReader(r) && Counted(r, w, extra) && SumDone(r, err)
      invariant RestSoFar(o, extra, RestFrom(StandingOf(r), |extra|, grow), err)
      decreases err.None?, Unread(BodyOf(r))
    {
      extra, err := RestMore(r, extra, o, w, grow);
    }
    if err == Some(EOF) {
      err := None;
    }
  }

  /** One more read to the end. */
  method RestMore(r: Reader, extra: Bytes, ghost o: Outcome, ghost w: Bytes, grow: Growth)
    returns (extra': Bytes, err: Option<Error>)
    requires ValidReader(r) && Counted(r, w, extra)
    requires RestSoFar(o, extra, RestFrom(StandingOf(r), |extra|, grow), None)
    modifies ReaderObjects(r)
    ensures ValidReader(r) && Counted(r, w, extra') && SumDone(r, err)
    ensures RestSoFar(o, extra', RestFrom(StandingOf(r), |extra'|, grow), err)
    ensures err.None? ==> Unread(BodyOf(r)) < old(Unread(BodyOf(r)))
  {
    ghost var s := StandingOf(r);
    var size := ChunkReads.Buffer(grow, |extra|);
    var piece;
    ghost var left, left';
    ghost var k := |extra| + size;
    piece, err, left, left' := ReadSome(r, size, k, grow);
    RestMoreAt(o, extra, s, piece, StandingOf(r), size, k, err, grow, left, left');
    CountStep(w, extra, piece);
    extra' := extra + piece;
  }

  lemma RestMoreAt(o: Outcome, extra: Bytes, s: Standing, piece: Bytes, s': Standing, size: nat, k: nat,
                   err: Option<Error>, grow: Growth, left: Outcome, left': Outcome)
    requires size == ChunkReads.Buffer(grow, |extra|) && k == |extra| + size
    requires RestSoFar(o, extra, RestFrom(s, |extra|, grow), None)
    requires left == LeftFrom(s, size, k, grow) && left' == RestFrom(s', k, grow)
    requires ReadPromise(left, left', piece, size, err)
    requires err.None? ==> s'.at.PlainAt? || |piece| == size
    ensures RestSoFar(o, extra + piece, RestFrom(s', |extra + piece|, grow), err)
  {
    NextBuffer(s, |extra|, grow);
    RestStep(o, extra, left, piece, left', size, err);
  }

  lemma NextBuffer(s: Standing, k: nat, grow: Growth)
    ensures var size := ChunkReads.Buffer(grow, k); RestFrom(s, k, grow) == LeftFrom(s, size, k + size, grow)
  {
  }

  ghost predicate RestSoFar(o: Outcome, extra: Bytes, left: Outcome, err: Option<Error>) {
    if err.None? then o == Outcome(extra + left.bytes, left.error) else o == Outcome(extra, err.value)
  }

  lemma RestStep(o: Outcome, extra: Bytes, left: Outcome, piece: Bytes, left': Outcome, size: nat, err: Option<Error>)
    requires RestSoFar(o, extra, left, None) && ReadPromise(left, left', piece, size, err)
    ensures RestSoFar(o, extra + piece, left', err)
  {
    if err.None? {
      assert left.bytes == piece + left'.bytes;
      assert extra + (piece + left'.bytes) == extra + piece + left'.bytes;
    }
  }

  /** What storing a stream under a declared size comes to. */
  function ReadAllResult(o: Outcome, size: nat): Result<Bytes> {
    if |o.bytes| < size then
      if o.error == UnexpectedEOF || (o.error == EOF && o.bytes != []) then Err(IncompleteBody) else Err(o.error)
    else if o.error != EOF then Err(o.error)
    else if |o.bytes| > size then Err(IncompleteBody)
    else Ok(o.bytes)
  }

  /** A hashing reader has the hash of all it read, `w` before, and it is the one expected. */
  ghost predicate HashCame(r: Reader, w: Bytes, bts: Bytes)
    reads ReaderObjects(r)
  {
    r.Hashed? ==>
      Summed(r) == Some(r.hashing.md5(w + bts)) && (r.hashing.expected.Some? ==> Summed(r) == r.hashing.expected)
  }

  /** util.go's ReadAll: exactly `size` bytes, then nothing more, whatever the source.  What
      is accepted has that length and the hash expected. */
  method ReadAll(r: Reader, size: nat, grow: Growth) returns (b: Result<Bytes>)
    requires ValidReader(r)
    modifies ReaderObjects(r)
    ensures ValidReader(r) && b == ReadAllResult(NowFrom(old(StandingOf(r)), size, grow), size)
    ensures b.Ok? ==> |b.value| == size && HashCame(r, old(Written(r)), b.value)
  {
    ghost var o, w := NowFrom(StandingOf(r), size, grow), Written(r);
    var got, err := ReadFull(r, size, grow);
    ReadAllEnds(o, got, err, RestFrom(StandingOf(r), 0, grow), size);
    if err == Some(UnexpectedEOF) {
      return Err(IncompleteBody);
    } else if err.Some? {
      return Err(err.value);
    }
    if |got| != size {
      return Err(IncompleteBody);
    }
    var extra;
    extra, err := ReadRest(r, grow);
    if err.Some? {
      return Err(err.value);
    } else if |extra| > 0 {
      return Err(IncompleteBody);
    }
    assert (w + got) + [] == w + got;
    return Ok(got);
  }

  function AfterFull(got: Bytes, left: Outcome): Result<Bytes> {
    if left.error != EOF then Err(left.error) else if |left.bytes| > 0 then Err(IncompleteBody) else Ok(got)
  }

  /** After a full read it only matters what is left. */
  lemma ReadAllEnds(o: Outcome, got: Bytes, err: Option<Error>, left: Outcome, size: nat)
    requires FullRead(o, got, err, left, size)
    ensures err.Some? ==>
      ReadAllResult(o, size) == Err(if err.value == UnexpectedEOF then IncompleteBody else err.value)
    ensures err.None? ==> |got| == size
    ensures err.None? ==> ReadAllResult(o, size) == AfterFull(got, left)
  {
    if err.None? {
      assert o.bytes == got + left.bytes;
      assert left.bytes == [] ==> o.bytes == got;
    }
  }
}
