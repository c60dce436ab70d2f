/** The resumable chunk decoder over a reader that hands out its bytes in pieces:
    when buffered reads deliver what the stream decodes to, and exactly when they
    do not. */
module ChunkReads {
  import opened Basics
  import opened Encodings
  import opened Chunks

  /** How a reader cuts up its bytes.  With `avail` bytes left it hands out at most
      `cap(avail)` of them, but always at least one.  Every run of a reader that
      makes progress is described by some `cap`.  An eager reader reports EOF
      together with its last bytes. */
  datatype Pieces = Pieces(cap: nat -> nat, eager: bool)

  function Min(a: nat, b: nat): nat {
    if a < b then a else b
  }

  function Grant(pc: Pieces, avail: nat, want: nat): (n: nat)
    ensures n <= avail && n <= want
    ensures avail > 0 && want > 0 ==> n > 0
  {
    var cap := pc.cap(avail);
    Min(want, Min(avail, if cap == 0 then 1 else cap))
  }

  predicate AtEnd(pc: Pieces, avail: nat, n: nat) {
    avail == 0 || (pc.eager && n == avail)
  }

  /** One call of the decoder's Read: either the buffer is filled, or an error stops
      it after some bytes. */
  datatype Ran = Filled(out: Bytes, at: Position) | Stopped(out: Bytes, error: Error)

  function After(out: Bytes, r: Ran): Ran {
    r.(out := out + r.out)
  }

  function Read(scan: Scanner, p: Position, size: nat, pc: Pieces): (r: Ran)
    ensures r.Filled? ==> |r.out| == size && |r.at.rest| + size <= |p.rest|
    decreases |p.rest|
  {
    if size == 0 then Filled([], p)
    else if p.remain > 0 then
      var n := Grant(pc, |p.rest|, if p.remain > size then size else p.remain);
      // chunk.go:27 counts the bytes asked for, chunk.go:40 the bytes received
      var counted := if p.remain > size then size else n;
      if AtEnd(pc, |p.rest|, n) then Stopped(p.rest[..n], EOF)
      else After(p.rest[..n], Read(scan, Position(p.rest[n..], p.remain - counted, p.entered), size - n, pc))
    else match Enter(scan, p)
      case Err(e) => Stopped([], e)
      case Ok(q) => Read(scan, q, size, pc)
  }

  // ---- when reads deliver what the stream decodes to ----

  /** The reader fills any request of up to `size` bytes, short only of its end. */
  ghost predicate Fills(pc: Pieces, size: nat) {
    forall avail: nat :: FillsAt(pc, size, avail)
  }

  predicate FillsAt(pc: Pieces, size: nat, avail: nat) {
    pc.cap(avail) >= size || pc.cap(avail) >= avail
  }

  lemma FillsLess(pc: Pieces, size: nat, less: nat)
    requires Fills(pc, size) && less <= size
    ensures Fills(pc, less)
  {
    forall avail: nat
      ensures FillsAt(pc, less, avail)
    {
      assert FillsAt(pc, size, avail);
    }
  }

  /** No chunk's data is cut short. */
  ghost predicate Uncut(scan: Scanner, p: Position)
    decreases |p.rest|, p.remain > 0
  {
    if p.remain > 0 then
      |p.rest| >= p.remain && Uncut(scan, Position(p.rest[p.remain..], 0, p.entered))
    else
      Enter(scan, p).Ok? ==> Uncut(scan, Enter(scan, p).value)
  }

  /** When a request is safe: the reader fills it, or it is large enough for
      everything the stream still holds, or nothing is left to read. */
  ghost predicate Safe(scan: Scanner, p: Position, size: nat, pc: Pieces) {
    Fills(pc, size) || (Uncut(scan, p) && |Decode(scan, p).bytes| <= size) || p.rest == []
  }

  /** Only inside a chunk are bytes of a chunk outstanding. */
  predicate Sane(p: Position) {
    p.remain > 0 ==> p.entered
  }

  /** What a read owes the caller. */
  ghost predicate Delivers(scan: Scanner, p: Position, r: Ran) {
    match r
    case Filled(out, q) => Decode(scan, p) == Outcome(out + Decode(scan, q).bytes, Decode(scan, q).error)
    case Stopped(out, e) => Decode(scan, p) == Outcome(out, e)
  }

  /** Within a chunk, bytes may be taken a few at a time. */
  lemma DecodeAdvance(scan: Scanner, p: Position, n: nat)
    requires 0 < p.remain && p.entered && n <= p.remain && n <= |p.rest|
    ensures var o := Decode(scan, Position(p.rest[n..], p.remain - n, p.entered));
      Decode(scan, p) == Outcome(p.rest[..n] + o.bytes, o.error)
  {
    if |p.rest| < p.remain {
      assert p.rest == p.rest[..n] + p.rest[n..];
    } else {
      var x, y, tail := p.rest[..n], p.rest[n..p.remain], p.rest[p.remain..];
      assert p.rest == (x + y) + tail && p.rest[n..] == y + tail;
      DecodeData(scan, x + y, tail);
      DecodeData(scan, y, tail);
      Regroup(x, y, Decode(scan, Position(tail, 0, true)).bytes);
    }
  }

  lemma Regroup(x: Bytes, y: Bytes, z: Bytes)
    ensures (x + y) + z == x + (y + z)
  {
  }

  lemma SliceOfSlice(s: Bytes, n: nat, m: nat)
    requires n <= m <= |s|
    ensures s[n..][..m - n] == s[n..m] && s[n..][m - n..] == s[m..] && s[..m] == s[..n] + s[n..m]
  {
  }

  lemma DeliversAfter(scan: Scanner, p: Position, q: Position, head: Bytes, r: Ran)
    requires Decode(scan, p) == Outcome(head + Decode(scan, q).bytes, Decode(scan, q).error) && Delivers(scan, q, r)
    ensures Delivers(scan, p, After(head, r))
  {
    match r
    case Filled(out, t) => assert head + (out + Decode(scan, t).bytes) == (head + out) + Decode(scan, t).bytes;
    case Stopped(out, e) =>
  }

  lemma DecodeDrained(scan: Scanner, remain: int, entered: bool)
    ensures Decode(scan, Position([], remain, entered)) == Outcome([], EOF)
  {
  }

  lemma UncutAdvance(scan: Scanner, p: Position, n: nat)
    requires 0 < p.remain && n <= p.remain && n <= |p.rest| && Uncut(scan, p) && (n == p.remain ==> p.entered)
    ensures Uncut(scan, Position(p.rest[n..], p.remain - n, p.entered))
  {
    SliceOfSlice(p.rest, n, p.remain);
    assert p.rest[n..][0..] == p.rest[n..];
  }

  lemma UncutHolds(scan: Scanner, p: Position)
    requires Uncut(scan, p) && p.remain > 0
    ensures p.remain <= |Decode(scan, p).bytes| && p.remain <= |p.rest|
  {
  }

  /** One piece of data, then a read that delivers, deliver together. */
  lemma PieceDelivers(scan: Scanner, p: Position, n: nat, q: Position, r: Ran)
    requires 0 < p.remain && p.entered && n <= p.remain && n <= |p.rest|
    requires Decode(scan, q) == Decode(scan, Position(p.rest[n..], p.remain - n, p.entered)) && Delivers(scan, q, r)
    ensures Delivers(scan, p, After(p.rest[..n], r))
  {
    DecodeAdvance(scan, p, n);
    DeliversAfter(scan, p, q, p.rest[..n], r);
  }

  lemma LastPieceDelivers(scan: Scanner, p: Position)
    requires 0 < p.remain && p.entered && |p.rest| <= p.remain
    ensures Decode(scan, p) == Outcome(p.rest, EOF)
  {
    if |p.rest| == p.remain {
      assert p.rest[p.remain..] == [] && p.rest[..p.remain] + [] == p.rest;
      DecodeDrained(scan, 0, true);
    }
  }

  /** Reads from a safe position deliver exactly what the stream decodes to. */
  lemma {:induction false} SafeReadDelivers(scan: Scanner, p: Position, size: nat, pc: Pieces)
    requires Safe(scan, p, size, pc) && Sane(p)
    ensures GoodRead(scan, p, Read(scan, p, size, pc))
    decreases |p.rest|, size, 1
  {
    if size == 0 {
      assert [] + Decode(scan, p).bytes == Decode(scan, p).bytes;
    } else if p.remain > 0 {
      if p.rest == [] {
        LastPiece(scan, p, 0);
      } else if Fills(pc, size) {
        FilledDataRead(scan, p, size, pc);
      } else {
        AmpleDataRead(scan, p, size, pc);
      }
    } else if Enter(scan, p).Ok? {
      DecodeEnter(scan, p, Enter(scan, p).value);
      SafeReadDelivers(scan, Enter(scan, p).value, size, pc);
    }
  }

  ghost predicate GoodRead(scan: Scanner, p: Position, r: Ran) {
    Delivers(scan, p, r) && (r.Filled? ==> Sane(r.at) && (Uncut(scan, p) ==> Uncut(scan, r.at)))
  }

  /** A piece of `n` bytes is read, the reader is not at its end, and the position
      agrees with the one `n` bytes on; then a good read follows. */
  lemma PieceThenRead(scan: Scanner, p: Position, n: nat, q: Position, r: Ran)
    requires 0 < p.remain && p.entered && n <= p.remain && n <= |p.rest|
    requires q.rest == p.rest[n..] && q.entered && (q.remain == p.remain - n || q.rest == [])
    requires Uncut(scan, p) ==> q.remain == p.remain - n
    requires GoodRead(scan, q, r)
    ensures GoodRead(scan, p, After(p.rest[..n], r))
  {
    if q.remain != p.remain - n {
      DecodeDrained(scan, q.remain, true);
      DecodeDrained(scan, p.remain - n, true);
    }
    if Uncut(scan, p) {
      UncutAdvance(scan, p, n);
    }
    PieceDelivers(scan, p, n, q, r);
  }

  function Want(p: Position, size: nat): nat {
    if p.remain > size then size else if p.remain > 0 then p.remain else 0
  }

  lemma ReadData(scan: Scanner, p: Position, size: nat, pc: Pieces, n: nat, q: Position)
    requires p.remain > 0 && size > 0 && n == Grant(pc, |p.rest|, Want(p, size))
    requires q == Position(p.rest[n..], p.remain - (if p.remain > size then size else n), p.entered)
    ensures Read(scan, p, size, pc) ==
      if AtEnd(pc, |p.rest|, n) then Stopped(p.rest[..n], EOF)
      else After(p.rest[..n], Read(scan, q, size - n, pc))
  {
  }

  lemma LastPiece(scan: Scanner, p: Position, n: nat)
    requires p.remain > 0 && p.entered && n == |p.rest| <= p.remain
    ensures GoodRead(scan, p, Stopped(p.rest[..n], EOF))
  {
    LastPieceDelivers(scan, p);
    assert p.rest[..n] == p.rest;
  }

  /** A piece of data, at the end of the source or followed by a good read. */
  lemma DataReadGood(scan: Scanner, p: Position, size: nat, pc: Pieces, n: nat, q: Position)
    requires p.remain > 0 && size > 0 && p.entered && n == Grant(pc, |p.rest|, Want(p, size))
    requires q == Position(p.rest[n..], p.remain - (if p.remain > size then size else n), p.entered)
    requires q.remain == p.remain - n || (q.rest == [] && !Uncut(scan, p))
    requires !AtEnd(pc, |p.rest|, n) ==> GoodRead(scan, q, Read(scan, q, size - n, pc))
    ensures GoodRead(scan, p, Read(scan, p, size, pc))
  {
    ReadData(scan, p, size, pc, n, q);
    if AtEnd(pc, |p.rest|, n) {
      LastPiece(scan, p, n);
    } else {
      PieceThenRead(scan, p, n, q, Read(scan, q, size - n, pc));
    }
  }

  /** The reader fills the request, or is at its end. */
  lemma {:induction false} FilledDataRead(scan: Scanner, p: Position, size: nat, pc: Pieces)
    requires Fills(pc, size) && Sane(p) && size > 0 && p.remain > 0
    ensures GoodRead(scan, p, Read(scan, p, size, pc))
    decreases |p.rest|, size, 0
  {
    var n := Grant(pc, |p.rest|, Want(p, size));
    var q := Position(p.rest[n..], p.remain - (if p.remain > size then size else n), p.entered);
    assert FillsAt(pc, size, |p.rest|);
    assert n == Min(Want(p, size), |p.rest|);
    FillsLess(pc, size, size - n);
    if !AtEnd(pc, |p.rest|, n) {
      if Uncut(scan, p) { UncutHolds(scan, p); }
      SafeReadDelivers(scan, q, size - n, pc);
    }
    DataReadGood(scan, p, size, pc, n, q);
  }

  /** The request is large enough for all that is left: no chunk outlasts it. */
  lemma {:induction false} AmpleDataRead(scan: Scanner, p: Position, size: nat, pc: Pieces)
    requires Uncut(scan, p) && |Decode(scan, p).bytes| <= size && Sane(p) && size > 0 && p.remain > 0
    ensures GoodRead(scan, p, Read(scan, p, size, pc))
    decreases |p.rest|, size, 0
  {
    UncutHolds(scan, p);
    assert p.remain <= size;
    var n := Grant(pc, |p.rest|, Want(p, size));
    var q := Position(p.rest[n..], p.remain - n, p.entered);
    AmpleAdvance(scan, p, size, n, pc);
    if !AtEnd(pc, |p.rest|, n) {
      SafeReadDelivers(scan, q, size - n, pc);
    }
    DataReadGood(scan, p, size, pc, n, q);
  }

  /** What is left is ample still, after a piece of it. */
  lemma AmpleAdvance(scan: Scanner, p: Position, size: nat, n: nat, pc: Pieces)
    requires Uncut(scan, p) && |Decode(scan, p).bytes| <= size && Sane(p) && 0 < p.remain
    requires n <= p.remain && n <= |p.rest|
    ensures p.remain <= size && n <= size
    ensures var q := Position(p.rest[n..], p.remain - n, p.entered); Safe(scan, q, size - n, pc) && Sane(q)
  {
    UncutHolds(scan, p);
    DecodeAdvance(scan, p, n);
    UncutAdvance(scan, p, n);
  }

  predicate LeavesRoom(r: Ran, size: nat) {
    |r.out| <= size && (r.Stopped? && r.error != EOF ==> |r.out| < size)
  }

  lemma RoomAfter(head: Bytes, r: Ran, size: nat)
    requires |head| <= size && LeavesRoom(r, size - |head|)
    ensures LeavesRoom(After(head, r), size)
  {
  }

  lemma RoomAfterData(scan: Scanner, p: Position, size: nat, pc: Pieces, n: nat, q: Position)
    requires p.remain > 0 && size > 0 && n == Grant(pc, |p.rest|, Want(p, size))
    requires q == Position(p.rest[n..], p.remain - (if p.remain > size then size else n), p.entered)
    requires !AtEnd(pc, |p.rest|, n) ==> LeavesRoom(Read(scan, q, size - n, pc), size - n)
    ensures LeavesRoom(Read(scan, p, size, pc), size)
  {
    ReadData(scan, p, size, pc, n, q);
    if !AtEnd(pc, |p.rest|, n) {
      RoomAfter(p.rest[..n], Read(scan, q, size - n, pc), size);
    }
  }

  /** Only an end of file can come with a full buffer. */
  lemma {:induction false} OtherErrorsLeaveRoom(scan: Scanner, p: Position, size: nat, pc: Pieces)
    ensures LeavesRoom(Read(scan, p, size, pc), size)
    decreases |p.rest|
  {
    if size == 0 {
    } else if p.remain > 0 {
      var n := Grant(pc, |p.rest|, Want(p, size));
      var q := Position(p.rest[n..], p.remain - (if p.remain > size then size else n), p.entered);
      if !AtEnd(pc, |p.rest|, n) {
        OtherErrorsLeaveRoom(scan, q, size - n, pc);
      }
      RoomAfterData(scan, p, size, pc, n, q);
    } else if Enter(scan, p).Ok? {
      OtherErrorsLeaveRoom(scan, Enter(scan, p).value, size, pc);
    }
  }

  // ---- runs of reads ----

  function Sum(sizes: seq<nat>): nat {
    if sizes == [] then 0 else sizes[0] + Sum(sizes[1..])
  }

  /** Read calls with buffers of the given sizes, until one reports an error. */
  function ReadMany(scan: Scanner, p: Position, sizes: seq<nat>, pc: Pieces): Ran
    decreases |sizes|
  {
    if sizes == [] then Filled([], p)
    else match Read(scan, p, sizes[0], pc)
      case Filled(out, q) => After(out, ReadMany(scan, q, sizes[1..], pc))
      case Stopped(out, e) => Stopped(out, e)
  }

  ghost predicate FillsAll(pc: Pieces, sizes: seq<nat>) {
    forall i :: 0 <= i < |sizes| ==> Fills(pc, sizes[i])
  }

  lemma {:induction false} ManyReadsDeliver(scan: Scanner, p: Position, sizes: seq<nat>, pc: Pieces)
    requires FillsAll(pc, sizes) && Sane(p)
    ensures var r := ReadMany(scan, p, sizes, pc); Delivers(scan, p, r) && (r.Filled? ==> |r.out| == Sum(sizes))
    decreases |sizes|
  {
    if sizes == [] {
      assert [] + Decode(scan, p).bytes == Decode(scan, p).bytes;
    } else {
      SafeReadDelivers(scan, p, sizes[0], pc);
      var r := Read(scan, p, sizes[0], pc);
      if r.Filled? {
        ManyReadsDeliver(scan, r.at, sizes[1..], pc);
        DeliversAfter(scan, p, r.at, r.out, ReadMany(scan, r.at, sizes[1..], pc));
      }
    }
  }

  /** Whatever buffer sizes the caller uses, the bytes delivered before EOF are the
      payloads: a run that ends delivers all of them, one that has not ended yet a
      prefix as long as its buffers. */
  lemma AnyBuffersDecode(cs: seq<Chunk>, sizes: seq<nat>, pc: Pieces)
    requires AllWellFormed(cs) && FillsAll(pc, sizes)
    ensures match ReadMany(Fscanf, Start(Frame(cs)), sizes, pc)
      case Filled(out, _) => out <= Payload(cs) && |out| == Sum(sizes)
      case Stopped(out, e) => out == Payload(cs) && e == EOF
  {
    DecodeUndoesFraming(cs);
    ManyReadsDeliver(Fscanf, Start(Frame(cs)), sizes, pc);
  }

  /** The same for a stream cut short anywhere: a prefix is delivered, and the run
      ends with an end-of-file error. */
  lemma CutStreamDelivers(cs: seq<Chunk>, stream: Bytes, sizes: seq<nat>, pc: Pieces)
    requires AllWellFormed(cs) && stream <= Frame(cs) && FillsAll(pc, sizes)
    ensures match ReadMany(Fscanf, Start(stream), sizes, pc)
      case Filled(out, _) => out <= Payload(cs) && |out| == Sum(sizes)
      case Stopped(out, e) => out <= Payload(cs) && CutError(e)
  {
    assert "" + Frame(cs) == Frame(cs);
    FscanfScans();
    DecodeCut(Fscanf, cs, false, "", stream);
    ManyReadsDeliver(Fscanf, Start(stream), sizes, pc);
  }

  // ---- exactly which buffers are safe ----

  /** Reading to the end through one buffer size. */
  function Drain(scan: Scanner, p: Position, size: nat, pc: Pieces): Outcome
    requires size > 0
    decreases |p.rest|
  {
    match Read(scan, p, size, pc)
    case Filled(out, q) => var o := Drain(scan, q, size, pc); Outcome(out + o.bytes, o.error)
    case Stopped(out, e) => Outcome(out, e)
  }

  lemma {:induction false} DrainDelivers(scan: Scanner, p: Position, size: nat, pc: Pieces)
    requires size > 0 && Sane(p) && Safe(scan, p, size, pc)
    ensures Drain(scan, p, size, pc) == Decode(scan, p)
    decreases |p.rest|
  {
    SafeReadDelivers(scan, p, size, pc);
    var r := Read(scan, p, size, pc);
    if r.Filled? {
      DrainDelivers(scan, r.at, size, pc);
    }
  }

  /** How the buffers grow of a reader that reads to the end. */
  type Growth = nat -> nat

  /** The buffer when `k` bytes have been gathered: the first has 512 bytes, and none is
      empty; the rest is up to the runtime. */
  function Buffer(grow: Growth, k: nat): (n: nat)
    ensures n > 0
  {
    if k == 0 then 512 else if grow(k) == 0 then 1 else grow(k)
  }

  /** A read, and what follows it if it fills its buffer. */
  function Joined(r: Ran, rest: Outcome): Outcome {
    if r.Filled? then Outcome(r.out + rest.bytes, rest.error) else Outcome(r.out, r.error)
  }

  /** Reading to the end once `k` bytes have been gathered. */
  function RestOf(scan: Scanner, p: Position, k: nat, pc: Pieces, grow: Growth): Outcome
    decreases |p.rest|
  {
    var r := Read(scan, p, Buffer(grow, k), pc);
    Joined(r, if r.Filled? then RestOf(scan, r.at, k + Buffer(grow, k), pc, grow) else Outcome([], EOF))
  }

  /** One read of `size` bytes, and then to the end as if `k` had been gathered. */
  function ReadThenRest(scan: Scanner, p: Position, size: nat, k: nat, pc: Pieces, grow: Growth): Outcome {
    var r := Read(scan, p, size, pc);
    Joined(r, if r.Filled? then RestOf(scan, r.at, k, pc, grow) else Outcome([], EOF))
  }

  /** A good read, and then what is left. */
  lemma JoinedDelivers(scan: Scanner, p: Position, r: Ran, rest: Outcome)
    requires GoodRead(scan, p, r) && (r.Filled? ==> rest == Decode(scan, r.at))
    ensures Joined(r, rest) == Decode(scan, p)
  {
  }

  lemma LeftAfter(scan: Scanner, p: Position, r: Ran)
    requires GoodRead(scan, p, r) && r.Filled?
    ensures Sane(r.at) && |Decode(scan, p).bytes| == |r.out| + |Decode(scan, r.at).bytes|
    ensures Uncut(scan, p) ==> Uncut(scan, r.at)
  {
  }

  lemma RestDrained(scan: Scanner, p: Position, k: nat, pc: Pieces, grow: Growth)
    requires p.rest == []
    ensures RestOf(scan, p, k, pc, grow) == Outcome([], EOF)
  {
  }

  /** Whether no buffer is cut short before the `left` bytes are read that are left. */
  ghost predicate RestSafe(pc: Pieces, grow: Growth, k: nat, left: nat)
    decreases left
  {
    left <= Buffer(grow, k) ||
      (Fills(pc, Buffer(grow, k)) && RestSafe(pc, grow, k + Buffer(grow, k), left - Buffer(grow, k)))
  }

  lemma SafeNext(pc: Pieces, grow: Growth, k: nat, left: nat, n: nat, left': nat)
    requires RestSafe(pc, grow, k, left) && n == Buffer(grow, k) && left == n + left'
    ensures RestSafe(pc, grow, k + n, left')
  {
  }

  lemma RestRead(scan: Scanner, p: Position, k: nat, pc: Pieces, grow: Growth) returns (r: Ran, rest: Outcome)
    requires Sane(p) && Safe(scan, p, Buffer(grow, k), pc)
    ensures GoodRead(scan, p, r) && RestOf(scan, p, k, pc, grow) == Joined(r, rest)
    ensures r.Filled? ==>
      |r.out| == Buffer(grow, k) && |r.at.rest| < |p.rest| && rest == RestOf(scan, r.at, k + Buffer(grow, k), pc, grow)
  {
    r := Read(scan, p, Buffer(grow, k), pc);
    SafeReadDelivers(scan, p, Buffer(grow, k), pc);
    rest := if r.Filled? then RestOf(scan, r.at, k + Buffer(grow, k), pc, grow) else Outcome([], EOF);
  }

  /** The first read of the rest, if it is safe, and what is left then. */
  lemma RestStep(scan: Scanner, p: Position, k: nat, pc: Pieces, grow: Growth) returns (q: Option<Position>, n: nat)
    requires Sane(p) && Safe(scan, p, Buffer(grow, k), pc)
    ensures q.None? ==> RestOf(scan, p, k, pc, grow) == Decode(scan, p)
    ensures q.Some? ==>
      && n == Buffer(grow, k) && |q.value.rest| < |p.rest| && Sane(q.value) && (Uncut(scan, p) ==> Uncut(scan, q.value))
      && |Decode(scan, p).bytes| == n + |Decode(scan, q.value).bytes|
      && (RestOf(scan, q.value, k + n, pc, grow) == Decode(scan, q.value) ==>
            RestOf(scan, p, k, pc, grow) == Decode(scan, p))
  {
    var r, rest := RestRead(scan, p, k, pc, grow);
    q, n := None, Buffer(grow, k);
    if r.Filled? {
      LeftAfter(scan, p, r);
      q := Some(r.at);
    }
    if r.Filled? ==> rest == Decode(scan, r.at) {
      JoinedDelivers(scan, p, r, rest);
    }
  }

  lemma {:induction false} RestDelivers(scan: Scanner, p: Position, k: nat, pc: Pieces, grow: Growth)
    requires Sane(p) && Uncut(scan, p) && RestSafe(pc, grow, k, |Decode(scan, p).bytes|)
    ensures RestOf(scan, p, k, pc, grow) == Decode(scan, p)
    decreases |p.rest|
  {
    var q, n := RestStep(scan, p, k, pc, grow);
    if q.Some? {
      SafeNext(pc, grow, k, |Decode(scan, p).bytes|, n, |Decode(scan, q.value).bytes|);
      RestDelivers(scan, q.value, k + n, pc, grow);
    }
  }

  /** A source that fills every request is safe for any buffers. */
  lemma {:induction false} FilledRestDelivers(scan: Scanner, p: Position, k: nat, pc: Pieces, grow: Growth)
    requires Sane(p) && forall j :: Fills(pc, Buffer(grow, j))
    ensures RestOf(scan, p, k, pc, grow) == Decode(scan, p)
    decreases |p.rest|
  {
    var q, n := RestStep(scan, p, k, pc, grow);
    if q.Some? {
      FilledRestDelivers(scan, q.value, k + n, pc, grow);
    }
  }

  /** When one read and then reading to the end deliver what the stream decodes to. */
  lemma ReadThenRestDelivers(scan: Scanner, p: Position, size: nat, pc: Pieces, grow: Growth)
    requires Sane(p)
    requires
      (Uncut(scan, p) && var left := |Decode(scan, p).bytes|;
        left <= size || (Fills(pc, size) && RestSafe(pc, grow, 0, left - size)))
      || (Fills(pc, size) && forall j :: Fills(pc, Buffer(grow, j)))
    ensures ReadThenRest(scan, p, size, 0, pc, grow) == Decode(scan, p)
  {
    var r := Read(scan, p, size, pc);
    SafeReadDelivers(scan, p, size, pc);
    if r.Filled? {
      LeftAfter(scan, p, r);
      if Fills(pc, size) && forall j :: Fills(pc, Buffer(grow, j)) {
        FilledRestDelivers(scan, r.at, 0, pc, grow);
      } else {
        RestDelivers(scan, r.at, 0, pc, grow);
      }
    }
    JoinedDelivers(scan, p, r, if r.Filled? then RestOf(scan, r.at, 0, pc, grow) else Outcome([], EOF));
  }

  lemma UncutData(scan: Scanner, data: Bytes, tail: Bytes)
    requires Uncut(scan, Position(tail, 0, true))
    ensures Uncut(scan, Position(data + tail, |data|, true))
  {
    assert (data + tail)[|data|..] == tail;
  }

  lemma UncutEnter(scan: Scanner, p: Position, q: Position)
    requires p.remain <= 0 && Enter(scan, p) == Ok(q) && Uncut(scan, q)
    ensures Uncut(scan, p)
  {
  }

  lemma {:induction false} FramedUncut(scan: Scanner, cs: seq<Chunk>, entered: bool, gap: Bytes)
    requires Scans(scan) && AllWellFormed(cs) && IsGap(gap, entered)
    ensures Uncut(scan, Position(gap + Frame(cs), 0, entered))
  {
    if cs == [] {
      assert gap + Frame(cs) == gap;
      GapUncut(scan, gap, entered);
    } else {
      var c, more := cs[0], "\r\n" + Frame(cs[1..]);
      FramedUncut(scan, cs[1..], true, "\r\n");
      UncutData(scan, c.data, more);
      FrameSplit(cs, gap);
      EnterChunk(scan, c, c.data + more, entered, gap);
      UncutEnter(scan, Position(gap + Header(c) + (c.data + more), 0, entered),
                 Position(c.data + more, |c.data|, true));
    }
  }

  lemma GapUncut(scan: Scanner, gap: Bytes, entered: bool)
    requires IsGap(gap, entered)
    ensures Uncut(scan, Position(gap, 0, entered))
  {
    assert entered ==> gap[2..] == [];
  }

  function Uniform(c: nat): Pieces {
    Pieces((avail: nat) => c, false)
  }

  /** Buffers of size `b` over a reader that hands out at most `c` bytes at a time
      decode this stream to its payload. */
  ghost predicate Faithful(scan: Scanner, cs: seq<Chunk>, b: nat, c: nat)
    requires b > 0
  {
    Drain(scan, Start(Frame(cs)), b, Uniform(c)) == Outcome(Payload(cs), EOF)
  }

  function Junk(n: nat): (s: Bytes)
    ensures |s| == n
  {
    seq(n, i => 'z')
  }

  function JunkChunk(n: nat): (c: Chunk) {
    Chunk(HexText(n), Junk(SIGNATURE_BYTES), Junk(n))
  }

  lemma JunkWellFormed(n: nat)
    requires n <= MAX_INT
    ensures WellFormed(JunkChunk(n))
  {
    HexTextValue(n);
  }

  lemma NoDigitNoSize(s: Bytes)
    requires s != [] && (s[0] == 'z' || s[0] == '\n')
    ensures ScanSize(s) == NoSize(Malformed)
  {
    assert HexRun(s) == 0;
  }

  lemma LineBreakNoSize(tail: Bytes)
    ensures ScanSize("\r\n" + tail) == NoSize(Malformed)
  {
    var s := "\r\n" + tail;
    assert s[1..] == "\n" + tail;
    assert SkipBlanks(s) == SkipBlanks(s[1..]) == "\n" + tail;
    NoDigitNoSize("\n" + tail);
  }

  /** The scanner finds no size where a chunk's data or its line break still is. */
  ghost predicate RejectsJunk(scan: Scanner) {
    forall k: nat, tail :: k > 0 ==> scan((Junk(k) + "\r\n" + tail)[2..]) == NoSize(Malformed)
  }

  lemma FscanfRejectsJunk()
    ensures RejectsJunk(Fscanf)
  {
    forall k: nat, tail: Bytes | k > 0
      ensures Fscanf((Junk(k) + "\r\n" + tail)[2..]) == NoSize(Malformed)
    {
      JunkIsNoHeader(k, tail);
    }
  }

  lemma JunkIsNoHeader(k: nat, tail: Bytes)
    requires k > 0
    ensures ScanSize((Junk(k) + "\r\n" + tail)[2..]) == NoSize(Malformed)
  {
    var s := (Junk(k) + "\r\n" + tail)[2..];
    if k == 1 {
      assert s == "\n" + tail;
      NoDigitNoSize(s);
    } else if k == 2 {
      assert s == "\r\n" + tail;
      LineBreakNoSize(tail);
    } else {
      NoDigitNoSize(s);
    }
  }

  /** A read that ends, or whose next read ends, where no header is. */
  ghost predicate EndsMalformed(scan: Scanner, r: Ran, pc: Pieces) {
    match r
    case Stopped(_, e) => e == Malformed
    case Filled(_, q) => forall size: nat :: size > 0 ==> Read(scan, q, size, pc) == Stopped([], Malformed)
  }

  /** A short first read leaves the count of the chunk's bytes too low; the decoder
      then enters a header where data still is. */
  lemma ShortRead(scan: Scanner, data: Bytes, tail: Bytes, b: nat, c: nat)
    requires 1 <= c < b && |data| == b + 1
    requires Enter(scan, Position(data[c + 1..] + tail, 0, true)) == Err(Malformed)
    ensures EndsMalformed(scan, Read(scan, Position(data + tail, b + 1, true), b, Uniform(c)), Uniform(c))
  {
    var pc, p := Uniform(c), Position(data + tail, b + 1, true);
    assert p.rest[c..][1..] == data[c + 1..] + tail;
    var q, r := Position(p.rest[c..], 1, true), Position(data[c + 1..] + tail, 0, true);
    ReadData(scan, p, b, pc, c, q);
    ReadData(scan, q, b - c, pc, 1, r);
    if b - c - 1 == 0 {
      assert Read(scan, r, 0, pc) == Filled([], r);
    } else {
      assert Read(scan, r, b - c - 1, pc) == Stopped([], Malformed);
    }
  }

  lemma ShortReadBreaks(scan: Scanner, data: Bytes, tail: Bytes, b: nat, c: nat)
    requires 1 <= c < b && |data| == b + 1
    requires Enter(scan, Position(data[c + 1..] + tail, 0, true)) == Err(Malformed)
    ensures Drain(scan, Position(data + tail, b + 1, true), b, Uniform(c)).error == Malformed
  {
    ShortRead(scan, data, tail, b, c);
    var r := Read(scan, Position(data + tail, b + 1, true), b, Uniform(c));
    if r.Filled? {
      assert Read(scan, r.at, b, Uniform(c)) == Stopped([], Malformed);
    }
  }

  lemma ShortReadThenRest(scan: Scanner, data: Bytes, tail: Bytes, b: nat, c: nat, k: nat, grow: Growth)
    requires 1 <= c < b && |data| == b + 1
    requires Enter(scan, Position(data[c + 1..] + tail, 0, true)) == Err(Malformed)
    ensures ReadThenRest(scan, Position(data + tail, b + 1, true), b, k, Uniform(c), grow).error == Malformed
  {
    ShortRead(scan, data, tail, b, c);
    var r := Read(scan, Position(data + tail, b + 1, true), b, Uniform(c));
    if r.Filled? {
      assert Read(scan, r.at, Buffer(grow, k), Uniform(c)) == Stopped([], Malformed);
    }
  }

  lemma DrainEnter(scan: Scanner, p: Position, q: Position, size: nat, pc: Pieces)
    requires size > 0 && p.remain <= 0 && Enter(scan, p) == Ok(q)
    ensures Drain(scan, p, size, pc) == Drain(scan, q, size, pc)
  {
  }

  /** A stream whose first chunk is one byte longer than the buffer. */
  lemma LongChunkBreaks(scan: Scanner, k: Chunk, tail: Bytes, b: nat, c: nat)
    requires Scans(scan) && WellFormed(k) && 1 <= c < b && |k.data| == b + 1
    requires |tail| >= 2 && scan((k.data[c + 1..] + tail)[2..]) == NoSize(Malformed)
    ensures Drain(scan, Start(Header(k) + (k.data + tail)), b, Uniform(c)).error == Malformed
  {
    var p, q := Start(Header(k) + (k.data + tail)), Position(k.data + tail, b + 1, true);
    assert Enter(scan, p) == Ok(q) by {
      assert "" + Header(k) + (k.data + tail) == Header(k) + (k.data + tail);
      EnterChunk(scan, k, k.data + tail, false, "");
    }
    ShortReadBreaks(scan, k.data, tail, b, c);
    DrainEnter(scan, p, q, b, Uniform(c));
  }

  lemma TwoChunks(k: Chunk, l: Chunk)
    requires WellFormed(k) && WellFormed(l)
    ensures AllWellFormed([k, l]) && |Payload([k, l])| == |k.data| + |l.data|
    ensures Frame([k, l]) == Header(k) + (k.data + ("\r\n" + Frame([l])))
  {
    var cs := [k, l];
    assert cs[1..] == [l] && [l][1..] == [];
    assert Payload([l]) == l.data + Payload([]);
  }

  lemma JunkTail(n: nat, m: nat, tail: Bytes)
    requires m <= n
    ensures Junk(n)[m..] + ("\r\n" + tail) == Junk(n - m) + "\r\n" + tail
  {
  }

  lemma TwoChunksBreak(scan: Scanner, k: Chunk, l: Chunk, b: nat, c: nat)
    requires Scans(scan) && WellFormed(k) && WellFormed(l) && 1 <= c < b && |k.data| == b + 1
    requires scan((k.data[c + 1..] + ("\r\n" + Frame([l])))[2..]) == NoSize(Malformed)
    ensures !Faithful(scan, [k, l], b, c)
  {
    TwoChunks(k, l);
    LongChunkBreaks(scan, k, "\r\n" + Frame([l]), b, c);
  }

  lemma JunkRejected(scan: Scanner, n: nat, m: nat, tail: Bytes)
    requires RejectsJunk(scan) && m < n
    ensures scan((Junk(n)[m..] + ("\r\n" + tail))[2..]) == NoSize(Malformed)
  {
    JunkTail(n, m, tail);
  }

  lemma JunkChunkBreaks(scan: Scanner, k: Chunk, l: Chunk, b: nat, c: nat)
    requires Scans(scan) && RejectsJunk(scan) && 1 <= c < b && WellFormed(k) && WellFormed(l) && k.data == Junk(b + 1)
    ensures AllWellFormed([k, l]) && |Payload([k, l])| == b + 1 + |l.data| && !Faithful(scan, [k, l], b, c)
  {
    TwoChunks(k, l);
    JunkRejected(scan, b + 1, c + 1, Frame([l]));
    TwoChunksBreak(scan, k, l, b, c);
  }

  /** When buffers are larger than the reader's pieces but smaller than the payload,
      some framed stream of that payload length decodes wrongly. */
  lemma SmallPiecesBreak(scan: Scanner, b: nat, c: nat, total: nat) returns (cs: seq<Chunk>)
    requires Scans(scan) && RejectsJunk(scan) && 1 <= c < b < total <= MAX_INT
    ensures AllWellFormed(cs) && |Payload(cs)| == total && !Faithful(scan, cs, b, c)
  {
    var k := MakeJunk(b + 1);
    var l := MakeJunk(total - b - 1);
    JunkChunkBreaks(scan, k, l, b, c);
    cs := [k, l];
  }

  lemma MakeJunk(n: nat) returns (k: Chunk)
    requires n <= MAX_INT
    ensures WellFormed(k) && k.data == Junk(n)
  {
    JunkWellFormed(n);
    k := JunkChunk(n);
  }

  /** Exactly which buffers decode every stream with a payload of `total` bytes: those
      no larger than the pieces the reader hands out, or at least as large as the
      whole payload. */
  lemma FaithfulExactly(b: nat, c: nat, total: nat)
    requires 1 <= c && 1 <= b && total <= MAX_INT
    ensures (forall cs :: AllWellFormed(cs) && |Payload(cs)| == total ==> Faithful(Fscanf, cs, b, c))
            <==> b <= c || total <= b
  {
    FscanfScans();
    FscanfRejectsJunk();
    if b <= c || total <= b {
      forall cs | AllWellFormed(cs) && |Payload(cs)| == total
        ensures Faithful(Fscanf, cs, b, c)
      {
        LargeOrSmallBuffers(Fscanf, cs, b, c);
      }
    } else {
      var cs := SmallPiecesBreak(Fscanf, b, c, total);
    }
  }

  lemma LargeOrSmallBuffers(scan: Scanner, cs: seq<Chunk>, b: nat, c: nat)
    requires Scans(scan) && AllWellFormed(cs) && 1 <= b && 1 <= c && (b <= c || |Payload(cs)| <= b)
    ensures Faithful(scan, cs, b, c)
  {
    assert "" + Frame(cs) == Frame(cs);
    DecodeFramed(scan, cs, false, "");
    FramedUncut(scan, cs, false, "");
    DrainDelivers(scan, Start(Frame(cs)), b, Uniform(c));
  }

  // ---- one read of a declared size, and then to the end ----

  lemma FillsUniform(c: nat, size: nat)
    ensures Fills(Uniform(c), size) <==> size <= c
  {
    assert FillsAt(Uniform(c), size, c + 1) <==> size <= c;
  }

  /** Whether each buffer fits the pieces, until one takes all that is left. */
  predicate RestFits(grow: Growth, c: nat, k: nat, left: nat)
    decreases left
  {
    left <= Buffer(grow, k) ||
    (Buffer(grow, k) <= c && RestFits(grow, c, k + Buffer(grow, k), left - Buffer(grow, k)))
  }

  lemma {:induction false} RestFitsIsSafe(grow: Growth, c: nat, k: nat, left: nat)
    ensures RestSafe(Uniform(c), grow, k, left) <==> RestFits(grow, c, k, left)
    decreases left
  {
    FillsUniform(c, Buffer(grow, k));
    if left > Buffer(grow, k) {
      RestFitsIsSafe(grow, c, k + Buffer(grow, k), left - Buffer(grow, k));
    }
  }

  /** How long a chunk has to be for its last read but one to be cut short. */
  function BreakAt(grow: Growth, c: nat, k: nat, left: nat): (n: nat)
    requires !RestFits(grow, c, k, left)
    ensures Buffer(grow, k) < n <= left
    decreases left
  {
    var b := Buffer(grow, k);
    if b > c then b + 1 else b + BreakAt(grow, c, k + b, left - b)
  }

  /** A read within a chunk that the source fills. */
  lemma FullRead(scan: Scanner, data: Bytes, tail: Bytes, size: nat, c: nat)
    requires size <= c && size < |data|
    ensures Read(scan, Position(data + tail, |data|, true), size, Uniform(c)) ==
      Filled(data[..size], Position(data[size..] + tail, |data| - size, true))
  {
    var p, q := Position(data + tail, |data|, true), Position(data[size..] + tail, |data| - size, true);
    if size > 0 {
      assert p.rest[size..] == q.rest && p.rest[..size] == data[..size];
      ReadData(scan, p, size, Uniform(c), size, q);
      assert Read(scan, q, 0, Uniform(c)) == Filled([], q);
      assert data[..size] + [] == data[..size];
    }
  }

  lemma {:induction false} RestBreaks(scan: Scanner, n: nat, tail: Bytes, c: nat, k: nat, left: nat, grow: Growth)
    requires RejectsJunk(scan) && 1 <= c && !RestFits(grow, c, k, left) && n == BreakAt(grow, c, k, left)
    ensures RestOf(scan, Position(Junk(n) + ("\r\n" + tail), n, true), k, Uniform(c), grow).error == Malformed
    decreases left
  {
    var b := Buffer(grow, k);
    RestIsRead(scan, Position(Junk(n) + ("\r\n" + tail), n, true), k, Uniform(c), grow);
    if b > c {
      ShortJunkRead(scan, n, tail, b, c, k + b, grow);
    } else {
      RestBreaks(scan, n - b, tail, c, k + b, left - b, grow);
      FullReadThenRest(scan, n, "\r\n" + tail, b, c, k + b, grow);
    }
  }

  lemma ShortJunkRead(scan: Scanner, n: nat, tail: Bytes, b: nat, c: nat, k: nat, grow: Growth)
    requires RejectsJunk(scan) && 1 <= c < b && n == b + 1
    ensures ReadThenRest(scan, Position(Junk(n) + ("\r\n" + tail), n, true), b, k, Uniform(c), grow).error == Malformed
  {
    JunkRejected(scan, n, c + 1, tail);
    ShortReadThenRest(scan, Junk(n), "\r\n" + tail, b, c, k, grow);
  }

  lemma RestIsRead(scan: Scanner, p: Position, k: nat, pc: Pieces, grow: Growth)
    ensures RestOf(scan, p, k, pc, grow) == ReadThenRest(scan, p, Buffer(grow, k), k + Buffer(grow, k), pc, grow)
  {
  }

  lemma FullReadThenRest(scan: Scanner, n: nat, end: Bytes, size: nat, c: nat, k: nat, grow: Growth)
    requires size <= c && size < n
    ensures ReadThenRest(scan, Position(Junk(n) + end, n, true), size, k, Uniform(c), grow).error ==
      RestOf(scan, Position(Junk(n - size) + end, n - size, true), k, Uniform(c), grow).error
  {
    FullRead(scan, Junk(n), end, size, c);
    assert Junk(n)[size..] == Junk(n - size);
  }

  lemma RestEnter(scan: Scanner, p: Position, q: Position, size: nat, k: nat, pc: Pieces, grow: Growth)
    requires p.remain <= 0 && Enter(scan, p) == Ok(q)
    ensures ReadThenRest(scan, p, size, k, pc, grow) ==
      if size > 0 then ReadThenRest(scan, q, size, k, pc, grow) else RestOf(scan, q, k, pc, grow)
  {
    if size == 0 {
      assert Read(scan, p, 0, pc) == Filled([], p);
      assert RestOf(scan, p, k, pc, grow) == RestOf(scan, q, k, pc, grow);
      var o := RestOf(scan, q, k, pc, grow);
      assert [] + o.bytes == o.bytes;
    }
  }

  /** A chunk at which reading `size` bytes and then to the end breaks off. */
  lemma FirstChunkBreaks(scan: Scanner, n: nat, tail: Bytes, size: nat, c: nat, left: nat, grow: Growth)
    requires RejectsJunk(scan) && 1 <= c
    requires if size > c then n == size + 1 else !RestFits(grow, c, 0, left) && n == size + BreakAt(grow, c, 0, left)
    ensures var p := Position(Junk(n) + ("\r\n" + tail), n, true);
      (if size > 0 then ReadThenRest(scan, p, size, 0, Uniform(c), grow)
       else RestOf(scan, p, 0, Uniform(c), grow)).error
      == Malformed
  {
    var end := "\r\n" + tail;
    if size > c {
      JunkRejected(scan, n, c + 1, tail);
      ShortReadThenRest(scan, Junk(n), end, size, c, 0, grow);
    } else {
      RestBreaks(scan, n - size, tail, c, 0, left, grow);
      FullReadThenRest(scan, n, end, size, c, 0, grow);
    }
  }

  /** Reading a framed stream of payload length `total`: `size` bytes, then to the end. */
  ghost predicate ReadsRight(scan: Scanner, cs: seq<Chunk>, size: nat, c: nat, grow: Growth) {
    ReadThenRest(scan, Start(Frame(cs)), size, 0, Uniform(c), grow) == Outcome(Payload(cs), EOF)
  }

  lemma FramedReadThenRest(scan: Scanner, cs: seq<Chunk>, size: nat, pc: Pieces, grow: Growth)
    requires Scans(scan) && AllWellFormed(cs)
    requires |Payload(cs)| <= size
      || (Fills(pc, size) && RestSafe(pc, grow, 0, |Payload(cs)| - size)) || (forall n :: Fills(pc, n))
    ensures ReadThenRest(scan, Start(Frame(cs)), size, 0, pc, grow) == Outcome(Payload(cs), EOF)
  {
    var p := Start(Frame(cs));
    assert Uncut(scan, p) && Decode(scan, p) == Outcome(Payload(cs), EOF) by {
      assert "" + Frame(cs) == Frame(cs);
      DecodeFramed(scan, cs, false, "");
      FramedUncut(scan, cs, false, "");
    }
    ReadThenRestDelivers(scan, p, size, pc, grow);
  }

  lemma RightReads(scan: Scanner, cs: seq<Chunk>, size: nat, c: nat, grow: Growth)
    requires Scans(scan) && AllWellFormed(cs)
    requires |Payload(cs)| <= size || (size <= c && RestFits(grow, c, 0, |Payload(cs)| - size))
    ensures ReadsRight(scan, cs, size, c, grow)
  {
    FillsUniform(c, size);
    if |Payload(cs)| > size {
      RestFitsIsSafe(grow, c, 0, |Payload(cs)| - size);
    }
    FramedReadThenRest(scan, cs, size, Uniform(c), grow);
  }

  lemma WrongReads(scan: Scanner, size: nat, c: nat, total: nat, grow: Growth) returns (cs: seq<Chunk>)
    requires Scans(scan) && RejectsJunk(scan) && 1 <= c && size < total <= MAX_INT
    requires size > c || !RestFits(grow, c, 0, total - size)
    ensures AllWellFormed(cs) && |Payload(cs)| == total
    ensures ReadThenRest(scan, Start(Frame(cs)), size, 0, Uniform(c), grow).error == Malformed
  {
    var n := if size > c then size + 1 else size + BreakAt(grow, c, 0, total - size);
    var k := MakeJunk(n);
    var l := MakeJunk(total - n);
    TwoChunks(k, l);
    WrongFirstChunk(scan, k, "\r\n" + Frame([l]), size, c, total - size, grow);
    cs := [k, l];
  }

  lemma WrongFirstChunk(scan: Scanner, k: Chunk, end: Bytes, size: nat, c: nat, left: nat, grow: Growth)
    requires Scans(scan) && RejectsJunk(scan) && 1 <= c && WellFormed(k) && k.data == Junk(|k.data|)
    requires "\r\n" <= end
    requires if size > c then |k.data| == size + 1
             else !RestFits(grow, c, 0, left) && |k.data| == size + BreakAt(grow, c, 0, left)
    ensures ReadThenRest(scan, Start(Header(k) + (k.data + end)), size, 0, Uniform(c), grow).error == Malformed
  {
    var p, q := Start(Header(k) + (k.data + end)), Position(k.data + end, |k.data|, true);
    assert Enter(scan, p) == Ok(q) by {
      assert "" + Header(k) + (k.data + end) == Header(k) + (k.data + end);
      EnterChunk(scan, k, k.data + end, false, "");
    }
    RestEnter(scan, p, q, size, 0, Uniform(c), grow);
    assert end == "\r\n" + end[2..];
    FirstChunkBreaks(scan, |k.data|, end[2..], size, c, left, grow);
  }

  /** Exactly when every stream of a payload length is read right that is read for a
      declared size and then to its end: the size is no less than the payload, or it and
      each later buffer that does not take all the rest fit the pieces of the source. */
  lemma DeclaredReadsExactly(size: nat, c: nat, total: nat, grow: Growth)
    requires 1 <= c && total <= MAX_INT
    ensures (forall cs :: AllWellFormed(cs) && |Payload(cs)| == total ==> ReadsRight(Fscanf, cs, size, c, grow))
            <==> total <= size || (size <= c && RestFits(grow, c, 0, total - size))
  {
    FscanfScans();
    FscanfRejectsJunk();
    if total <= size || (size <= c && RestFits(grow, c, 0, total - size)) {
      forall cs | AllWellFormed(cs) && |Payload(cs)| == total
        ensures ReadsRight(Fscanf, cs, size, c, grow)
      {
        RightReads(Fscanf, cs, size, c, grow);
      }
    } else {
      var cs := WrongReads(Fscanf, size, c, total, grow);
      assert !ReadsRight(Fscanf, cs, size, c, grow);
    }
  }

  // ---- streams as clients sign them ----

  /** A signature of 64 characters, and the data it is for. */
  datatype Signed = Signed(signature: string, data: Bytes)

  predicate IsSigned(c: Signed) {
    |c.signature| == 64 && |c.data| <= MAX_INT
  }

  function SignedStream(cs: seq<Signed>): Bytes {
    if cs == [] then []
    else
      HexText(|cs[0].data|) + ";" + ("chunk-signature=" + cs[0].signature + "\r\n") + cs[0].data + "\r\n" +
      SignedStream(cs[1..])
  }

  function AllData(cs: seq<Signed>): Bytes {
    if cs == [] then [] else cs[0].data + AllData(cs[1..])
  }

  lemma {:induction false} SignedIsFramed(cs: seq<Signed>) returns (ks: seq<Chunk>)
    requires forall i :: 0 <= i < |cs| ==> IsSigned(cs[i])
    ensures AllWellFormed(ks) && Frame(ks) == SignedStream(cs) && Payload(ks) == AllData(cs)
  {
    if cs == [] {
      ks := [];
    } else {
      var rest := SignedIsFramed(cs[1..]);
      var k := Chunk(HexText(|cs[0].data|), "chunk-signature=" + cs[0].signature + "\r\n", cs[0].data);
      HexTextValue(|cs[0].data|);
      ks := [k] + rest;
      assert ks[1..] == rest;
    }
  }

  /** A stream of signed chunks, each with its size in hexadecimal before it, decodes to
      their data, whatever the signatures. */
  lemma SignedStreamsDecode(cs: seq<Signed>)
    requires forall i :: 0 <= i < |cs| ==> IsSigned(cs[i])
    ensures Decode(Fscanf, Start(SignedStream(cs))) == Outcome(AllData(cs), EOF)
  {
    var ks := SignedIsFramed(cs);
    DecodeUndoesFraming(ks);
  }

  // ---- a stream that is read wrongly, and to no error ----

  /** Its data holds what looks like the header of an empty chunk. */
  const DECOY := Chunk("9", Junk(SIGNATURE_BYTES), "abcd??0;x")

  lemma ByteRead(scan: Scanner, c: char, rest: Bytes, remain: int, size: nat)
    requires remain > 0 && size > 0
    ensures Read(scan, Position([c] + rest, remain, true), size, Uniform(1)) ==
      After([c], Read(scan, Position(rest, remain - if remain > size then size else 1, true), size - 1, Uniform(1)))
  {
    assert ([c] + rest)[..1] == [c] && ([c] + rest)[1..] == rest;
  }

  /** The decoder asks for 4, 3, 2 and 1 bytes of the 9, and gets one each time. */
  lemma FourBytes(scan: Scanner, t: Bytes)
    ensures Read(scan, Position("abcd" + t, 9, true), 4, Uniform(1)) == Filled("abcd", Position(t, 0, true))
  {
    assert "abcd" + t == ['a'] + ("bcd" + t) && "bcd" + t == ['b'] + ("cd" + t) && "cd" + t == ['c'] + ("d" + t);
    ByteRead(scan, 'a', "bcd" + t, 9, 4);
    ByteRead(scan, 'b', "cd" + t, 5, 3);
    ByteRead(scan, 'c', "d" + t, 2, 2);
    ByteRead(scan, 'd', t, 1, 1);
  }

  /** Asked for 4 bytes and then for the rest, over a source of one byte at a time, the
      decoder delivers 4 of the 9 bytes and reports that there are no more. */
  lemma DecoyReads(scan: Scanner, grow: Growth)
    requires Scans(scan)
    ensures AllWellFormed([DECOY]) && Payload([DECOY]) == DECOY.data
    ensures ReadThenRest(scan, Start(Frame([DECOY])), 4, 0, Uniform(1), grow) == Outcome("abcd", EOF)
  {
    var t := "??0;x\r\n";
    assert Payload([DECOY]) == DECOY.data + [];
    DecoyIsWell();
    assert Frame([DECOY]) == "" + Header(DECOY) + ("abcd" + t);
    EnterChunk(scan, DECOY, "abcd" + t, false, "");
    RestEnter(scan, Start(Frame([DECOY])), Position("abcd" + t, 9, true), 4, 0, Uniform(1), grow);
    FourBytes(scan, t);
    DecoyEnds(scan, grow);
  }

  lemma DecoyIsWell()
    ensures WellFormed(DECOY) && WellFormed(Chunk("0", Junk(SIGNATURE_BYTES), ""))
  {
    assert "9"[..0] == "" && "0"[..0] == "";
  }

  lemma DecoyEnds(scan: Scanner, grow: Growth)
    requires Scans(scan)
    ensures RestOf(scan, Position("??0;x\r\n", 0, true), 0, Uniform(1), grow) == Outcome([], EOF)
  {
    DecoyIsWell();
    var t := "??0;x\r\n";
    assert t[2..] == Chunk("0", Junk(SIGNATURE_BYTES), "").sizeText + ";" + "x\r\n";
  }
}
