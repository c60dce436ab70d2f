/** The version-id generator: a zero-padded counter followed by pseudo-random
    bytes, encoded so that ids sort in the order they were issued. */
module VersionIds {
  import opened Basics
  import opened Order
  import opened Numerals
  import opened Encodings
  import opened BlockCodec

  const COUNTER_WIDTH := 30
  const COUNTER_LIMIT := 1_000_000_000_000_000_000_000_000_000_000

  /** The id whose scratch buffer holds the counter `n` and then `tail`. */
  function VersionIdOf(n: nat, tail: Bytes): string {
    "3/" + Encode32(PaddedDecimal(COUNTER_WIDTH, n) + tail)
  }

  function Encode32(b: Bytes): string {
    assert Shaped(BASE32) by { Base32Sound(); }
    Encode(BASE32, b)
  }

  /** The splitmix64 output function, from the advanced state to eight bytes.  No
      property of the ids depends on which bytes it yields. */
  type Mixer = m: nat -> Bytes | forall z :: |m(z)| == 8 && Octets(m(z))
    witness z => "00000000"

  function Advance(state: nat): nat {
    (state + 0x9E3779B97F4A7C15) % 0x1_0000_0000_0000_0000
  }

  class VersionGenerator {
    const mix: Mixer
    var state: nat
    // the constructor's size argument is never stored, so this stays zero
    const size: nat := 0
    var next: nat

    constructor (mix: Mixer, seed: nat, size: int)
      ensures this.mix == mix && state == seed && next == 0
    {
      this.mix, state, next := mix, seed, 0;
    }

    /** Issues the next id.  The buffer passed in is reused when it is long enough;
        the byte after the counter and those beyond the random ones are never written,
        so they stay in the id. */
    method Next(scratch: array<char>) returns (id: string, used: array<char>)
      modifies this, scratch
      ensures next == old(next) + 1 && state == Advance(old(state))
      ensures var n := |PaddedDecimal(COUNTER_WIDTH, next)| + 9;
        && (if scratch.Length >= n then used == scratch else fresh(used) && used.Length == n)
        && used[..] == Fill(Base(old(scratch[..]), n), next, mix(state))
        && id == "3/" + Encode32(used[..])
    {
      next := next + 1;
      var idb := PaddedDecimal(COUNTER_WIDTH, next);
      var neat := size / 8 * 8 + 8;
      used := AtLeast(scratch, |idb| + neat + 1);
      ghost var base := used[..];
      Copy(used, 0, idb);
      FillTail(used, |idb| + 1, neat);
      FillInTwo(base, idb, mix(state), used[..]);
      id := "3/" + Encode32(used[..]);
    }

    method FillTail(buf: array<char>, b: nat, neat: nat)
      requires neat == size / 8 * 8 + 8 && b + neat <= buf.Length
      modifies `state, buf
      ensures state == Advance(old(state))
      ensures buf[..] == Overwrite(old(buf[..]), b, mix(state))
    {
      var i := 0;
      while i < neat
        invariant i == 0 || i == 8
        invariant state == if i == 0 then old(state) else Advance(old(state))
        invariant buf[..] == if i == 0 then old(buf[..]) else Overwrite(old(buf[..]), b, mix(state))
      {
        state := Advance(state);
        Copy(buf, b + i, mix(state));
        i := i + 8;
      }
    }
  }

  /** `s` with the bytes from `at` on replaced. */
  function Overwrite(s: Bytes, at: nat, b: Bytes): (t: Bytes)
    requires at + |b| <= |s|
    ensures |t| == |s|
  {
    s[..at] + b + s[at + |b|..]
  }

  /** The buffer an id is built in: the one at hand if it is long enough, else zeros. */
  function Base(scratch: Bytes, n: nat): (b: Bytes)
    ensures |b| >= n
  {
    if |scratch| >= n then scratch else seq(n, _ => 0 as char)
  }

  function Fill(base: Bytes, n: nat, tail: Bytes): Bytes
    requires |base| >= |PaddedDecimal(COUNTER_WIDTH, n)| + 1 + |tail|
  {
    var idb := PaddedDecimal(COUNTER_WIDTH, n);
    idb + [base[|idb|]] + tail + base[|idb| + 1 + |tail|..]
  }

  lemma FillInTwo(base: Bytes, idb: Bytes, tail: Bytes, s: Bytes)
    requires |base| >= |idb| + 1 + |tail| && s == Overwrite(Overwrite(base, 0, idb), |idb| + 1, tail)
    ensures s == idb + [base[|idb|]] + tail + base[|idb| + 1 + |tail|..]
  {
    var t := Overwrite(base, 0, idb);
    assert t[..|idb| + 1] == idb + [base[|idb|]];
    assert t[|idb| + 1 + |tail|..] == base[|idb| + 1 + |tail|..];
  }

  /** The buffer itself when it is long enough, else a zeroed one that is. */
  method AtLeast(scratch: array<char>, n: nat) returns (buf: array<char>)
    ensures buf[..] == Base(scratch[..], n)
    ensures if scratch.Length >= n then buf == scratch else fresh(buf)
  {
    buf := scratch;
    if buf.Length < n {
      buf := new char[n](_ => 0 as char);
    }
  }

  method Copy(buf: array<char>, at: nat, b: Bytes)
    requires at + |b| <= buf.Length
    modifies buf
    ensures buf[..] == Overwrite(old(buf[..]), at, b)
  {
    forall k | 0 <= k < |b| {
      buf[at + k] := b[k];
    }
  }

  lemma {:induction false} PowSum(base: nat, m: nat, n: nat)
    ensures Pow(base, m + n) == Pow(base, m) * Pow(base, n)
  {
    if m > 0 {
      PowSum(base, m - 1, n);
      var p, q := Pow(base, m - 1), Pow(base, n);
      assert base * (p * q) == base * p * q;
    }
  }

  lemma TenToTheThirty()
    ensures Pow(10, 30) == COUNTER_LIMIT
  {
    assert Pow(10, 10) == 10_000_000_000;
    PowSum(10, 10, 10);
    PowSum(10, 20, 10);
  }

  lemma CounterFits(n: nat)
    requires n < COUNTER_LIMIT
    ensures Fits(10, COUNTER_WIDTH, n)
  {
    TenToTheThirty();
    FitsPow(10, 30, n);
  }

  /** Ids issued before the counter outgrows its width sort in issue order, whatever
      the bytes after the counter are. */
  lemma IdsSortInIssueOrder(i: nat, j: nat, t: Bytes, u: Bytes)
    requires i < j < COUNTER_LIMIT && |t| == |u| && Octets(t) && Octets(u)
    ensures Less(VersionIdOf(i, t), VersionIdOf(j, u))
  {
    CounterFits(i);
    CounterFits(j);
    PaddedIsWrite(COUNTER_WIDTH, i);
    PaddedIsWrite(COUNTER_WIDTH, j);
    Alphabets();
    WriteOrder(DECIMAL, COUNTER_WIDTH, i, j);
    var a, b := PaddedDecimal(COUNTER_WIDTH, i), PaddedDecimal(COUNTER_WIDTH, j);
    LessAppend(a, b, t, u);
    PaddedOctets(COUNTER_WIDTH, i);
    PaddedOctets(COUNTER_WIDTH, j);
    Base32Sound();
    EncodeKeepsOrder(BASE32, a + t, b + u);
    LessAppend("3/", "3/", Encode32(a + t), Encode32(b + u));
  }

  // ---- where the order ends ----

  lemma {:induction false} PowerOfTen(k: nat)
    ensures Pow(10, k) >= 1 && Decimal(Pow(10, k))[0] == '1' && |Decimal(Pow(10, k))| == k + 1
  {
    if k > 0 {
      PowerOfTen(k - 1);
      assert Pow(10, k) / 10 == Pow(10, k - 1);
    } else {
      assert DECIMAL[1] == '1';
    }
  }

  lemma {:induction false} AllNines(k: nat)
    requires k > 0
    ensures Pow(10, k) >= 10 && Decimal(Pow(10, k) - 1)[0] == '9' && |Decimal(Pow(10, k) - 1)| == k
  {
    if k > 1 {
      AllNines(k - 1);
      assert (Pow(10, k) - 1) / 10 == Pow(10, k - 1) - 1;
    } else {
      assert Pow(10, 1) - 1 == 9 && DECIMAL[9] == '9';
    }
  }

  lemma FirstByteDecides(a: Bytes, b: Bytes)
    requires Octets(a) && Octets(b) && |a| > 5 && |b| > 5 && a[0] < b[0]
    ensures Less(Encode32(a), Encode32(b))
  {
    Base32Sound();
    Alphabets();
    BlockOrder(BASE32, a[..5], b[..5]);
    LessAppend(EncodeBlock(BASE32, a[..5]), EncodeBlock(BASE32, b[..5]), Encode32(a[5..]), Encode32(b[5..]));
  }

  lemma LimitDigits()
    ensures var (a, b) :=
      (PaddedDecimal(COUNTER_WIDTH, COUNTER_LIMIT), PaddedDecimal(COUNTER_WIDTH, COUNTER_LIMIT - 1));
      Octets(a) && Octets(b) && |a| > 5 && |b| > 5 && a[0] < b[0]
  {
    TenToTheThirty();
    PowerOfTen(30);
    AllNines(30);
    PaddedOctets(COUNTER_WIDTH, COUNTER_LIMIT);
    PaddedOctets(COUNTER_WIDTH, COUNTER_LIMIT - 1);
  }

  lemma IdsByFirstByte(a: Bytes, b: Bytes, t: Bytes, u: Bytes)
    requires Octets(a) && Octets(b) && Octets(t) && Octets(u) && |a| > 5 && |b| > 5 && a[0] < b[0]
    ensures Less("3/" + Encode32(a + t), "3/" + Encode32(b + u))
  {
    FirstByteDecides(a + t, b + u);
    LessAppend("3/", "3/", Encode32(a + t), Encode32(b + u));
  }

  /** The bound is sharp: the id numbered 10^30 is below the one issued before it. */
  lemma OrderEndsAtLimit(t: Bytes, u: Bytes)
    requires Octets(t) && Octets(u)
    ensures Less(VersionIdOf(COUNTER_LIMIT, t), VersionIdOf(COUNTER_LIMIT - 1, u))
  {
    LimitDigits();
    IdsByFirstByte(PaddedDecimal(COUNTER_WIDTH, COUNTER_LIMIT), PaddedDecimal(COUNTER_WIDTH, COUNTER_LIMIT - 1), t, u);
  }

  // ---- the ids a backend issues ----

  /** An id the generator may give under number `n`, the counter still in its width. */
  ghost predicate IsIdNumber(id: string, n: nat) {
    exists tail :: |tail| == 9 && Octets(tail) && id == VersionIdOf(n, tail)
  }

  lemma NumbersOrderIds(a: string, i: nat, b: string, j: nat)
    requires IsIdNumber(a, i) && IsIdNumber(b, j) && i < j < COUNTER_LIMIT
    ensures Less(a, b)
  {
    var t :| |t| == 9 && Octets(t) && a == VersionIdOf(i, t);
    var u :| |u| == 9 && Octets(u) && b == VersionIdOf(j, u);
    IdsSortInIssueOrder(i, j, t, u);
  }

  /** Ids numbered one after the other are an ascending sequence above "". */
  lemma IssuedIdsAscend(ids: seq<string>)
    requires |ids| < COUNTER_LIMIT && forall i :: 0 <= i < |ids| ==> IsIdNumber(ids[i], i + 1)
    ensures Ascending([""] + ids)
  {
    var all := [""] + ids;
    forall i, j | 0 <= i < j < |all|
      ensures Less(all[i], all[j])
    {
      assert all[j] == ids[j - 1];
      if i > 0 {
        assert all[i] == ids[i - 1];
        NumbersOrderIds(all[i], i, all[j], j);
      } else {
        var t :| |t| == 9 && Octets(t) && all[j] == VersionIdOf(j, t);
      }
    }
  }

  /** The version source of a backend: its generator and scratch buffer. */
  class VersionSource {
    const gen: VersionGenerator
    var scratch: array<char>

    constructor (gen: VersionGenerator)
      requires gen.next == 0
      ensures Valid() && this.gen == gen && fresh(scratch)
    {
      this.gen, scratch := gen, new char[0];
    }

    /** While the counter keeps its width the buffer keeps its size. */
    ghost predicate Valid()
      reads this, gen, scratch
    {
      Octets(scratch[..]) && (scratch.Length == 0 || gen.next >= COUNTER_LIMIT || scratch.Length == COUNTER_WIDTH + 9)
    }

    /** Backend.nextVersion: a new number, and an id for it. */
    method NextVersion() returns (id: string)
      requires Valid()
      modifies this, gen, scratch
      ensures Valid() && gen.next == old(gen.next) + 1 && (scratch == old(scratch) || fresh(scratch))
      ensures gen.next < COUNTER_LIMIT ==> IsIdNumber(id, gen.next)
    {
      ghost var s := scratch[..];
      id, scratch := gen.Next(scratch);
      FilledBuffer(s, gen.next, gen.mix(gen.state), id);
    }
  }

  lemma FilledBuffer(scratch: Bytes, n: nat, tail: Bytes, id: string)
    requires |tail| == 8 && Octets(tail) && Octets(scratch)
    requires var b := Fill(Base(scratch, |PaddedDecimal(COUNTER_WIDTH, n)| + 9), n, tail); id == "3/" + Encode32(b)
    ensures var b := Fill(Base(scratch, |PaddedDecimal(COUNTER_WIDTH, n)| + 9), n, tail);
      && Octets(b)
      && (n < COUNTER_LIMIT && |scratch| in {0, COUNTER_WIDTH + 9} ==> |b| == COUNTER_WIDTH + 9 && IsIdNumber(id, n))
  {
    PaddedOctets(COUNTER_WIDTH, n);
    var idb := PaddedDecimal(COUNTER_WIDTH, n);
    var base := Base(scratch, |idb| + 9);
    var rest := [base[|idb|]] + tail + base[|idb| + 9..];
    assert Fill(base, n, tail) == idb + rest;
    if n < COUNTER_LIMIT && |scratch| in {0, COUNTER_WIDTH + 9} {
      CounterFits(n);
      PaddedIsWrite(COUNTER_WIDTH, n);
      assert |rest| == 9 && Octets(rest) && id == VersionIdOf(n, rest);
    }
  }
}
