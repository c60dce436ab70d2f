/** What a page of a bucket listing holds, and what following its markers yields. */
module Listing {
  import opened Basics
  import opened SortedIndex
  import opened Prefixes
  import opened BucketModel

  /** What a key contributes to a listing: nothing, a common prefix, or an item. */
  datatype Kind = Skip | Roll(part: string) | Item

  // ---- a page over keys `lo..hi`, described key by key ----

  /** The code's lastMatchedPart after the keys from `lo` up to `hi`. */
  function LastPart(ks: seq<Kind>, lo: nat, hi: nat): string
    requires lo <= hi <= |ks|
  {
    if lo == hi then ""
    else if ks[hi - 1].Roll? then ks[hi - 1].part
    else LastPart(ks, lo, hi - 1)
  }

  /** Whether key `i` counts towards MaxKeys in a page that starts at `lo`. */
  predicate Counts(ks: seq<Kind>, lo: nat, i: nat)
    requires lo <= i < |ks|
  {
    ks[i].Item? || (ks[i].Roll? && ks[i].part != LastPart(ks, lo, i))
  }

  function Count(ks: seq<Kind>, lo: nat, hi: nat): nat
    requires lo <= hi <= |ks|
  {
    if lo == hi then 0 else Count(ks, lo, hi - 1) + if Counts(ks, lo, hi - 1) then 1 else 0
  }

  /** Adding a prefix to a result that keeps each once. */
  function AddPrefix(ps: seq<string>, p: string): seq<string> {
    if p in ps then ps else ps + [p]
  }

  function Parts(ks: seq<Kind>, lo: nat, hi: nat): seq<string>
    requires lo <= hi <= |ks|
  {
    if lo == hi then []
    else if ks[hi - 1].Roll? && Counts(ks, lo, hi - 1) then AddPrefix(Parts(ks, lo, hi - 1), ks[hi - 1].part)
    else Parts(ks, lo, hi - 1)
  }

  /** A page from `lo` ends at `hi`: before it MaxKeys is not reached, and it is there
      or the keys are exhausted.  No limit unless `max` is positive. */
  ghost predicate EndsAt(ks: seq<Kind>, lo: nat, hi: nat, max: int) {
    && lo <= hi <= |ks|
    && (forall h :: lo <= h < hi ==> max <= 0 || Count(ks, lo, h) < max)
    && (hi == |ks| || (max > 0 && Count(ks, lo, hi) >= max))
  }

  function PageEnd(ks: seq<Kind>, lo: nat, h: nat, max: int): (hi: nat)
    requires lo <= h <= |ks|
    ensures h <= hi <= |ks|
    ensures forall x :: h <= x < hi ==> max <= 0 || Count(ks, lo, x) < max
    ensures hi == |ks| || (max > 0 && Count(ks, lo, hi) >= max)
    decreases |ks| - h
  {
    if h == |ks| || (max > 0 && Count(ks, lo, h) >= max) then h else PageEnd(ks, lo, h + 1, max)
  }

  // ---- pages side by side ----

  ghost predicate RolledIn(ks: seq<Kind>, lo: nat, hi: nat, p: string) {
    exists i :: lo <= i < hi <= |ks| && ks[i] == Roll(p)
  }

  /** A non-empty part is the last one only if the page has it already. */
  lemma {:induction false} LastPartListed(ks: seq<Kind>, lo: nat, hi: nat)
    requires lo <= hi <= |ks|
    ensures LastPart(ks, lo, hi) == "" || LastPart(ks, lo, hi) in Parts(ks, lo, hi)
  {
    if lo < hi {
      LastPartListed(ks, lo, hi - 1);
    }
  }

  /** A page's common prefixes are the parts rolled up in it, each once; only the empty
      part may be missing. */
  lemma {:induction false} PartsAreRolled(ks: seq<Kind>, lo: nat, hi: nat, p: string)
    requires lo <= hi <= |ks|
    ensures p in Parts(ks, lo, hi) ==> RolledIn(ks, lo, hi, p)
    ensures RolledIn(ks, lo, hi, p) && p != "" ==> p in Parts(ks, lo, hi)
  {
    if lo < hi {
      PartsAreRolled(ks, lo, hi - 1, p);
      LastPartListed(ks, lo, hi - 1);
      assert RolledIn(ks, lo, hi, p) <==> RolledIn(ks, lo, hi - 1, p) || ks[hi - 1] == Roll(p);
    }
  }

  ghost predicate EachOnce(parts: seq<string>) {
    forall i, j :: 0 <= i < j < |parts| ==> parts[i] != parts[j]
  }

  lemma {:induction false} PartsDistinct(ks: seq<Kind>, lo: nat, hi: nat)
    requires lo <= hi <= |ks|
    ensures EachOnce(Parts(ks, lo, hi))
  {
    if lo < hi {
      PartsDistinct(ks, lo, hi - 1);
    }
  }

  // ---- the keys of a bucket ----

  /** How ListBucket sorts an object, by the name stored with its current version. */
  function DataKind(p: Prefix, d: Data): Kind {
    match MatchOf(p, d.name)
    case None => Skip
    case Some(m) =>
      if d.deleteMarker then Skip
      else if m.commonPrefix then Roll(m.matchedPart)
      else Item
  }

  function KindOf(p: Prefix, o: Obj): Kind {
    if o.data.None? then Skip else DataKind(p, o.data.value)
  }

  function Kinds(s: State, p: Prefix): (ks: seq<Kind>)
    ensures |ks| == |s.objects.keys|
  {
    seq(|s.objects.keys|, i requires 0 <= i < |s.objects.keys| => KindOf(p, ObjectAt(s, s.objects.keys[i])))
  }

  datatype Content = Content(key: string, size: nat, hash: Bytes)

  datatype ObjectList = ObjectList(contents: seq<Content>, commonPrefixes: seq<string>, isTruncated: bool,
                                   nextMarker: string)

  function ContentOf(d: Data): Content {
    Content(d.name, |d.body|, d.hash)
  }

  function DataAt(s: State, i: nat): Option<Data> {
    if i < |s.objects.keys| then ObjectAt(s, s.objects.keys[i]).data else None
  }

  /** The contents found at the keys from `lo` up to `hi`. */
  function Contents(s: State, ks: seq<Kind>, lo: nat, hi: nat): seq<Content>
    requires lo <= hi <= |ks|
  {
    if lo == hi then []
    else Contents(s, ks, lo, hi - 1) +
         if ks[hi - 1].Item? && DataAt(s, hi - 1).Some? then [ContentOf(DataAt(s, hi - 1).value)] else []
  }

  lemma {:induction false} ContentsJoin(s: State, ks: seq<Kind>, a: nat, b: nat, c: nat)
    requires a <= b <= c <= |ks|
    ensures Contents(s, ks, a, c) == Contents(s, ks, a, b) + Contents(s, ks, b, c)
  {
    if b < c {
      ContentsJoin(s, ks, a, b, c - 1);
    }
  }

  // ---- counting ----

  lemma {:induction false} PageFits(s: State, ks: seq<Kind>, lo: nat, hi: nat)
    requires lo <= hi <= |ks|
    ensures |Contents(s, ks, lo, hi)| + |Parts(ks, lo, hi)| <= Count(ks, lo, hi)
  {
    if lo < hi {
      PageFits(s, ks, lo, hi - 1);
    }
  }

  lemma {:induction false} CountGrowsByOne(ks: seq<Kind>, lo: nat, h: nat, hi: nat)
    requires lo <= h <= hi <= |ks|
    ensures Count(ks, lo, h) <= Count(ks, lo, hi) <= Count(ks, lo, h) + (hi - h)
  {
    if h < hi {
      CountGrowsByOne(ks, lo, h, hi - 1);
    }
  }

  /** A page never holds more than MaxKeys entries, and one that is cut counts as many. */
  lemma PageWithinLimit(s: State, ks: seq<Kind>, lo: nat, hi: nat, max: int)
    requires EndsAt(ks, lo, hi, max) && max > 0
    ensures |Contents(s, ks, lo, hi)| + |Parts(ks, lo, hi)| <= max
    ensures Count(ks, lo, hi) <= max && (hi < |ks| ==> Count(ks, lo, hi) == max)
  {
    PageFits(s, ks, lo, hi);
    if lo < hi {
      CountGrowsByOne(ks, lo, hi - 1, hi);
    }
  }

  /** The first position above a marker; "" is no marker. */
  function Above(keys: seq<string>, marker: string): (lo: nat)
    ensures lo <= |keys|
  {
    var r := Rank(keys, marker);
    if marker == "" then 0
    else if r < |keys| && keys[r] == marker then r + 1
    else r
  }

  /** The page of `max` entries from position `lo` on. */
  function PageFrom(s: State, ks: seq<Kind>, lo: nat, max: int): ObjectList
    requires lo <= |ks|
  {
    var hi := PageEnd(ks, lo, lo, max);
    var cut := max > 0 && Count(ks, lo, hi) >= max;
    ObjectList(Contents(s, ks, lo, hi), Parts(ks, lo, hi), hi < |ks|,
               if cut && hi > 0 && DataAt(s, hi - 1).Some? then DataAt(s, hi - 1).value.name else "")
  }

  /** The page of `max` entries after a marker. */
  function ListPage(s: State, p: Prefix, marker: string, max: int): ObjectList {
    PageFrom(s, Kinds(s, p), Above(s.objects.keys, marker), max)
  }

  /** The keys a page visits all have a current version: listing does not panic. */
  ghost predicate PageVisitsCurrent(s: State, p: Prefix, marker: string, max: int) {
    var (ks, lo) := (Kinds(s, p), Above(s.objects.keys, marker));
    forall i :: lo <= i < PageEnd(ks, lo, lo, max) ==> DataAt(s, i).Some?
  }
}
