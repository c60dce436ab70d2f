/** Following the markers of a multipart upload listing. */
module UploadPages {
  import opened Basics
  import opened Order
  import opened SortedIndex
  import opened Prefixes
  import opened Listing
  import opened UploadIndex
  import opened UploadListing
  import opened Numerals
  import VersionListing
  import opened Joining

  /** The uploads of each key are for that key, under ids that differ. */
  ghost predicate Distinct(ss: seq<seq<Entry>>, keys: seq<string>) {
    && |ss| == |keys| && Ascending(keys)
    && (forall i, j :: 0 <= i < |ss| && 0 <= j < |ss[i]| ==> ss[i][j].key == keys[i] && ss[i][j].id != "")
    && (forall i, j, k :: 0 <= i < |ss| && 0 <= j < k < |ss[i]| ==> ss[i][j].id != ss[i][k].id)
  }

  /** The key whose uploads include the one numbered `t`. */
  lemma {:induction false} Owner(ks: seq<Kind>, ss: seq<seq<Entry>>, hi: nat, t: nat) returns (h: nat)
    requires hi <= |ks| == |ss| && t < |Flat(ks, ss, hi)|
    ensures h < hi && ks[h].Item? && |Flat(ks, ss, h)| <= t < |Flat(ks, ss, h + 1)|
    ensures Flat(ks, ss, hi)[t] == ss[h][t - |Flat(ks, ss, h)|]
  {
    if t < |Flat(ks, ss, hi - 1)| {
      h := Owner(ks, ss, hi - 1, t);
    } else {
      h := hi - 1;
    }
  }

  lemma {:induction false} IndexOfFinds(s: seq<Entry>, j: nat, i: nat)
    requires i <= j < |s| && forall k :: i <= k < j ==> s[k].id != s[j].id
    ensures IndexOf(s, s[j].id, i) == Some(j)
    decreases j - i
  {
    if i < j {
      IndexOfFinds(s, j, i + 1);
    }
  }

  function MarkerOf(e: Entry): Option<Marker> {
    Some(Marker(e.key, e.id))
  }

  /** The markers of a truncated page lead to the upload they name. */
  lemma Resumes(ks: seq<Kind>, ss: seq<seq<Entry>>, keys: seq<string>, t: nat) returns (h: nat)
    requires |ks| == |ss| && Distinct(ss, keys) && t < |Flat(ks, ss, |ks|)|
    ensures h < |ks| && ks[h].Item? && |Flat(ks, ss, h)| <= t < |Flat(ks, ss, h + 1)|
    ensures var m := MarkerOf(Flat(ks, ss, |ks|)[t]);
      && StartAt(ks, ss, keys, m) == Some(Start(h, t - |Flat(ks, ss, h)|))
      && First(ks, ss, StartAt(ks, ss, keys, m).value) == t
      && Rank(keys, m.value.key) < |keys|
  {
    h := Owner(ks, ss, |ks|, t);
    var j := t - |Flat(ks, ss, h)|;
    assert Flat(ks, ss, |ks|)[t] == ss[h][j];
    RankOfKey(keys, h);
    IndexOfFinds(ss[h], j, 0);
  }

  lemma ResumesPage(ks: seq<Kind>, ss: seq<seq<Entry>>, keys: seq<string>, t: nat, limit: int) returns (h: nat)
    requires |ks| == |ss| && Distinct(ss, keys) && t < |Flat(ks, ss, |ks|)|
    ensures h < |ks| && ks[h].Item? && |Flat(ks, ss, h)| <= t < |Flat(ks, ss, h + 1)|
    ensures Page(ks, ss, keys, MarkerOf(Flat(ks, ss, |ks|)[t]), limit) == PageAt(ks, ss, h, t, limit)
    ensures Number(ks, ss, keys, MarkerOf(Flat(ks, ss, |ks|)[t])) == t
  {
    h := Resumes(ks, ss, keys, t);
  }

  /** The number of the upload the page after a marker starts with. */
  function Number(ks: seq<Kind>, ss: seq<seq<Entry>>, keys: seq<string>, marker: Option<Marker>): nat
    requires |keys| == |ks| == |ss|
  {
    StartFits(ks, ss, keys, marker);
    var st := StartAt(ks, ss, keys, marker);
    if st.Some? then First(ks, ss, st.value) else |Flat(ks, ss, |ks|)|
  }

  // ---- walks, over any pages ----

  type Pager = Option<Marker> -> UploadList
  type Numbering = Option<Marker> -> nat

  /** The pages a client collects that follows the markers of truncated pages; `number`
      tells which upload a page starts with, out of `bound`. */
  function Walk(page: Pager, number: Numbering, bound: nat, marker: Option<Marker>): seq<UploadList>
    decreases bound - number(marker)
  {
    var pg := page(marker);
    if pg.isTruncated && pg.next.Some? && number(marker) < number(MarkerOf(pg.next.value)) <= bound
    then [pg] + Walk(page, number, bound, MarkerOf(pg.next.value))
    else [pg]
  }

  /** The uploads from number `f` on, `n` at most, and what comes next. */
  ghost predicate IsPage(pg: UploadList, all: seq<Entry>, f: nat, n: nat) {
    && f <= |all| && pg.uploads == all[f..if f + n <= |all| then f + n else |all|]
    && pg.isTruncated == (f + n < |all|)
    && pg.next == if f + n < |all| then Some(all[f + n]) else None
  }

  /** A page's marker leads to the upload it names. */
  ghost predicate Resumable(page: Pager, number: Numbering, all: seq<Entry>, n: nat) {
    forall t :: 0 <= t < |all| ==> ResumableAt(page, number, all, n, t)
  }

  ghost predicate ResumableAt(page: Pager, number: Numbering, all: seq<Entry>, n: nat, t: nat)
    requires t < |all|
  {
    IsPage(page(MarkerOf(all[t])), all, t, n) && number(MarkerOf(all[t])) == t
  }

  function AllUploads(pages: seq<UploadList>): seq<Entry> {
    if pages == [] then [] else pages[0].uploads + AllUploads(pages[1..])
  }

  function RolledUp(pg: UploadList): seq<string> {
    pg.commonPrefixes
  }

  ghost predicate SomePageRolls(pages: seq<UploadList>, q: string) {
    SomeHas(pages, RolledUp, q)
  }

  /** What pages have to give from upload `f` on: the rest of the uploads, `n` a page, at
      most `n` on the last, and only that is not truncated. */
  ghost predicate Gives(all: seq<Entry>, f: nat, n: nat, pages: seq<UploadList>) {
    && f <= |all| && AllUploads(pages) == all[f..] && pages != []
    && forall i :: 0 <= i < |pages| ==>
         |pages[i].uploads| <= n && (pages[i].isTruncated <==> i < |pages| - 1) &&
         (pages[i].isTruncated ==> |pages[i].uploads| == n)
  }

  lemma GivesMore(all: seq<Entry>, f: nat, n: nat, page: UploadList, rest: seq<UploadList>)
    requires f + n < |all| && page.uploads == all[f..f + n] && page.isTruncated && Gives(all, f + n, n, rest)
    ensures Gives(all, f, n, [page] + rest)
  {
    var pages := [page] + rest;
    assert pages[1..] == rest;
    assert all[f..f + n] + all[f + n..] == all[f..];
  }

  lemma GivesLast(all: seq<Entry>, f: nat, n: nat, page: UploadList)
    requires f <= |all| <= f + n && page.uploads == all[f..] && !page.isTruncated
    ensures Gives(all, f, n, [page])
  {
    assert [page][1..] == [];
    assert AllUploads([page]) == page.uploads + AllUploads([]);
  }

  lemma WalkStep(page: Pager, number: Numbering, all: seq<Entry>, n: nat, marker: Option<Marker>, f: nat)
    requires n > 0 && Resumable(page, number, all, n) && IsPage(page(marker), all, f, n) && number(marker) == f
    ensures Walk(page, number, |all|, marker) ==
      if f + n < |all| then [page(marker)] + Walk(page, number, |all|, MarkerOf(all[f + n])) else [page(marker)]
    ensures f + n < |all| ==> ResumableAt(page, number, all, n, f + n)
  {
    if f + n < |all| {
      assert ResumableAt(page, number, all, n, f + n);
    }
  }

  /** A walk gives every upload from its start on, once and in order. */
  lemma {:induction false} WalkGives(page: Pager, number: Numbering, all: seq<Entry>, n: nat, marker: Option<Marker>,
                                     f: nat)
    requires n > 0 && Resumable(page, number, all, n) && IsPage(page(marker), all, f, n) && number(marker) == f
    ensures Gives(all, f, n, Walk(page, number, |all|, marker))
    decreases |all| - f
  {
    WalkStep(page, number, all, n, marker, f);
    if f + n < |all| {
      var next := MarkerOf(all[f + n]);
      WalkGives(page, number, all, n, next, f + n);
      GivesMore(all, f, n, page(marker), Walk(page, number, |all|, next));
    } else {
      GivesLast(all, f, n, page(marker));
    }
  }

  // ---- common prefixes on the way ----

  /** `cs` are the counts of uploads listed before the keys a prefix is rolled up from. */
  ghost predicate RollsBetween(cs: set<nat>, lo: int, hi: int) {
    exists c :: c in cs && lo < c < hi
  }

  /** Those that a walk from upload `t` on comes across. */
  ghost predicate RollsLater(cs: set<nat>, t: int, n: nat)
    requires n > 0
  {
    exists c :: c in cs && t < c && (c - t) % n != 0
  }

  ghost predicate PagesRoll(page: Pager, all: seq<Entry>, n: nat, q: string, cs: set<nat>) {
    && (forall c :: c in cs ==> c <= |all|)
    && (forall t :: 0 <= t < |all| ==> PageRolls(page, all, n, q, cs, t))
  }

  ghost predicate PageRolls(page: Pager, all: seq<Entry>, n: nat, q: string, cs: set<nat>, t: nat)
    requires t < |all|
  {
    q in page(MarkerOf(all[t])).commonPrefixes <==> RollsBetween(cs, t, t + n)
  }

  lemma RemainderStep(d: nat, n: nat)
    requires 0 < n <= d
    ensures (d - n) % n == d % n
  {
    var k, r := d / n - 1, d % n;
    assert d == n * (k + 1) + r;
    assert n * (k + 1) == k * n + n;
    QuotientRemainder(n, k, r);
  }

  lemma ModStep(c: nat, t: int, n: nat)
    requires n > 0 && t < c
    ensures (c - t) % n != 0 <==> c < t + n || (c > t + n && (c - (t + n)) % n != 0)
  {
    if c - t >= n {
      RemainderStep(c - t, n);
    }
  }

  lemma RollsSplit(cs: set<nat>, t: int, n: nat)
    requires n > 0
    ensures RollsLater(cs, t, n) <==> RollsBetween(cs, t, t + n) || RollsLater(cs, t + n, n)
  {
    forall c | c in cs && t < c
      ensures (c - t) % n != 0 <==> c < t + n || (c > t + n && (c - (t + n)) % n != 0)
    {
      ModStep(c, t, n);
    }
  }

  /** Those of a page that counts between `lo` and `t`, and of the pages after it. */
  ghost predicate RollsFrom(cs: set<nat>, lo: int, t: int, n: nat)
    requires n > 0
  {
    RollsBetween(cs, lo, t) || RollsLater(cs, t, n)
  }

  lemma RollsJoin(pg: UploadList, rest: seq<UploadList>, q: string, cs: set<nat>, lo: int, t: int, n: nat)
    requires n > 0 && (q in pg.commonPrefixes <==> RollsBetween(cs, lo, t))
    requires SomePageRolls(rest, q) <==> RollsFrom(cs, t, t + n, n)
    ensures SomePageRolls([pg] + rest, q) <==> RollsFrom(cs, lo, t, n)
  {
    RollsSplit(cs, t, n);
    SomeHasFirst(pg, rest, RolledUp, q);
  }

  /** Pages of which each has `q` where it is rolled up on the page, the first from `lo`
      to `t`, the others of `n` uploads. */
  ghost predicate RollsAlong(w: seq<UploadList>, q: string, cs: set<nat>, lo: int, t: int, n: nat)
    decreases |w|
  {
    && w != [] && (q in w[0].commonPrefixes <==> RollsBetween(cs, lo, t))
    && if |w| == 1 then forall c :: c in cs ==> c <= t else RollsAlong(w[1..], q, cs, t, t + n, n)
  }

  lemma {:induction false} AlongRolls(w: seq<UploadList>, q: string, cs: set<nat>, lo: int, t: int, n: nat)
    requires n > 0 && RollsAlong(w, q, cs, lo, t, n)
    ensures SomePageRolls(w, q) <==> RollsFrom(cs, lo, t, n)
    decreases |w|
  {
    assert w == [w[0]] + w[1..];
    if |w| == 1 {
      SomeHasOne(w[0], RolledUp, q);
    } else {
      AlongRolls(w[1..], q, cs, t, t + n, n);
      RollsJoin(w[0], w[1..], q, cs, lo, t, n);
    }
  }

  lemma {:induction false} WalkRollsAlong(page: Pager, number: Numbering, all: seq<Entry>, n: nat,
                                          marker: Option<Marker>, f: nat, q: string, cs: set<nat>, lo: int)
    requires n > 0 && Resumable(page, number, all, n) && IsPage(page(marker), all, f, n) && number(marker) == f
    requires PagesRoll(page, all, n, q, cs) && (q in page(marker).commonPrefixes <==> RollsBetween(cs, lo, f + n))
    ensures RollsAlong(Walk(page, number, |all|, marker), q, cs, lo, f + n, n)
    decreases |all| - f
  {
    WalkStep(page, number, all, n, marker, f);
    if f + n < |all| {
      var next := MarkerOf(all[f + n]);
      assert PageRolls(page, all, n, q, cs, f + n);
      WalkRollsAlong(page, number, all, n, next, f + n, q, cs, f + n);
      AlongMore(page(marker), Walk(page, number, |all|, next), q, cs, lo, f + n, n);
    }
  }

  lemma AlongMore(pg: UploadList, rest: seq<UploadList>, q: string, cs: set<nat>, lo: int, t: int, n: nat)
    requires (q in pg.commonPrefixes <==> RollsBetween(cs, lo, t)) && RollsAlong(rest, q, cs, t, t + n, n)
    ensures RollsAlong([pg] + rest, q, cs, lo, t, n)
  {
    assert ([pg] + rest)[1..] == rest;
  }

  // ---- the pages of a multipart upload listing ----

  function PageOf(ks: seq<Kind>, ss: seq<seq<Entry>>, keys: seq<string>, limit: int): Pager
    requires |keys| == |ks| == |ss|
  {
    m => Page(ks, ss, keys, m, limit)
  }

  function NumberOf(ks: seq<Kind>, ss: seq<seq<Entry>>, keys: seq<string>): Numbering
    requires |keys| == |ks| == |ss|
  {
    m => Number(ks, ss, keys, m)
  }

  /** Numbers of uploads listed before the keys a prefix is rolled up from. */
  function Counts(ks: seq<Kind>, ss: seq<seq<Entry>>, q: string): set<nat>
    requires |ks| == |ss|
  {
    set r | 0 <= r < |ks| && ks[r] == Roll(q) :: |Flat(ks, ss, r)|
  }

  lemma {:induction false} RolledBetweenIs(ks: seq<Kind>, lo: nat, hi: nat, q: string)
    requires lo <= hi <= |ks|
    ensures q in RolledBetween(ks, lo, hi) <==> exists r :: lo <= r < hi && ks[r] == Roll(q)
  {
    if lo < hi {
      RolledBetweenIs(ks, lo, hi - 1, q);
      if ks[hi - 1] == Roll(q) { assert lo <= hi - 1 < hi; }
    }
  }

  lemma {:induction false} ReachIs(ks: seq<Kind>, ss: seq<seq<Entry>>, h: nat, t: nat, r: nat)
    requires h <= r < |ks| == |ss|
    ensures r < Reach(ks, ss, h, t) <==> |Flat(ks, ss, r)| < t
    decreases r - h
  {
    FlatGrows(ks, ss, h, r);
    if h < r && |Flat(ks, ss, h)| < t {
      ReachIs(ks, ss, h + 1, t, r);
    }
  }

  /** Which keys a page visits that starts with upload `t`, at key `h`, and ends before `e`. */
  lemma OnPage(ks: seq<Kind>, ss: seq<seq<Entry>>, h: nat, t: nat, e: nat, r: nat)
    requires h < |ks| == |ss| && r < |ks| && r != h && |Flat(ks, ss, h)| <= t < |Flat(ks, ss, h + 1)|
    ensures h <= r < Reach(ks, ss, h, e) <==> t < |Flat(ks, ss, r)| < e
  {
    if r < h {
      FlatGrows(ks, ss, r, h);
    } else {
      FlatGrows(ks, ss, h + 1, r);
      ReachIs(ks, ss, h, e, r);
    }
  }

  /** The prefixes of a page that starts with upload `t`, at key `h`. */
  lemma PagePrefixes(ks: seq<Kind>, ss: seq<seq<Entry>>, h: nat, t: nat, limit: int, q: string)
    requires h < |ks| == |ss| && ks[h].Item? && |Flat(ks, ss, h)| <= t < |Flat(ks, ss, h + 1)| &&
      t <= |Flat(ks, ss, |ks|)|
    ensures q in PageAt(ks, ss, h, t, limit).commonPrefixes <==>
      RollsBetween(Counts(ks, ss, q), t, t + AtLeastOne(limit))
  {
    var e := t + AtLeastOne(limit);
    RolledBetweenIs(ks, h, Reach(ks, ss, h, e), q);
    forall r | 0 <= r < |ks| && ks[r] == Roll(q)
      ensures h <= r < Reach(ks, ss, h, e) <==> t < |Flat(ks, ss, r)| < e
    {
      OnPage(ks, ss, h, t, e, r);
    }
    CountsHave(ks, ss, q, h, Reach(ks, ss, h, e), t, e);
  }

  lemma CountsHave(ks: seq<Kind>, ss: seq<seq<Entry>>, q: string, lo: nat, hi: nat, t: int, e: nat)
    requires |ks| == |ss| && hi <= |ks|
    requires forall r :: 0 <= r < |ks| && ks[r] == Roll(q) ==> (lo <= r < hi <==> t < |Flat(ks, ss, r)| < e)
    ensures (exists r :: lo <= r < hi && ks[r] == Roll(q)) <==> RollsBetween(Counts(ks, ss, q), t, e)
  {
    if r :| lo <= r < hi && ks[r] == Roll(q) {
      assert |Flat(ks, ss, r)| in Counts(ks, ss, q);
    }
    if RollsBetween(Counts(ks, ss, q), t, e) {
      var c :| c in Counts(ks, ss, q) && t < c < e;
      var r :| 0 <= r < |ks| && ks[r] == Roll(q) && |Flat(ks, ss, r)| == c;
      assert lo <= r < hi;
    }
  }

  lemma FirstPrefixes(ks: seq<Kind>, ss: seq<seq<Entry>>, limit: int, q: string)
    requires |ks| == |ss|
    ensures q in PageAt(ks, ss, 0, 0, limit).commonPrefixes <==> RollsBetween(Counts(ks, ss, q), -1, AtLeastOne(limit))
  {
    var e := AtLeastOne(limit);
    RolledBetweenIs(ks, 0, Reach(ks, ss, 0, e), q);
    forall r | 0 <= r < |ks| && ks[r] == Roll(q)
      ensures 0 <= r < Reach(ks, ss, 0, e) <==> -1 < |Flat(ks, ss, r)| < e
    {
      ReachIs(ks, ss, 0, e, r);
    }
    CountsHave(ks, ss, q, 0, Reach(ks, ss, 0, e), -1, e);
  }

  lemma PagesResume(ks: seq<Kind>, ss: seq<seq<Entry>>, keys: seq<string>, limit: int)
    requires |ks| == |ss| && Distinct(ss, keys)
    ensures Resumable(PageOf(ks, ss, keys, limit), NumberOf(ks, ss, keys), Flat(ks, ss, |ks|), AtLeastOne(limit))
  {
    var all := Flat(ks, ss, |ks|);
    forall t | 0 <= t < |all|
      ensures ResumableAt(PageOf(ks, ss, keys, limit), NumberOf(ks, ss, keys), all, AtLeastOne(limit), t)
    {
      var h := ResumesPage(ks, ss, keys, t, limit);
    }
  }

  lemma PagesRollAll(ks: seq<Kind>, ss: seq<seq<Entry>>, keys: seq<string>, limit: int, q: string)
    requires |ks| == |ss| && Distinct(ss, keys)
    ensures PagesRoll(PageOf(ks, ss, keys, limit), Flat(ks, ss, |ks|), AtLeastOne(limit), q, Counts(ks, ss, q))
  {
    var all, cs := Flat(ks, ss, |ks|), Counts(ks, ss, q);
    forall c | c in cs
      ensures c <= |all|
    {
      var r :| 0 <= r < |ks| && ks[r] == Roll(q) && |Flat(ks, ss, r)| == c;
      FlatGrows(ks, ss, r, |ks|);
    }
    forall t | 0 <= t < |all|
      ensures PageRolls(PageOf(ks, ss, keys, limit), all, AtLeastOne(limit), q, cs, t)
    {
      var h := ResumesPage(ks, ss, keys, t, limit);
      PagePrefixes(ks, ss, h, t, limit, q);
    }
  }

  // ---- the theorems ----

  function AllListed(x: Uploads, p: Prefix): seq<Entry> {
    Flat(UploadKinds(x, p), AllEntries(x), |x.index.keys|)
  }

  /** The pages of a client that starts without a marker. */
  function PagesOf(x: Uploads, p: Prefix, limit: int): seq<UploadList> {
    var (ks, ss, keys) := (UploadKinds(x, p), AllEntries(x), x.index.keys);
    Walk(PageOf(ks, ss, keys, limit), NumberOf(ks, ss, keys), |AllListed(x, p)|, None)
  }

  lemma AgreeDistinct(x: Uploads, bucket: string, last: nat)
    requires Agree(x, bucket, last)
    ensures Distinct(AllEntries(x), x.index.keys)
  {
    var ss, keys := AllEntries(x), x.index.keys;
    forall i | 0 <= i < |ss|
      ensures KeyDistinct(ss[i], keys[i])
    {
      KeyEntriesDistinct(x, bucket, last, i);
    }
    assert forall i, j :: 0 <= i < |ss| && 0 <= j < |ss[i]| ==>
      KeyDistinct(ss[i], keys[i]) && ss[i][j].key == keys[i] && ss[i][j].id != "";
    assert forall i, j, k :: 0 <= i < |ss| && 0 <= j < k < |ss[i]| ==>
      KeyDistinct(ss[i], keys[i]) && ss[i][j].id != ss[i][k].id;
  }

  /** One key's entries: for that key, under ids that differ, by order of creation. */
  ghost predicate KeyDistinct(es: seq<Entry>, key: string) {
    && (forall j :: 0 <= j < |es| ==> es[j].key == key && es[j].id != "")
    && (forall j, k :: 0 <= j < k < |es| ==> es[j].id != es[k].id && es[j].number < es[k].number)
  }

  lemma KeyEntriesDistinct(x: Uploads, bucket: string, last: nat, i: nat)
    requires Agree(x, bucket, last) && i < |x.index.keys|
    ensures KeyDistinct(AllEntries(x)[i], x.index.keys[i]) && AllEntries(x)[i] != []
  {
    var k := x.index.keys[i];
    assert k in x.index.keys;
    var s := SliceAt(x, k);
    forall j | 0 <= j < |s|
      ensures s[j].id != ""
    {
      assert SliceOK(x.byId, k, s);
      assert UploadOK(x, bucket, last, s[j].id);
    }
    SliceDistinct(x.byId, k, s);
  }

  lemma AgreeNoneEmpty(x: Uploads, bucket: string, last: nat)
    requires Agree(x, bucket, last)
    ensures Sorted(x.index) && forall i :: 0 <= i < |AllEntries(x)| ==> AllEntries(x)[i] != []
  {
    forall i | 0 <= i < |AllEntries(x)|
      ensures AllEntries(x)[i] != []
    {
      KeyEntriesDistinct(x, bucket, last, i);
    }
  }

  lemma SliceDistinct(byId: map<string, MultipartUpload>, k: string, s: seq<MultipartUpload>)
    requires SliceOK(byId, k, s) && forall j :: 0 <= j < |s| ==> s[j].id != ""
    ensures KeyDistinct(KeyEntries(k, s), k)
  {
    forall j, l | 0 <= j < l < |s|
      ensures s[j].id != s[l].id
    {
      OneOfAnId(byId, k, s, l, j);
    }
  }

  /** Following the markers, for any limit, returns each listed upload exactly once and in
      order, at most the limit (but at least one) a page; a page is not truncated exactly
      when none remain. */
  lemma PagesGiveEachUploadOnce(x: Uploads, bucket: string, last: nat, p: Prefix, limit: int)
    requires Agree(x, bucket, last)
    ensures Gives(AllListed(x, p), 0, if limit < 1 then 1 else limit, PagesOf(x, p, limit))
  {
    var ks, ss, keys := UploadKinds(x, p), AllEntries(x), x.index.keys;
    AgreeDistinct(x, bucket, last);
    PagesResume(ks, ss, keys, limit);
    FirstPage(ks, ss, keys, limit);
    WalkGives(PageOf(ks, ss, keys, limit), NumberOf(ks, ss, keys), AllListed(x, p), AtLeastOne(limit), None, 0);
  }

  lemma FirstPage(ks: seq<Kind>, ss: seq<seq<Entry>>, keys: seq<string>, limit: int)
    requires |keys| == |ks| == |ss|
    ensures PageOf(ks, ss, keys, limit)(None) == PageAt(ks, ss, 0, 0, limit)
    ensures IsPage(PageOf(ks, ss, keys, limit)(None), Flat(ks, ss, |ks|), 0, AtLeastOne(limit)) &&
      NumberOf(ks, ss, keys)(None) == 0
  {
  }

  /** Which common prefixes those pages have: exactly those of some key before which no
      upload is listed, or a number of them that is no multiple of the limit.  The others
      follow the end of a page and are passed over. */
  lemma PagesGivePrefixesExactly(x: Uploads, bucket: string, last: nat, p: Prefix, limit: int, q: string)
    requires Agree(x, bucket, last)
    ensures var (cs, n) := (Counts(UploadKinds(x, p), AllEntries(x), q), if limit < 1 then 1 else limit);
      SomePageRolls(PagesOf(x, p, limit), q) <==> exists c :: c in cs && (c == 0 || c % n != 0)
  {
    var ks, ss, keys := UploadKinds(x, p), AllEntries(x), x.index.keys;
    var cs, n := Counts(ks, ss, q), AtLeastOne(limit);
    AgreeDistinct(x, bucket, last);
    PagesResume(ks, ss, keys, limit);
    FirstPage(ks, ss, keys, limit);
    FirstPrefixes(ks, ss, limit, q);
    PagesRollAll(ks, ss, keys, limit, q);
    WalkRollsAlong(PageOf(ks, ss, keys, limit), NumberOf(ks, ss, keys), AllListed(x, p), n, None, 0, q, cs, -1);
    AlongRolls(PagesOf(x, p, limit), q, cs, -1, n, n);
    RollsFromStart(cs, n);
  }

  lemma RollsFromStart(cs: set<nat>, n: nat)
    requires n > 0
    ensures RollsBetween(cs, -1, n) || RollsLater(cs, n, n) <==> exists c :: c in cs && (c == 0 || c % n != 0)
  {
    forall c | c in cs
      ensures (-1 < c < n) || (n < c && (c - n) % n != 0) <==> c == 0 || c % n != 0
    {
      if c > 0 { ModStep(c, 0, n); }
    }
  }

  /** The first listing of an upload as a value. */
  function EntryOf(u: MultipartUpload): Entry {
    Entry(u.key, u.id, u.number)
  }

  /** By key, and for one key by order of creation. */
  predicate Precedes(d: Entry, e: Entry) {
    Less(d.key, e.key) || (d.key == e.key && d.number < e.number)
  }

  ghost predicate InUploadOrder(es: seq<Entry>) {
    OrderedBy(es, Precedes)
  }

  function KeyOf(e: Entry): string {
    e.key
  }

  lemma EntryPlace(x: Uploads, bucket: string, last: nat, u: MultipartUpload) returns (i: nat, j: nat)
    requires Agree(x, bucket, last) && u.id in x.byId && x.byId[u.id] == u
    ensures i < |x.index.keys| && x.index.keys[i] == u.key && j < |AllEntries(x)[i]| &&
      AllEntries(x)[i][j] == EntryOf(u)
  {
    assert UploadOK(x, bucket, last, u.id);
    i :| 0 <= i < |x.index.keys| && x.index.keys[i] == u.key;
    j :| 0 <= j < |SliceAt(x, u.key)| && SliceAt(x, u.key)[j] == u;
  }

  lemma ListedKeyIsItem(ks: seq<Kind>, ss: seq<seq<Entry>>, keys: seq<string>, e: Entry, i: nat)
    requires |ks| == |ss| && Distinct(ss, keys) && e in Flat(ks, ss, |ks|) && i < |keys| && keys[i] == e.key
    ensures ks[i].Item?
  {
    var t :| 0 <= t < |Flat(ks, ss, |ks|)| && Flat(ks, ss, |ks|)[t] == e;
    var h := Owner(ks, ss, |ks|, t);
    AscendingDistinct(keys, h, i);
  }

  lemma OnlyLiveAreListed(x: Uploads, bucket: string, last: nat, p: Prefix, e: Entry)
    requires Agree(x, bucket, last) && e in AllListed(x, p)
    ensures e.id in x.byId && e == EntryOf(x.byId[e.id]) && MatchesAsKey(p, e.key)
  {
    VersionListing.KindIs(p, e.key);
    var ks, ss, keys := UploadKinds(x, p), AllEntries(x), x.index.keys;
    var t :| 0 <= t < |AllListed(x, p)| && AllListed(x, p)[t] == e;
    var h := Owner(ks, ss, |ks|, t);
    SliceIsLive(x, bucket, last, keys[h], t - |Flat(ks, ss, h)|);
  }

  lemma SliceIsLive(x: Uploads, bucket: string, last: nat, key: string, j: nat)
    requires Agree(x, bucket, last) && key in x.index.keys && j < |SliceAt(x, key)|
    ensures var e := KeyEntries(key, SliceAt(x, key))[j]; e.key == key && e.id in x.byId && e == EntryOf(x.byId[e.id])
  {
    assert SliceOK(x.byId, key, SliceAt(x, key));
  }

  lemma LiveIsListed(x: Uploads, bucket: string, last: nat, p: Prefix, u: MultipartUpload)
    requires Agree(x, bucket, last) && u.id in x.byId && x.byId[u.id] == u
    ensures EntryOf(u) in AllListed(x, p) <==> MatchesAsKey(p, u.key)
  {
    VersionListing.KindIs(p, u.key);
    var ks, ss, keys := UploadKinds(x, p), AllEntries(x), x.index.keys;
    var i, j := EntryPlace(x, bucket, last, u);
    if ks[i].Item? {
      FlatHas(ks, ss, |ks|, i, j);
    }
    if EntryOf(u) in AllListed(x, p) {
      AgreeDistinct(x, bucket, last);
      ListedKeyIsItem(ks, ss, keys, EntryOf(u), i);
    }
  }

  /** What is listed: exactly the live uploads whose key matches and is not rolled up. */
  lemma ListedAreLive(x: Uploads, bucket: string, last: nat, p: Prefix, e: Entry)
    requires Agree(x, bucket, last)
    ensures e in AllListed(x, p) <==>
      e.id in x.byId && x.byId[e.id].key == e.key && x.byId[e.id].number == e.number && MatchesAsKey(p, e.key)
  {
    if e in AllListed(x, p) {
      OnlyLiveAreListed(x, bucket, last, p, e);
    } else if e.id in x.byId {
      LiveId(x, bucket, last, e.id);
      LiveIsListed(x, bucket, last, p, x.byId[e.id]);
    }
  }

  lemma LiveId(x: Uploads, bucket: string, last: nat, id: string)
    requires Agree(x, bucket, last) && id in x.byId
    ensures x.byId[id].id == id
  {
    assert UploadOK(x, bucket, last, id);
  }

  lemma {:induction false} FlatHas(ks: seq<Kind>, ss: seq<seq<Entry>>, hi: nat, i: nat, j: nat)
    requires i < hi <= |ks| == |ss| && ks[i].Item? && j < |ss[i]|
    ensures ss[i][j] in Flat(ks, ss, hi)
  {
    if i < hi - 1 {
      FlatHas(ks, ss, hi - 1, i, j);
    }
  }

  lemma ListedInOrder(x: Uploads, bucket: string, last: nat, p: Prefix)
    requires Agree(x, bucket, last)
    ensures InUploadOrder(AllListed(x, p))
  {
    var ks, ss, keys := UploadKinds(x, p), AllEntries(x), x.index.keys;
    forall i | 0 <= i < |ss|
      ensures KeyDistinct(ss[i], keys[i])
    {
      KeyEntriesDistinct(x, bucket, last, i);
    }
    FlatInOrder(ks, ss, keys, |ks|);
  }

  lemma {:induction false} FlatInOrder(ks: seq<Kind>, ss: seq<seq<Entry>>, keys: seq<string>, hi: nat)
    requires hi <= |ks| == |ss| == |keys| && Ascending(keys) &&
      forall i :: 0 <= i < |ss| ==> KeyDistinct(ss[i], keys[i])
    ensures InUploadOrder(Flat(ks, ss, hi)) && KeysBelow(Flat(ks, ss, hi), KeyOf, keys, hi)
  {
    if hi > 0 {
      FlatInOrder(ks, ss, keys, hi - 1);
      UploadsJoin(Flat(ks, ss, hi - 1), SliceOf(ks, ss, hi - 1), keys, hi - 1);
    }
  }

  lemma UploadsJoin(front: seq<Entry>, back: seq<Entry>, keys: seq<string>, hi: nat)
    requires Ascending(keys) && hi < |keys| && KeysBelow(front, KeyOf, keys, hi) && KeyDistinct(back, keys[hi])
    requires InUploadOrder(front)
    ensures InUploadOrder(front + back) && KeysBelow(front + back, KeyOf, keys, hi + 1)
  {
    SliceInOrder(back, keys[hi]);
    OrderJoins(front, back, Precedes, KeyOf, keys, hi);
  }

  lemma SliceInOrder(es: seq<Entry>, key: string)
    requires KeyDistinct(es, key)
    ensures OrderedBy(es, Precedes) && AllFor(es, KeyOf, key) && KeysDecide(Precedes, KeyOf)
  {
  }
}
