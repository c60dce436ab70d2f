/** What a marker of a multipart upload listing means, and when the page after it is right. */
module UploadMarkers {
  import opened Basics
  import opened Order
  import opened SortedIndex
  import opened Encodings
  import opened Prefixes
  import opened Listing
  import opened VersionListing
  import opened UploadIndex
  import opened UploadListing
  import opened UploadPages

  /** What a marker passes over: the uploads of lower keys and, of its own key, those
      created before the upload it names, or all of them if it names none. */
  ghost predicate PassedOver(e: Entry, m: Marker) {
    Less(e.key, m.key) || (e.key == m.key && (m.uploadID == "" || !CreatedSince(e, m.uploadID)))
  }

  ghost predicate CreatedSince(e: Entry, id: string) {
    exists n: nat :: id == Decimal(n) && n <= e.number
  }

  /** The page is that of all uploads listed which the marker does not pass over. */
  ghost predicate RightPage(x: Uploads, p: Prefix, m: Marker, limit: int) {
    exists f :: 0 <= f && CutBy(AllListed(x, p), Passing(m), f)
      && IsPage(UploadListing.ListUploads(x, Some(m), p, limit), AllListed(x, p), f, if limit < 1 then 1 else limit)
  }

  /** Where the marker is above every key, it is right only if nothing is listed; where it
      names no upload, if none of its key is listed; where it names an upload that can be
      found, if all listed before that one are passed over; where it names one that cannot,
      if all are. */
  ghost predicate MarkerHolds(x: Uploads, p: Prefix, m: Marker) {
    var all := AllListed(x, p);
    if AllBelow(x, m.key) then all == []
    else if m.uploadID == "" then !(m.key in x.index.at && MatchesAsKey(p, m.key))
    else if Findable(x, p, m) then forall e :: e in all && Precedes(e, EntryOf(x.byId[m.uploadID])) ==> PassedOver(e, m)
    else forall e :: e in all ==> PassedOver(e, m)
  }

  ghost predicate AllBelow(x: Uploads, key: string) {
    forall k :: k in x.index.keys ==> Less(k, key)
  }

  /** An upload in progress whose key matches and does not lie below the marker's. */
  predicate Findable(x: Uploads, p: Prefix, m: Marker) {
    m.uploadID in x.byId && !Less(x.byId[m.uploadID].key, m.key) && MatchOf(p, x.byId[m.uploadID].key).Some?
  }

  // ---- cuts ----

  ghost function Passing(m: Marker): Entry -> bool {
    e => PassedOver(e, m)
  }

  ghost function Preceding(u: Entry): Entry -> bool {
    e => Precedes(e, u)
  }

  ghost function Below(key: string): Entry -> bool {
    (e: Entry) => Less(e.key, key)
  }

  /** The first `f` entries and no others satisfy `q`. */
  ghost predicate CutBy(all: seq<Entry>, q: Entry -> bool, f: nat) {
    f <= |all| && forall i :: 0 <= i < |all| ==> (i < f <==> q(all[i]))
  }

  /** The cut is at the same place if the entries of the one are those of the other. */
  lemma CutsAgree(all: seq<Entry>, q: Entry -> bool, r: Entry -> bool, f: nat, g: nat)
    requires CutBy(all, q, f) && CutBy(all, r, g) && forall e :: e in all && q(e) ==> r(e)
    ensures f == g <==> forall e :: e in all && r(e) ==> q(e)
  {
    if f != g {
      assert all[if f < g then f else g] in all;
    }
    forall e | e in all && r(e)
      ensures f == g ==> q(e)
    {
    }
  }

  lemma PassedBefore(d: Entry, e: Entry, m: Marker)
    requires Precedes(d, e) && PassedOver(e, m)
    ensures PassedOver(d, m)
  {
    if Less(d.key, e.key) && Less(e.key, m.key) {
      LessTransitive(d.key, e.key, m.key);
    }
  }

  /** A marker cuts the listing in two. */
  lemma {:induction false} MarkerCuts(all: seq<Entry>, m: Marker) returns (f: nat)
    requires InUploadOrder(all)
    ensures CutBy(all, Passing(m), f)
    decreases |all|
  {
    if all == [] {
      f := 0;
    } else {
      var k := |all| - 1;
      f := MarkerCuts(all[..k], m);
      if PassedOver(all[k], m) {
        forall i | 0 <= i < k
          ensures PassedOver(all[i], m)
        {
          PassedBefore(all[i], all[k], m);
        }
        f := |all|;
      }
    }
  }

  /** Of a listing in order, a page is the page from one place only. */
  lemma OnePlace(all: seq<Entry>, pg: UploadList, f: nat, g: nat, n: nat)
    requires InUploadOrder(all) && n > 0 && IsPage(pg, all, g, n)
    ensures IsPage(pg, all, f, n) <==> f == g
  {
    if IsPage(pg, all, f, n) && f != g {
      var (lo, hi) := if f < g then (f, g) else (g, f);
      if hi < |all| {
        assert all[lo..if lo + n <= |all| then lo + n else |all|][0] ==
          all[hi..if hi + n <= |all| then hi + n else |all|][0];
        assert Precedes(all[lo], all[hi]);
        LessIrreflexive(all[lo].key);
      }
    }
  }

  // ---- where the listing looks ----

  /** The key whose uploads include the one numbered `t`, and that it is for that key. */
  lemma OwnerKey(ks: seq<Kind>, ss: seq<seq<Entry>>, keys: seq<string>, t: nat) returns (h: nat)
    requires |ks| == |ss| && Distinct(ss, keys) && t < |Flat(ks, ss, |ks|)|
    ensures h < |ks| && ks[h].Item? && |Flat(ks, ss, h)| <= t < |Flat(ks, ss, h + 1)|
    ensures Flat(ks, ss, |ks|)[t] == ss[h][t - |Flat(ks, ss, h)|] && Flat(ks, ss, |ks|)[t].key == keys[h]
  {
    h := Owner(ks, ss, |ks|, t);
    assert ss[h][t - |Flat(ks, ss, h)|].key == keys[h];
  }

  lemma RankCutsAt(ks: seq<Kind>, ss: seq<seq<Entry>>, keys: seq<string>, k: string, h: nat, t: nat)
    requires |ks| == |ss| == |keys| && Ascending(keys) && h < |ks| && |Flat(ks, ss, h)| <= t < |Flat(ks, ss, h + 1)|
    ensures t < |Flat(ks, ss, Rank(keys, k))| <==> Less(keys[h], k)
  {
    RankSplits(keys, k, h);
    if h < Rank(keys, k) {
      FlatGrows(ks, ss, h + 1, Rank(keys, k));
    } else {
      FlatGrows(ks, ss, Rank(keys, k), h);
    }
  }

  /** Before the key of some rank, those of lower keys are listed. */
  lemma RankCuts(ks: seq<Kind>, ss: seq<seq<Entry>>, keys: seq<string>, k: string)
    requires |ks| == |ss| && Distinct(ss, keys)
    ensures CutBy(Flat(ks, ss, |ks|), Below(k), |Flat(ks, ss, Rank(keys, k))|)
  {
    FlatGrows(ks, ss, Rank(keys, k), |ks|);
    forall i | 0 <= i < |Flat(ks, ss, |ks|)|
      ensures i < |Flat(ks, ss, Rank(keys, k))| <==> Less(Flat(ks, ss, |ks|)[i].key, k)
    {
      var h := OwnerKey(ks, ss, keys, i);
      RankCutsAt(ks, ss, keys, k, h, i);
    }
  }

  lemma PlaceCutsAt(ks: seq<Kind>, ss: seq<seq<Entry>>, keys: seq<string>, i: nat, j: nat, h: nat, t: nat)
    requires |ks| == |ss| == |keys| && Ascending(keys) && i < |ks| && j < |ss[i]| && KeyDistinct(ss[i], keys[i]) &&
      ss[i][j].key == keys[i]
    requires h < |ks| && ks[h].Item? && |Flat(ks, ss, h)| <= t < |Flat(ks, ss, h + 1)| &&
      ss[h][t - |Flat(ks, ss, h)|].key == keys[h]
    ensures t < First(ks, ss, Start(i, j)) <==> Precedes(ss[h][t - |Flat(ks, ss, h)|], ss[i][j])
  {
    if h < i {
      FlatGrows(ks, ss, h + 1, i);
    } else if h > i {
      FlatGrows(ks, ss, i + 1, h);
      LessAsymmetric(keys[i], keys[h]);
    } else {
      InSlice(ss[i], keys[i], t - |Flat(ks, ss, i)|, j);
    }
  }

  /** Before an upload, or where it would be if its key were listed, those are listed that
      precede it. */
  lemma PlaceCuts(ks: seq<Kind>, ss: seq<seq<Entry>>, keys: seq<string>, i: nat, j: nat)
    requires |ks| == |ss| && Distinct(ss, keys) && i < |ks| && j < |ss[i]| && KeyDistinct(ss[i], keys[i])
    ensures CutBy(Flat(ks, ss, |ks|), Preceding(ss[i][j]), First(ks, ss, Start(i, j)))
  {
    var all, f := Flat(ks, ss, |ks|), First(ks, ss, Start(i, j));
    assert f <= |all| by {
      FlatGrows(ks, ss, i, |ks|);
      FlatGrows(ks, ss, i + 1, |ks|);
    }
    forall t: nat | t < |all|
      ensures CutAt(all, ss[i][j], f, t)
    {
      PlaceCutsOne(ks, ss, keys, i, j, t);
    }
    CutFrom(all, ss[i][j], f);
  }

  predicate CutAt(all: seq<Entry>, u: Entry, f: nat, t: nat)
    requires t < |all|
  {
    t < f <==> Precedes(all[t], u)
  }

  lemma CutFrom(all: seq<Entry>, u: Entry, f: nat)
    requires f <= |all| && forall t: nat :: t < |all| ==> CutAt(all, u, f, t)
    ensures CutBy(all, Preceding(u), f)
  {
    forall i | 0 <= i < |all|
      ensures i < f <==> Preceding(u)(all[i])
    {
      assert CutAt(all, u, f, i);
    }
  }

  lemma PlaceCutsOne(ks: seq<Kind>, ss: seq<seq<Entry>>, keys: seq<string>, i: nat, j: nat, t: nat)
    requires |ks| == |ss| && Distinct(ss, keys) && i < |ks| && j < |ss[i]| && KeyDistinct(ss[i], keys[i])
    requires t < |Flat(ks, ss, |ks|)|
    ensures t < First(ks, ss, Start(i, j)) <==> Precedes(Flat(ks, ss, |ks|)[t], ss[i][j])
  {
    var h := OwnerKey(ks, ss, keys, t);
    PlaceCutsAt(ks, ss, keys, i, j, h, t);
  }

  lemma InSlice(es: seq<Entry>, key: string, l: nat, j: nat)
    requires KeyDistinct(es, key) && l < |es| && j < |es|
    ensures Precedes(es[l], es[j]) <==> l < j
  {
    LessIrreflexive(key);
    if l > j { assert es[j].number < es[l].number; }
  }

  lemma {:induction false} LocateFinds(ks: seq<Kind>, ss: seq<seq<Entry>>, id: string, h: nat, i: nat, j: nat)
    requires h <= i < |ks| == |ss| && !ks[i].Skip? && IndexOf(ss[i], id, 0) == Some(j)
    requires forall l :: h <= l < i ==> IndexOf(ss[l], id, 0) == None
    ensures Locate(ks, ss, id, h) == Some(Start(i, j))
    decreases i - h
  {
    if h < i {
      LocateFinds(ks, ss, id, h + 1, i, j);
    }
  }

  lemma {:induction false} LocateMisses(ks: seq<Kind>, ss: seq<seq<Entry>>, id: string, h: nat)
    requires h <= |ks| == |ss| && forall l :: h <= l < |ks| ==> ks[l].Skip? || IndexOf(ss[l], id, 0) == None
    ensures Locate(ks, ss, id, h) == None
    decreases |ks| - h
  {
    if h < |ks| {
      LocateMisses(ks, ss, id, h + 1);
    }
  }

  /** An id is found in the slice of its upload's key, and nowhere else. */
  lemma FoundAt(x: Uploads, bucket: string, last: nat, id: string, l: nat)
    requires Agree(x, bucket, last) && l < |x.index.keys| && id != ""
    ensures var at := IndexOf(AllEntries(x)[l], id, 0);
      at.Some? ==> id in x.byId && x.byId[id].key == x.index.keys[l] && at.value < |AllEntries(x)[l]| &&
                   AllEntries(x)[l][at.value] == EntryOf(x.byId[id])
  {
    var at := IndexOf(AllEntries(x)[l], id, 0);
    IndexOfIs(AllEntries(x)[l], id, 0);
    if at.Some? {
      assert x.index.keys[l] in x.index.keys;
      SliceIsLive(x, bucket, last, x.index.keys[l], at.value);
    }
  }

  lemma FoundOnlyAt(x: Uploads, bucket: string, last: nat, id: string, i: nat, l: nat)
    requires Agree(x, bucket, last) && id != "" && id in x.byId && i < |x.index.keys| &&
      x.index.keys[i] == x.byId[id].key
    requires l < |x.index.keys| && l != i
    ensures IndexOf(AllEntries(x)[l], id, 0) == None
  {
    FoundAt(x, bucket, last, id, l);
    if IndexOf(AllEntries(x)[l], id, 0).Some? {
      AscendingDistinct(x.index.keys, l, i);
    }
  }

  lemma PlaceOf(x: Uploads, bucket: string, last: nat, id: string) returns (i: nat, j: nat)
    requires Agree(x, bucket, last) && id in x.byId
    ensures id != "" && i < |x.index.keys| && x.index.keys[i] == x.byId[id].key &&
      IndexOf(AllEntries(x)[i], id, 0) == Some(j)
    ensures j < |AllEntries(x)[i]| && AllEntries(x)[i][j] == EntryOf(x.byId[id])
  {
    assert UploadOK(x, bucket, last, id);
    i, j := EntryPlace(x, bucket, last, x.byId[id]);
    KeyEntriesDistinct(x, bucket, last, i);
    IndexOfFinds(AllEntries(x)[i], j, 0);
  }

  /** Where the upload of a marker is found. */
  lemma LocateFindable(x: Uploads, bucket: string, last: nat, p: Prefix, m: Marker) returns (i: nat, j: nat)
    requires Agree(x, bucket, last) && Findable(x, p, m)
    ensures Locate(UploadKinds(x, p), AllEntries(x), m.uploadID, Rank(x.index.keys, m.key)) == Some(Start(i, j))
    ensures i < |x.index.keys| && j < |AllEntries(x)[i]| && AllEntries(x)[i][j] == EntryOf(x.byId[m.uploadID])
  {
    KindIs(p, x.byId[m.uploadID].key);
    i, j := PlaceOf(x, bucket, last, m.uploadID);
    RankSplits(x.index.keys, m.key, i);
    forall l | Rank(x.index.keys, m.key) <= l < i
      ensures IndexOf(AllEntries(x)[l], m.uploadID, 0) == None
    {
      FoundOnlyAt(x, bucket, last, m.uploadID, i, l);
    }
    LocateFinds(UploadKinds(x, p), AllEntries(x), m.uploadID, Rank(x.index.keys, m.key), i, j);
  }

  lemma LocateLost(x: Uploads, bucket: string, last: nat, p: Prefix, m: Marker)
    requires Agree(x, bucket, last) && m.uploadID != "" && !Findable(x, p, m)
    ensures Locate(UploadKinds(x, p), AllEntries(x), m.uploadID, Rank(x.index.keys, m.key)) == None
  {
    var ks, keys, h := UploadKinds(x, p), x.index.keys, Rank(x.index.keys, m.key);
    forall l | h <= l < |keys|
      ensures ks[l].Skip? || IndexOf(AllEntries(x)[l], m.uploadID, 0) == None
    {
      FoundAt(x, bucket, last, m.uploadID, l);
      RankSplits(keys, m.key, l);
    }
    LocateMisses(ks, AllEntries(x), m.uploadID, h);
  }

  // ---- the theorem ----

  /** The page after a marker that is not above every key starts at some place. */
  lemma PageStarts(ks: seq<Kind>, ss: seq<seq<Entry>>, keys: seq<string>, m: Marker, limit: int)
    requires |keys| == |ks| == |ss| && Rank(keys, m.key) < |keys|
    ensures IsPage(Page(ks, ss, keys, Some(m), limit), Flat(ks, ss, |ks|), Number(ks, ss, keys, Some(m)),
                   AtLeastOne(limit))
  {
    StartFits(ks, ss, keys, Some(m));
  }

  lemma AboveIs(x: Uploads, key: string)
    requires Sorted(x.index)
    ensures AllBelow(x, key) <==> Rank(x.index.keys, key) == |x.index.keys|
  {
    var keys, r := x.index.keys, Rank(x.index.keys, key);
    forall i | 0 <= i < |keys|
      ensures i < r <==> Less(keys[i], key)
    {
      RankSplits(keys, key, i);
    }
    if r < |keys| { assert keys[r] in keys; }
  }

  /** What the code passes over. */
  ghost function PassedByCode(x: Uploads, p: Prefix, m: Marker): Entry -> bool {
    if m.uploadID == "" then Below(m.key)
    else if Findable(x, p, m) then Preceding(EntryOf(x.byId[m.uploadID]))
    else _ => true
  }

  lemma CodeCuts(x: Uploads, bucket: string, last: nat, p: Prefix, m: Marker)
    requires Agree(x, bucket, last)
    ensures CutBy(AllListed(x, p), PassedByCode(x, p, m),
                  Number(UploadKinds(x, p), AllEntries(x), x.index.keys, Some(m)))
  {
    if m.uploadID == "" {
      AgreeDistinct(x, bucket, last);
      RankCuts(UploadKinds(x, p), AllEntries(x), x.index.keys, m.key);
    } else if Findable(x, p, m) {
      FindableCuts(x, bucket, last, p, m);
    } else {
      LocateLost(x, bucket, last, p, m);
      NothingLeft(AllListed(x, p));
    }
  }

  lemma FindableCuts(x: Uploads, bucket: string, last: nat, p: Prefix, m: Marker)
    requires Agree(x, bucket, last) && m.uploadID != "" && Findable(x, p, m)
    ensures CutBy(AllListed(x, p), Preceding(EntryOf(x.byId[m.uploadID])),
                  Number(UploadKinds(x, p), AllEntries(x), x.index.keys, Some(m)))
  {
    AgreeDistinct(x, bucket, last);
    var i, j := LocateFindable(x, bucket, last, p, m);
    KeyEntriesDistinct(x, bucket, last, i);
    PlaceCuts(UploadKinds(x, p), AllEntries(x), x.index.keys, i, j);
  }

  lemma NothingLeft(all: seq<Entry>)
    ensures CutBy(all, _ => true, |all|)
  {
  }

  /** The code never starts a page before the marker's place. */
  lemma CodePassesMore(x: Uploads, bucket: string, last: nat, p: Prefix, m: Marker, e: Entry)
    requires Agree(x, bucket, last) && m.uploadID != "" && PassedOver(e, m)
    ensures PassedByCode(x, p, m)(e)
  {
    if Findable(x, p, m) {
      var u := x.byId[m.uploadID];
      assert UploadOK(x, bucket, last, m.uploadID);
      LessTotal(u.key, m.key);
      if Less(e.key, m.key) && Less(m.key, u.key) {
        LessTransitive(e.key, m.key, u.key);
      } else if e.key == m.key && u.key == m.key {
        assert u.number <= e.number ==> CreatedSince(e, m.uploadID);
      }
    }
  }

  lemma CutOnce(all: seq<Entry>, q: Entry -> bool, f: nat, g: nat)
    requires CutBy(all, q, f) && CutBy(all, q, g)
    ensures f == g
  {
    CutsAgree(all, q, q, f, g);
  }

  lemma RightAt(x: Uploads, p: Prefix, m: Marker, limit: int, f: nat)
    requires CutBy(AllListed(x, p), Passing(m), f)
    ensures RightPage(x, p, m, limit) <==>
      IsPage(UploadListing.ListUploads(x, Some(m), p, limit), AllListed(x, p), f, AtLeastOne(limit))
  {
    if RightPage(x, p, m, limit) {
      var g :| 0 <= g && CutBy(AllListed(x, p), Passing(m), g)
        && IsPage(UploadListing.ListUploads(x, Some(m), p, limit), AllListed(x, p), g, AtLeastOne(limit));
      CutOnce(AllListed(x, p), Passing(m), f, g);
    }
  }

  /** An upload of a key is listed if and only if the key is an item. */
  lemma KeyListed(x: Uploads, bucket: string, last: nat, p: Prefix, k: string)
    requires Agree(x, bucket, last)
    ensures (exists e :: e in AllListed(x, p) && e.key == k) <==> k in x.index.at && MatchesAsKey(p, k)
  {
    if e :| e in AllListed(x, p) && e.key == k {
      ListedAreLive(x, bucket, last, p, e);
      assert UploadOK(x, bucket, last, e.id);
    }
    if k in x.index.at && MatchesAsKey(p, k) {
      assert SliceOK(x.byId, k, x.index.at[k]);
      FirstIsListed(x, bucket, last, p, x.index.at[k][0]);
    }
  }

  lemma FirstIsListed(x: Uploads, bucket: string, last: nat, p: Prefix, u: MultipartUpload)
    requires Agree(x, bucket, last) && u.id in x.byId && x.byId[u.id] == u && MatchesAsKey(p, u.key)
    ensures EntryOf(u) in AllListed(x, p)
  {
    ListedAreLive(x, bucket, last, p, EntryOf(u));
  }

  lemma AboveExactly(x: Uploads, bucket: string, last: nat, p: Prefix, m: Marker, limit: int, f: nat)
    requires Agree(x, bucket, last) && AllBelow(x, m.key) && CutBy(AllListed(x, p), Passing(m), f)
    ensures RightPage(x, p, m, limit) <==> AllListed(x, p) == []
  {
    var all := AllListed(x, p);
    AboveIs(x, m.key);
    RightAt(x, p, m, limit, f);
    if f < |all| {
      assert all[f] in all;
      KeyListed(x, bucket, last, p, all[f].key);
    }
  }

  lemma StartsExactly(x: Uploads, bucket: string, last: nat, p: Prefix, m: Marker, limit: int, f: nat)
    requires Agree(x, bucket, last) && !AllBelow(x, m.key) && CutBy(AllListed(x, p), Passing(m), f)
    ensures RightPage(x, p, m, limit) <==> f == Number(UploadKinds(x, p), AllEntries(x), x.index.keys, Some(m))
  {
    AboveIs(x, m.key);
    RightAt(x, p, m, limit, f);
    UploadPages.ListedInOrder(x, bucket, last, p);
    PageStarts(UploadKinds(x, p), AllEntries(x), x.index.keys, m, limit);
    OnePlace(AllListed(x, p), UploadListing.ListUploads(x, Some(m), p, limit), f,
             Number(UploadKinds(x, p), AllEntries(x), x.index.keys, Some(m)), AtLeastOne(limit));
  }

  lemma BelowExactly(x: Uploads, bucket: string, last: nat, p: Prefix, m: Marker, limit: int, f: nat)
    requires Agree(x, bucket, last) && !AllBelow(x, m.key) && CutBy(AllListed(x, p), Passing(m), f)
    ensures RightPage(x, p, m, limit) <==> MarkerHolds(x, p, m)
  {
    var all, code := AllListed(x, p), PassedByCode(x, p, m);
    var g := Number(UploadKinds(x, p), AllEntries(x), x.index.keys, Some(m));
    StartsExactly(x, bucket, last, p, m, limit, f);
    CodeCuts(x, bucket, last, p, m);
    if m.uploadID == "" {
      CutsAgree(all, code, Passing(m), g, f);
      KeyListed(x, bucket, last, p, m.key);
      forall e | e in all
        ensures PassedOver(e, m) && !Less(e.key, m.key) <==> e.key == m.key
      {
        LessIrreflexive(e.key);
      }
    } else {
      forall e | e in all && PassedOver(e, m)
        ensures code(e)
      {
        CodePassesMore(x, bucket, last, p, m, e);
      }
      CutsAgree(all, Passing(m), code, f, g);
    }
  }

  /** The page after a marker, for any marker, prefix and limit: it is right if and only if
      the marker holds. */
  lemma MarkersExactly(x: Uploads, bucket: string, last: nat, p: Prefix, m: Marker, limit: int)
    requires Agree(x, bucket, last)
    ensures RightPage(x, p, m, limit) <==> MarkerHolds(x, p, m)
  {
    UploadPages.ListedInOrder(x, bucket, last, p);
    var f := MarkerCuts(AllListed(x, p), m);
    if AllBelow(x, m.key) {
      AboveExactly(x, bucket, last, p, m, limit, f);
    } else {
      BelowExactly(x, bucket, last, p, m, limit, f);
    }
  }

  /** A marker that names a live upload of its key always leads to a right page. */
  lemma LiveMarkersHold(x: Uploads, bucket: string, last: nat, p: Prefix, m: Marker)
    requires Agree(x, bucket, last) && m.uploadID in x.byId && x.byId[m.uploadID].key == m.key &&
      MatchOf(p, m.key).Some?
    ensures MarkerHolds(x, p, m)
  {
    var u := x.byId[m.uploadID];
    assert UploadOK(x, bucket, last, m.uploadID);
    LessIrreflexive(m.key);
    assert m.key in x.index.keys;
    forall e | e in AllListed(x, p) && Precedes(e, EntryOf(u))
      ensures PassedOver(e, m)
    {
      if n: nat :| m.uploadID == Decimal(n) && n <= e.number {
        DecimalInjective(n, u.number);
      }
    }
  }
}
