/** Version listings that start from a key marker and a version-id marker. */
module VersionMarkers {
  import opened Basics
  import opened Order
  import opened SortedIndex
  import opened Prefixes
  import opened BucketModel
  import opened Listing
  import opened VersionListing

  /** The entries that fit a limit. */
  function FirstOf(es: seq<VersionItem>, max: int): seq<VersionItem> {
    if 0 < max < |es| then es[..max] else es
  }

  /** A page of `all`, truncated unless it is the whole of it. */
  predicate IsPageOf(page: VersionList, all: seq<VersionItem>, max: int) {
    page.versions == FirstOf(all, max) && (!page.isTruncated ==> page.versions == all)
  }

  lemma PageOfKinds(s: State, ks: seq<Kind>, max: int)
    requires |s.objects.keys| == |ks|
    ensures IsPageOf(ListKinds(s, ks, max), Entries(s, ks, 0, |ks|), max)
  {
    if max > 0 {
      LimitedKinds(s, ks, max);
    } else {
      VisitedEnds(s, ks, 0, max);
    }
  }

  lemma EntriesFrom(s: State, ks: seq<Kind>, lo: nat)
    requires lo <= |s.objects.keys| == |ks|
    ensures Entries(s, FromKey(ks, lo), 0, |ks|) == Entries(s, ks, lo, |ks|)
  {
    var from := FromKey(ks, lo);
    EntriesJoin(s, from, 0, lo, |ks|);
    NoEntriesBefore(s, from, lo);
    EntriesOfKinds(s, from, ks, lo, |ks|);
  }

  lemma {:induction false} EntriesOfKinds(s: State, ks: seq<Kind>, ls: seq<Kind>, lo: nat, hi: nat)
    requires lo <= hi <= |s.objects.keys| == |ks| == |ls| && forall h :: lo <= h < hi ==> ks[h] == ls[h]
    ensures Entries(s, ks, lo, hi) == Entries(s, ls, lo, hi)
  {
    if lo < hi {
      EntriesOfKinds(s, ks, ls, lo, hi - 1);
    }
  }

  lemma {:induction false} NoEntriesBefore(s: State, ks: seq<Kind>, hi: nat)
    requires hi <= |s.objects.keys| == |ks| && forall i :: 0 <= i < hi ==> ks[i].Skip?
    ensures Entries(s, ks, 0, hi) == []
  {
    if hi > 0 {
      NoEntriesBefore(s, ks, hi - 1);
    }
  }

  // ---- a key marker ----

  /** A key marker alone: the page shows what there is from that key on, the key included;
      but one above all keys is answered by an empty page, which claims to be truncated if
      and only if the bucket has any key; and one that does not match is refused. */
  lemma KeyMarkerExactly(s: State, bare: set<string>, p: Prefix, key: string, max: int)
    requires key != ""
    ensures var (r, lo, n) := (ListVersionsFrom(s, bare, p, key, "", max), Rank(s.objects.keys, key), |s.objects.keys|);
      if MatchOf(p, key).None? then r == Err(Internal)
      else
        && r.Ok? && IsPageOf(r.value, Entries(s, KeyKinds(s, p), lo, n), max)
        && (lo == n ==> r.value.versions == [] && (r.value.isTruncated <==> n > 0))
  {
    var ks, lo := KeyKinds(s, p), Rank(s.objects.keys, key);
    var from := FromKey(ks, lo);
    EntriesFrom(s, ks, lo);
    PageOfKinds(s, from, max);
  }

  // ---- a version-id marker ----

  /** The entries after version `j` of the key at `i`. */
  function After(s: State, p: Prefix, i: nat, j: nat): seq<VersionItem>
    requires i < |s.objects.keys| && j < |VersionSeq(ObjectAt(s, s.objects.keys[i]))|
  {
    var o := ObjectAt(s, s.objects.keys[i]);
    ItemsOf(s.versioning, o, VersionSeq(o)[j + 1..]) + Entries(s, KeyKinds(s, p), i + 1, |s.objects.keys|)
  }

  /** The markers that name a version: its key, as the listing has it, and its id. */
  ghost predicate Names(s: State, p: Prefix, key: string, id: string, i: nat, j: nat) {
    && i < |s.objects.keys| && s.objects.keys[i] == key != "" && KeyKind(p, key).Item?
    && j < |VersionSeq(ObjectAt(s, key))| && VersionSeq(ObjectAt(s, key))[j].versionID == id != ""
  }

  /** The iterator's order of an object's versions. */
  lemma VersionAt(name: string, o: Obj, j: nat)
    requires ObjectOK(name, o) && j < |VersionSeq(o)|
    ensures if j < |o.archive.keys| then VersionSeq(o)[j].versionID == o.archive.keys[j]
            else j == |o.archive.keys| && o.data == Some(VersionSeq(o)[j])
  {
    ArchiveSeqIs(o.archive, 0);
    if j < |o.archive.keys| {
      assert o.archive.keys[0 + j] in o.archive.at;
    }
  }

  lemma ArchiveRest(x: Index<Data>, r: nat)
    requires Sorted(x) && r <= |x.keys|
    ensures |ArchiveSeq(x, 0)| == |x.keys| && ArchiveSeq(x, r) == ArchiveSeq(x, 0)[r..]
  {
    ArchiveSeqIs(x, 0);
    ArchiveSeqIs(x, r);
    forall k | 0 <= k < |x.keys| - r
      ensures ArchiveSeq(x, r)[k] == ArchiveSeq(x, 0)[r..][k]
    {
      assert x.keys[0 + (r + k)] in x.at;
    }
  }

  function VersionsFrom(o: Obj, id: string): seq<Data> {
    if Sought(o, id).Some? then VersionSeq(Sought(o, id).value) else []
  }

  function CutTo(o: Obj, r: nat): Obj
    requires r <= |o.archive.keys|
  {
    Obj(o.data, Tail(o.archive, r))
  }

  lemma CutVersions(o: Obj, r: nat)
    requires Sorted(o.archive) && r <= |o.archive.keys|
    ensures r <= |VersionSeq(o)| && VersionSeq(CutTo(o, r)) == VersionSeq(o)[r..]
  {
    TailSeq(o.archive, r, 0);
    ArchiveRest(o.archive, r);
    CutJoin(ArchiveSeq(o.archive, 0), CurrentSeq(o), r);
  }

  /** Seeking an archived version leaves what follows it ... */
  lemma SoughtAt(o: Obj, id: string, r: nat)
    requires r == Rank(o.archive.keys, id) < |o.archive.keys|
    ensures Sought(o, id) == Some(CutTo(o, r + 1)) && VersionsFrom(o, id) == VersionSeq(CutTo(o, r + 1))
  {
  }

  lemma CutJoin(a: seq<Data>, b: seq<Data>, k: nat)
    requires k <= |a|
    ensures (a + b)[k..] == a[k..] + b
  {
  }

  /** ... and seeking the current version leaves that version. */
  lemma SoughtCurrent(name: string, o: Obj)
    requires ObjectOK(name, o) && o.data.Some?
    ensures VersionsFrom(o, o.data.value.versionID) == [o.data.value]
    ensures Sought(o, o.data.value.versionID).Some?
  {
    AllBelow(o.archive, o.data.value.versionID);
  }

  lemma SoughtData(o: Obj, id: string)
    ensures Sought(o, id).Some? ==> Sought(o, id).value.data == o.data
  {
  }

  lemma AllBelow(x: Index<Data>, id: string)
    requires Sorted(x) && forall v :: v in x.at ==> Less(v, id)
    ensures Rank(x.keys, id) == |x.keys|
  {
    forall i | 0 <= i < |x.keys|
      ensures Less(x.keys[i], id)
    {
      assert x.keys[i] in x.keys;
    }
  }

  /** What a page that starts at such a marker is a page of. */
  lemma MarkedPage(s: State, bare: set<string>, p: Prefix, key: string, id: string, i: nat, max: int)
    requires Sorted(s.objects) && i < |s.objects.keys| && s.objects.keys[i] == key != "" && KeyKind(p, key).Item?
    requires id != "" && Sought(ObjectAt(s, key), id).Some?
    ensures var (r, o, n) := (ListVersionsFrom(s, bare, p, key, id, max), ObjectAt(s, key), |s.objects.keys|);
      if key in bare then r == Err(Panic)
      else r.Ok? && IsPageOf(r.value, ItemsOf(s.versioning, o, VersionsFrom(o, id)) +
                                      Entries(s, KeyKinds(s, p), i + 1, n), max)
  {
    var ks, u := KeyKinds(s, p), Sought(ObjectAt(s, key), id).value;
    RankOfKey(s.objects.keys, i);
    MarkedState(s, bare, ks, key, id, i, u);
    if key !in bare {
      SoughtData(ObjectAt(s, key), id);
      PageOfKinds(With(s, i, u), FromKey(ks, i), max);
      EntriesFrom(With(s, i, u), ks, i);
      EntriesAfter(s, ks, i, u);
    }
  }

  lemma MarkedState(s: State, bare: set<string>, ks: seq<Kind>, key: string, id: string, i: nat, u: Obj)
    requires i < |s.objects.keys| == |ks| && s.objects.keys[i] == key && ks[i].Item?
    requires id != "" && Sought(ObjectAt(s, key), id) == Some(u)
    ensures FromVersion(s, bare, FromKey(ks, i), id) ==
      if key in bare then Err(Panic) else Ok(With(s, i, u))
  {
    FirstIs(ks, i);
  }

  lemma FirstIs(ks: seq<Kind>, i: nat)
    requires i < |ks| && ks[i].Item?
    ensures FirstItem(FromKey(ks, i), 0) == i
  {
    var from, f := FromKey(ks, i), FirstItem(FromKey(ks, i), 0);
    assert from[i].Item? && (f < |ks| ==> from[f] == if f < i then Skip else ks[f]);
  }

  lemma {:induction false} SameEntries(s: State, t: State, ks: seq<Kind>, lo: nat, hi: nat)
    requires lo <= hi <= |ks| == |s.objects.keys| == |t.objects.keys|
    requires forall h :: lo <= h < hi ==> EntriesAt(t, ks, h) == EntriesAt(s, ks, h)
    ensures Entries(t, ks, lo, hi) == Entries(s, ks, lo, hi)
  {
    if lo < hi {
      SameEntries(s, t, ks, lo, hi - 1);
    }
  }

  /** The state with another object under the key at `i`. */
  function With(s: State, i: nat, u: Obj): State
    requires i < |s.objects.keys|
  {
    s.(objects := s.objects.(at := s.objects.at[s.objects.keys[i] := u]))
  }

  /** Only the versions of that key are others. */
  lemma EntriesAfter(s: State, ks: seq<Kind>, i: nat, u: Obj)
    requires Sorted(s.objects) && i < |s.objects.keys| == |ks| && ks[i].Item?
    requires u.data == ObjectAt(s, s.objects.keys[i]).data
    ensures Entries(With(s, i, u), ks, i, |ks|) ==
      ItemsOf(s.versioning, ObjectAt(s, s.objects.keys[i]), VersionSeq(u)) + Entries(s, ks, i + 1, |ks|)
  {
    var t, o := With(s, i, u), ObjectAt(s, s.objects.keys[i]);
    EntriesJoin(t, ks, i, i + 1, |ks|);
    assert Entries(t, ks, i, i + 1) == ItemsOf(s.versioning, o, VersionSeq(u)) by {
      OneEntry(t, ks, i);
      SameItems(s.versioning, o, u, VersionSeq(u));
    }
    assert Entries(t, ks, i + 1, |ks|) == Entries(s, ks, i + 1, |ks|) by {
      OtherEntries(s, ks, i, u);
      SameEntries(s, t, ks, i + 1, |ks|);
    }
  }

  lemma OtherEntries(s: State, ks: seq<Kind>, i: nat, u: Obj)
    requires Sorted(s.objects) && i < |s.objects.keys| == |ks|
    ensures forall h :: i + 1 <= h < |ks| ==> EntriesAt(With(s, i, u), ks, h) == EntriesAt(s, ks, h)
  {
    forall h | i + 1 <= h < |ks|
      ensures EntriesAt(With(s, i, u), ks, h) == EntriesAt(s, ks, h)
    {
      KeysDiffer(s.objects.keys, i, h);
    }
  }

  lemma OneEntry(t: State, ks: seq<Kind>, i: nat)
    requires i < |t.objects.keys| == |ks|
    ensures Entries(t, ks, i, i + 1) == EntriesAt(t, ks, i)
  {
    assert Entries(t, ks, i, i) == [];
  }

  lemma KeysDiffer(keys: seq<string>, i: nat, j: nat)
    requires Ascending(keys) && i < j < |keys|
    ensures keys[i] != keys[j]
  {
    LessIrreflexive(keys[i]);
  }

  lemma KeyEntries(s: State, ks: seq<Kind>, i: nat)
    requires StateOK(s) && i < |s.objects.keys| == |ks|
    ensures forall k :: 0 <= k < |EntriesAt(s, ks, i)| ==> EntriesAt(s, ks, i)[k].key == s.objects.keys[i]
  {
    EntriesAtShow(s, ks, i);
    ListedAtKey(s, ks, i);
  }

  ghost predicate NoneOf(es: seq<VersionItem>, key: string) {
    forall k :: 0 <= k < |es| ==> es[k].key != key
  }

  lemma {:induction false} LaterKeys(s: State, ks: seq<Kind>, i: nat, hi: nat)
    requires StateOK(s) && i < hi <= |s.objects.keys| == |ks|
    ensures NoneOf(Entries(s, ks, i + 1, hi), s.objects.keys[i])
  {
    if i + 1 < hi {
      LaterKeys(s, ks, i, hi - 1);
      KeyEntries(s, ks, hi - 1);
      KeysDiffer(s.objects.keys, i, hi - 1);
    }
  }

  lemma PagesDiffer(page: VersionList, x: VersionItem, es: seq<VersionItem>, max: int)
    requires IsPageOf(page, [x] + es, max) && (es != [] ==> es[0].key != x.key)
    ensures !IsPageOf(page, es, max)
  {
    assert page.versions[0] == x;
  }

  /** Where the marker names the current version, that version is listed again. */
  lemma CurrentAgain(s: State, ks: seq<Kind>, i: nat, d: Data, page: VersionList, max: int)
    requires StateOK(s) && i < |s.objects.keys| == |ks| && d.name == s.objects.keys[i]
    requires
      var o := ObjectAt(s, s.objects.keys[i]);
      IsPageOf(page, ItemsOf(s.versioning, o, [d]) + Entries(s, ks, i + 1, |ks|), max)
    ensures !IsPageOf(page, Entries(s, ks, i + 1, |ks|), max)
  {
    var o := ObjectAt(s, s.objects.keys[i]);
    LaterKeys(s, ks, i, |ks|);
    assert ItemsOf(s.versioning, o, [d]) == [ItemOf(s.versioning, o, d)];
    PagesDiffer(page, ItemOf(s.versioning, o, d), Entries(s, ks, i + 1, |ks|), max);
  }

  lemma LastVersion(name: string, o: Obj)
    requires ObjectOK(name, o) && o.data.Some?
    ensures var (vs, n) := (VersionSeq(o), |o.archive.keys|);
      |vs| == n + 1 && vs[n..] == [o.data.value] && vs[n + 1..] == []
  {
    ArchiveSeqIs(o.archive, 0);
  }

  /** Exactly when the page after a marker that names a version shows what comes after
      that version: when the version is archived.  The current version is listed again. */
  lemma VersionMarkersExactly(s: State, bare: set<string>, p: Prefix, key: string, id: string, i: nat, j: nat,
                              max: int)
    requires StateOK(s) && BareOK(s, bare) && Names(s, p, key, id, i, j)
    ensures var r := ListVersionsFrom(s, bare, p, key, id, max);
      r.Ok? && IsPageOf(r.value, After(s, p, i, j), max) <==> id in ObjectAt(s, key).archive.at
  {
    var o := ObjectAt(s, key);
    KeyOK(s, i);
    VersionAt(key, o, j);
    if j < |o.archive.keys| {
      assert o.archive.keys[j] in o.archive.keys;
      RankOfKey(o.archive.keys, j);
      SoughtAt(o, id, j);
      CutVersions(o, j + 1);
      MarkedPage(s, bare, p, key, id, i, max);
    } else {
      SoughtCurrent(key, o);
      MarkedPage(s, bare, p, key, id, i, max);
      LessIrreflexive(id);
      var r := ListVersionsFrom(s, bare, p, key, id, max);
      LastVersion(key, o);
      if r.Ok? {
        CurrentAgain(s, KeyKinds(s, p), i, o.data.value, r.value, max);
        NothingAfter(s, p, i, j);
      }
    }
  }

  /** A marker that names the current version: without an archive the listing panics, and
      else it begins with that version. */
  lemma CurrentMarkersRepeat(s: State, bare: set<string>, p: Prefix, key: string, id: string, i: nat, j: nat, max: int)
    requires StateOK(s) && Names(s, p, key, id, i, j) && j == |ObjectAt(s, key).archive.keys|
    ensures var (r, o) := (ListVersionsFrom(s, bare, p, key, id, max), ObjectAt(s, key));
      if key in bare then r == Err(Panic)
      else r.Ok? && IsPageOf(r.value, ItemsOf(s.versioning, o, VersionSeq(o)[j..]) +
                                      Entries(s, KeyKinds(s, p), i + 1, |s.objects.keys|), max)
  {
    var o := ObjectAt(s, key);
    KeyOK(s, i);
    VersionAt(key, o, j);
    SoughtCurrent(key, o);
    LastVersion(key, o);
    MarkedPage(s, bare, p, key, id, i, max);
  }

  /** A marker above all versions of its key is refused. */
  lemma NewerMarkersRefused(s: State, bare: set<string>, p: Prefix, key: string, id: string, i: nat, max: int)
    requires StateOK(s) && i < |s.objects.keys| && s.objects.keys[i] == key != "" && MatchesAsKey(p, key)
    requires id != "" && key !in bare && forall v :: v in VersionsOf(s, key) ==> Less(v, id)
    ensures ListVersionsFrom(s, bare, p, key, id, max) == Err(Internal)
  {
    var o := ObjectAt(s, key);
    KeyOK(s, i);
    RankOfKey(s.objects.keys, i);
    FirstIs(KeyKinds(s, p), i);
    AllBelow(o.archive, id);
    LessIrreflexive(id);
    assert Sought(o, id).None?;
  }

  lemma NothingAfter(s: State, p: Prefix, i: nat, j: nat)
    requires i < |s.objects.keys| && j + 1 == |VersionSeq(ObjectAt(s, s.objects.keys[i]))|
    ensures After(s, p, i, j) == Entries(s, KeyKinds(s, p), i + 1, |s.objects.keys|)
  {
    assert VersionSeq(ObjectAt(s, s.objects.keys[i]))[j + 1..] == [];
  }
}
