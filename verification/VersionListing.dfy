/** What a listing of object versions holds, and that it holds every version once. */
module VersionListing {
  import opened Basics
  import opened Order
  import opened SortedIndex
  import opened Prefixes
  import opened BucketModel
  import opened Listing
  import opened Joining

  /** How ListBucketVersions sorts a key: delete markers are listed like versions. */
  function KeyKind(p: Prefix, key: string): Kind {
    match MatchOf(p, key)
    case None => Skip
    case Some(m) => if m.commonPrefix then Roll(m.matchedPart) else Item
  }

  lemma KindIs(p: Prefix, key: string)
    ensures KeyKind(p, key).Item? <==> MatchesAsKey(p, key)
    ensures KeyKind(p, key).Skip? <==> MatchOf(p, key).None?
    ensures forall q :: KeyKind(p, key) == Roll(q) <==> MatchesAsPart(p, key, q)
  {
  }

  /** An object's versions as its iterator gives them: the archive in order, then the
      current one. */
  function ArchiveSeq(x: Index<Data>, i: nat): seq<Data>
    decreases |x.keys| - i
  {
    if i >= |x.keys| then []
    else (if x.keys[i] in x.at then [x.at[x.keys[i]]] else []) + ArchiveSeq(x, i + 1)
  }

  function CurrentSeq(o: Obj): seq<Data> {
    if o.data.Some? then [o.data.value] else []
  }

  function VersionSeq(o: Obj): seq<Data> {
    ArchiveSeq(o.archive, 0) + CurrentSeq(o)
  }

  /** One entry of the result.  On a bucket never versioned the id is masked. */
  datatype VersionItem = VersionItem(key: string, versionID: string, isLatest: bool, deleteMarker: bool, size: nat,
                                     hash: Bytes)

  function ItemOf(versioning: Versioning, o: Obj, d: Data): VersionItem {
    VersionItem(d.name, if versioning == Never then "" else d.versionID, o.data == Some(d), d.deleteMarker, |d.body|,
                d.hash)
  }

  function ItemsOf(versioning: Versioning, o: Obj, ds: seq<Data>): seq<VersionItem> {
    if ds == [] then [] else ItemsOf(versioning, o, ds[..|ds| - 1]) + [ItemOf(versioning, o, ds[|ds| - 1])]
  }

  /** Entries depend on an object only by its current version. */
  lemma {:induction false} SameItems(versioning: Versioning, o: Obj, u: Obj, ds: seq<Data>)
    requires o.data == u.data
    ensures ItemsOf(versioning, o, ds) == ItemsOf(versioning, u, ds)
  {
    if ds != [] {
      SameItems(versioning, o, u, ds[..|ds| - 1]);
    }
  }

  /** How the listing sorts each key of a bucket. */
  function KeyKinds(s: State, p: Prefix): (ks: seq<Kind>)
    ensures |ks| == |s.objects.keys|
  {
    seq(|s.objects.keys|, i requires 0 <= i < |s.objects.keys| => KeyKind(p, s.objects.keys[i]))
  }

  /** All entries of the keys from `lo` up to `hi`. */
  function Entries(s: State, ks: seq<Kind>, lo: nat, hi: nat): seq<VersionItem>
    requires lo <= hi <= |s.objects.keys| == |ks|
  {
    if lo == hi then []
    else Entries(s, ks, lo, hi - 1) + EntriesAt(s, ks, hi - 1)
  }

  function EntriesAt(s: State, ks: seq<Kind>, i: nat): seq<VersionItem>
    requires i < |s.objects.keys| == |ks|
  {
    if ks[i].Item? then
      ItemsOf(s.versioning, ObjectAt(s, s.objects.keys[i]), VersionSeq(ObjectAt(s, s.objects.keys[i]))) else []
  }

  /** The common prefixes of the keys before `hi`, each once. */
  function Rolled(ks: seq<Kind>, hi: nat): seq<string>
    requires hi <= |ks|
  {
    if hi == 0 then []
    else if ks[hi - 1].Roll? then AddPrefix(Rolled(ks, hi - 1), ks[hi - 1].part)
    else Rolled(ks, hi - 1)
  }

  datatype VersionList = VersionList(versions: seq<VersionItem>, commonPrefixes: seq<string>, isTruncated: bool)

  /** The keys a listing of at most `max` entries visits. */
  function Visited(s: State, ks: seq<Kind>, h: nat, max: int): (hi: nat)
    requires h <= |s.objects.keys| == |ks|
    ensures h <= hi <= |s.objects.keys|
    decreases |s.objects.keys| - h
  {
    if h == |s.objects.keys| || (max > 0 && |Entries(s, ks, 0, h)| >= max) then h else Visited(s, ks, h + 1, max)
  }

  /** A listing ends with its keys, or when it is full. */
  lemma {:induction false} VisitedEnds(s: State, ks: seq<Kind>, h: nat, max: int)
    requires h <= |s.objects.keys| == |ks|
    ensures var hi := Visited(s, ks, h, max); hi == |ks| || (max > 0 && |Entries(s, ks, 0, hi)| >= max)
    decreases |ks| - h
  {
    if h < |ks| && (max <= 0 || |Entries(s, ks, 0, h)| < max) {
      VisitedEnds(s, ks, h + 1, max);
    }
  }

  function ListKinds(s: State, ks: seq<Kind>, max: int): VersionList
    requires |s.objects.keys| == |ks|
  {
    var hi := Visited(s, ks, 0, max);
    var all := Entries(s, ks, 0, hi);
    var cut := max > 0 && |all| >= max;
    VersionList(if cut then all[..max] else all, Rolled(ks, hi), cut && (|all| > max || hi < |s.objects.keys|))
  }

  function ListVersions(s: State, p: Prefix, max: int): VersionList {
    ListKinds(s, KeyKinds(s, p), max)
  }

  // ---- listings from a marker on ----

  /** How the listing sorts the keys if those before `lo` are passed over. */
  function FromKey(ks: seq<Kind>, lo: nat): (r: seq<Kind>)
    ensures |r| == |ks|
  {
    seq(|ks|, i requires 0 <= i < |ks| => if i < lo then Skip else ks[i])
  }

  /** The first key from `h` on that is listed by its versions, if any. */
  function FirstItem(ks: seq<Kind>, h: nat): (f: nat)
    requires h <= |ks|
    ensures h <= f <= |ks| && (f < |ks| ==> ks[f].Item?)
    ensures forall i :: h <= i < f ==> !ks[i].Item?
    decreases |ks| - h
  {
    if h == |ks| || ks[h].Item? then h else FirstItem(ks, h + 1)
  }

  function Tail<V>(x: Index<V>, i: nat): Index<V>
    requires i <= |x.keys|
  {
    Index(x.keys[i..], map k | k in x.at && k in x.keys[i..] :: x.at[k])
  }

  lemma {:induction false} TailSeq(x: Index<Data>, r: nat, i: nat)
    requires r + i <= |x.keys|
    ensures ArchiveSeq(Tail(x, r), i) == ArchiveSeq(x, r + i)
    decreases |x.keys| - i
  {
    if r + i < |x.keys| {
      TailSeq(x, r, i + 1);
      assert Tail(x, r).keys[i] == x.keys[r + i];
    }
  }

  /** What is left of an object when its iterator has sought a version id: what follows
      the first archived version at or above it, or all of the current version. */
  function Sought(o: Obj, id: string): Option<Obj> {
    var r := Rank(o.archive.keys, id);
    if r < |o.archive.keys| then Some(Obj(o.data, Tail(o.archive, r + 1)))
    else if o.data.Some? && o.data.value.versionID == id then Some(Obj(o.data, Empty()))
    else None
  }

  /** The versions of an object from a version-id marker on; without an archive there is
      nothing to seek in. */
  function Opened(o: Obj, archived: bool, id: string): Result<Obj> {
    if id == "" then Ok(o)
    else if !archived then Err(Panic)
    else match Sought(o, id)
      case None => Err(Internal)
      case Some(rest) => Ok(rest)
  }

  /** The version-id marker applies to the first object listed, whichever that is; `bare`
      are the keys that never had a version archived. */
  function FromVersion(s: State, bare: set<string>, ks: seq<Kind>, id: string): (r: Result<State>)
    requires |s.objects.keys| == |ks|
    ensures r.Ok? ==> r.value.objects.keys == s.objects.keys
  {
    var f := FirstItem(ks, 0);
    if f == |ks| || id == "" then Ok(s)
    else
      var key := s.objects.keys[f];
      match Opened(ObjectAt(s, key), key !in bare, id)
      case Err(e) => Err(e)
      case Ok(o) => Ok(s.(objects := s.objects.(at := s.objects.at[key := o])))
  }

  /** Only objects without archived versions can be bare. */
  ghost predicate BareOK(s: State, bare: set<string>) {
    forall k :: k in bare ==> ObjectAt(s, k).archive.keys == []
  }

  /** Where a listing starts: with its key marker, if the bucket has that key. */
  function StartOf(s: State, keyMarker: string): (lo: nat)
    ensures lo <= |s.objects.keys|
  {
    if keyMarker == "" then 0 else Rank(s.objects.keys, keyMarker)
  }

  /** The listing from a key marker and a version-id marker on, where they are not "".
      A key marker above all keys leaves an iterator that has yet to begin. */
  function ListVersionsFrom(s: State, bare: set<string>, p: Prefix, keyMarker: string, idMarker: string, max: int):
    Result<VersionList>
  {
    var lo := StartOf(s, keyMarker);
    if keyMarker != "" && MatchOf(p, keyMarker).None? then Err(Internal)
    else if keyMarker != "" && lo == |s.objects.keys| then Ok(VersionList([], [], s.objects.keys != []))
    else
      var ks := FromKey(KeyKinds(s, p), lo);
      ListedAs(FromVersion(s, bare, ks, idMarker), ks, max)
  }

  function ListedAs(t: Result<State>, ks: seq<Kind>, max: int): Result<VersionList>
    requires t.Ok? ==> |t.value.objects.keys| == |ks|
  {
    match t
    case Err(e) => Err(e)
    case Ok(t) => Ok(ListKinds(t, ks, max))
  }

  // ---- a limited listing is the start of the whole ----

  lemma {:induction false} EntriesJoin(s: State, ks: seq<Kind>, lo: nat, mid: nat, hi: nat)
    requires lo <= mid <= hi <= |s.objects.keys| == |ks|
    ensures Entries(s, ks, lo, hi) == Entries(s, ks, lo, mid) + Entries(s, ks, mid, hi)
  {
    if mid < hi {
      EntriesJoin(s, ks, lo, mid, hi - 1);
    }
  }

  /** With MaxKeys `max` the listing holds the first `max` entries of the whole; when it
      does not say it is truncated, it is the whole, common prefixes included. */
  lemma LimitedListing(s: State, p: Prefix, max: int)
    requires max > 0
    ensures var (page, whole) := (ListVersions(s, p, max), ListVersions(s, p, 0));
      && whole.versions == Entries(s, KeyKinds(s, p), 0, |s.objects.keys|) && !whole.isTruncated
      && page.versions == whole.versions[..if |whole.versions| < max then |whole.versions| else max]
      && (!page.isTruncated ==> page == whole)
  {
    LimitedKinds(s, KeyKinds(s, p), max);
  }

  lemma LimitedKinds(s: State, ks: seq<Kind>, max: int)
    requires max > 0 && |s.objects.keys| == |ks|
    ensures var (page, whole) := (ListKinds(s, ks, max), ListKinds(s, ks, 0));
      && whole.versions == Entries(s, ks, 0, |ks|) && !whole.isTruncated
      && page.versions == whole.versions[..if |whole.versions| < max then |whole.versions| else max]
      && (!page.isTruncated ==> page == whole)
  {
    var n, hi := |ks|, Visited(s, ks, 0, max);
    EntriesJoin(s, ks, 0, hi, n);
    VisitedEnds(s, ks, 0, max);
    VisitedEnds(s, ks, 0, 0);
    var all, whole := Entries(s, ks, 0, hi), Entries(s, ks, 0, n);
    assert Visited(s, ks, 0, 0) == n;
    if |all| >= max {
      assert whole[..max] == all[..max];
    } else {
      assert hi == n;
    }
    assert |all| == max ==> all[..max] == all;
  }

  // ---- every version once, in order ----

  /** The versions behind the entries. */
  function Listed(s: State, ks: seq<Kind>, hi: nat): seq<Data>
    requires hi <= |s.objects.keys| == |ks|
  {
    if hi == 0 then [] else Listed(s, ks, hi - 1) + ListedAt(s, ks, hi - 1)
  }

  function ListedAt(s: State, ks: seq<Kind>, i: nat): seq<Data>
    requires i < |s.objects.keys| == |ks|
  {
    if ks[i].Item? then VersionSeq(ObjectAt(s, s.objects.keys[i])) else []
  }

  /** Keys ascend, and within a key version ids do. */
  predicate Before(c: Data, d: Data) {
    Less(c.name, d.name) || (c.name == d.name && Less(c.versionID, d.versionID))
  }

  ghost predicate InOrder(ds: seq<Data>) {
    OrderedBy(ds, Before)
  }

  function NameOf(d: Data): string {
    d.name
  }

  ghost predicate AllNamed(ds: seq<Data>, name: string) {
    AllFor(ds, NameOf, name)
  }

  lemma {:induction false} ArchiveSeqIs(x: Index<Data>, i: nat)
    requires Sorted(x) && i <= |x.keys|
    ensures |ArchiveSeq(x, i)| == |x.keys| - i
    ensures forall j :: 0 <= j < |x.keys| - i ==> x.keys[i + j] in x.at && ArchiveSeq(x, i)[j] == x.at[x.keys[i + j]]
    decreases |x.keys| - i
  {
    if i < |x.keys| {
      ArchiveSeqIs(x, i + 1);
      assert x.keys[i] in x.keys;
    }
  }

  /** An object's versions come in order of id, the current one last. */
  lemma VersionSeqInOrder(name: string, o: Obj)
    requires ObjectOK(name, o)
    ensures InOrder(VersionSeq(o)) && AllNamed(VersionSeq(o), name)
    ensures o.data.Some? ==> VersionSeq(o) != [] && VersionSeq(o)[|VersionSeq(o)| - 1] == o.data.value
  {
    ArchiveSeqIs(o.archive, 0);
  }

  lemma VersionSeqMembers(name: string, o: Obj, d: Data)
    requires ObjectOK(name, o)
    ensures d in VersionSeq(o) <==> d.versionID in Versions(o) && Versions(o)[d.versionID] == d
  {
    ArchiveSeqIs(o.archive, 0);
    var x, ds := o.archive, ArchiveSeq(o.archive, 0);
    if o.data.Some? { LessIrreflexive(o.data.value.versionID); }
    if d.versionID in x.at && x.at[d.versionID] == d {
      var j :| 0 <= j < |x.keys| && x.keys[j] == d.versionID;
      assert ds[j] == d;
    }
    if d in ds {
      var j :| 0 <= j < |ds| && ds[j] == d;
      assert x.keys[0 + j] in x.at;
    }
  }

  lemma KeyOK(s: State, i: nat)
    requires StateOK(s) && i < |s.objects.keys|
    ensures ObjectOK(s.objects.keys[i], ObjectAt(s, s.objects.keys[i]))
  {
    assert s.objects.keys[i] in s.objects.keys;
  }

  /** What one key contributes: its versions in order, each with its name. */
  lemma ListedAtKey(s: State, ks: seq<Kind>, i: nat)
    requires StateOK(s) && i < |s.objects.keys| == |ks|
    ensures InOrder(ListedAt(s, ks, i)) && AllNamed(ListedAt(s, ks, i), s.objects.keys[i])
  {
    KeyOK(s, i);
    VersionSeqInOrder(s.objects.keys[i], ObjectAt(s, s.objects.keys[i]));
  }

  lemma ListedAtMembers(s: State, ks: seq<Kind>, i: nat, d: Data)
    requires StateOK(s) && i < |s.objects.keys| == |ks|
    ensures d in ListedAt(s, ks, i) <==>
      s.objects.keys[i] == d.name && ks[i].Item? && Fetchable(s, d.name, d.versionID, d)
  {
    var key := s.objects.keys[i];
    KeyOK(s, i);
    VersionSeqMembers(key, ObjectAt(s, key), d);
    ListedAtKey(s, ks, i);
    if d in ListedAt(s, ks, i) {
      var j :| 0 <= j < |ListedAt(s, ks, i)| && ListedAt(s, ks, i)[j] == d;
    }
  }

  lemma {:induction false} ListedInOrder(s: State, ks: seq<Kind>, hi: nat)
    requires StateOK(s) && hi <= |s.objects.keys| == |ks|
    ensures InOrder(Listed(s, ks, hi)) && KeysBelow(Listed(s, ks, hi), NameOf, s.objects.keys, hi)
  {
    if hi > 0 {
      ListedInOrder(s, ks, hi - 1);
      ListedAtKey(s, ks, hi - 1);
      VersionsJoin(Listed(s, ks, hi - 1), ListedAt(s, ks, hi - 1), s.objects.keys, hi - 1);
    }
  }

  lemma VersionsJoin(front: seq<Data>, back: seq<Data>, keys: seq<string>, hi: nat)
    requires Ascending(keys) && hi < |keys| && KeysBelow(front, NameOf, keys, hi) && AllNamed(back, keys[hi])
    requires InOrder(front) && InOrder(back)
    ensures InOrder(front + back) && KeysBelow(front + back, NameOf, keys, hi + 1)
  {
    OrderJoins(front, back, Before, NameOf, keys, hi);
  }

  lemma {:induction false} ListedMembers(s: State, ks: seq<Kind>, hi: nat, d: Data, wanted: bool)
    requires hi <= |s.objects.keys| == |ks|
    requires forall i :: 0 <= i < |ks| ==> (d in ListedAt(s, ks, i) <==> s.objects.keys[i] == d.name && wanted)
    ensures d in Listed(s, ks, hi) <==> d.name in s.objects.keys[..hi] && wanted
  {
    if hi > 0 {
      ListedMembers(s, ks, hi - 1, d, wanted);
      TakeMember(s.objects.keys, hi, d.name);
    }
  }

  lemma TakeMember(keys: seq<string>, hi: nat, k: string)
    requires 0 < hi <= |keys|
    ensures k in keys[..hi] <==> k in keys[..hi - 1] || k == keys[hi - 1]
  {
    assert keys[..hi] == keys[..hi - 1] + [keys[hi - 1]];
  }

  /** No two are of one key and one version id. */
  ghost predicate Differ(ds: seq<Data>) {
    forall i, j :: 0 <= i < j < |ds| ==> ds[i].name != ds[j].name || ds[i].versionID != ds[j].versionID
  }

  lemma InOrderDiffer(ds: seq<Data>)
    requires InOrder(ds)
    ensures Differ(ds)
  {
    forall i, j | 0 <= i < j < |ds|
      ensures ds[i].name != ds[j].name || ds[i].versionID != ds[j].versionID
    {
      assert Before(ds[i], ds[j]);
      LessIrreflexive(ds[i].name);
      LessIrreflexive(ds[i].versionID);
    }
  }

  /** The listing enumerates every version of every key that matches and is not rolled
      up: exactly those, each once, keys ascending and ids ascending within a key. */
  lemma ListsEveryVersionOnce(s: State, p: Prefix)
    requires StateOK(s)
    ensures var ds := Listed(s, KeyKinds(s, p), |s.objects.keys|);
      && InOrder(ds) && Differ(ds)
      && forall d :: d in ds <==>
           MatchesAsKey(p, d.name) && Fetchable(s, d.name, d.versionID, d)
  {
    var ks, n := KeyKinds(s, p), |s.objects.keys|;
    ListedInOrder(s, ks, n);
    InOrderDiffer(Listed(s, ks, n));
    forall d
      ensures d in Listed(s, ks, n) <==> KeyKind(p, d.name).Item? && Fetchable(s, d.name, d.versionID, d)
    {
      ListedIsFetchable(s, p, d);
    }
  }

  lemma ListedIsFetchable(s: State, p: Prefix, d: Data)
    requires StateOK(s)
    ensures d in Listed(s, KeyKinds(s, p), |s.objects.keys|) <==>
      KeyKind(p, d.name).Item? && Fetchable(s, d.name, d.versionID, d)
  {
    var ks, n := KeyKinds(s, p), |s.objects.keys|;
    var wanted := KeyKind(p, d.name).Item? && Fetchable(s, d.name, d.versionID, d);
    forall i | 0 <= i < n
      ensures d in ListedAt(s, ks, i) <==> s.objects.keys[i] == d.name && wanted
    {
      ListedAtMembers(s, ks, i, d);
    }
    ListedMembers(s, ks, n, d, wanted);
    assert s.objects.keys[..n] == s.objects.keys;
    EmptyIndex(NO_OBJECT.archive);
    if Fetchable(s, d.name, d.versionID, d) {
      assert d.name in s.objects.keys;
    }
  }

  /** The id of a key's current version, if it has one. */
  function LatestId(s: State, key: string): Option<string> {
    if key in s.objects.at && s.objects.at[key].data.Some? then Some(s.objects.at[key].data.value.versionID) else None
  }

  /** An entry shows a version: its key, size, hash and whether it is a delete marker, its
      id unless the bucket was never versioned, and whether it is its key's current one. */
  predicate Shows(s: State, e: VersionItem, d: Data) {
    && e.key == d.name && e.size == |d.body| && e.hash == d.hash && e.deleteMarker == d.deleteMarker
    && e.versionID == (if s.versioning == Never then "" else d.versionID)
    && (e.isLatest <==> LatestId(s, d.name) == Some(d.versionID))
  }

  ghost predicate EntriesShow(s: State, es: seq<VersionItem>, ds: seq<Data>) {
    |es| == |ds| && forall i :: 0 <= i < |es| ==> Shows(s, es[i], ds[i])
  }

  /** Only the current version has the current version's id. */
  lemma ItemShows(s: State, name: string, d: Data)
    requires name in s.objects.at && ObjectOK(name, s.objects.at[name]) && d in VersionSeq(s.objects.at[name])
    ensures Shows(s, ItemOf(s.versioning, s.objects.at[name], d), d)
  {
    var o := s.objects.at[name];
    VersionSeqMembers(name, o, d);
    VersionSeqInOrder(name, o);
    var j :| 0 <= j < |VersionSeq(o)| && VersionSeq(o)[j] == d;
    if o.data.Some? { LessIrreflexive(o.data.value.versionID); }
  }

  lemma {:induction false} ItemsOfShow(versioning: Versioning, o: Obj, ds: seq<Data>)
    ensures |ItemsOf(versioning, o, ds)| == |ds|
    ensures forall i :: 0 <= i < |ds| ==> ItemsOf(versioning, o, ds)[i] == ItemOf(versioning, o, ds[i])
  {
    if ds != [] {
      ItemsOfShow(versioning, o, ds[..|ds| - 1]);
    }
  }

  lemma EntriesAtShow(s: State, ks: seq<Kind>, i: nat)
    requires StateOK(s) && i < |s.objects.keys| == |ks|
    ensures EntriesShow(s, EntriesAt(s, ks, i), ListedAt(s, ks, i))
  {
    var key := s.objects.keys[i];
    var o := ObjectAt(s, key);
    KeyOK(s, i);
    assert key in s.objects.keys;
    assert o == s.objects.at[key];
    ItemsShow(s, key, VersionSeq(o));
  }

  lemma ItemsShow(s: State, key: string, ds: seq<Data>)
    requires key in s.objects.at && ObjectOK(key, s.objects.at[key]) &&
      forall d :: d in ds ==> d in VersionSeq(s.objects.at[key])
    ensures EntriesShow(s, ItemsOf(s.versioning, s.objects.at[key], ds), ds)
  {
    ItemsOfShow(s.versioning, s.objects.at[key], ds);
    forall i | 0 <= i < |ds|
      ensures Shows(s, ItemOf(s.versioning, s.objects.at[key], ds[i]), ds[i])
    {
      assert ds[i] in ds;
      ItemShows(s, key, ds[i]);
    }
  }

  lemma ShowJoins(s: State, es: seq<VersionItem>, fs: seq<VersionItem>, ds: seq<Data>, cs: seq<Data>)
    requires EntriesShow(s, es, ds) && EntriesShow(s, fs, cs)
    ensures EntriesShow(s, es + fs, ds + cs)
  {
  }

  /** Entry by entry the listing shows those versions. */
  lemma EntriesShowVersions(s: State, ks: seq<Kind>)
    requires StateOK(s) && |s.objects.keys| == |ks|
    ensures EntriesShow(s, Entries(s, ks, 0, |ks|), Listed(s, ks, |ks|))
  {
    forall i | 0 <= i < |ks|
      ensures EntriesShow(s, EntriesAt(s, ks, i), ListedAt(s, ks, i))
    {
      EntriesAtShow(s, ks, i);
    }
    AllEntriesShow(s, ks, |ks|);
  }

  lemma {:induction false} AllEntriesShow(s: State, ks: seq<Kind>, hi: nat)
    requires hi <= |s.objects.keys| == |ks| &&
      forall i :: 0 <= i < |ks| ==> EntriesShow(s, EntriesAt(s, ks, i), ListedAt(s, ks, i))
    ensures EntriesShow(s, Entries(s, ks, 0, hi), Listed(s, ks, hi))
  {
    if hi > 0 {
      AllEntriesShow(s, ks, hi - 1);
      ShowJoins(s, Entries(s, ks, 0, hi - 1), EntriesAt(s, ks, hi - 1), Listed(s, ks, hi - 1), ListedAt(s, ks, hi - 1));
    }
  }

  /** One entry of each key that has a current version is marked as latest, the last. */
  lemma LatestExactly(s: State, p: Prefix, i: nat)
    requires StateOK(s) && i < |Entries(s, KeyKinds(s, p), 0, |s.objects.keys|)|
    ensures var es := Entries(s, KeyKinds(s, p), 0, |s.objects.keys|);
      es[i].isLatest <==> LatestId(s, es[i].key).Some? && (i + 1 == |es| || es[i + 1].key != es[i].key)
  {
    var ks, n := KeyKinds(s, p), |s.objects.keys|;
    var es, ds := Entries(s, ks, 0, n), Listed(s, ks, n);
    EntriesShowVersions(s, ks);
    ListsEveryVersionOnce(s, p);
    var d := ds[i];
    if LatestId(s, d.name).Some? {
      var c := s.objects.at[d.name].data.value;
      assert Shows(s, es[i], d) && d in ds;
      CurrentIsLatest(s, d, c);
      assert c in ds;
      LastOfKey(ds, i, c);
      assert i + 1 < |es| ==> Shows(s, es[i + 1], ds[i + 1]);
      if i + 1 < |ds| {
        assert ds[i + 1] in ds;
        if ds[i + 1].name == d.name {
          CurrentIsLatest(s, ds[i + 1], c);
        }
      }
    }
  }

  /** No version of a key is newer than its current one. */
  lemma CurrentIsLatest(s: State, d: Data, c: Data)
    requires StateOK(s) && Fetchable(s, d.name, d.versionID, d)
    requires d.name in s.objects.at && s.objects.at[d.name].data == Some(c)
    ensures c.name == d.name && Fetchable(s, c.name, c.versionID, c) && (d == c || Less(d.versionID, c.versionID))
    ensures d.versionID == c.versionID <==> d == c
  {
    LessIrreflexive(c.versionID);
  }

  /** In an ordered listing, the newest version of a key is the last of that key. */
  lemma LastOfKey(ds: seq<Data>, i: nat, c: Data)
    requires InOrder(ds) && i < |ds| && c in ds && c.name == ds[i].name
    requires forall d :: d in ds && d.name == c.name ==> d == c || Less(d.versionID, c.versionID)
    ensures ds[i] == c <==> i + 1 == |ds| || ds[i + 1].name != ds[i].name
  {
    var k :| 0 <= k < |ds| && ds[k] == c;
    LessIrreflexive(c.name);
    LessIrreflexive(c.versionID);
    if k < i {
      assert Before(c, ds[i]) && ds[i] in ds;
      NewerNotOlder(c, ds[i]);
    } else if k == i && i + 1 < |ds| {
      assert Before(c, ds[i + 1]) && ds[i + 1] in ds;
      NewerNotOlder(c, ds[i + 1]);
    } else if i + 1 < k {
      assert Before(ds[i], ds[i + 1]) && Before(ds[i + 1], c);
      if Less(ds[i].name, ds[i + 1].name) { LessAsymmetric(ds[i].name, ds[i + 1].name); }
    }
  }

  lemma NewerNotOlder(c: Data, d: Data)
    requires Before(c, d)
    ensures c.name == d.name ==> d != c && !Less(d.versionID, c.versionID)
  {
    LessIrreflexive(c.name);
    LessIrreflexive(c.versionID);
    if Less(c.versionID, d.versionID) { LessAsymmetric(c.versionID, d.versionID); }
  }

  // ---- the common prefixes of a version listing ----

  lemma {:induction false} RolledAre(ks: seq<Kind>, hi: nat, q: string)
    requires hi <= |ks|
    ensures q in Rolled(ks, hi) <==> RolledIn(ks, 0, hi, q)
  {
    if hi > 0 {
      RolledAre(ks, hi - 1, q);
      assert RolledIn(ks, 0, hi, q) <==> RolledIn(ks, 0, hi - 1, q) || ks[hi - 1] == Roll(q);
    }
  }

  lemma {:induction false} RolledOnce(ks: seq<Kind>, hi: nat)
    requires hi <= |ks|
    ensures EachOnce(Rolled(ks, hi))
  {
    if hi > 0 {
      RolledOnce(ks, hi - 1);
    }
  }

  /** The whole listing has each common prefix of a key of the bucket, deleted or not, once. */
  lemma VersionPrefixesExactly(s: State, p: Prefix, q: string)
    requires Sorted(s.objects)
    ensures var all := ListVersions(s, p, 0).commonPrefixes;
      && EachOnce(all)
      && (q in all <==>
          exists key :: key in s.objects.at && MatchesAsPart(p, key, q))
  {
    var ks := KeyKinds(s, p);
    VisitedEnds(s, ks, 0, 0);
    RolledAre(ks, |ks|, q);
    RolledOnce(ks, |ks|);
    if key :| key in s.objects.at && MatchesAsPart(p, key, q) {
      assert key in s.objects.keys;
      var i :| 0 <= i < |ks| && s.objects.keys[i] == key;
      assert ks[i] == Roll(q);
    }
    if i :| 0 <= i < |ks| && ks[i] == Roll(q) {
      assert s.objects.keys[i] in s.objects.keys;
    }
  }
}
