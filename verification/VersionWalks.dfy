/** The listing loop over the versions of a bucket: ListBucketVersions. */
module VersionWalks {
  import opened Basics
  import opened Order
  import opened SortedIndex
  import opened Prefixes
  import opened BucketModel
  import opened Buckets
  import opened Listing
  import opened VersionListing
  import opened BucketListings

  /** bucketObjectIterator: the archived versions in order, then the current one.  The
      skiplist iterator inside it is given by the archive and its position there; there is
      none where no version was ever archived. */
  class VersionIterator {
    const archive: Index<Data>
    var data: Option<Data>
    var iter: Option<int>
    var cur: Option<Data>
    var done: bool

    constructor (o: Obj, archived: bool)
      requires archived || o.archive.keys == []
      ensures Valid() && Left() == VersionSeq(o) && Begins(o, archived)
    {
      archive, data, iter, cur, done := o.archive, o.data, if archived then Some(-1) else None, None, false;
    }

    ghost predicate Valid()
      reads this
    {
      (iter.Some? ==> -1 <= iter.value && !done) && (done ==> iter.None? && data.None?)
    }

    /** Nothing has been given yet. */
    ghost predicate Begins(o: Obj, archived: bool)
      reads this
    {
      archive == o.archive && data == o.data && iter == (if archived then Some(-1) else None) && !done
    }

    /** The versions still to be given. */
    ghost function Left(): seq<Data>
      requires Valid()
      reads this
    {
      (if iter.Some? then ArchiveSeq(archive, iter.value + 1) else []) + if data.Some? then [data.value] else []
    }

    method Next() returns (ok: bool)
      requires Valid() && Sorted(archive)
      modifies this
      ensures Valid() && ok == (old(Left()) != [])
      ensures Left() == if ok then old(Left())[1..] else []
      ensures ok ==> cur == Some(old(Left())[0])
    {
      if done { return false; }
      if iter.Some? {
        var next := iter.value + 1;
        if next < |archive.keys| {
          assert archive.keys[next] in archive.keys;
          iter, cur := Some(next), Some(archive.at[archive.keys[next]]);
          return true;
        }
        iter := None;
      }
      if data.Some? {
        cur, data := data, None;
        return true;
      }
      done := true;
      ok := false;
    }

    /** An iterator at its beginning seeks a version id; without an archive it panics. */
    method Seek(id: string, ghost o: Obj, ghost archived: bool) returns (r: Result<bool>)
      requires Valid() && Begins(o, archived)
      modifies this
      ensures Valid() && r == if archived then Ok(Sought(o, id).Some?) else Err(Panic)
      ensures r == Ok(true) ==> Left() == VersionSeq(Sought(o, id).value)
    {
      if iter.None? { return Err(Panic); }
      var at := Rank(archive.keys, id);
      if at < |archive.keys| {
        iter := Some(at);
        TailSeq(archive, at + 1, 0);
        return Ok(true);
      }
      iter := None;
      if data.Some? && data.value.versionID == id { return Ok(true); }
      data, done := None, true;
      r := Ok(false);
    }
  }

  lemma {:induction false} ItemsOfPrefix(versioning: Versioning, o: Obj, ds: seq<Data>, k: nat)
    requires k < |ds|
    ensures ItemsOf(versioning, o, ds[..k + 1]) == ItemsOf(versioning, o, ds[..k]) + [ItemOf(versioning, o, ds[k])]
  {
    assert ds[..k + 1][..k] == ds[..k];
  }

  lemma {:induction false} ItemsOfCut(versioning: Versioning, o: Obj, ds: seq<Data>, k: nat)
    requires k <= |ds|
    ensures |ItemsOf(versioning, o, ds)| == |ds|
    ensures ItemsOf(versioning, o, ds)[..k] == ItemsOf(versioning, o, ds[..k])
  {
    ItemsOfShow(versioning, o, ds);
    ItemsOfShow(versioning, o, ds[..k]);
  }

  /** The items of a result once the first `k` of an object's versions are added. */
  ghost function AddedUpTo(versioning: Versioning, o: Obj, before: seq<VersionItem>, vs: seq<Data>, k: nat):
    seq<VersionItem>
    requires k <= |vs|
  {
    before + ItemsOf(versioning, o, vs[..k])
  }

  lemma AddedOne(versioning: Versioning, o: Obj, before: seq<VersionItem>, vs: seq<Data>, k: nat)
    requires k < |vs|
    ensures AddedUpTo(versioning, o, before, vs, k + 1) ==
      AddedUpTo(versioning, o, before, vs, k) + [ItemOf(versioning, o, vs[k])]
  {
    ItemsOfPrefix(versioning, o, vs, k);
  }

  /** An iterator that has given the first `k` versions of `vs`. */
  ghost predicate Goes(versions: VersionIterator, vs: seq<Data>, k: nat)
    requires k <= |vs|
    reads versions
  {
    versions.Valid() && Sorted(versions.archive) && versions.Left() == vs[k..]
  }

  method NextVersion(versions: VersionIterator, ghost vs: seq<Data>, ghost k: nat) returns (d: Option<Data>)
    requires k <= |vs| && Goes(versions, vs, k)
    modifies versions
    ensures d == if k < |vs| then Some(vs[k]) else None
    ensures k < |vs| ==> Goes(versions, vs, k + 1)
  {
    var more := versions.Next();
    if !more { return None; }
    d := versions.cur;
  }

  /** The inner loop: entries for what an iterator over an object's versions has left, `k`
      of them, are added until the limit is reached. */
  method AddVersions(versioning: Versioning, o: Obj, versions: VersionIterator, before: seq<VersionItem>, max: int,
                     cnt: nat, ghost vs: seq<Data>)
    returns (items: seq<VersionItem>, cnt': nat, full: bool, truncated: bool, ghost k: nat)
    requires Goes(versions, vs, 0) && (max <= 0 || cnt < max)
    modifies versions
    ensures cnt' == cnt + k && k <= |vs| && items == AddedUpTo(versioning, o, before, vs, k)
    ensures truncated == (full && k < |vs|)
    ensures if full then 0 < max == cnt' else k == |vs| && (max <= 0 || cnt' < max)
  {
    items, cnt', k := before, cnt, 0;
    assert before + [] == before;
    while true
      invariant k <= |vs| && Goes(versions, vs, k)
      invariant cnt' == cnt + k && (max <= 0 || cnt' < max) && items == AddedUpTo(versioning, o, before, vs, k)
      decreases |vs| - k
    {
      var version := NextVersion(versions, vs, k);
      if version.None? {
        return items, cnt', false, false, k;
      }
      AddedOne(versioning, o, before, vs, k);
      items := items + [ItemOf(versioning, o, version.value)];
      cnt', k := cnt' + 1, k + 1;
      if max > 0 && cnt' >= max {
        version := NextVersion(versions, vs, k);
        return items, cnt', true, version.Some?, k;
      }
    }
  }

  /** What the outer loop has gathered before key `h`, if it goes on at least to `h`. */
  ghost function VersionsSoFar(s: State, ks: seq<Kind>, max: int, h: nat): Option<(seq<VersionItem>, seq<string>)>
    requires |ks| == |s.objects.keys|
  {
    if h <= |ks| && Visited(s, ks, 0, max) == Visited(s, ks, h, max)
    then Some((Entries(s, ks, 0, h), Rolled(ks, h)))
    else None
  }

  /** What an object adds to the entries. */
  ghost function Extended(s: State, key: string, k: Kind, es: seq<VersionItem>): seq<VersionItem> {
    var o := ObjectAt(s, key);
    if k.Item? then AddedUpTo(s.versioning, o, es, VersionSeq(o), |VersionSeq(o)|) else es
  }

  ghost function ExtendedPrefixes(k: Kind, ps: seq<string>): seq<string> {
    if k.Roll? then Listing.AddPrefix(ps, k.part) else ps
  }

  lemma ExtendedEntries(s: State, ks: seq<Kind>, h: nat)
    requires h < |s.objects.keys| == |ks|
    ensures Entries(s, ks, 0, h + 1) == Extended(s, s.objects.keys[h], ks[h], Entries(s, ks, 0, h))
  {
    var vs := VersionSeq(ObjectAt(s, s.objects.keys[h]));
    assert vs[..|vs|] == vs;
  }

  lemma VersionsStep(s: State, ks: seq<Kind>, max: int, h: nat, es: seq<VersionItem>, ps: seq<string>)
    requires h < |s.objects.keys| == |ks| && VersionsSoFar(s, ks, max, h) == Some((es, ps)) && (max <= 0 || |es| < max)
    ensures VersionsSoFar(s, ks, max, h + 1) ==
      Some((Extended(s, s.objects.keys[h], ks[h], es), ExtendedPrefixes(ks[h], ps)))
  {
    ExtendedEntries(s, ks, h);
  }

  lemma VersionsExhausted(s: State, ks: seq<Kind>, max: int, es: seq<VersionItem>, ps: seq<string>)
    requires |s.objects.keys| == |ks| && VersionsSoFar(s, ks, max, |ks|) == Some((es, ps)) && (max <= 0 || |es| < max)
    ensures ListKinds(s, ks, max) == VersionList(es, ps, false)
  {
  }

  lemma AddedCut(versioning: Versioning, o: Obj, es: seq<VersionItem>, vs: seq<Data>, k: nat)
    requires k <= |vs|
    ensures var all := AddedUpTo(versioning, o, es, vs, |vs|);
      |all| == |es| + |vs| && all[..|es| + k] == AddedUpTo(versioning, o, es, vs, k)
  {
    assert vs[..|vs|] == vs;
    ItemsOfCut(versioning, o, vs, k);
    FullCut(es, ItemsOf(versioning, o, vs), k);
  }

  lemma FullCut(es: seq<VersionItem>, fs: seq<VersionItem>, k: nat)
    requires k <= |fs|
    ensures (es + fs)[..|es| + k] == es + fs[..k]
  {
  }

  /** The listing is full once the entries before key `h + 1` begin with `front`. */
  lemma VersionsFull(s: State, ks: seq<Kind>, max: int, h: nat, es: seq<VersionItem>, all: seq<VersionItem>,
                     ps: seq<string>, front: seq<VersionItem>)
    requires h < |s.objects.keys| == |ks| && VersionsSoFar(s, ks, max, h) == Some((es, ps)) && |es| < max <= |all|
    requires Entries(s, ks, 0, h + 1) == all && all[..max] == front && !ks[h].Roll?
    ensures ListKinds(s, ks, max) == VersionList(front, ps, max < |all| || h + 1 < |ks|)
  {
    assert Visited(s, ks, h + 1, max) == h + 1;
  }

  /** What a visited object comes to: the items after it, and a prefix to add. */
  datatype Visit = Visit(items: seq<VersionItem>, part: Option<string>, cnt: nat, full: bool, truncated: bool)

  ghost function VisitedPrefixes(ps: seq<string>, v: Visit): seq<string> {
    if v.part.Some? then Listing.AddPrefix(ps, v.part.value) else ps
  }

  /** After a visit the loop goes on, or the listing is as given, but for what follows. */
  ghost function AfterVisit(s: State, ks: seq<Kind>, max: int, h: nat, v: Visit):
    Option<(seq<VersionItem>, seq<string>)>
    requires h < |s.objects.keys| == |ks|
  {
    var whole := ListKinds(s, ks, max);
    if v.full then
      if v.part.None? && whole.isTruncated == (v.truncated || h + 1 < |ks|) then
        Some((whole.versions, whole.commonPrefixes)) else None
    else if v.cnt == |v.items| && (max <= 0 || v.cnt < max) then VersionsSoFar(s, ks, max, h + 1)
    else None
  }

  /** An object's versions, from a version-id marker on. */
  method OpenVersions(obj: BucketObject, id: string) returns (r: Result<VersionIterator>)
    requires Sorted(obj.Contents().archive)
    ensures var o := Opened(obj.Contents(), obj.versions.Some?, id);
      if o.Err? then r == Err(o.error) else r.Ok? && fresh(r.value) && Goes(r.value, VersionSeq(o.value), 0)
  {
    var o := obj.Contents();
    var versions := new VersionIterator(o, obj.versions.Some?);
    if id != "" {
      var found := versions.Seek(id, o, obj.versions.Some?);
      if found.Err? { return Err(found.error); }
      if !found.value { return Err(Internal); }
    }
    r := Ok(versions);
  }

  lemma OpenedData(o: Obj, archived: bool, id: string)
    ensures Opened(o, archived, id).Ok? ==> Opened(o, archived, id).value.data == o.data
  {
  }

  /** The versions of one object of the listing. */
  method AddItem(obj: BucketObject, id: string, before: seq<VersionItem>, cnt: nat, max: int, versioning: Versioning,
                 ghost s: State, ghost ks: seq<Kind>, ghost h: nat, ghost ps: seq<string>, ghost op: Result<Obj>)
    returns (v: Result<Visit>)
    requires h < |s.objects.keys| == |ks| && Sorted(obj.Contents().archive) && s.versioning == versioning
    requires op == Opened(obj.Contents(), obj.versions.Some?, id) &&
      (op.Ok? ==> op.value == ObjectAt(s, s.objects.keys[h]))
    requires cnt == |before| && (max <= 0 || cnt < max) && ks[h].Item? &&
      VersionsSoFar(s, ks, max, h) == Some((before, ps))
    ensures if op.Err? then v == Err(op.error)
            else v.Ok? && AfterVisit(s, ks, max, h, v.value) == Some((v.value.items, VisitedPrefixes(ps, v.value)))
  {
    OpenedData(obj.Contents(), obj.versions.Some?, id);
    var versions := OpenVersions(obj, id);
    if versions.Err? { return Err(versions.error); }
    var visit := AddAll(obj.Contents(), versions.value, before, cnt, max, versioning, s, ks, h, ps);
    v := Ok(visit);
  }

  method AddAll(o: Obj, versions: VersionIterator, before: seq<VersionItem>, cnt: nat, max: int,
                versioning: Versioning, ghost s: State, ghost ks: seq<Kind>, ghost h: nat, ghost ps: seq<string>)
    returns (v: Visit)
    requires h < |s.objects.keys| == |ks| && o.data == ObjectAt(s, s.objects.keys[h]).data && s.versioning == versioning
    requires Goes(versions, VersionSeq(ObjectAt(s, s.objects.keys[h])), 0)
    requires cnt == |before| && (max <= 0 || cnt < max) && ks[h].Item? &&
      VersionsSoFar(s, ks, max, h) == Some((before, ps))
    modifies versions
    ensures AfterVisit(s, ks, max, h, v) == Some((v.items, VisitedPrefixes(ps, v)))
  {
    ghost var u := ObjectAt(s, s.objects.keys[h]);
    ghost var vs := VersionSeq(u);
    var items, cnt', full, truncated;
    ghost var k;
    items, cnt', full, truncated, k := AddVersions(versioning, o, versions, before, max, cnt, vs);
    SameItems(versioning, o, u, vs[..k]);
    v := Visit(items, None, cnt', full, truncated);
    ItemVisited(s, ks, max, h, before, ps, vs, k, v);
  }

  lemma ItemVisited(s: State, ks: seq<Kind>, max: int, h: nat, before: seq<VersionItem>, ps: seq<string>,
                    vs: seq<Data>, k: nat, v: Visit)
    requires h < |s.objects.keys| == |ks| && ks[h].Item? && VersionsSoFar(s, ks, max, h) == Some((before, ps))
    requires vs == VersionSeq(ObjectAt(s, s.objects.keys[h])) && k <= |vs|
    requires v.items == AddedUpTo(s.versioning, ObjectAt(s, s.objects.keys[h]), before, vs, k) && v.part.None?
    requires v.cnt == |before| + k && v.truncated == (v.full && k < |vs|) && (max <= 0 || |before| < max)
    requires if v.full then 0 < max == v.cnt else k == |vs| && (max <= 0 || v.cnt < max)
    ensures AfterVisit(s, ks, max, h, v) == Some((v.items, ps))
  {
    var u := ObjectAt(s, s.objects.keys[h]);
    AddedCut(s.versioning, u, before, vs, k);
    if v.full {
      ExtendedEntries(s, ks, h);
      VersionsFull(s, ks, max, h, before, AddedUpTo(s.versioning, u, before, vs, |vs|), ps, v.items);
    } else {
      VersionsStep(s, ks, max, h, before, ps);
    }
  }

  /** One object of the listing. */
  method VisitObject(obj: BucketObject, id: string, versioning: Versioning, p: Prefix, before: seq<VersionItem>,
                     cnt: nat, max: int, ghost s: State, ghost ks: seq<Kind>, ghost h: nat, ghost ps: seq<string>,
                     ghost op: Result<Obj>)
    returns (v: Result<Visit>, listed: bool)
    requires h < |s.objects.keys| == |ks| && Sorted(obj.Contents().archive) && s.versioning == versioning
    requires op == Opened(obj.Contents(), obj.versions.Some?, id) &&
      (ks[h].Item? && op.Ok? ==> op.value == ObjectAt(s, s.objects.keys[h]))
    requires cnt == |before| && (max <= 0 || cnt < max) && ks[h] == KeyKind(p, obj.name) &&
      VersionsSoFar(s, ks, max, h) == Some((before, ps))
    ensures listed == ks[h].Item? && (v.Ok? && v.value.full ==> listed)
    ensures if listed && op.Err? then v == Err(op.error)
            else v.Ok? && AfterVisit(s, ks, max, h, v.value) == Some((v.value.items, VisitedPrefixes(ps, v.value)))
  {
    var m := Match(p, obj.name);
    listed := m.Some? && !m.value.commonPrefix;
    if listed {
      v := AddItem(obj, id, before, cnt, max, versioning, s, ks, h, ps, op);
    } else {
      VersionsStep(s, ks, max, h, before, ps);
      v := Ok(Visit(before, if m.Some? then Some(m.value.matchedPart) else None, cnt, false, false));
    }
  }

  /** The keys of the objects that never had a version archived. */
  ghost function Bare(b: Bucket): set<string>
    reads b, b.objects.at.Values
  {
    set k | k in b.objects.at && b.objects.at[k].versions.None?
  }

  lemma BareObjects(b: Bucket)
    ensures BareOK(b.View(), Bare(b))
  {
  }

  /** What is to be listed: the bucket is in state `s`, and from the version-id marker on
      it is to be listed as if it were in state `t`, unless that is an error. */
  datatype Task = Task(s: State, bare: set<string>, ks: seq<Kind>, id: string, t: State, bad: Option<Error>)
  {
    ghost predicate Sane() {
      && |ks| == |s.objects.keys| && t.objects.keys == s.objects.keys && t.versioning == s.versioning
      && FromVersion(s, bare, ks, id) == (if bad.Some? then Err(bad.value) else Ok(t)) && (bad.Some? ==> t == s)
    }

    /** The loop is before key `h`, and has listed no object yet if `first`. */
    ghost predicate Stage(h: nat, first: bool)
      requires Sane()
    {
      h <= |ks| && first == (h <= FirstItem(ks, 0)) && (!first ==> bad.None?)
    }

    function Wanted(max: int): Result<VersionList>
      requires |ks| == |t.objects.keys|
    {
      if bad.Some? then Err(bad.value) else Ok(ListKinds(t, ks, max))
    }
  }

  lemma NewTask(s: State, bare: set<string>, ks: seq<Kind>, id: string) returns (w: Task)
    requires |ks| == |s.objects.keys|
    ensures w.Sane() && w.Stage(0, true) && w.s == s && w.bare == bare && w.ks == ks && w.id == id
    ensures forall max :: w.Wanted(max) == ListedAs(FromVersion(s, bare, ks, id), ks, max)
  {
    var r := FromVersion(s, bare, ks, id);
    w := Task(s, bare, ks, id, if r.Ok? then r.value else s, if r.Ok? then None else Some(r.error));
  }

  /** An object that is listed is opened as it is to be listed. */
  lemma OpensAs(w: Task, h: nat, first: bool)
    requires w.Sane() && w.Stage(h, first) && h < |w.ks| && w.ks[h].Item? && Sorted(w.s.objects)
    ensures var key := w.s.objects.keys[h];
      Opened(ObjectAt(w.s, key), key !in w.bare, if first then w.id else "") ==
      if w.bad.Some? then Err(w.bad.value) else Ok(ObjectAt(w.t, key))
  {
    if !first {
      var keys, f := w.s.objects.keys, FirstItem(w.ks, 0);
      assert keys[f] != keys[h] by {
        if keys[f] == keys[h] { AscendingDistinct(keys, f, h); }
      }
    }
  }

  lemma StageNext(w: Task, h: nat, first: bool)
    requires w.Sane() && w.Stage(h, first) && h < |w.ks| && (w.ks[h].Item? ==> w.bad.None?)
    ensures w.Stage(h + 1, first && !w.ks[h].Item?)
  {
  }

  /** If no object is listed there is no error. */
  lemma StageEnds(w: Task, first: bool)
    requires w.Sane() && w.Stage(|w.ks|, first)
    ensures w.bad.None?
  {
  }

  /** The outer loop, wherever it stands. */
  datatype VersionLoop = VersionLoop(w: Task, max: int, b: Bucket, iter: Iterator<BucketObject>,
                                     response: Results<VersionItem>)
  {
    /** The position of the next object, while the bucket is as it was. */
    ghost function Next(): Option<int>
      reads b, b.objects.at.Values, iter, iter.inner
    {
      if Shown(b) == Some(w.s) && Bare(b) == w.bare && !(iter.didSeek && !iter.seekWasOK) then Over(b, iter) else None
    }

    /** The same, with the objects before it listed and the limit not reached. */
    ghost function At(cnt: nat): Option<int>
      requires |w.ks| == |w.t.objects.keys|
      reads b, b.objects.at.Values, iter, iter.inner, response
    {
      if && response.Valid() && cnt == |response.items| && (max <= 0 || cnt < max)
         && Next().Some? && Next().value >= 0
         && VersionsSoFar(w.t, w.ks, max, Next().value) == Some((response.items, response.commonPrefixes))
      then Next()
      else None
    }
  }

  method TakeVisit(response: Results<VersionItem>, v: Visit, ghost lp: VersionLoop, ghost h: nat)
    requires h < |lp.w.t.objects.keys| == |lp.w.ks| && lp.response == response && lp.Next() == Some(h + 1) &&
      response.Valid() && !v.full
    requires AfterVisit(lp.w.t, lp.w.ks, lp.max, h, v) == Some((v.items, VisitedPrefixes(response.commonPrefixes, v)))
    modifies response
    ensures lp.At(v.cnt) == Some(h + 1)
  {
    Take(response, v);
  }

  method Take(response: Results<VersionItem>, v: Visit)
    requires response.Valid()
    modifies response
    ensures response.Valid() && response.items == v.items
    ensures response.commonPrefixes == VisitedPrefixes(old(response.commonPrefixes), v)
  {
    response.items := v.items;
    if v.part.Some? {
      response.AddPrefix(v.part.value);
    }
  }

  ghost predicate ArchivesSorted(s: State) {
    forall h :: 0 <= h < |s.objects.keys| ==> ArchiveSorted(s, h)
  }

  ghost predicate ArchiveSorted(s: State, h: nat)
    requires h < |s.objects.keys|
  {
    Sorted(ObjectAt(s, s.objects.keys[h]).archive)
  }

  lemma ArchivesAreSorted(s: State)
    requires StateOK(s)
    ensures ArchivesSorted(s) && Sorted(s.objects)
  {
    forall h | 0 <= h < |s.objects.keys|
      ensures ArchiveSorted(s, h)
    {
      KeyOK(s, h);
    }
  }

  /** Whether a name is sorted as the object at `h` is. */
  ghost predicate SameKind(p: Prefix, name: string, s: State, ks: seq<Kind>, h: nat) {
    h < |s.objects.keys| == |ks| && ks[h] == KeyKind(p, name) && Sorted(ObjectAt(s, s.objects.keys[h]).archive)
  }

  lemma KindAt(p: Prefix, s: State, ks: seq<Kind>, lo: nat, h: nat)
    requires ks == FromKey(KeyKinds(s, p), lo) && ArchivesSorted(s) && lo <= h < |ks|
    ensures SameKind(p, s.objects.keys[h], s, ks, h)
  {
    assert ArchiveSorted(s, h);
  }

  /** Moves to the next object of the loop, the one at `h`. */
  method Advance(b: Bucket, iter: Iterator<BucketObject>, ghost lp: VersionLoop, ghost h: nat)
    returns (item: Option<BucketObject>)
    requires lp.b == b && lp.iter == iter && lp.Next() == Some(h)
    modifies iter, iter.inner
    ensures item.Some? == (h < |lp.w.s.objects.keys|) && lp.Next() == Some(if item.Some? then h + 1 else h)
    ensures item.Some? ==>
      IsObject(item.value, lp.w.s, h) && (item.value.name in lp.w.bare <==> item.value.versions.None?)
  {
    item := NextIn(b, iter, lp.w.s, h);
  }

  /** The next object is visited, if there is one; else the listing is whole. */
  method VisitNext(b: Bucket, iter: Iterator<BucketObject>, response: Results<VersionItem>, p: Prefix, max: int,
                   cnt: nat, id: string, ghost lp: VersionLoop, ghost lo: nat, ghost h: nat, first: bool)
    returns (v: Option<Result<Visit>>, listed: bool)
    requires lp == VersionLoop(lp.w, max, b, iter, response) && lp.w.Sane() && lp.w.id == id && lp.At(cnt) == Some(h)
    requires lp.w.Stage(h, first) && lo <= h
    requires lp.w.ks == FromKey(KeyKinds(lp.w.s, p), lo) && ArchivesSorted(lp.w.s)
    modifies iter, iter.inner
    ensures response.Valid() && h <= |lp.w.ks| && v.Some? == (h < |lp.w.ks|)
    ensures if v.None? then
              lp.Next() == Some(h) && lp.w.bad.None? &&
                ListKinds(lp.w.t, lp.w.ks, max) == VersionList(response.items, response.commonPrefixes, false)
            else if v.value.Err? then lp.w.bad == Some(v.value.error)
            else
              lp.Next() == Some(h + 1) && lp.w.Stage(h + 1, first && !listed) &&
              (v.value.value.full ==> lp.w.bad.None?) &&
              AfterVisit(lp.w.t, lp.w.ks, max, h, v.value.value) ==
                Some((v.value.value.items, VisitedPrefixes(response.commonPrefixes, v.value.value)))
  {
    var item := Advance(b, iter, lp, h);
    if item.None? {
      StageEnds(lp.w, first);
      VersionsExhausted(lp.w.t, lp.w.ks, max, response.items, response.commonPrefixes);
      return None, false;
    }
    KindAt(p, lp.w.s, lp.w.ks, lo, h);
    var visit;
    visit, listed := VisitAt(item.value, if first then id else "", b.versioning, p, response.items, cnt, max, lp.w, h,
                             first, response.commonPrefixes);
    v := Some(visit);
  }

  /** The object at `h`, from the version-id marker on if it is the first to be listed. */
  method VisitAt(obj: BucketObject, id: string, versioning: Versioning, p: Prefix, before: seq<VersionItem>, cnt: nat,
                 max: int, ghost w: Task, ghost h: nat, ghost first: bool, ghost ps: seq<string>)
    returns (v: Result<Visit>, listed: bool)
    requires w.Sane() && w.Stage(h, first) && h < |w.ks| && Sorted(w.s.objects) && w.s.versioning == versioning
    requires IsObject(obj, w.s, h) && SameKind(p, obj.name, w.s, w.ks, h)
    requires (obj.name in w.bare <==> obj.versions.None?) && id == if first then w.id else ""
    requires cnt == |before| && (max <= 0 || cnt < max) && VersionsSoFar(w.t, w.ks, max, h) == Some((before, ps))
    ensures if v.Err? then w.bad == Some(v.error)
            else w.Stage(h + 1, first && !listed) && (v.value.full ==> w.bad.None?) &&
                 AfterVisit(w.t, w.ks, max, h, v.value) == Some((v.value.items, VisitedPrefixes(ps, v.value)))
  {
    ghost var op := Opened(obj.Contents(), obj.versions.Some?, id);
    if w.ks[h].Item? {
      OpensAs(w, h, first);
    }
    v, listed := VisitObject(obj, id, versioning, p, before, cnt, max, w.t, w.ks, h, ps, op);
    if v.Ok? {
      StageNext(w, h, first);
    }
  }

  /** The listing is full: whether anything follows. */
  method Filled(b: Bucket, iter: Iterator<BucketObject>, prefixes: seq<string>, v: Visit, ghost lp: VersionLoop,
                ghost h: nat)
    returns (r: VersionList)
    requires lp.b == b && lp.iter == iter && h < |lp.w.ks| == |lp.w.t.objects.keys| == |lp.w.s.objects.keys|
    requires lp.Next() == Some(h + 1) && v.full
    requires AfterVisit(lp.w.t, lp.w.ks, lp.max, h, v) == Some((v.items, VisitedPrefixes(prefixes, v)))
    modifies iter, iter.inner
    ensures r == ListKinds(lp.w.t, lp.w.ks, lp.max)
  {
    var more := v.truncated;
    if !more {
      var item := NextIn(b, iter, lp.w.s, h + 1);
      more := item.Some?;
    }
    r := VersionList(v.items, prefixes, more);
  }

  /** One turn of the outer loop. */
  method Turn(b: Bucket, iter: Iterator<BucketObject>, response: Results<VersionItem>, p: Prefix, max: int, cnt: nat,
              id: string, first: bool, ghost lp: VersionLoop, ghost lo: nat, ghost h: nat)
    returns (r: Option<Result<VersionList>>, cnt': nat, first': bool)
    requires lp == VersionLoop(lp.w, max, b, iter, response) && lp.w.Sane() && lp.w.id == id && lp.At(cnt) == Some(h)
    requires lp.w.Stage(h, first) && lo <= h
    requires lp.w.ks == FromKey(KeyKinds(lp.w.s, p), lo) && ArchivesSorted(lp.w.s)
    modifies iter, iter.inner, response
    ensures r.None? ==> h < |lp.w.ks| && lp.At(cnt') == Some(h + 1) && lp.w.Stage(h + 1, first')
    ensures r.Some? ==> r.value == lp.w.Wanted(max)
  {
    cnt', first' := cnt, first;
    var v, listed := VisitNext(b, iter, response, p, max, cnt, id, lp, lo, h, first);
    if v.None? {
      var item := NextIn(b, iter, lp.w.s, h);
      r := Some(Ok(VersionList(response.items, response.commonPrefixes, item.Some?)));
    } else if v.value.Err? {
      r := Some(Err(v.value.error));
    } else if v.value.value.full {
      var list := Filled(b, iter, response.commonPrefixes, v.value.value, lp, h);
      r := Some(Ok(list));
    } else {
      TakeVisit(response, v.value.value, lp, h);
      r, cnt', first' := None, v.value.value.cnt, first && !listed;
    }
  }

  /** The outer loop, from the object at `lo` on. */
  method Turns(b: Bucket, iter: Iterator<BucketObject>, response: Results<VersionItem>, p: Prefix, max: int,
               id: string, ghost lp: VersionLoop, ghost lo: nat)
    returns (r: Result<VersionList>)
    requires lp == VersionLoop(lp.w, max, b, iter, response) && lp.w.Sane() && lp.w.id == id && lp.At(0) == Some(lo)
    requires lp.w.Stage(lo, true)
    requires lp.w.ks == FromKey(KeyKinds(lp.w.s, p), lo) && ArchivesSorted(lp.w.s)
    modifies iter, iter.inner, response
    ensures r == lp.w.Wanted(max)
  {
    ghost var h := lo;
    var cnt: nat, first, done := 0, true, None;
    while done.None?
      invariant lo <= h <= |lp.w.ks|
      invariant if done.None? then lp.At(cnt) == Some(h) && lp.w.Stage(h, first) else done.value == lp.w.Wanted(max)
      decreases |lp.w.ks| - h, done.None?
    {
      done, cnt, first := Turn(b, iter, response, p, max, cnt, id, first, lp, lo, h);
      h := if done.None? then h + 1 else h;
    }
    r := done.value;
  }

  /** Nothing is listed before the key marker. */
  lemma {:induction false} NothingBefore(t: State, ks: seq<Kind>, max: int, lo: nat, h: nat)
    requires h <= lo <= |ks| == |t.objects.keys| && ks == FromKey(ks, lo)
    ensures VersionsSoFar(t, ks, max, h) == Some(([], []))
  {
    if h > 0 {
      NothingBefore(t, ks, max, lo, h - 1);
      assert ks[h - 1] == FromKey(ks, lo)[h - 1] == Skip;
      VersionsStep(t, ks, max, h - 1, [], []);
    }
  }

  /** The listing from the object at `lo` on. */
  method ListFrom(b: Bucket, iter: Iterator<BucketObject>, p: Prefix, id: string, max: int, ghost lo: nat,
                  ghost s: State, ghost bare: set<string>)
    returns (r: Result<VersionList>)
    requires Shown(b) == Some(s) && Bare(b) == bare && ArchivesSorted(s) && Over(b, iter) == Some(lo) &&
      !(iter.didSeek && !iter.seekWasOK) && lo <= |s.objects.keys|
    modifies iter, iter.inner
    ensures var ks := FromKey(KeyKinds(s, p), lo); r == ListedAs(FromVersion(s, bare, ks, id), ks, max)
  {
    ghost var w := TaskFrom(s, bare, p, lo, id, max);
    var response;
    ghost var lp;
    response, lp := Begin(b, iter, w, max, lo);
    r := Turns(b, iter, response, p, max, id, lp, lo);
  }

  method Begin(b: Bucket, iter: Iterator<BucketObject>, ghost w: Task, ghost max: int, ghost lo: nat)
    returns (response: Results<VersionItem>, ghost lp: VersionLoop)
    requires Shown(b) == Some(w.s) && Bare(b) == w.bare && Over(b, iter) == Some(lo) &&
      !(iter.didSeek && !iter.seekWasOK)
    requires |w.ks| == |w.t.objects.keys| && VersionsSoFar(w.t, w.ks, max, lo) == Some(([], []))
    ensures fresh(response) && lp == VersionLoop(w, max, b, iter, response) && lp.At(0) == Some(lo)
  {
    response := new Results<VersionItem>();
    lp := VersionLoop(w, max, b, iter, response);
  }

  lemma TaskFrom(s: State, bare: set<string>, p: Prefix, lo: nat, id: string, max: int) returns (w: Task)
    requires lo <= |s.objects.keys|
    ensures var ks := FromKey(KeyKinds(s, p), lo);
      && w.s == s && w.bare == bare && w.ks == ks && w.id == id && w.Sane() && w.Stage(lo, true)
      && VersionsSoFar(w.t, ks, max, lo) == Some(([], []))
      && w.Wanted(max) == ListedAs(FromVersion(s, bare, ks, id), ks, max)
  {
    var ks := FromKey(KeyKinds(s, p), lo);
    w := NewTask(s, bare, ks, id);
    assert FromKey(ks, lo) == ks;
    NothingBefore(w.t, ks, max, lo, lo);
    StartsAt(w, lo);
  }

  lemma StartsAt(w: Task, lo: nat)
    requires w.Sane() && lo <= |w.ks| && w.ks == FromKey(w.ks, lo)
    ensures w.Stage(lo, true)
  {
    var f := FirstItem(w.ks, 0);
    assert f < |w.ks| ==> FromKey(w.ks, lo)[f] == if f < lo then Skip else w.ks[f];
  }

  /** An iterator over the objects, from the key marker on if there is one. */
  method StartAt(b: Bucket, keyMarker: string, ghost s: State, ghost bare: set<string>)
    returns (iter: Iterator<BucketObject>, found: bool)
    requires Shown(b) == Some(s) && Bare(b) == bare
    ensures fresh(iter) && fresh(iter.inner) && Shown(b) == Some(s) && Bare(b) == bare
    ensures Over(b, iter) == Some(StartOf(s, keyMarker))
    ensures found == (keyMarker == "" || StartOf(s, keyMarker) < |s.objects.keys|)
    ensures if found then !(iter.didSeek && !iter.seekWasOK) else iter.inner.pos == -1
  {
    iter := new Iterator(b.objects);
    found := true;
    if keyMarker != "" {
      found := iter.Seek(keyMarker);
    }
  }

  /** With no object found, the loop ends at once, and only then does the iterator begin. */
  method ListNothing(b: Bucket, iter: Iterator<BucketObject>, ghost s: State) returns (r: VersionList)
    requires Shown(b) == Some(s) && Over(b, iter) == Some(|s.objects.keys|) && iter.inner.pos == -1
    modifies iter, iter.inner
    ensures r == VersionList([], [], s.objects.keys != [])
  {
    var item := NextIn(b, iter, s, |b.objects.keys|);
    item := NextIn(b, iter, s, 0);
    r := VersionList([], [], item.Some?);
  }

  method ListStarted(b: Bucket, iter: Iterator<BucketObject>, found: bool, p: Prefix, idMarker: string, max: int,
                     ghost s: State, ghost bare: set<string>, ghost lo: nat)
    returns (r: Result<VersionList>)
    requires Shown(b) == Some(s) && Bare(b) == bare && ArchivesSorted(s) && Over(b, iter) == Some(lo)
    requires if found then !(iter.didSeek && !iter.seekWasOK) && lo <= |s.objects.keys|
             else iter.inner.pos == -1 && lo == |s.objects.keys|
    modifies iter, iter.inner
    ensures r ==
      if found then
        var ks := FromKey(KeyKinds(s, p), lo); ListedAs(FromVersion(s, bare, ks, idMarker), ks, max)
      else Ok(VersionList([], [], s.objects.keys != []))
  {
    if found {
      r := ListFrom(b, iter, p, idMarker, max, lo, s, bare);
    } else {
      var list := ListNothing(b, iter, s);
      r := Ok(list);
    }
  }

  method ListShown(b: Bucket, p: Prefix, keyMarker: string, idMarker: string, max: int, ghost s: State,
                   ghost bare: set<string>)
    returns (r: Result<VersionList>)
    requires Shown(b) == Some(s) && Bare(b) == bare && ArchivesSorted(s)
    ensures r == ListVersionsFrom(s, bare, p, keyMarker, idMarker, max)
  {
    if keyMarker != "" {
      var m := Match(p, keyMarker);
      if m.None? { return Err(Internal); }
    }
    var iter, found := StartAt(b, keyMarker, s, bare);
    r := ListStarted(b, iter, found, p, idMarker, max, s, bare, StartOf(s, keyMarker));
  }

  /** All versions of a bucket's objects, from a key marker and a version-id marker on and
      up to a limit. */
  method ListBucketVersions(b: Bucket, p: Prefix, keyMarker: string, idMarker: string, max: int)
    returns (r: Result<VersionList>)
    requires Shown(b).Some? && ArchivesSorted(b.View())
    ensures r == ListVersionsFrom(b.View(), Bare(b), p, keyMarker, idMarker, max)
  {
    r := ListShown(b, p, keyMarker, idMarker, max, b.View(), Bare(b));
  }
}
