/** The in-memory backend: its buckets, and the requests it serves from them. */
module Backends {
  import opened Basics
  import opened BucketModel
  import opened Buckets
  import opened VersionIds
  import opened Ranges
  import opened Readers
  import opened Prefixes
  import Listing
  import BucketListings
  import VersionListing
  import VersionWalks

  datatype Object = Object(name: string, size: nat, hash: Bytes, contents: Bytes, versionID: string,
                           isDeleteMarker: bool)

  function ToObject(d: Data, r: Option<RangeRequest>, id: string): Result<Object> {
    match Slice(r, d.body)
    case Err(e) => Err(e)
    case Ok(part) => Ok(Object(d.name, |d.body|, d.hash, part, id, d.deleteMarker))
  }

  /** GET of the current version; its id is shown on a versioned bucket only. */
  function GetCurrent(s: State, name: string, r: Option<RangeRequest>): Result<Object> {
    match Current(s, name)
    case Err(e) => Err(e)
    case Ok(d) => ToObject(d, r, if s.versioning == Enabled then d.versionID else "")
  }

  function GetVersion(s: State, name: string, id: string, r: Option<RangeRequest>): Result<Object> {
    if id == "" then GetCurrent(s, name, r)
    else match Lookup(s, name, id)
      case Err(e) => Err(e)
      case Ok(d) => ToObject(d, r, d.versionID)
  }

  function CountAfter(before: nat, minted: bool): nat {
    if minted then before + 1 else before
  }

  class Backend {
    var buckets: map<string, Bucket>
    const source: VersionSource
    const md5: Digest

    constructor (source: VersionSource, md5: Digest)
      requires source.Valid()
      ensures Valid() && this.source == source && this.md5 == md5 && View() == map[]
      ensures Parts() == {source, source.gen, source.scratch} && Minted() == source.gen.next
    {
      this.source, this.md5, buckets := source, md5, map[];
    }

    /** The buckets and the objects in them. */
    ghost function Stored(): set<object>
      reads this, buckets.Values
    {
      (set b | b in buckets.Values :: b as object) +
        (set b, o | b in buckets.Values && o in b.objects.at.Values :: o as object)
    }

    ghost predicate Valid()
      reads this, source, source.gen, source.scratch, buckets.Values, Stored()
    {
      && source.Valid()
      && forall n :: n in buckets ==> buckets[n].name == n && buckets[n].source == source && buckets[n].Valid()
    }

    ghost function View(): map<string, State>
      reads this, buckets.Values, Stored()
    {
      map n | n in buckets :: buckets[n].View()
    }

    /** What the requests on objects change: the buckets and the version source. */
    ghost function Parts(): set<object>
      reads this, source, buckets.Values
    {
      {source, source.gen, source.scratch} + Stored()
    }

    /** Everything the backend's state lives in. */
    ghost function Footprint(): set<object>
      reads this, source, buckets.Values
    {
      {this} + Parts()
    }

    /** Nothing but new objects has come into it. */
    twostate predicate Grown()
      reads this, source, buckets.Values
    {
      forall x :: x in Parts() ==> x in old(Parts()) || fresh(x)
    }

    /** So it is when buckets are only dropped, or empty ones added. */
    twostate lemma GrownBuckets()
      requires source.scratch == old(source.scratch) && unchanged(old(buckets.Values))
      requires forall b :: b in buckets.Values ==> b in old(buckets.Values) || (fresh(b) && b.objects.at == map[])
      ensures Grown()
    {
      forall x | x in Stored()
        ensures x in old(Stored()) || fresh(x)
      {
        if b, o :| b in buckets.Values && o in b.objects.at.Values && x == o {
          assert b in old(buckets.Values) ==> o in old(b.objects.at.Values);
        }
      }
    }

    twostate lemma OneMoreBucket(name: string)
      requires old(Valid()) && unchanged(source) && unchanged(old({source.gen as object, source.scratch}))
      requires unchanged(old(buckets.Values)) && unchanged(old(Stored()))
      requires name !in old(buckets) && name in buckets && buckets == old(buckets)[name := buckets[name]]
      requires buckets[name].name == name && buckets[name].source == source && buckets[name].Valid()
      ensures Valid() && View() == old(View())[name := buckets[name].View()]
    {
    }

    method CreateBucket(name: string) returns (err: Option<Error>)
      requires Valid()
      modifies this
      ensures Valid() && Grown() && Minted() == old(Minted())
      ensures if name in old(View()) then err == Some(BucketAlreadyExists) && View() == old(View())
              else err == None && View() == old(View())[name := NEW_BUCKET]
    {
      if name in buckets {
        return Some(BucketAlreadyExists);
      }
      var b := new Bucket(name, source);
      buckets := buckets[name := b];
      OneMoreBucket(name);
      GrownBuckets();
      err := None;
    }

    /** Deletes a bucket if and only if no object is indexed in it. */
    method DeleteBucket(name: string) returns (err: Option<Error>)
      requires Valid()
      modifies this
      ensures Valid() && Grown() && Minted() == old(Minted())
      ensures if name !in old(View()) then err == Some(NoSuchBucket) && View() == old(View())
              else if old(View())[name].objects.keys != [] then err == Some(BucketNotEmpty) && View() == old(View())
              else err == None && View() == old(View()) - {name}
    {
      if name !in buckets {
        return Some(NoSuchBucket);
      }
      if |buckets[name].objects.keys| > 0 {
        return Some(BucketNotEmpty);
      }
      buckets := buckets - {name};
      GrownBuckets();
      err := None;
    }

    method ForceDeleteBucket(name: string) returns (err: Option<Error>)
      requires Valid()
      modifies this
      ensures Valid() && Grown() && Minted() == old(Minted())
      ensures if name !in old(View()) then err == Some(NoSuchBucket) && View() == old(View())
              else err == None && View() == old(View()) - {name}
    {
      if name !in buckets {
        return Some(NoSuchBucket);
      }
      buckets := buckets - {name};
      GrownBuckets();
      err := None;
    }

    method GetObject(bucket: string, name: string, r: Option<RangeRequest>) returns (o: Result<Object>)
      requires Valid()
      ensures o == if bucket !in View() then Err(NoSuchBucket) else GetCurrent(View()[bucket], name, r)
    {
      if bucket !in buckets {
        return Err(NoSuchBucket);
      }
      var b := buckets[bucket];
      if name !in b.objects.at {
        return Err(NoSuchKey);
      }
      var obj := b.objects.at[name];
      if obj.data.None? {
        return Err(Panic);
      }
      if obj.data.value.deleteMarker {
        return Err(NoSuchKey);
      }
      o := ToObject(obj.data.value, r, if b.versioning == Enabled then obj.data.value.versionID else "");
    }

    method GetObjectVersion(bucket: string, name: string, id: string, r: Option<RangeRequest>)
      returns (o: Result<Object>)
      requires Valid()
      ensures o == if bucket !in View() then Err(NoSuchBucket) else GetVersion(View()[bucket], name, id, r)
    {
      if id == "" {
        o := GetObject(bucket, name, r);
        return;
      }
      if bucket !in buckets {
        return Err(NoSuchBucket);
      }
      var d := buckets[bucket].ObjectVersion(name, id);
      match d
      case Err(e) => o := Err(e);
      case Ok(v) => o := ToObject(v, r, v.versionID);
    }

    method SetVersioning(bucket: string, enabled: bool, mfaDelete: bool) returns (err: Option<Error>)
      requires Valid()
      modifies Stored()
      ensures Valid() && Grown() && Minted() == old(Minted())
      ensures if mfaDelete then err == Some(NotImplemented) && View() == old(View())
              else if bucket !in old(View()) then err == Some(NoSuchBucket) && View() == old(View())
              else
                err == None &&
                View() == old(View())[bucket := BucketModel.SetVersioning(old(View())[bucket], enabled)]
    {
      if mfaDelete {
        return Some(NotImplemented);
      }
      if bucket !in buckets {
        return Some(NoSuchBucket);
      }
      var b := buckets[bucket];
      assert b in buckets.Values;
      b.SetVersioning(enabled);
      OnlyBucketChanged(bucket);
      err := None;
    }

    /** The number of version ids minted by now. */
    ghost function Minted(): nat
      reads source, source.gen
    {
      source.gen.next
    }

    /** When only one bucket and its objects change, the others stay as they are. */
    twostate lemma OnlyBucketChanged(bucket: string)
      requires old(Valid()) && bucket in buckets && buckets == old(buckets) && source.Valid() && buckets[bucket].Valid()
      requires forall n :: n in buckets && n != bucket ==>
        unchanged(buckets[n]) && unchanged(old(buckets[n].objects.at.Values))
      ensures Valid() && View() == old(View())[bucket := buckets[bucket].View()]
    {
    }

    /** What new objects that bucket has come to hold are all that is new. */
    twostate lemma BucketGrown(bucket: string)
      requires old(Valid()) && bucket in buckets && buckets == old(buckets)
      requires forall o :: o in buckets[bucket].objects.at.Values ==>
        o in old(buckets[bucket].objects.at.Values) || fresh(o)
      requires forall n :: n in buckets && n != bucket ==> unchanged(buckets[n])
      requires source.scratch == old(source.scratch) || fresh(source.scratch)
      ensures Grown()
    {
      forall x | x in Stored()
        ensures x in old(Stored()) || fresh(x)
      {
        if b, o :| b in buckets.Values && o in b.objects.at.Values && x == o {
          assert b != buckets[bucket] ==> o in old(b.objects.at.Values);
        }
      }
    }

    /** put in one of the buckets: the others stay as they are. */
    method PutIn(bucket: string, name: string, item: Data) returns (stored: Data)
      requires Valid() && bucket in buckets
      modifies Parts()
      ensures Valid() && Grown() && Minted() == CountAfter(old(Minted()), true)
      ensures Minted() < COUNTER_LIMIT ==> IsIdNumber(stored.versionID, Minted())
      ensures stored == item.(versionID := stored.versionID)
      ensures bucket in buckets && buckets[bucket].versioning == old(buckets[bucket].versioning)
      ensures View() == old(View())[bucket := BucketModel.Put(old(View())[bucket], name, stored)]
    {
      var b := buckets[bucket];
      assert b in buckets.Values;
      assert name in b.objects.at ==> b.objects.at[name] in b.objects.at.Values;
      stored := b.Put(name, item);
      OnlyBucketChanged(bucket);
      BucketGrown(bucket);
    }

    /** The checks before a body is stored. */
    method Refusal(bucket: string, name: string) returns (err: Option<Error>)
      requires Valid()
      ensures err == StoreRefused(View(), bucket, name) && (err.None? ==> bucket in buckets)
    {
      var existing := GetObject(bucket, name, None);
      if existing == Err(Panic) {
        err := Some(Panic);
      } else if bucket !in buckets {
        err := Some(NoSuchBucket);
      } else {
        err := None;
      }
      if bucket in buckets {
        OnlyMissingCurrentPanics(View()[bucket], name);
      }
    }

    /** put of a body in one of the buckets. */
    method StoreIn(bucket: string, name: string, body: Bytes) returns (r: Result<string>, ghost id: string)
      requires Valid() && bucket in buckets && StoreRefused(View(), bucket, name).None?
      modifies Parts()
      ensures Valid() && Grown() && Minted() == CountAfter(old(Minted()), true) && r.Ok?
      ensures (View(), r) == Stores(old(View()), bucket, name, body, md5, id)
      ensures Minted() < COUNTER_LIMIT ==> IsIdNumber(id, Minted())
    {
      var item := PutIn(bucket, name, Data(name, "", false, body, md5(body)));
      id := item.versionID;
      r := Ok(if buckets[bucket].versioning == Enabled then item.versionID else "");
    }

    /** PutObject, once the body is in memory: a key without a current version makes
        the metadata lookup panic; the id is shown on a versioned bucket only. */
    method StoreBody(bucket: string, name: string, body: Bytes) returns (r: Result<string>, ghost id: string)
      requires Valid()
      modifies Parts()
      ensures Valid() && Grown() && Minted() == CountAfter(old(Minted()), r.Ok?)
      ensures (View(), r) == Stores(old(View()), bucket, name, body, md5, id)
      ensures r.Ok? && Minted() < COUNTER_LIMIT ==> IsIdNumber(id, Minted())
    {
      var err := Refusal(bucket, name);
      BackendFrame();
      if err.Some? {
        r, id := Err(err.value), "";
      } else {
        r, id := StoreIn(bucket, name, body);
      }
    }

    twostate lemma BackendFrame()
      requires old(Valid()) && unchanged(this, source) && unchanged(old({source.gen as object, source.scratch})) &&
        unchanged(old(buckets.Values)) && unchanged(old(Stored()))
      ensures Valid() && View() == old(View()) && Footprint() == old(Footprint()) && Parts() == old(Parts())
      ensures forall x :: x in Footprint() ==> !fresh(x)
    {
      forall x | x in old(Stored())
        ensures !fresh(x)
      {
      }
    }

    /** Reading a body leaves the backend alone. */
    method ReadBody(input: Reader, size: nat, grow: Growth) returns (bts: Result<Bytes>)
      requires Valid() && ValidReader(input) && ReaderObjects(input) !! Footprint()
      modifies ReaderObjects(input)
      ensures Valid() && View() == old(View()) && Stored() == old(Stored()) && Footprint() == old(Footprint())
      ensures Minted() == CountAfter(old(Minted()), false) && source.scratch == old(source.scratch)
      ensures ReaderObjects(input) !! Footprint()
      ensures bts == ReadAllResult(NowFrom(old(StandingOf(input)), size, grow), size)
      ensures bts.Ok? ==> |bts.value| == size && HashCame(input, old(Written(input)), bts.value)
    {
      bts := ReadAll(input, size, grow);
      BackendFrame();
    }

    /** Stores what was read, if it was; the reader is left alone. */
    method StoreRead(bucket: string, name: string, bts: Result<Bytes>, ghost input: Reader)
      returns (r: Result<string>, ghost id: string)
      requires Valid() && ReaderObjects(input) !! Footprint()
      modifies Parts()
      ensures Valid() && Grown() && Minted() == CountAfter(old(Minted()), r.Ok?)
      ensures Summed(input) == old(Summed(input)) && (r.Ok? ==> bts.Ok?)
      ensures (View(), r) == StoresRead(old(View()), bucket, name, bts, md5, id)
      ensures r.Ok? && Minted() < COUNTER_LIMIT ==> IsIdNumber(id, Minted())
    {
      if bts.Err? {
        r, id := Err(bts.error), "";
      } else {
        r, id := StoreBody(bucket, name, bts.value);
      }
    }

    /** PutObject: exactly `size` bytes are read, and stored if the reader and the
        bucket allow it.  `bts` is what reading came to. */
    method PutObject(bucket: string, name: string, input: Reader, size: nat, grow: Growth)
      returns (r: Result<string>, ghost id: string, ghost bts: Result<Bytes>)
      requires Valid() && ValidReader(input) && ReaderObjects(input) !! Footprint()
      modifies ReaderObjects(input), Parts()
      ensures Valid() && Grown() && Minted() == CountAfter(old(Minted()), r.Ok?)
      ensures (View(), r) == StoresRead(old(View()), bucket, name, bts, md5, id)
      ensures r.Ok? && Minted() < COUNTER_LIMIT ==> IsIdNumber(id, Minted())
      ensures bts == ReadAllResult(NowFrom(old(StandingOf(input)), size, grow), size)
      ensures r.Ok? ==> bts.Ok? && |bts.value| == size && HashCame(input, old(Written(input)), bts.value)
    {
      var read := ReadBody(input, size, grow);
      bts := read;
      r, id := StoreRead(bucket, name, read, input);
    }

    /** A page of a bucket; the bucket must be in a state its operations can lead to. */
    method ListBucket(bucket: string, p: Prefix, marker: string, max: int) returns (r: Result<Listing.ObjectList>)
      requires Valid() && (bucket in View() ==> StateOK(View()[bucket]))
      ensures r == if bucket !in View() then Err(NoSuchBucket)
        else BucketListings.PageResult(View()[bucket], p, marker, max)
    {
      if bucket !in buckets {
        return Err(NoSuchBucket);
      }
      r := BucketListings.ListBucket(buckets[bucket], p, marker, max);
    }

    method ListBucketVersions(bucket: string, p: Prefix, keyMarker: string, idMarker: string, max: int)
      returns (r: Result<VersionListing.VersionList>)
      requires Valid() && (bucket in View() ==> StateOK(View()[bucket]))
      ensures r == if bucket !in View() then Err(NoSuchBucket)
        else VersionListing.ListVersionsFrom(View()[bucket], VersionWalks.Bare(buckets[bucket]), p, keyMarker, idMarker,
                                             max)
      ensures bucket in View() ==> VersionListing.BareOK(View()[bucket], VersionWalks.Bare(buckets[bucket]))
    {
      if bucket !in buckets {
        return Err(NoSuchBucket);
      }
      VersionWalks.ArchivesAreSorted(buckets[bucket].View());
      VersionWalks.BareObjects(buckets[bucket]);
      r := VersionWalks.ListBucketVersions(buckets[bucket], p, keyMarker, idMarker, max);
    }

    /** rm in one of the buckets. */
    method RemoveIn(bucket: string, name: string) returns (d: DeleteResult)
      requires Valid() && bucket in buckets
      modifies Parts()
      ensures Valid() && Grown() && Minted() == CountAfter(old(Minted()), d.isDeleteMarker)
      ensures (View()[bucket], d) == Remove(old(View())[bucket], name, d.versionID) &&
        View() == old(View())[bucket := View()[bucket]]
      ensures d.isDeleteMarker && Minted() < COUNTER_LIMIT ==> IsIdNumber(d.versionID, Minted())
    {
      var b := buckets[bucket];
      assert b in buckets.Values;
      assert name in b.objects.at ==> b.objects.at[name] in b.objects.at.Values;
      d := b.Remove(name);
      OnlyBucketChanged(bucket);
      BucketGrown(bucket);
    }

    /** rmVersion in one of the buckets. */
    method RemoveVersionIn(bucket: string, name: string, id: string) returns (d: DeleteResult)
      requires Valid() && bucket in buckets
      modifies Stored()
      ensures Valid() && Grown() && Minted() == CountAfter(old(Minted()), false)
      ensures (View()[bucket], d) == RemoveVersion(old(View())[bucket], name, id) &&
        View() == old(View())[bucket := View()[bucket]]
    {
      var b := buckets[bucket];
      assert b in buckets.Values;
      assert name in b.objects.at ==> b.objects.at[name] in b.objects.at.Values;
      d := b.RemoveVersion(name, id);
      OnlyBucketChanged(bucket);
      BucketGrown(bucket);
    }

    /** DeleteObject; `id` is that of the delete marker, if one is made. */
    method DeleteObject(bucket: string, name: string) returns (r: Result<DeleteResult>, ghost id: string)
      requires Valid()
      modifies Parts()
      ensures Valid() && Grown() && Minted() == CountAfter(old(Minted()), r.Ok? && r.value.isDeleteMarker)
      ensures (View(), r) == Deletes(old(View()), bucket, name, id)
      ensures r.Ok? && r.value.isDeleteMarker && Minted() < COUNTER_LIMIT ==> IsIdNumber(id, Minted())
    {
      if bucket !in buckets {
        return Err(NoSuchBucket), "";
      }
      var d := RemoveIn(bucket, name);
      r, id := Ok(d), d.versionID;
    }

    method DeleteObjectVersion(bucket: string, name: string, id: string) returns (r: Result<DeleteResult>)
      requires Valid()
      modifies Stored()
      ensures Valid() && Grown() && Minted() == old(Minted())
      ensures (View(), r) == DeletesVersion(old(View()), bucket, name, id)
    {
      if bucket !in buckets {
        return Err(NoSuchBucket);
      }
      var d := RemoveVersionIn(bucket, name, id);
      r := Ok(d);
    }

    /** One entry of a multi-object delete. */
    method DeleteEntry(bucket: string, o: ObjectID) returns (ghost id: string)
      requires Valid() && bucket in buckets
      modifies Parts()
      ensures Valid() && Grown() && Minted() == CountAfter(old(Minted()), DeleteMints(old(View())[bucket], o))
      ensures View()[bucket] == DeleteOne(old(View())[bucket], o, id) && View() == old(View())[bucket := View()[bucket]]
      ensures DeleteMints(old(View())[bucket], o) && Minted() < COUNTER_LIMIT ==> IsIdNumber(id, Minted())
    {
      id := "";
      if o.versionID != "" {
        var d := RemoveVersionIn(bucket, o.key, o.versionID);
      } else {
        var d := RemoveIn(bucket, o.key);
        id := d.versionID;
      }
    }

    /** DeleteMultiVersions: the entries one after the other; none of them fails, and the
        ids of the delete markers are the generator's next. */
    method DeleteMultiVersions(bucket: string, os: seq<ObjectID>)
      returns (r: Result<seq<ObjectID>>, ghost ids: seq<string>)
      requires Valid()
      modifies Parts()
      ensures Valid() && Grown()
      ensures if bucket !in old(View()) then
        r == Err(NoSuchBucket) && View() == old(View()) && Minted() == old(Minted())
              else r == Ok(os) && EachDeleted(old(View()), View(), bucket, os, ids, old(Minted()), Minted())
    {
      ids := [];
      if bucket !in buckets {
        return Err(NoSuchBucket), ids;
      }
      ghost var v, w, n := View(), View(), Minted();
      var deleted := [];
      for i := 0 to |os|
        invariant Valid() && Grown() && bucket in buckets && deleted == os[..i] && |ids| == i
        invariant View() == w && EachDeleted(v, w, bucket, os[..i], ids, n, Minted())
      {
        ghost var m := Minted();
        ghost var id := DeleteEntry(bucket, os[i]);
        DeleteEachStep(v, w, View(), bucket, os, i, ids, id, n, m, Minted());
        deleted, ids, w := deleted + [os[i]], ids + [id], View();
      }
      assert os[..|os|] == os;
      r := Ok(deleted);
    }
  }

  /** Deleting an object: the buckets after it, and what it returns. */
  function Deletes(v: map<string, State>, bucket: string, name: string, id: string):
    (map<string, State>, Result<DeleteResult>)
  {
    if bucket !in v then (v, Err(NoSuchBucket))
    else
      var (s, d) := Remove(v[bucket], name, id);
      (v[bucket := s], Ok(d))
  }

  function DeletesVersion(v: map<string, State>, bucket: string, name: string, id: string):
    (map<string, State>, Result<DeleteResult>)
  {
    if bucket !in v then (v, Err(NoSuchBucket))
    else
      var (s, d) := RemoveVersion(v[bucket], name, id);
      (v[bucket := s], Ok(d))
  }

  /** Whether an entry of a multi-object delete makes a delete marker. */
  predicate DeleteMints(s: State, o: ObjectID) {
    o.versionID == "" && s.versioning == Enabled && o.key in s.objects.at
  }

  /** The count of ids after the entries, `n` before, and that the ids bear the numbers. */
  function CountDeleted(s: State, os: seq<ObjectID>, ids: seq<string>, n: nat): nat
    requires |os| == |ids|
    decreases |os|
  {
    if os == [] then n
    else
      var k := |os| - 1;
      CountAfter(CountDeleted(s, os[..k], ids[..k], n), DeleteMints(DeleteEach(s, os[..k], ids[..k]), os[k]))
  }

  ghost predicate DeletesIssued(s: State, os: seq<ObjectID>, ids: seq<string>, n: nat)
    requires |os| == |ids|
    decreases |os|
  {
    os == [] ||
    var k, m := |os| - 1, CountDeleted(s, os, ids, n);
    && DeletesIssued(s, os[..k], ids[..k], n)
    && (DeleteMints(DeleteEach(s, os[..k], ids[..k]), os[k]) && m < COUNTER_LIMIT ==> IsIdNumber(ids[k], m))
  }

  /** A multi-object delete of `os` turns `v` into `w`, and counts ids from `n` to `m`. */
  ghost predicate EachDeleted(v: map<string, State>, w: map<string, State>, bucket: string, os: seq<ObjectID>,
                              ids: seq<string>, n: nat, m: nat)
  {
    && bucket in v && |ids| == |os| && w == v[bucket := DeleteEach(v[bucket], os, ids)]
    && m == CountDeleted(v[bucket], os, ids, n) && DeletesIssued(v[bucket], os, ids, n)
  }

  lemma DeleteEachStep(v: map<string, State>, w: map<string, State>, w': map<string, State>, bucket: string,
                       os: seq<ObjectID>, i: nat, ids: seq<string>, id: string, n: nat, m: nat, m': nat)
    requires i < |os| && |ids| == i && EachDeleted(v, w, bucket, os[..i], ids, n, m)
    requires bucket in w' && w'[bucket] == DeleteOne(w[bucket], os[i], id) && w' == w[bucket := w'[bucket]]
    requires m' == CountAfter(m, DeleteMints(w[bucket], os[i]))
    requires DeleteMints(w[bucket], os[i]) && m' < COUNTER_LIMIT ==> IsIdNumber(id, m')
    ensures os[..i + 1] == os[..i] + [os[i]]
    ensures EachDeleted(v, w', bucket, os[..i + 1], ids + [id], n, m')
  {
    assert os[..i + 1][..i] == os[..i] && (ids + [id])[..i] == ids;
  }

  lemma OnlyMissingCurrentPanics(s: State, name: string)
    ensures GetCurrent(s, name, None) == Err(Panic) <==> Current(s, name) == Err(Panic)
  {
  }

  /** The error for which a body is not stored, if any. */
  function StoreRefused(v: map<string, State>, bucket: string, name: string): Option<Error> {
    if bucket !in v then Some(NoSuchBucket)
    else if Current(v[bucket], name) == Err(Panic) then Some(Panic)
    else None
  }

  /** Storing a body: the buckets after it, and what it returns. */
  function Stores(v: map<string, State>, bucket: string, name: string, body: Bytes, md5: Digest, id: string):
    (map<string, State>, Result<string>)
  {
    var refused := StoreRefused(v, bucket, name);
    if refused.Some? then (v, Err(refused.value))
    else
      (v[bucket := Put(v[bucket], name, Data(name, id, false, body, md5(body)))],
       Ok(if v[bucket].versioning == Enabled then id else ""))
  }

  function StoresRead(v: map<string, State>, bucket: string, name: string, read: Result<Bytes>, md5: Digest,
                      id: string):
    (map<string, State>, Result<string>)
  {
    if read.Err? then (v, Err(read.error)) else Stores(v, bucket, name, read.value, md5, id)
  }
}
