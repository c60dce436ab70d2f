/** The multipart uploader: uploads in progress, and their completion into the backend. */
module Uploaders {
  import opened Basics
  import opened Encodings
  import opened UploadIndex
  import opened UploadParts
  import opened Backends
  import opened VersionIds
  import BucketModel
  import Prefixes
  import UploadListing
  import UploadPages
  import UploadWalks

  // ---- what the operations do to the uploads in progress ----

  /** getUnlocked: the bucket and key must be those the upload was created for. */
  function Find(v: map<string, Uploads>, bucket: string, key: string, id: string): Result<MultipartUpload> {
    if bucket !in v || id !in v[bucket].byId then Err(NoSuchUpload)
    else
      var u := v[bucket].byId[id];
      if u.bucket != bucket || u.key != key then Err(NoSuchUpload) else Ok(u)
  }

  function Created(v: map<string, Uploads>, u: MultipartUpload): map<string, Uploads> {
    v[u.bucket := Added(if u.bucket in v then v[u.bucket] else NO_UPLOADS, u)]
  }

  function Ended(v: map<string, Uploads>, bucket: string, id: string): map<string, Uploads>
    requires bucket in v && id in v[bucket].byId
  {
    v[bucket := Removed(v[bucket], id)]
  }

  /** What a complete request makes of the parts: an error, or what is to be stored. */
  function Completion(parts: seq<Option<Part>>, cs: seq<CompletedPart>): Result<Assembly> {
    if |cs| > |parts| then Err(InvalidPart)
    else if FirstError(parts, cs, 0).Some? then Err(FirstError(parts, cs, 0).value)
    else Assembled(parts, cs)
  }

  /** UploadPart, but for the state it changes: the error, if any, is of the first check
      that fails; a negative part number is out of range of the slice. */
  function PartRefused(partNumber: int, contentLength: int, input: Result<Bytes>, found: Result<MultipartUpload>):
    Option<Error>
  {
    if partNumber > MAX_UPLOAD_PART_NUMBER then Some(InvalidPart)
    else if input.Err? then Some(input.error)
    else if |input.value| != contentLength then Some(IncompleteBody)
    else if found.Err? then Some(found.error)
    else if partNumber < 0 then Some(Panic)
    else None
  }

  /** The version id shown, if any, and the etag. */
  datatype Completed = Completed(versionID: string, etag: Bytes)

  /** Completion of an upload, from what was prepared for it: the uploads in
      progress and the buckets after it, and its result. */
  function Completes(v: map<string, Uploads>, w: map<string, BucketModel.State>, bucket: string, key: string,
                     id: string, c: Result<Assembly>, n: nat, md5: Digest, version: string):
    (map<string, Uploads>, map<string, BucketModel.State>, Result<Completed>)
    requires c.Ok? ==> bucket in v && id in v[bucket].byId
  {
    if c.Err? then (v, w, Err(c.error))
    else
      var (w', put) := Stores(w, bucket, key, c.value.body, md5, version);
      if put.Err? then (v, w', Err(put.error))
      else (Ended(v, bucket, id), w', Ok(Completed(put.value, CompleteEtag(md5, c.value.hashes, n))))
  }

  class Uploader {
    var uploadID: nat
    var buckets: map<string, BucketUploads>
    const storage: Backend

    constructor (storage: Backend)
      ensures Valid() && this.storage == storage && uploadID == 0 && buckets == map[] && View() == map[]
    {
      this.storage, uploadID, buckets := storage, 0, map[];
    }

    ghost function View(): map<string, Uploads>
      reads this, buckets.Values
    {
      map n | n in buckets :: buckets[n].View()
    }

    ghost predicate Valid()
      reads this, buckets.Values
    {
      forall n :: n in buckets ==> buckets[n].bucket == n
    }

    ghost function Touched(bucket: string): set<object>
      reads this
    {
      if bucket in buckets then {buckets[bucket]} else {}
    }

    method GetUnlocked(bucket: string, key: string, id: string) returns (r: Result<MultipartUpload>)
      requires Valid()
      ensures r == Find(View(), bucket, key, id)
      ensures r.Ok? ==> bucket in buckets && id in buckets[bucket].uploads && r.value == buckets[bucket].uploads[id]
    {
      if bucket !in buckets {
        return Err(NoSuchUpload);
      }
      var bucketUps := buckets[bucket];
      if id !in bucketUps.uploads {
        return Err(NoSuchUpload);
      }
      var mu := bucketUps.uploads[id];
      if mu.bucket != bucket || mu.key != key {
        return Err(NoSuchUpload);
      }
      r := Ok(mu);
    }

    /** When the uploads of one bucket change, the others stay as they are. */
    twostate lemma OnlyBucketChanged(bucket: string)
      requires old(Valid()) && bucket in buckets && buckets[bucket].bucket == bucket &&
        old(buckets.Keys) + {bucket} == buckets.Keys
      requires forall n :: n in buckets && n != bucket ==> buckets[n] == old(buckets[n]) && unchanged(buckets[n])
      ensures Valid() && View() == old(View())[bucket := buckets[bucket].View()]
    {
    }

    method AddTo(bucket: string, mpu: MultipartUpload)
      requires Valid() && bucket in buckets
      modifies buckets[bucket]
      ensures Valid() && View() == old(View())[bucket := Added(old(View())[bucket], mpu)]
    {
      buckets[bucket].Add(mpu);
      OnlyBucketChanged(bucket);
    }

    method RemoveFrom(bucket: string, id: string)
      requires Valid() && bucket in buckets && id in buckets[bucket].uploads
      modifies buckets[bucket]
      ensures Valid() && View() == Ended(old(View()), bucket, id)
    {
      buckets[bucket].Remove(id);
      OnlyBucketChanged(bucket);
    }

    method NewBucket(bucket: string)
      requires Valid() && bucket !in buckets
      modifies `buckets
      ensures Valid() && bucket in buckets && fresh(buckets[bucket]) &&
        buckets == old(buckets)[bucket := buckets[bucket]]
      ensures View() == old(View())[bucket := NO_UPLOADS]
    {
      var b := new BucketUploads(bucket);
      buckets := buckets[bucket := b];
      OnlyBucketChanged(bucket);
    }

    /** Creates an upload, whether or not the bucket exists. */
    method CreateMultipartUpload(bucket: string, key: string) returns (id: string, ghost u: MultipartUpload)
      requires Valid()
      modifies this, Touched(bucket)
      ensures Valid() && uploadID == old(uploadID) + 1
      ensures forall b :: b in buckets.Values ==> b in old(buckets.Values) || fresh(b)
      ensures fresh(u) && u.number == uploadID && u.bucket == bucket && u.key == key && u.parts == [] &&
        id == u.id == Decimal(uploadID)
      ensures View() == Created(old(View()), u)
    {
      uploadID := uploadID + 1;
      var mpu := new MultipartUpload(uploadID, bucket, key);
      if bucket !in buckets {
        NewBucket(bucket);
      }
      AddTo(bucket, mpu);
      id, u := mpu.id, mpu;
    }

    method AbortMultipartUpload(bucket: string, key: string, id: string) returns (err: Option<Error>)
      requires Valid()
      modifies Touched(bucket)
      ensures Valid()
      ensures if Find(old(View()), bucket, key, id).Err? then err == Some(NoSuchUpload) && View() == old(View())
              else err == None && View() == Ended(old(View()), bucket, id)
    {
      var mpu := GetUnlocked(bucket, key, id);
      if mpu.Err? {
        return Some(mpu.error);
      }
      RemoveFrom(bucket, id);
      err := None;
    }

    twostate lemma UploadsKept()
      requires old(Valid()) && unchanged(this) && unchanged(old(buckets.Values))
      ensures Valid() && View() == old(View())
    {
    }

    lemma ApartFromStorage()
      ensures this !in storage.Parts() && forall b :: b in buckets.Values ==> b !in storage.Parts()
    {
    }

    /** UploadPart; `input` is what reading the request's body came to. */
    method UploadPart(bucket: string, key: string, id: string, partNumber: int, contentLength: int,
                      input: Result<Bytes>)
      returns (r: Result<Bytes>, ghost found: Result<MultipartUpload>)
      requires Valid()
      modifies if Find(View(), bucket, key, id).Ok? then {Find(View(), bucket, key, id).value} else {}
      ensures Valid() && View() == old(View())
      ensures found == Find(View(), bucket, key, id)
      ensures var refused := PartRefused(partNumber, contentLength, input, found);
        if refused.Some? then r == Err(refused.value) && (found.Ok? ==> unchanged(found.value))
        else
          var (u, etag) := (found.value, PartEtag(storage.md5, input.value));
          r == Ok(etag) && u.parts == SetPart(old(u.parts), partNumber, Part(partNumber, etag, input.value))
      ensures r.Ok? ==> input.Ok? && IsPartEtag(r.value, storage.md5(input.value))
    {
      found := Find(View(), bucket, key, id);
      if partNumber > MAX_UPLOAD_PART_NUMBER {
        return Err(InvalidPart), found;
      }
      if input.Err? {
        return Err(input.error), found;
      }
      if |input.value| != contentLength {
        return Err(IncompleteBody), found;
      }
      var mpu := GetUnlocked(bucket, key, id);
      if mpu.Err? {
        return Err(mpu.error), found;
      }
      if partNumber < 0 {
        return Err(Panic), found;
      }
      var etag := PartEtag(storage.md5, input.value);
      PartEtagIs(storage.md5, input.value);
      StorePart(mpu.value, Part(partNumber, etag, input.value));
      UploadsKept();
      r := Ok(etag);
    }

    method ListParts(bucket: string, key: string, id: string, marker: int, limit: int) returns (r: Result<PartList>)
      requires Valid()
      ensures var found := Find(View(), bucket, key, id);
        if found.Err? then r == Err(found.error)
        else if 0 <= marker <= |found.value.parts| then r.Ok? && ListsParts(found.value.parts[marker..], limit, r.value)
        else r == Err(Panic)
    {
      var mpu := GetUnlocked(bucket, key, id);
      if mpu.Err? {
        return Err(mpu.error);
      }
      r := UploadParts.ListParts(mpu.value.parts, marker, limit);
    }

    /** A page of the uploads in progress; the indexes of the bucket must agree. */
    method ListMultipartUploads(bucket: string, marker: Option<UploadListing.Marker>, p: Prefixes.Prefix, limit: int)
      returns (r: Result<UploadListing.UploadList>)
      requires Valid() && (bucket in View() ==> Agree(View()[bucket], bucket, uploadID))
      ensures r == if bucket !in View() then Err(NoSuchUpload)
        else Ok(UploadListing.ListUploads(View()[bucket], marker, p, limit))
    {
      if bucket !in buckets {
        return Err(NoSuchUpload);
      }
      var x := buckets[bucket].View();
      UploadPages.AgreeNoneEmpty(x, bucket, uploadID);
      var list := UploadWalks.ListUploads(x, marker, p, limit);
      r := Ok(list);
    }

    /** What a complete request is to store, or its error. */
    ghost function Prepared(bucket: string, key: string, id: string, cs: seq<CompletedPart>): Result<Assembly>
      reads this, buckets.Values, if Find(View(), bucket, key, id).Ok? then {Find(View(), bucket, key, id).value}
        else {}
    {
      var mpu := Find(View(), bucket, key, id);
      if mpu.Err? then Err(mpu.error) else Completion(mpu.value.parts, cs)
    }

    /** The checks and the assembly, before anything is changed. */
    method Prepare(bucket: string, key: string, id: string, cs: seq<CompletedPart>) returns (r: Result<Assembly>)
      requires Valid()
      ensures r == Prepared(bucket, key, id, cs) && (r.Ok? ==> bucket in buckets && id in buckets[bucket].uploads)
    {
      var mpu := GetUnlocked(bucket, key, id);
      if mpu.Err? {
        return Err(mpu.error);
      }
      if |cs| > |mpu.value.parts| {
        return Err(InvalidPart);
      }
      var sorted := PartsAreSorted(cs);
      if !sorted {
        return Err(InvalidPartOrder);
      }
      var err := CheckParts(mpu.value.parts, cs);
      if err.Some? {
        return Err(err.value);
      }
      r := Assemble(mpu.value.parts, cs);
    }

    /** Storing changes the backend only. */
    method Store(bucket: string, key: string, body: Bytes, ghost id: string)
      returns (r: Result<string>, ghost version: string)
      requires Valid() && storage.Valid() && bucket in buckets && id in buckets[bucket].uploads
      modifies storage.Parts()
      ensures Valid() && storage.Valid() && View() == old(View()) && buckets == old(buckets) &&
        id in buckets[bucket].uploads
      ensures storage.Grown() && storage.Minted() == CountAfter(old(storage.Minted()), r.Ok?)
      ensures (storage.View(), r) == Stores(old(storage.View()), bucket, key, body, storage.md5, version)
      ensures r.Ok? && storage.Minted() < COUNTER_LIMIT ==> IsIdNumber(version, storage.Minted())
    {
      ApartFromStorage();
      r, version := storage.StoreBody(bucket, key, body);
      UploadsKept();
    }

    /** Ending an upload leaves the backend alone. */
    method End(bucket: string, id: string)
      requires Valid() && storage.Valid() && bucket in buckets && id in buckets[bucket].uploads
      modifies buckets[bucket]
      ensures Valid() && View() == Ended(old(View()), bucket, id)
      ensures storage.Valid() && storage.View() == old(storage.View()) && storage.Parts() == old(storage.Parts())
      ensures storage.Minted() == old(storage.Minted())
    {
      RemoveFrom(bucket, id);
      storage.BackendFrame();
    }

    /** What was prepared is stored, and only if it is, the upload ends. */
    method Finish(bucket: string, key: string, id: string, c: Assembly, n: nat)
      returns (r: Result<Completed>, ghost version: string)
      requires Valid() && storage.Valid() && bucket in buckets && id in buckets[bucket].uploads
      modifies buckets[bucket], storage.Parts()
      ensures Valid() && storage.Valid()
      ensures storage.Grown() && storage.Minted() == CountAfter(old(storage.Minted()), r.Ok?)
      ensures (View(), storage.View(), r) ==
        Completes(old(View()), old(storage.View()), bucket, key, id, Ok(c), n, storage.md5, version)
      ensures r.Ok? && storage.Minted() < COUNTER_LIMIT ==> IsIdNumber(version, storage.Minted())
    {
      var put;
      put, version := Store(bucket, key, c.body, id);
      if put.Err? {
        r := Err(put.error);
      } else {
        End(bucket, id);
        r := Ok(Completed(put.value, CompleteEtag(storage.md5, c.hashes, n)));
      }
    }

    /** An error leaves all as it was. */
    method Conclude(bucket: string, key: string, id: string, c: Result<Assembly>, n: nat)
      returns (r: Result<Completed>, ghost version: string)
      requires Valid() && storage.Valid() && (c.Ok? ==> bucket in buckets && id in buckets[bucket].uploads)
      modifies Touched(bucket), storage.Parts()
      ensures Valid() && storage.Valid()
      ensures storage.Grown() && storage.Minted() == CountAfter(old(storage.Minted()), r.Ok?)
      ensures r.Ok? && storage.Minted() < COUNTER_LIMIT ==> IsIdNumber(version, storage.Minted())
      ensures (View(), storage.View(), r) ==
        Completes(old(View()), old(storage.View()), bucket, key, id, c, n, storage.md5, version)
    {
      if c.Err? {
        storage.BackendFrame();
        r, version := Err(c.error), "";
        return;
      }
      r, version := Finish(bucket, key, id, c.value, n);
    }

    method CompleteMultipartUpload(bucket: string, key: string, id: string, cs: seq<CompletedPart>)
      returns (r: Result<Completed>, ghost version: string)
      requires Valid() && storage.Valid()
      modifies Touched(bucket), storage.Parts()
      ensures Valid() && storage.Valid()
      ensures storage.Grown() && storage.Minted() == CountAfter(old(storage.Minted()), r.Ok?)
      ensures r.Err? ==> View() == old(View()) && storage.View() == old(storage.View())
      ensures r.Ok? && storage.Minted() < COUNTER_LIMIT ==> IsIdNumber(version, storage.Minted())
      ensures var c := old(Prepared(bucket, key, id, cs));
        && (View(), storage.View(), r) ==
             Completes(old(View()), old(storage.View()), bucket, key, id, c, |cs|, storage.md5, version)
        && (r.Ok? ==> c.Ok? && IsObjectEtag(r.value.etag, storage.md5(c.value.hashes), |cs|))
    {
      ghost var v, w := View(), storage.View();
      var c := Prepare(bucket, key, id, cs);
      UploadsKept();
      storage.BackendFrame();
      r, version := Conclude(bucket, key, id, c, |cs|);
      CompletesOrNot(v, w, bucket, key, id, c, |cs|, storage.md5, version);
    }
  }

  /** A completion answers the etag of what was prepared, or changes nothing. */
  lemma CompletesOrNot(v: map<string, Uploads>, w: map<string, BucketModel.State>, bucket: string, key: string,
                       id: string, c: Result<Assembly>, n: nat, md5: Digest, version: string)
    requires c.Ok? ==> bucket in v && id in v[bucket].byId
    ensures var (v', w', r) := Completes(v, w, bucket, key, id, c, n, md5, version);
      if r.Ok? then c.Ok? && IsObjectEtag(r.value.etag, md5(c.value.hashes), n) else v' == v && w' == w
  {
    if c.Ok? {
      CompleteEtagIs(md5, c.value.hashes, n);
    }
  }
}
