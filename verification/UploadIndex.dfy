/** The multipart uploads of one bucket, by upload id and by object key. */
module UploadIndex {
  import opened Basics
  import opened SortedIndex
  import opened Encodings

  /** One uploaded part of an upload. */
  datatype Part = Part(number: int, etag: Bytes, body: Bytes)

  class MultipartUpload {
    const id: string
    const bucket: string
    const key: string
    // how many uploads had been created when this one was
    const number: nat
    var parts: seq<Option<Part>>

    constructor (number: nat, bucket: string, key: string)
      ensures this.number == number && id == Decimal(number) && this.bucket == bucket && this.key == key && parts == []
    {
      this.number, id, this.bucket, this.key, parts := number, Decimal(number), bucket, key, [];
    }
  }

  /** The two indexes of a bucket's uploads. */
  datatype Uploads = Uploads(byId: map<string, MultipartUpload>, index: Index<seq<MultipartUpload>>)

  const NO_UPLOADS := Uploads(map[], Empty())

  function SliceAt(x: Uploads, k: string): seq<MultipartUpload> {
    if k in x.index.at then x.index.at[k] else []
  }

  // ---- the operations ----

  function Added(x: Uploads, u: MultipartUpload): Uploads {
    Uploads(x.byId[u.id := u], Set(x.index, u.key, SliceAt(x, u.key) + [u]))
  }

  /** Where the search for an id ends, from `i` on: at it, or at the last entry. */
  function Place(s: seq<MultipartUpload>, id: string, i: nat): (p: int)
    requires i <= |s|
    ensures -1 <= p < |s|
    decreases |s| - i
  {
    if i == |s| then |s| - 1
    else if s[i].id == id then i
    else Place(s, id, i + 1)
  }

  function Without(s: seq<MultipartUpload>, p: int): seq<MultipartUpload>
    requires -1 <= p < |s|
  {
    if p >= 0 then s[..p] + s[p + 1..] else s
  }

  function Removed(x: Uploads, id: string): Uploads
    requires id in x.byId
  {
    var (u, byId) := (x.byId[id], x.byId - {id});
    if u.key !in x.index.at then Uploads(byId, x.index)
    else
      var s := x.index.at[u.key];
      var t := Without(s, Place(s, id, 0));
      Uploads(byId, if t == [] then Delete(x.index, u.key) else Set(x.index, u.key, t))
  }

  class BucketUploads {
    ghost const bucket: string
    var uploads: map<string, MultipartUpload>
    var objectIndex: Index<seq<MultipartUpload>>

    constructor (ghost bucket: string)
      ensures this.bucket == bucket && View() == NO_UPLOADS
    {
      this.bucket, uploads, objectIndex := bucket, map[], Empty();
    }

    function View(): Uploads
      reads this
    {
      Uploads(uploads, objectIndex)
    }

    method Add(mpu: MultipartUpload)
      modifies this
      ensures View() == Added(old(View()), mpu)
    {
      uploads := uploads[mpu.id := mpu];
      var slice := [mpu];
      assert [] + [mpu] == [mpu];
      if mpu.key in objectIndex.at {
        slice := objectIndex.at[mpu.key] + [mpu];
      }
      objectIndex := Set(objectIndex, mpu.key, slice);
    }

    method Remove(uploadID: string)
      requires uploadID in uploads
      modifies this
      ensures View() == Removed(old(View()), uploadID)
    {
      var upload := uploads[uploadID];
      uploads := uploads - {uploadID};
      if upload.key !in objectIndex.at {
        return;
      }
      var slice := objectIndex.at[upload.key];
      var found, i := -1, 0;
      while i < |slice|
        invariant 0 <= i <= |slice| && found == i - 1 && Place(slice, uploadID, 0) == Place(slice, uploadID, i)
      {
        found := i;
        if slice[i].id == uploadID {
          break;
        }
        i := i + 1;
      }
      if found >= 0 {
        slice := slice[..found] + slice[found + 1..];
      }
      if |slice| == 0 {
        objectIndex := Delete(objectIndex, upload.key);
      } else {
        objectIndex := Set(objectIndex, upload.key, slice);
      }
    }
  }

  // ---- the indexes agree ----

  /** The uploads under a key: some, all for that key and in the id map, in order of creation. */
  ghost predicate SliceOK(byId: map<string, MultipartUpload>, k: string, s: seq<MultipartUpload>) {
    && s != []
    && (forall i :: 0 <= i < |s| ==> s[i].key == k && s[i].id in byId && byId[s[i].id] == s[i])
    && (forall i, j :: 0 <= i < j < |s| ==> s[i].number < s[j].number)
  }

  ghost predicate UploadOK(x: Uploads, bucket: string, last: nat, id: string)
    requires id in x.byId
  {
    var u := x.byId[id];
    u.id == id == Decimal(u.number) && 0 < u.number <= last && u.bucket == bucket && u in SliceAt(x, u.key)
  }

  /** The two indexes agree, and their uploads are among the first `last` created. */
  ghost predicate Agree(x: Uploads, bucket: string, last: nat) {
    && Sorted(x.index)
    && (forall k :: k in x.index.at ==> SliceOK(x.byId, k, x.index.at[k]))
    && (forall id :: id in x.byId ==> UploadOK(x, bucket, last, id))
  }

  /** An upload is in the id map if and only if it is in the slice of its key, and there
      it is exactly once. */
  lemma InBothIndexes(x: Uploads, bucket: string, last: nat, u: MultipartUpload)
    requires Agree(x, bucket, last)
    ensures u.id in x.byId && x.byId[u.id] == u <==> u in SliceAt(x, u.key)
    ensures forall k, i, j :: k in x.index.at && 0 <= i < |x.index.at[k]| && 0 <= j < |x.index.at[k]| ==>
      x.index.at[k][i] == x.index.at[k][j] ==> i == j
  {
    if u in SliceAt(x, u.key) {
      var s := SliceAt(x, u.key);
      var i :| 0 <= i < |s| && s[i] == u;
      assert SliceOK(x.byId, u.key, s);
    }
    forall k, i, j | k in x.index.at && 0 <= i < |x.index.at[k]| && 0 <= j < |x.index.at[k]| &&
      x.index.at[k][i] == x.index.at[k][j]
      ensures i == j
    {
      assert SliceOK(x.byId, k, x.index.at[k]);
    }
  }

  lemma EmptyAgrees(bucket: string, last: nat)
    ensures Agree(NO_UPLOADS, bucket, last)
  {
  }

  lemma AgreeLater(x: Uploads, bucket: string, last: nat, later: nat)
    requires Agree(x, bucket, last) && last <= later
    ensures Agree(x, bucket, later)
  {
    forall id | id in x.byId
      ensures UploadOK(x, bucket, later, id)
    {
      assert UploadOK(x, bucket, last, id);
    }
  }

  /** A new upload goes to the end of its key's slice. */
  lemma AddAgrees(x: Uploads, bucket: string, last: nat, u: MultipartUpload)
    requires Agree(x, bucket, last) && u.number == last + 1 && u.id == Decimal(u.number) && u.bucket == bucket
    ensures Agree(Added(x, u), bucket, last + 1) && u.id !in x.byId
  {
    var y := Added(x, u);
    NewIdIsNew(x, bucket, last, u);
    SetSorted(x.index, u.key, SliceAt(x, u.key) + [u]);
    AddSlices(x, bucket, last, u);
    forall id | id in y.byId
      ensures UploadOK(y, bucket, last + 1, id)
    {
      if id != u.id {
        assert UploadOK(x, bucket, last, id);
      }
    }
  }

  lemma NewIdIsNew(x: Uploads, bucket: string, last: nat, u: MultipartUpload)
    requires Agree(x, bucket, last) && u.number == last + 1 && u.id == Decimal(u.number)
    ensures u.id !in x.byId
  {
    if u.id in x.byId {
      assert UploadOK(x, bucket, last, u.id);
      DecimalInjective(u.number, x.byId[u.id].number);
    }
  }

  lemma AddSlices(x: Uploads, bucket: string, last: nat, u: MultipartUpload)
    requires Agree(x, bucket, last) && u.number == last + 1 && u.id !in x.byId
    ensures var y := Added(x, u); forall k :: k in y.index.at ==> SliceOK(y.byId, k, y.index.at[k])
  {
    var y := Added(x, u);
    forall k | k in y.index.at
      ensures SliceOK(y.byId, k, y.index.at[k])
    {
      if k in x.index.at {
        SliceKept(x, bucket, last, k, y.byId);
      }
      if k == u.key {
        SliceExtended(x.byId, y.byId, k, SliceAt(x, k), u, last);
      }
    }
  }

  /** A slice does not mind changes to the id map elsewhere. */
  lemma SliceKept(x: Uploads, bucket: string, last: nat, k: string, byId: map<string, MultipartUpload>)
    requires Agree(x, bucket, last) && k in x.index.at
    requires forall id :: id in x.byId ==> id in byId && byId[id] == x.byId[id]
    ensures SliceOK(byId, k, x.index.at[k]) &&
      (forall i :: 0 <= i < |x.index.at[k]| ==> x.index.at[k][i].number <= last)
  {
    var s := x.index.at[k];
    assert SliceOK(x.byId, k, s);
    forall i | 0 <= i < |s|
      ensures s[i].number <= last
    {
      assert UploadOK(x, bucket, last, s[i].id);
    }
  }

  lemma SliceExtended(byId: map<string, MultipartUpload>, byId': map<string, MultipartUpload>, k: string,
                      s: seq<MultipartUpload>, u: MultipartUpload, last: nat)
    requires s != [] ==> SliceOK(byId', k, s) && forall i :: 0 <= i < |s| ==> s[i].number <= last
    requires u.key == k && u.id in byId' && byId'[u.id] == u && u.number == last + 1
    ensures SliceOK(byId', k, s + [u])
  {
  }

  // ---- removal ----

  lemma {:induction false} PlaceFinds(s: seq<MultipartUpload>, id: string, i: nat, p: nat)
    requires i <= p < |s| && s[p].id == id && forall j :: i <= j < p ==> s[j].id != id
    ensures Place(s, id, i) == p
    decreases p - i
  {
    if i < p {
      PlaceFinds(s, id, i + 1, p);
    }
  }

  /** The search finds precisely the upload named. */
  lemma RemoveFinds(x: Uploads, bucket: string, last: nat, id: string) returns (p: nat)
    requires Agree(x, bucket, last) && id in x.byId
    ensures var (u, s) := (x.byId[id], SliceAt(x, x.byId[id].key));
      u.key in x.index.at && p < |s| && s[p] == u && Place(s, id, 0) == p &&
        forall j :: 0 <= j < |s| && j != p ==> s[j].id != id
  {
    var u, s := x.byId[id], SliceAt(x, x.byId[id].key);
    assert UploadOK(x, bucket, last, id);
    assert SliceOK(x.byId, u.key, s);
    p :| 0 <= p < |s| && s[p] == u;
    forall j | 0 <= j < |s| && j != p
      ensures s[j].id != id
    {
      OneOfAnId(x.byId, u.key, s, p, j);
    }
    PlaceFinds(s, id, 0, p);
  }

  lemma OneOfAnId(byId: map<string, MultipartUpload>, k: string, s: seq<MultipartUpload>, p: nat, j: nat)
    requires SliceOK(byId, k, s) && p < |s| && j < |s| && j != p
    ensures s[j].id != s[p].id
  {
    assert byId[s[p].id] == s[p] && byId[s[j].id] == s[j];
    assert s[j].number != s[p].number;
  }

  /** The slice without its entry `p`. */
  lemma SliceShortened(byId: map<string, MultipartUpload>, byId': map<string, MultipartUpload>, k: string,
                       s: seq<MultipartUpload>, p: nat)
    requires SliceOK(byId, k, s) && p < |s| && byId' == byId - {s[p].id} && |s| > 1
    ensures SliceOK(byId', k, Without(s, p))
  {
    var t := Without(s, p);
    forall i | 0 <= i < |t|
      ensures t[i] == s[if i < p then i else i + 1] && t[i].key == k && t[i].id in byId' && byId'[t[i].id] == t[i]
    {
      OneOfAnId(byId, k, s, p, if i < p then i else i + 1);
    }
  }

  lemma WithoutMember(s: seq<MultipartUpload>, p: nat, v: MultipartUpload)
    requires p < |s| && v in s && v != s[p]
    ensures v in Without(s, p)
  {
    var i :| 0 <= i < |s| && s[i] == v;
    assert Without(s, p)[if i < p then i else i - 1] == v;
  }

  lemma OtherSlice(x: Uploads, id: string, k: string)
    requires id in x.byId && k != x.byId[id].key && k in x.index.at && SliceOK(x.byId, k, x.index.at[k])
    ensures SliceOK(x.byId - {id}, k, x.index.at[k])
  {
    var s := x.index.at[k];
    forall i | 0 <= i < |s|
      ensures s[i].id != id && s[i].id in x.byId - {id} && (x.byId - {id})[s[i].id] == s[i]
    {
      assert x.byId[s[i].id] == s[i] && s[i].key == k;
    }
  }

  /** What removal does to the indexes, `p` being where the upload is. */
  lemma RemoveShape(x: Uploads, id: string, p: nat)
    requires Sorted(x.index) && id in x.byId && x.byId[id].key in x.index.at
    requires p < |SliceAt(x, x.byId[id].key)| && Place(SliceAt(x, x.byId[id].key), id, 0) == p
    ensures var (y, k) := (Removed(x, id), x.byId[id].key);
      && Sorted(y.index) && y.byId == x.byId - {id} && SliceAt(y, k) == Without(SliceAt(x, k), p)
      && (k in y.index.at ==> |SliceAt(x, k)| > 1)
      && (forall l :: l != k ==> SliceAt(y, l) == SliceAt(x, l) && (l in y.index.at <==> l in x.index.at))
  {
    var k := x.byId[id].key;
    DeleteSorted(x.index, k);
    SetSorted(x.index, k, Without(SliceAt(x, k), p));
  }

  lemma RemoveSlices(x: Uploads, bucket: string, last: nat, id: string, p: nat, k: string)
    requires Agree(x, bucket, last) && id in x.byId && x.byId[id].key in x.index.at
    requires var s := SliceAt(x, x.byId[id].key); p < |s| && s[p] == x.byId[id] && Place(s, id, 0) == p
    requires k in Removed(x, id).index.at
    ensures SliceOK(x.byId - {id}, k, Removed(x, id).index.at[k])
  {
    RemoveShape(x, id, p);
    assert UploadOK(x, bucket, last, id);
    if k == x.byId[id].key {
      SliceShortened(x.byId, x.byId - {id}, k, SliceAt(x, k), p);
    } else {
      OtherSlice(x, id, k);
    }
  }

  lemma RemoveIds(x: Uploads, bucket: string, last: nat, id: string, p: nat, v: string)
    requires Agree(x, bucket, last) && id in x.byId && x.byId[id].key in x.index.at
    requires var s := SliceAt(x, x.byId[id].key); p < |s| && s[p] == x.byId[id] && Place(s, id, 0) == p
    requires v in x.byId && v != id
    ensures v in Removed(x, id).byId && UploadOK(Removed(x, id), bucket, last, v)
  {
    RemoveShape(x, id, p);
    assert UploadOK(x, bucket, last, v) && UploadOK(x, bucket, last, id);
    if x.byId[v].key == x.byId[id].key { WithoutMember(SliceAt(x, x.byId[id].key), p, x.byId[v]); }
  }

  /** Removal takes precisely the named upload out of both indexes; every other slice,
      and the order in its own, stay as they are. */
  lemma RemoveExact(x: Uploads, bucket: string, last: nat, id: string)
    requires Agree(x, bucket, last) && id in x.byId
    ensures var (y, u) := (Removed(x, id), x.byId[id]);
      && Agree(y, bucket, last) && y.byId == x.byId - {id}
      && (exists p ::
            0 <= p < |SliceAt(x, u.key)| && SliceAt(x, u.key)[p] == u &&
            SliceAt(y, u.key) == Without(SliceAt(x, u.key), p))
      && (forall k :: k != u.key ==> SliceAt(y, k) == SliceAt(x, k))
  {
    var p := RemoveFinds(x, bucket, last, id);
    RemoveShape(x, id, p);
    forall k | k in Removed(x, id).index.at
      ensures SliceOK(x.byId - {id}, k, Removed(x, id).index.at[k])
    {
      RemoveSlices(x, bucket, last, id, p, k);
    }
    forall v | v in x.byId && v != id
      ensures v in Removed(x, id).byId && UploadOK(Removed(x, id), bucket, last, v)
    {
      RemoveIds(x, bucket, last, id, p, v);
    }
  }
}
