/** Calls served by a backend, one after the other: a run of the class is a run of the model. */
module Serving {
  import opened Basics
  import opened BucketModel
  import opened Backends
  import opened BackendRuns
  import opened BackendCalls
  import opened VersionIds
  import opened Chunks
  import Readers
  import ObjectUploads

  method ServeEvent(db: Backend, bucket: string, e: Event) returns (ghost id: string)
    requires db.Valid() && db.Minted() + 1 < COUNTER_LIMIT && !e.PutEvent?
    modifies db.Parts()
    ensures db.Valid() && db.Grown()
    ensures Leads(old(db.View()), old(db.Minted()), [InBucket(bucket, e)], [id], db.View(), db.Minted())
  {
    ghost var v, n := db.View(), db.Minted();
    id := "";
    if e.RemoveEvent? {
      var r;
      r, id := db.DeleteObject(bucket, e.name);
      DeleteLeads(v, n, bucket, e.name, id, db.View(), db.Minted(), r);
    } else if e.RemoveVersionEvent? {
      DeleteVersionLeads(v, n, bucket, e.name, e.id);
      var r := db.DeleteObjectVersion(bucket, e.name, e.id);
    } else {
      OneLeads(v, n, InBucket(bucket, e), id);
      var err := db.SetVersioning(bucket, e.enabled, false);
    }
  }

  method ServeRequest(db: Backend, r: Request) returns (ghost id: string)
    requires db.Valid() && db.Minted() + 1 < COUNTER_LIMIT && (r.InBucket? ==> !r.event.PutEvent?)
    modifies db, db.Parts()
    ensures db.Valid() && db.Grown()
    ensures Leads(old(db.View()), old(db.Minted()), [r], [id], db.View(), db.Minted())
  {
    ghost var v, n := db.View(), db.Minted();
    id := "";
    match r
    case CreateBucket(b) =>
      var err := db.CreateBucket(b);
      OneLeads(v, n, r, id);
    case DeleteBucket(b) =>
      var err := db.DeleteBucket(b);
      OneLeads(v, n, r, id);
    case ForceDeleteBucket(b) =>
      var err := db.ForceDeleteBucket(b);
      OneLeads(v, n, r, id);
    case InBucket(b, e) =>
      id := ServeEvent(db, b, e);
  }

  method ServeUpload(db: Backend, bucket: string, name: string, h: ObjectUploads.Headers, source: Readers.Source,
                     ghost a: ObjectUploads.Arrival, grow: Readers.Growth, ghost scan: Scanner,
                     ghost v: map<string, State>, ghost rs: seq<Request>)
    returns (ghost ids: seq<string>)
    requires db.Valid() && db.Minted() + 1 < COUNTER_LIMIT && source.Valid() && source !in db.Footprint()
    requires scan == Fscanf && source.Rest() == a.stream && source.pc == a.pc && grow == a.grow
    requires v == db.View()
    requires rs == PutIfStored(v, bucket, name, ObjectUploads.Accepted(scan, db.md5, h, name, a), db.md5)
    modifies source, db.Parts()
    ensures db.Valid() && db.Grown()
    ensures Leads(v, old(db.Minted()), rs, ids, db.View(), db.Minted())
  {
    ghost var n, body := db.Minted(), ObjectUploads.Accepted(scan, db.md5, h, name, a);
    var r;
    ghost var id;
    r, id := ObjectUploads.CreateObject(db, bucket, name, h, source, grow, scan);
    CreatesOrNot(v, bucket, name, body, db.md5, id);
    ids := PutLeads(v, n, bucket, name, body, db.md5, id, db.View(), db.Minted(), r.Ok?);
  }

  lemma CreatesOrNot(v: map<string, State>, bucket: string, name: string, body: Result<Bytes>, md5: Digest, id: string)
    ensures var ((w, r), ok) :=
      (ObjectUploads.Creates(v, bucket, name, body, md5, id),
       body.Ok? && Stores(v, bucket, name, body.value, md5, id).1.Ok?);
      && (r.Ok? <==> ok) && w == if ok then Stores(v, bucket, name, body.value, md5, id).0 else v
  {
  }

  /** A source beside the backend. */
  method NewSource(db: Backend, a: ObjectUploads.Arrival) returns (source: Readers.Source)
    requires db.Valid()
    ensures fresh(source) && source.Valid() && source !in db.Footprint()
    ensures source.Rest() == a.stream && source.pc == a.pc
    ensures db.Valid() && db.View() == old(db.View()) && db.Parts() == old(db.Parts()) &&
      db.Minted() == old(db.Minted())
  {
    source := NewSourceOnly(a);
    db.BackendFrame();
  }

  method NewSourceOnly(a: ObjectUploads.Arrival) returns (source: Readers.Source)
    ensures fresh(source) && source.Valid() && source.Rest() == a.stream && source.pc == a.pc
  {
    source := new Readers.Source(a.stream, a.pc);
  }

  method ServeCreate(db: Backend, bucket: string, name: string, h: ObjectUploads.Headers, a: ObjectUploads.Arrival,
                     ghost scan: Scanner, ghost v: map<string, State>, ghost rs: seq<Request>)
    returns (ghost ids: seq<string>)
    requires db.Valid() && db.Minted() + 1 < COUNTER_LIMIT && scan == Fscanf && v == db.View()
    requires rs == PutIfStored(v, bucket, name, ObjectUploads.Accepted(scan, db.md5, h, name, a), db.md5)
    modifies db.Parts()
    ensures db.Valid() && db.Grown()
    ensures Leads(v, old(db.Minted()), rs, ids, db.View(), db.Minted())
  {
    var source := NewSource(db, a);
    ids := ServeUpload(db, bucket, name, h, source, a, a.grow, scan, v, rs);
  }

  method ServeMulti(db: Backend, bucket: string, os: seq<ObjectID>) returns (ghost ids: seq<string>)
    requires db.Valid() && db.Minted() + |os| < COUNTER_LIMIT
    modifies db.Parts()
    ensures db.Valid() && db.Grown()
    ensures Leads(old(db.View()), old(db.Minted()), if bucket in old(db.View()) then DeleteRequests(bucket, os) else [],
                  ids, db.View(), db.Minted())
  {
    ghost var v, n := db.View(), db.Minted();
    var r;
    r, ids := db.DeleteMultiVersions(bucket, os);
    if r.Ok? {
      CountDeletedMost(v[bucket], os, ids, n);
      DeletesAreServed(v, db.View(), bucket, os, ids, n, db.Minted());
    } else {
      NoneLeads(v, n);
      ids := [];
    }
  }

  method ServeCall(db: Backend, c: Call, ghost scan: Scanner) returns (ghost ids: seq<string>)
    requires db.Valid() && db.Minted() + Takes(c) < COUNTER_LIMIT && IsCall(c) && scan == Fscanf
    modifies db, db.Parts()
    ensures db.Valid() && db.Grown()
    ensures Leads(old(db.View()), old(db.Minted()), Requests(db.md5, scan, c, old(db.View())), ids, db.View(),
                  db.Minted())
  {
    match c
    case Single(r) =>
      ghost var id := ServeRequest(db, r);
      ids := [id];
    case Create(b, name, h, a) =>
      ids := ServeCreate(db, b, name, h, a, scan, db.View(), Requests(db.md5, scan, c, db.View()));
    case DeleteMulti(b, os) =>
      ids := ServeMulti(db, b, os);
  }

  /** Any calls on a backend: each comes to its requests, one after the other, under the
      ids of the generator. */
  method ServeCalls(db: Backend, cs: seq<Call>, ghost scan: Scanner) returns (ghost idss: seq<seq<string>>)
    requires db.Valid() && db.Minted() + TakesAll(cs) < COUNTER_LIMIT && scan == Fscanf
    requires forall c :: c in cs ==> IsCall(c)
    modifies db, db.Parts()
    ensures db.Valid()
    ensures CallsLead(db.md5, scan, cs, old(db.View()), old(db.Minted()), idss, db.View(), db.Minted())
    decreases |cs|
  {
    idss := [];
    if cs != [] {
      ghost var v, n := db.View(), db.Minted();
      ghost var ids := ServeCall(db, cs[0], scan);
      ghost var x, k := db.View(), db.Minted();
      RoomAfterFirst(db.md5, scan, cs, v, n, ids, x, k);
      idss := ServeCalls(db, cs[1..], scan);
      FirstCallThenOthers(db.md5, scan, cs, v, n, ids, x, k, idss, db.View(), db.Minted());
      idss := [ids] + idss;
    }
  }
}
