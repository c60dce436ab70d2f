/** Calls served by an uploader and its backend: a run of the classes is a run of the model. */
module UploadServing {
  import opened Basics
  import opened Backends
  import opened BackendRuns
  import opened UploadIndex
  import opened UploadParts
  import opened Uploaders
  import opened UploadRuns
  import opened UploadHistories
  import opened ServerModel
  import opened VersionIds
  import opened Chunks
  import BucketModel
  import BackendCalls
  import Serving
  import Prefixes
  import Listing
  import BucketListings
  import UploadListing

  // ---- what an uploader and its backend show ----

  ghost function Now(up: Uploader): Progress
    reads up, up.buckets.Values
  {
    Progress(up.uploadID, up.View())
  }

  /** The uploads in progress, as objects. */
  ghost function Held(v: map<string, Uploads>): set<MultipartUpload> {
    set b, i | b in v && i in v[b].byId :: v[b].byId[i]
  }

  /** The parts kept are those of the parts accepted. */
  ghost predicate PartsShown(held: set<MultipartUpload>, md5: Digest, h: History)
    reads held
  {
    forall u :: u in held ==> u.parts == AllSet(md5, PartsSent(h, u))
  }

  ghost predicate ShowsLedger(up: Uploader, l: Ledger)
    reads up, up.buckets.Values, Held(up.View())
  {
    l.uploads == Now(up) && PartsShown(Held(up.View()), up.storage.md5, l.history)
  }

  ghost predicate Shows(up: Uploader, w: World)
    reads up, up.buckets.Values, Held(up.View()), up.storage, up.storage.Footprint()
  {
    ShowsLedger(up, w.ledger) && w.buckets == up.storage.View() && w.minted == up.storage.Minted()
  }

  /** What the calls change: the uploader, its indexes, its uploads and the backend. */
  ghost function Reach(up: Uploader): set<object>
    reads up, up.buckets.Values, up.storage, up.storage.source, up.storage.buckets.Values
  {
    {up, up.storage} + (set b | b in up.buckets.Values :: b as object) + Held(up.View()) + up.storage.Parts()
  }

  twostate predicate Grown(up: Uploader)
    reads up, up.buckets.Values, up.storage, up.storage.source, up.storage.buckets.Values
  {
    && (forall b :: b in up.buckets.Values ==> b in old(up.buckets.Values) || fresh(b))
    && (forall x :: x in Held(up.View()) ==> x in old(Held(up.View())) || fresh(x))
    && up.storage.Grown()
  }

  lemma TouchedReached(up: Uploader, bucket: string)
    ensures up.Touched(bucket) <= Reach(up)
  {
    if bucket in up.buckets {
      assert up.buckets[bucket] in up.buckets.Values;
    }
  }

  lemma FoundHeld(v: map<string, Uploads>, bucket: string, key: string, id: string)
    ensures var r := Find(v, bucket, key, id); r.Ok? ==> r.value in Held(v)
  {
  }

  lemma HeldCreated(v: map<string, Uploads>, u: MultipartUpload)
    ensures Held(Created(v, u)) <= Held(v) + {u}
  {
  }

  lemma HeldEnded(s: Progress, bucket: string, key: string, id: string)
    ensures Held(Ending(s, bucket, key, id).buckets) <= Held(s.buckets)
  {
  }

  // ---- the calls on uploads ----

  lemma ShownWith(held: set<MultipartUpload>, held': set<MultipartUpload>, u: MultipartUpload, md5: Digest, h: History)
    requires PartsShown(held, md5, h) && u !in held && u.parts == [] && held' <= held + {u}
    ensures PartsShown(held', md5, h[u := []])
  {
  }

  lemma ShownLess(held: set<MultipartUpload>, held': set<MultipartUpload>, md5: Digest, h: History)
    requires PartsShown(held, md5, h) && held' <= held
    ensures PartsShown(held', md5, h)
  {
  }

  method InitiateGrows(up: Uploader, bucket: string, key: string) returns (ghost u: MultipartUpload)
    requires up.Valid() && up.storage.Valid()
    modifies up, up.Touched(bucket)
    ensures up.Valid() && Grown(up) && fresh(u) && u.parts == []
    ensures MayCreate(old(Now(up)), bucket, key, u) && Now(up) == Step(old(Now(up)), CreateEvent(u))
    ensures up.storage.Valid() && up.storage.View() == old(up.storage.View()) &&
      up.storage.Minted() == old(up.storage.Minted())
  {
    ghost var v := up.View();
    var id;
    id, u := up.CreateMultipartUpload(bucket, key);
    HeldCreated(v, u);
    up.storage.BackendFrame();
  }

  /** The uploads held before it are not touched. */
  method InitiateApart(up: Uploader, bucket: string, key: string, ghost held: set<MultipartUpload>,
                       ghost h: History)
    returns (ghost u: MultipartUpload)
    requires up.Valid() && up.storage.Valid() && PartsShown(held, up.storage.md5, h)
    modifies up, up.Touched(bucket)
    ensures up.Valid() && Grown(up) && u !in held && u.parts == []
    ensures MayCreate(old(Now(up)), bucket, key, u) && Now(up) == Step(old(Now(up)), CreateEvent(u))
    ensures PartsShown(held, up.storage.md5, h)
    ensures up.storage.Valid() && up.storage.View() == old(up.storage.View()) &&
      up.storage.Minted() == old(up.storage.Minted())
  {
    u := InitiateGrows(up, bucket, key);
    assert forall x :: x in held ==> x.parts == old(x.parts);
  }

  method ServeInitiate(up: Uploader, bucket: string, key: string, ghost l: Ledger) returns (ghost u: MultipartUpload)
    requires up.Valid() && up.storage.Valid() && ShowsLedger(up, l)
    modifies up, up.Touched(bucket)
    ensures up.Valid() && Grown(up) && MayCreate(l.uploads, bucket, key, u)
    ensures ShowsLedger(up, After(l, Deed(Initiate(bucket, key), Some(u), false)))
    ensures up.storage.Valid() && up.storage.View() == old(up.storage.View()) &&
      up.storage.Minted() == old(up.storage.Minted())
  {
    ghost var v, held := up.View(), Held(up.View());
    u := InitiateApart(up, bucket, key, held, l.history);
    HeldCreated(v, u);
    ShownWith(held, Held(up.View()), u, up.storage.md5, l.history);
  }

  method AbortEnds(up: Uploader, bucket: string, key: string, id: string)
    requires up.Valid() && up.storage.Valid()
    modifies up.Touched(bucket)
    ensures up.Valid() && Grown(up) && Now(up) == Ending(old(Now(up)), bucket, key, id)
    ensures up.storage.Valid() && up.storage.View() == old(up.storage.View()) &&
      up.storage.Minted() == old(up.storage.Minted())
  {
    HeldEnded(Now(up), bucket, key, id);
    var err := up.AbortMultipartUpload(bucket, key, id);
    up.storage.BackendFrame();
  }

  method AbortApart(up: Uploader, bucket: string, key: string, id: string, ghost held: set<MultipartUpload>,
                    ghost h: History)
    requires up.Valid() && up.storage.Valid() && PartsShown(held, up.storage.md5, h)
    modifies up.Touched(bucket)
    ensures up.Valid() && Grown(up) && PartsShown(held, up.storage.md5, h) &&
      Now(up) == Ending(old(Now(up)), bucket, key, id)
    ensures up.storage.Valid() && up.storage.View() == old(up.storage.View()) &&
      up.storage.Minted() == old(up.storage.Minted())
  {
    AbortEnds(up, bucket, key, id);
  }

  method ServeAbort(up: Uploader, bucket: string, key: string, id: string, ghost l: Ledger)
    requires up.Valid() && up.storage.Valid() && ShowsLedger(up, l)
    modifies up.Touched(bucket)
    ensures up.Valid() && Grown(up)
    ensures ShowsLedger(up, After(l, Deed(Abort(bucket, key, id), None, false)))
    ensures up.storage.Valid() && up.storage.View() == old(up.storage.View()) &&
      up.storage.Minted() == old(up.storage.Minted())
  {
    ghost var held := Held(up.View());
    AbortApart(up, bucket, key, id, held, l.history);
    HeldEnded(l.uploads, bucket, key, id);
    ShownLess(held, Held(up.View()), up.storage.md5, l.history);
  }

  lemma AllSetMore(md5: Digest, sent: seq<(nat, Bytes)>, n: nat, body: Bytes)
    ensures AllSet(md5, sent + [(n, body)]) == SetPart(AllSet(md5, sent), n, Part(n, PartEtag(md5, body), body))
  {
    assert (sent + [(n, body)])[..|sent|] == sent;
  }

  lemma ShownPart(held: set<MultipartUpload>, u: MultipartUpload, md5: Digest, h: History, n: nat, body: Bytes)
    requires PartsShown(held - {u}, md5, h)
    requires u.parts == SetPart(AllSet(md5, PartsSent(h, u)), n, Part(n, PartEtag(md5, body), body))
    ensures PartsShown(held, md5, h[u := PartsSent(h, u) + [(n, body)]])
  {
    AllSetMore(md5, PartsSent(h, u), n, body);
    var h' := h[u := PartsSent(h, u) + [(n, body)]];
    forall x | x in held
      ensures x.parts == AllSet(md5, PartsSent(h', x))
    {
      assert x != u ==> x in held - {u};
    }
  }

  /** The upload found, if any. */
  ghost function FoundOnly(up: Uploader, c: UploadCall): set<MultipartUpload>
    reads up, up.buckets.Values
    requires c.Upload?
  {
    var found := Find(up.View(), c.bucket, c.key, c.id);
    if found.Ok? then {found.value} else {}
  }

  /** A part that is refused changes nothing, another is added to the upload found. */
  function PartsAfter(md5: Digest, c: UploadCall, found: Result<MultipartUpload>, parts: seq<Option<Part>>):
    seq<Option<Part>>
    requires c.Upload?
  {
    if PartRefused(c.partNumber, c.contentLength, c.input, found).Some? then parts
    else SetPart(parts, c.partNumber, Part(c.partNumber, PartEtag(md5, c.input.value), c.input.value))
  }

  method PartStored(up: Uploader, c: UploadCall, ghost us: set<MultipartUpload>)
    requires up.Valid() && c.Upload? && us == FoundOnly(up, c)
    modifies us
    ensures up.Valid() && Now(up) == old(Now(up))
    ensures var found := Find(up.View(), c.bucket, c.key, c.id);
      forall u :: u in us ==> u.parts == PartsAfter(up.storage.md5, c, found, old(u.parts))
  {
    var r;
    ghost var found;
    r, found := up.UploadPart(c.bucket, c.key, c.id, c.partNumber, c.contentLength, c.input);
  }

  method PartKept(up: Uploader, c: UploadCall, ghost us: set<MultipartUpload>)
    requires up.Valid() && up.storage.Valid() && c.Upload? && us == FoundOnly(up, c)
    modifies us
    ensures up.Valid() && Grown(up) && Now(up) == old(Now(up))
    ensures up.storage.Valid() && up.storage.View() == old(up.storage.View()) &&
      up.storage.Minted() == old(up.storage.Minted())
    ensures var found := Find(up.View(), c.bucket, c.key, c.id);
      forall u :: u in us ==> u.parts == PartsAfter(up.storage.md5, c, found, old(u.parts))
  {
    PartStored(up, c, us);
    up.storage.BackendFrame();
  }

  lemma ShownAfter(held: set<MultipartUpload>, us: set<MultipartUpload>, md5: Digest, l: Ledger, c: UploadCall)
    requires c.Upload? && us <= held && PartsShown(held - us, md5, l.history)
    requires var found := Found(l, c.bucket, c.key, c.id);
      us == (if found.Ok? then {found.value} else {}) &&
        forall u :: u in us ==> u.parts == PartsAfter(md5, c, found, AllSet(md5, PartsSent(l.history, u)))
    ensures PartsShown(held, md5, Recorded(Deed(c, None, false), l))
  {
    var found := Found(l, c.bucket, c.key, c.id);
    if Accepts(c, l) {
      ShownPart(held, found.value, md5, l.history, c.partNumber, c.input.value);
    } else {
      ShownUnless(held, us, md5, l.history);
    }
  }

  lemma ShownUnless(held: set<MultipartUpload>, us: set<MultipartUpload>, md5: Digest, h: History)
    requires PartsShown(held - us, md5, h) && PartsShown(us, md5, h)
    ensures PartsShown(held, md5, h)
  {
    forall x | x in held
      ensures x.parts == AllSet(md5, PartsSent(h, x))
    {
      assert x in us || x in held - us;
    }
  }

  method PartApart(up: Uploader, c: UploadCall, ghost l: Ledger, ghost us: set<MultipartUpload>,
                   ghost held: set<MultipartUpload>)
    requires up.Valid() && up.storage.Valid() && c.Upload? && us == FoundOnly(up, c) && us <= held
    requires l.uploads == Now(up) && PartsShown(held, up.storage.md5, l.history)
    modifies us
    ensures up.Valid() && Grown(up) && Now(up) == old(Now(up))
    ensures up.storage.Valid() && up.storage.View() == old(up.storage.View()) &&
      up.storage.Minted() == old(up.storage.Minted())
    ensures PartsShown(held, up.storage.md5, Recorded(Deed(c, None, false), l))
  {
    PartKept(up, c, us);
    assert PartsShown(held - us, up.storage.md5, l.history);
    ShownAfter(held, us, up.storage.md5, l, c);
  }

  method ServePart(up: Uploader, c: UploadCall, ghost l: Ledger)
    requires up.Valid() && up.storage.Valid() && c.Upload? && ShowsLedger(up, l)
    modifies Held(up.View())
    ensures up.Valid() && Grown(up) && ShowsLedger(up, After(l, Deed(c, None, false)))
    ensures up.storage.Valid() && up.storage.View() == old(up.storage.View()) &&
      up.storage.Minted() == old(up.storage.Minted())
  {
    FoundHeld(up.View(), c.bucket, c.key, c.id);
    PartApart(up, c, l, FoundOnly(up, c), Held(up.View()));
  }

  // ---- completion ----

  /** What a completion comes to: the object is put and the upload ended, or neither. */
  lemma CompletesIs(s: Progress, w: map<string, BucketModel.State>, bucket: string, key: string, id: string,
                    c: Result<Assembly>, count: nat, md5: Digest, version: string)
    requires c.Ok? ==> Find(s.buckets, bucket, key, id).Ok?
    ensures var (v', w', r) := Uploaders.Completes(s.buckets, w, bucket, key, id, c, count, md5, version);
      && r.Ok? == PutStores(w, bucket, key, BodyOf(c), md5, version)
      && v' == (if r.Ok? then Ending(s, bucket, key, id) else s).buckets
      && w' == if r.Ok? then Stores(w, bucket, key, c.value.body, md5, version).0 else w
  {
    if c.Ok? {
      StoresOrNot(w, bucket, key, c.value.body, md5, version);
    }
  }

  predicate PutStores(w: map<string, BucketModel.State>, bucket: string, key: string, body: Result<Bytes>,
                      md5: Digest, version: string)
  {
    body.Ok? && Stores(w, bucket, key, body.value, md5, version).1.Ok?
  }

  lemma StoresOrNot(w: map<string, BucketModel.State>, bucket: string, key: string, body: Bytes, md5: Digest,
                    version: string)
    ensures Stores(w, bucket, key, body, md5, version).1.Err? ==> Stores(w, bucket, key, body, md5, version).0 == w
  {
  }

  method CompleteDone(up: Uploader, bucket: string, key: string, id: string, cs: seq<CompletedPart>,
                      ghost body: Result<Bytes>)
    returns (ghost ok: bool, ghost version: string)
    requires up.Valid() && up.storage.Valid() && up.storage.Minted() + 1 < COUNTER_LIMIT
    requires body == BodyOf(up.Prepared(bucket, key, id, cs))
    modifies up.Touched(bucket), up.storage.Parts()
    ensures up.Valid() && up.storage.Valid() && up.storage.Grown()
    ensures up.View() == (if ok then Ending(old(Now(up)), bucket, key, id) else old(Now(up))).buckets
    ensures ok == PutStores(old(up.storage.View()), bucket, key, body, up.storage.md5, version)
    ensures up.storage.View() ==
      if ok then Stores(old(up.storage.View()), bucket, key, body.value, up.storage.md5, version).0
      else old(up.storage.View())
    ensures up.storage.Minted() == CountAfter(old(up.storage.Minted()), ok) &&
      (ok ==> IsIdNumber(version, up.storage.Minted()))
  {
    ghost var s, w, c := Now(up), up.storage.View(), up.Prepared(bucket, key, id, cs);
    assert c.Ok? ==> Find(s.buckets, bucket, key, id).Ok?;
    var r;
    r, version := up.CompleteMultipartUpload(bucket, key, id, cs);
    ok := r.Ok?;
    CompletesIs(s, w, bucket, key, id, c, |cs|, up.storage.md5, version);
  }

  method CompleteLeads(up: Uploader, bucket: string, key: string, id: string, cs: seq<CompletedPart>,
                       ghost body: Result<Bytes>, ghost rs: seq<Request>)
    returns (ghost ids: seq<string>)
    requires up.Valid() && up.storage.Valid() && up.storage.Minted() + 1 < COUNTER_LIMIT
    requires body == BodyOf(up.Prepared(bucket, key, id, cs))
    requires rs == BackendCalls.PutIfStored(up.storage.View(), bucket, key, body, up.storage.md5)
    modifies up.Touched(bucket), up.storage.Parts()
    ensures up.Valid() && up.storage.Valid() && up.storage.Grown()
    ensures up.View() == (if rs != [] then Ending(old(Now(up)), bucket, key, id) else old(Now(up))).buckets
    ensures Leads(old(up.storage.View()), old(up.storage.Minted()), rs, ids, up.storage.View(), up.storage.Minted())
  {
    ghost var w, n := up.storage.View(), up.storage.Minted();
    ghost var ok, version;
    ok, version := CompleteDone(up, bucket, key, id, cs, body);
    ids := BackendCalls.PutLeads(w, n, bucket, key, body, up.storage.md5, version, up.storage.View(),
                                 up.storage.Minted(), ok);
  }

  lemma UploadsApart(up: Uploader, bucket: string, held: set<MultipartUpload>)
    ensures held !! up.Touched(bucket) + up.storage.Parts() && up !in up.Touched(bucket) + up.storage.Parts()
  {
    var uploads: set<object> := held;
    assert uploads !! up.Touched(bucket) && uploads !! up.storage.Parts();
    up.ApartFromStorage();
  }

  /** The parts are not touched. */
  method CompleteApart(up: Uploader, bucket: string, key: string, id: string, cs: seq<CompletedPart>,
                       ghost body: Result<Bytes>, ghost rs: seq<Request>, ghost held: set<MultipartUpload>,
                       ghost h: History)
    returns (ghost ids: seq<string>)
    requires up.Valid() && up.storage.Valid() && up.storage.Minted() + 1 < COUNTER_LIMIT
    requires body == BodyOf(up.Prepared(bucket, key, id, cs))
    requires held == Held(up.View()) && PartsShown(held, up.storage.md5, h)
    requires rs == BackendCalls.PutIfStored(up.storage.View(), bucket, key, body, up.storage.md5)
    modifies up.Touched(bucket), up.storage.Parts()
    ensures up.Valid() && up.storage.Valid() && Grown(up) && PartsShown(held, up.storage.md5, h)
    ensures Now(up) == if rs != [] then Ending(old(Now(up)), bucket, key, id) else old(Now(up))
    ensures Leads(old(up.storage.View()), old(up.storage.Minted()), rs, ids, up.storage.View(), up.storage.Minted())
  {
    HeldEnded(Now(up), bucket, key, id);
    UploadsApart(up, bucket, held);
    ids := CompleteLeads(up, bucket, key, id, cs, body, rs);
    assert forall x :: x in held ==> x.parts == old(x.parts);
  }

  lemma ShowsCompleted(up: Uploader, s: Progress, h: History, c: UploadCall, puts: bool)
    requires c.Complete? && Now(up) == (if puts then Ending(s, c.bucket, c.key, c.id) else s)
    requires PartsShown(Held(up.View()), up.storage.md5, h)
    ensures ShowsLedger(up, After(Ledger(s, h), Deed(c, None, puts)))
  {
  }

  method CompleteShown(up: Uploader, c: UploadCall, ghost l: Ledger, ghost body: Result<Bytes>, ghost rs: seq<Request>)
    returns (ghost ids: seq<string>)
    requires up.Valid() && up.storage.Valid() && up.storage.Minted() + 1 < COUNTER_LIMIT
    requires c.Complete? && ShowsLedger(up, l) && body == BodyOf(up.Prepared(c.bucket, c.key, c.id, c.cs))
    requires rs == BackendCalls.PutIfStored(up.storage.View(), c.bucket, c.key, body, up.storage.md5)
    modifies up.Touched(c.bucket), up.storage.Parts()
    ensures up.Valid() && up.storage.Valid() && Grown(up)
    ensures ShowsLedger(up, After(l, Deed(c, None, rs != [])))
    ensures Leads(old(up.storage.View()), old(up.storage.Minted()), rs, ids, up.storage.View(), up.storage.Minted())
  {
    ghost var held := Held(up.View());
    HeldEnded(l.uploads, c.bucket, c.key, c.id);
    ids := CompleteApart(up, c.bucket, c.key, c.id, c.cs, body, rs, held, l.history);
    ShownLess(held, Held(up.View()), up.storage.md5, l.history);
    ShowsCompleted(up, l.uploads, l.history, c, rs != []);
  }

  lemma PreparedShown(up: Uploader, l: Ledger, bucket: string, key: string, id: string, cs: seq<CompletedPart>)
    requires ShowsLedger(up, l)
    ensures up.Prepared(bucket, key, id, cs) == ServerModel.Prepared(up.storage.md5, l, bucket, key, id, cs)
  {
    FoundHeld(up.View(), bucket, key, id);
  }

  method ServeComplete(up: Uploader, c: UploadCall, ghost l: Ledger, ghost rs: seq<Request>)
    returns (ghost ids: seq<string>)
    requires up.Valid() && up.storage.Valid() && up.storage.Minted() + 1 < COUNTER_LIMIT
    requires c.Complete? && ShowsLedger(up, l)
    requires rs ==
      BackendCalls.PutIfStored(up.storage.View(), c.bucket, c.key,
                               BodyOf(ServerModel.Prepared(up.storage.md5, l, c.bucket, c.key, c.id, c.cs)),
                               up.storage.md5)
    modifies up.Touched(c.bucket), up.storage.Parts()
    ensures up.Valid() && up.storage.Valid() && Grown(up)
    ensures ShowsLedger(up, After(l, Deed(c, None, rs != [])))
    ensures Leads(old(up.storage.View()), old(up.storage.Minted()), rs, ids, up.storage.View(), up.storage.Minted())
  {
    PreparedShown(up, l, c.bucket, c.key, c.id, c.cs);
    ids := CompleteShown(up, c, l, BodyOf(up.Prepared(c.bucket, c.key, c.id, c.cs)), rs);
  }

  // ---- any call ----

  twostate lemma OnlyStorageGrew(up: Uploader)
    requires up.storage.Grown() && up.View() == old(up.View()) && up.buckets == old(up.buckets)
    ensures Grown(up)
  {
  }

  /** A call on the backend leaves the uploader alone. */
  method DirectBeside(up: Uploader, c: BackendCalls.Call, ghost scan: Scanner, ghost rs: seq<Request>)
    returns (ghost ids: seq<string>)
    requires up.Valid() && up.storage.Valid() && up.storage.Minted() + BackendCalls.Takes(c) < COUNTER_LIMIT
    requires BackendCalls.IsCall(c) && scan == Fscanf
    requires rs == BackendCalls.Requests(up.storage.md5, scan, c, up.storage.View())
    modifies up.storage, up.storage.Parts()
    ensures up.Valid() && up.storage.Valid() && Grown(up) && Now(up) == old(Now(up))
    ensures Leads(old(up.storage.View()), old(up.storage.Minted()), rs, ids, up.storage.View(), up.storage.Minted())
  {
    up.ApartFromStorage();
    ids := Serving.ServeCall(up.storage, c, scan);
    up.UploadsKept();
    OnlyStorageGrew(up);
  }

  lemma DirectApart(up: Uploader, held: set<MultipartUpload>)
    ensures held !! {up.storage} + up.storage.Parts()
  {
    var uploads: set<object> := held;
    assert uploads !! up.storage.Parts() && up.storage !in uploads;
  }

  method DirectShown(up: Uploader, c: BackendCalls.Call, ghost scan: Scanner, ghost rs: seq<Request>,
                     ghost held: set<MultipartUpload>, ghost h: History)
    returns (ghost ids: seq<string>)
    requires up.Valid() && up.storage.Valid() && up.storage.Minted() + BackendCalls.Takes(c) < COUNTER_LIMIT
    requires BackendCalls.IsCall(c) && scan == Fscanf && PartsShown(held, up.storage.md5, h)
    requires rs == BackendCalls.Requests(up.storage.md5, scan, c, up.storage.View())
    modifies up.storage, up.storage.Parts()
    ensures up.Valid() && up.storage.Valid() && Grown(up) && Now(up) == old(Now(up))
    ensures PartsShown(held, up.storage.md5, h)
    ensures Leads(old(up.storage.View()), old(up.storage.Minted()), rs, ids, up.storage.View(), up.storage.Minted())
  {
    DirectApart(up, held);
    ids := DirectBeside(up, c, scan, rs);
    assert forall x :: x in held ==> x.parts == old(x.parts);
  }

  method ServeDirect(up: Uploader, c: BackendCalls.Call, ghost scan: Scanner, ghost l: Ledger, ghost rs: seq<Request>)
    returns (ghost ids: seq<string>)
    requires up.Valid() && up.storage.Valid() && up.storage.Minted() + BackendCalls.Takes(c) < COUNTER_LIMIT
    requires BackendCalls.IsCall(c) && scan == Fscanf && ShowsLedger(up, l)
    requires rs == BackendCalls.Requests(up.storage.md5, scan, c, up.storage.View())
    modifies up.storage, up.storage.Parts()
    ensures up.Valid() && up.storage.Valid() && Grown(up) && ShowsLedger(up, l)
    ensures Leads(old(up.storage.View()), old(up.storage.Minted()), rs, ids, up.storage.View(), up.storage.Minted())
  {
    ids := DirectShown(up, c, scan, rs, Held(up.View()), l.history);
  }

  /** The calls on uploads that leave the backend alone. */
  method ServeBeside(up: Uploader, c: UploadCall, ghost l: Ledger) returns (ghost made: Option<MultipartUpload>)
    requires up.Valid() && up.storage.Valid() && ShowsLedger(up, l) && !c.Complete?
    modifies Reach(up)
    ensures up.Valid() && Grown(up) && ShowsLedger(up, After(l, Deed(c, made, false)))
    ensures c.Initiate? ==> made.Some? && MayCreate(l.uploads, c.bucket, c.key, made.value)
    ensures up.storage.Valid() && up.storage.View() == old(up.storage.View()) &&
      up.storage.Minted() == old(up.storage.Minted())
  {
    made := None;
    if c.Initiate? {
      TouchedReached(up, c.bucket);
      ghost var u := ServeInitiate(up, c.bucket, c.key, l);
      made := Some(u);
    } else if c.Abort? {
      TouchedReached(up, c.bucket);
      ServeAbort(up, c.bucket, c.key, c.id, l);
    } else {
      ServePart(up, c, l);
    }
  }

  method ServeUpload(up: Uploader, c: UploadCall, ghost w: World, ghost rs: seq<Request>) returns (ghost g: Given)
    requires up.Valid() && up.storage.Valid() && up.storage.Minted() + 1 < COUNTER_LIMIT && Shows(up, w)
    requires rs == UploadRequests(up.storage.md5, c, w)
    modifies Reach(up)
    ensures up.Valid() && up.storage.Valid() && Grown(up)
    ensures ShowsLedger(up, After(w.ledger, Deed(c, g.made, rs != [])))
    ensures c.Initiate? ==> g.made.Some? && MayCreate(w.ledger.uploads, c.bucket, c.key, g.made.value)
    ensures Leads(w.buckets, w.minted, rs, g.ids, up.storage.View(), up.storage.Minted())
  {
    ghost var ids, made := [], None;
    if c.Complete? {
      TouchedReached(up, c.bucket);
      ids := ServeComplete(up, c, w.ledger, rs);
    } else {
      NoneLeads(w.buckets, w.minted);
      made := ServeBeside(up, c, w.ledger);
    }
    g := Given(ids, made);
  }

  /** What was done is what the model does. */
  lemma DoneIs(md5: Digest, scan: Scanner, c: Call, w: World, g: Given, l: Ledger,
               v: map<string, BucketModel.State>, m: nat)
    requires Leads(w.buckets, w.minted, Requests(md5, scan, c, w), g.ids, v, m)
    requires c.OfUploads? ==>
      && l == After(w.ledger, Deed(c.upload, g.made, UploadRequests(md5, c.upload, w) != []))
      && (c.upload.Initiate? ==>
        g.made.Some? && MayCreate(w.ledger.uploads, c.upload.bucket, c.upload.key, g.made.value))
    requires c.Direct? ==> l == w.ledger
    ensures Lawful(md5, scan, c, w, g) && Do(md5, scan, c, w, g) == World(l, v, m)
  {
  }

  predicate IsCall(c: Call) {
    c.Direct? ==> BackendCalls.IsCall(c.call)
  }

  method ServeCall(up: Uploader, c: Call, ghost scan: Scanner, ghost w: World) returns (ghost g: Given)
    requires up.Valid() && up.storage.Valid() && up.storage.Minted() + Takes(c) < COUNTER_LIMIT && Shows(up, w)
    requires IsCall(c) && scan == Fscanf
    modifies Reach(up)
    ensures up.Valid() && up.storage.Valid() && Grown(up)
    ensures Lawful(up.storage.md5, scan, c, w, g) && Shows(up, Do(up.storage.md5, scan, c, w, g))
  {
    ghost var rs, l := Requests(up.storage.md5, scan, c, w), w.ledger;
    if c.OfUploads? {
      g := ServeUpload(up, c.upload, w, rs);
      l := After(l, Deed(c.upload, g.made, rs != []));
    } else {
      ghost var ids := ServeDirect(up, c.call, scan, l, rs);
      g := Given(ids, None);
    }
    DoneIs(up.storage.md5, scan, c, w, g, l, up.storage.View(), up.storage.Minted());
  }

  twostate lemma ReachGrown(up: Uploader)
    requires Grown(up)
    ensures forall x :: x in Reach(up) ==> x in old(Reach(up)) || fresh(x)
  {
  }

  method ServeFirst(up: Uploader, cs: seq<Call>, ghost scan: Scanner, ghost w: World)
    returns (ghost g: Given, ghost w': World)
    requires up.Valid() && up.storage.Valid() && up.storage.Minted() + TakesAll(cs) < COUNTER_LIMIT && Shows(up, w)
    requires cs != [] && IsCall(cs[0]) && scan == Fscanf
    modifies Reach(up)
    ensures up.Valid() && up.storage.Valid() && Shows(up, w') &&
      forall x :: x in Reach(up) ==> x in old(Reach(up)) || fresh(x)
    ensures Lawful(up.storage.md5, scan, cs[0], w, g) && w' == Do(up.storage.md5, scan, cs[0], w, g)
    ensures up.storage.Minted() + TakesAll(cs[1..]) < COUNTER_LIMIT
  {
    g := ServeCall(up, cs[0], scan, w);
    ReachGrown(up);
    RoomAfterFirst(up.storage.md5, scan, cs, w, g);
    w' := Do(up.storage.md5, scan, cs[0], w, g);
  }

  /** Any calls on an uploader and its backend, in any order, do what the model does. */
  method ServeCalls(up: Uploader, cs: seq<Call>, ghost scan: Scanner, ghost w: World)
    returns (ghost gs: seq<Given>, ghost w': World)
    requires up.Valid() && up.storage.Valid() && up.storage.Minted() + TakesAll(cs) < COUNTER_LIMIT && Shows(up, w)
    requires (forall c :: c in cs ==> IsCall(c)) && scan == Fscanf
    modifies Reach(up)
    ensures up.Valid() && up.storage.Valid() && Shows(up, w')
    ensures LawfulAll(up.storage.md5, scan, cs, w, gs) && w' == DoAll(up.storage.md5, scan, cs, w, gs)
    decreases |cs|
  {
    if cs == [] {
      gs, w' := [], w;
    } else {
      ghost var g, v, gs';
      g, v := ServeFirst(up, cs, scan, w);
      gs', w' := ServeCalls(up, cs[1..], scan, v);
      FirstThenOthers(up.storage.md5, scan, cs, w, g, gs');
      gs := [g] + gs';
    }
  }

  /** A new backend and uploader, sharing nothing but the version source with anything. */
  method NewUploader(source: VersionSource, md5: Digest) returns (up: Uploader)
    requires source.Valid() && source.gen.next == 0
    ensures fresh(up) && fresh(up.storage) && up.Valid() && up.storage.Valid() && up.storage.md5 == md5
    ensures Shows(up, NEW_WORLD) &&
      forall x :: x in Reach(up) ==> fresh(x) || x == source || x == source.gen || x == source.scratch
  {
    var db := new Backend(source, md5);
    up := UploaderFor(db);
    NewShows(up);
    NewReach(up, {source, source.gen, source.scratch});
  }

  method UploaderFor(db: Backend) returns (up: Uploader)
    requires db.Valid()
    ensures fresh(up) && up.Valid() && up.storage == db && up.uploadID == 0 && up.buckets == map[]
    ensures db.Valid() && db.View() == old(db.View()) && db.Parts() == old(db.Parts()) &&
      db.Minted() == old(db.Minted())
  {
    up := new Uploader(db);
    db.BackendFrame();
  }

  lemma NewShows(up: Uploader)
    requires up.uploadID == 0 && up.buckets == map[] && up.storage.View() == map[] && up.storage.Minted() == 0
    ensures Shows(up, NEW_WORLD)
  {
    assert up.View() == map[] && Held(up.View()) == {};
  }

  lemma NewReach(up: Uploader, given: set<object>)
    requires up.buckets == map[] && up.storage.Parts() == given
    ensures forall x :: x in Reach(up) ==> x == up || x == up.storage || x in given
  {
  }

  /** From a sound state on, any calls leave both fit to be listed. */
  method ServeSoundly(up: Uploader, cs: seq<Call>, ghost scan: Scanner, ghost w: World)
    returns (ghost gs: seq<Given>, ghost w': World)
    requires up.Valid() && up.storage.Valid() && up.storage.Minted() + TakesAll(cs) < COUNTER_LIMIT
    requires Shows(up, w) && Sound(w) && (forall c :: c in cs ==> IsCall(c)) && scan == Fscanf
    modifies Reach(up)
    ensures up.Valid() && up.storage.Valid() && Shows(up, w')
    ensures LawfulAll(up.storage.md5, scan, cs, w, gs) && w' == DoAll(up.storage.md5, scan, cs, w, gs)
    ensures UploadRuns.Inv(Now(up)) && Good(up.storage.View(), up.storage.Minted())
  {
    gs, w' := ServeCalls(up, cs, scan, w);
    DoAllKeepsSound(up.storage.md5, scan, cs, w, gs);
  }

  /** From a new backend and uploader on, any calls do what the model does. */
  method ServeFromNew(source: VersionSource, md5: Digest, cs: seq<Call>, ghost scan: Scanner)
    returns (up: Uploader, ghost gs: seq<Given>, ghost w: World)
    requires source.Valid() && source.gen.next == 0 && TakesAll(cs) < COUNTER_LIMIT
    requires (forall c :: c in cs ==> IsCall(c)) && scan == Fscanf
    modifies source, source.gen, source.scratch
    ensures up.Valid() && up.storage.Valid() && up.storage.md5 == md5 && Shows(up, w)
    ensures LawfulAll(md5, scan, cs, NEW_WORLD, gs) && w == DoAll(md5, scan, cs, NEW_WORLD, gs)
    ensures UploadRuns.Inv(Now(up)) && Good(up.storage.View(), up.storage.Minted())
  {
    up := NewUploader(source, md5);
    NewIsSound();
    gs, w := ServeSoundly(up, cs, scan, NEW_WORLD);
  }

  // ---- listing, after any calls ----

  /** A page of a bucket. */
  method ListObjects(db: Backend, bucket: string, p: Prefixes.Prefix, marker: string, max: int)
    returns (r: Result<Listing.ObjectList>)
    requires db.Valid() && Good(db.View(), db.Minted())
    ensures r ==
      if bucket !in db.View() then Err(NoSuchBucket)
      else BucketListings.PageResult(db.View()[bucket], p, marker, max)
  {
    if bucket in db.buckets {
      GoodIsOK(db.View(), db.Minted(), bucket);
    }
    r := db.ListBucket(bucket, p, marker, max);
  }

  /** A page of the uploads in progress. */
  method ListUploads(up: Uploader, bucket: string, p: Prefixes.Prefix, marker: Option<UploadListing.Marker>, max: int)
    returns (r: Result<UploadListing.UploadList>)
    requires up.Valid() && UploadRuns.Inv(Now(up))
    ensures r ==
      if bucket !in up.View() then Err(NoSuchUpload)
      else Ok(UploadListing.ListUploads(up.View()[bucket], marker, p, max))
  {
    r := up.ListMultipartUploads(bucket, marker, p, max);
  }

  /** The parts of an upload in progress are those sent for it. */
  method ListSentParts(up: Uploader, bucket: string, key: string, id: string, marker: int, limit: int, ghost l: Ledger)
    returns (r: Result<PartList>)
    requires up.Valid() && ShowsLedger(up, l)
    ensures var (found, sent) := (Found(l, bucket, key, id), AllSet(up.storage.md5, PartsFor(l, bucket, key, id)));
      if found.Err? then r == Err(found.error)
      else if 0 <= marker <= |sent| then r.Ok? && ListsParts(sent[marker..], limit, r.value)
      else r == Err(Panic)
  {
    FoundHeld(up.View(), bucket, key, id);
    r := up.ListParts(bucket, key, id, marker, limit);
  }
}
