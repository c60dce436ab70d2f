/** An uploader and its backend together, over any calls. */
module ServerModel {
  import opened Basics
  import opened Backends
  import opened BackendRuns
  import opened UploadParts
  import opened Uploaders
  import opened UploadLaws
  import opened UploadHistories
  import opened VersionIds
  import opened Chunks
  import UploadIndex
  import UploadRuns
  import BucketModel
  import BackendCalls
  import ObjectUploads

  datatype Call = OfUploads(upload: UploadCall) | Direct(call: BackendCalls.Call)

  /** The uploads with their parts, the buckets, and how many version ids were minted. */
  datatype World = World(ledger: Ledger, buckets: map<string, BucketModel.State>, minted: nat)

  const NEW_WORLD := World(NO_LEDGER, map[], 0)

  /** What a call is given: version ids, and the upload it creates. */
  datatype Given = Given(ids: seq<string>, made: Option<UploadIndex.MultipartUpload>)

  // ---- one call ----

  /** What a complete request is to store. */
  function Prepared(md5: Digest, l: Ledger, bucket: string, key: string, id: string, cs: seq<CompletedPart>):
    Result<Assembly>
  {
    var found := Found(l, bucket, key, id);
    if found.Err? then Err(found.error) else Completion(AllSet(md5, PartsSent(l.history, found.value)), cs)
  }

  function BodyOf(c: Result<Assembly>): Result<Bytes> {
    if c.Ok? then Ok(c.value.body) else Err(c.error)
  }

  /** The requests that a call makes of the backend. */
  function Requests(md5: Digest, scan: Scanner, c: Call, w: World): seq<Request> {
    match c
    case OfUploads(u) => UploadRequests(md5, u, w)
    case Direct(d) => BackendCalls.Requests(md5, scan, d, w.buckets)
  }

  function UploadRequests(md5: Digest, c: UploadCall, w: World): seq<Request> {
    if c.Complete? then
      BackendCalls.PutIfStored(w.buckets, c.bucket, c.key,
                               BodyOf(Prepared(md5, w.ledger, c.bucket, c.key, c.id, c.cs)), md5)
    else []
  }

  /** What a call may be given: the next version ids of the generator, as many as its
      requests need, and the next upload. */
  ghost predicate Lawful(md5: Digest, scan: Scanner, c: Call, w: World, g: Given) {
    var rs := Requests(md5, scan, c, w);
    && |g.ids| == |rs| && Issued(w.buckets, rs, g.ids, w.minted)
    && (c.OfUploads? && c.upload.Initiate? ==>
          g.made.Some? && MayCreate(w.ledger.uploads, c.upload.bucket, c.upload.key, g.made.value))
  }

  function Do(md5: Digest, scan: Scanner, c: Call, w: World, g: Given): World
    requires |g.ids| == |Requests(md5, scan, c, w)|
  {
    Next(c, w, g, Requests(md5, scan, c, w))
  }

  /** A call that makes the requests `rs`; it is a deed with a put if it makes any. */
  function Next(c: Call, w: World, g: Given, rs: seq<Request>): World
    requires |g.ids| == |rs|
  {
    World(if c.OfUploads? then After(w.ledger, Deed(c.upload, g.made, rs != [])) else w.ledger,
          ServeAll(w.buckets, rs, g.ids), CountAll(w.buckets, rs, g.ids, w.minted))
  }

  // ---- any calls ----

  ghost predicate LawfulAll(md5: Digest, scan: Scanner, cs: seq<Call>, w: World, gs: seq<Given>)
    decreases |cs|
  {
    && |gs| == |cs|
    && (cs == [] ||
        (Lawful(md5, scan, cs[0], w, gs[0]) && LawfulAll(md5, scan, cs[1..], Do(md5, scan, cs[0], w, gs[0]), gs[1..])))
  }

  ghost function DoAll(md5: Digest, scan: Scanner, cs: seq<Call>, w: World, gs: seq<Given>): World
    requires LawfulAll(md5, scan, cs, w, gs)
    decreases |cs|
  {
    if cs == [] then w else DoAll(md5, scan, cs[1..], Do(md5, scan, cs[0], w, gs[0]), gs[1..])
  }

  /** The most version ids a call can take. */
  function Takes(c: Call): nat {
    if c.Direct? then BackendCalls.Takes(c.call) else 1
  }

  function TakesAll(cs: seq<Call>): nat {
    if cs == [] then 0 else Takes(cs[0]) + TakesAll(cs[1..])
  }

  lemma FirstThenOthers(md5: Digest, scan: Scanner, cs: seq<Call>, w: World, g: Given, gs: seq<Given>)
    requires cs != [] && Lawful(md5, scan, cs[0], w, g)
    requires LawfulAll(md5, scan, cs[1..], Do(md5, scan, cs[0], w, g), gs)
    ensures LawfulAll(md5, scan, cs, w, [g] + gs)
    ensures DoAll(md5, scan, cs, w, [g] + gs) == DoAll(md5, scan, cs[1..], Do(md5, scan, cs[0], w, g), gs)
  {
    assert ([g] + gs)[1..] == gs;
  }

  lemma RequestsAreFew(md5: Digest, scan: Scanner, c: Call, w: World)
    ensures |Requests(md5, scan, c, w)| <= Takes(c)
  {
  }

  /** After the first call there is room for the others. */
  lemma RoomAfterFirst(md5: Digest, scan: Scanner, cs: seq<Call>, w: World, g: Given)
    requires cs != [] && Lawful(md5, scan, cs[0], w, g)
    ensures Do(md5, scan, cs[0], w, g).minted + TakesAll(cs[1..]) <= w.minted + TakesAll(cs)
  {
    RequestsAreFew(md5, scan, cs[0], w);
    BackendCalls.CountMost(w.buckets, Requests(md5, scan, cs[0], w), g.ids, w.minted);
  }

  /** What holds in every state: the indexes of the uploads agree, and the buckets are good. */
  ghost predicate Sound(w: World) {
    UploadRuns.Inv(w.ledger.uploads) && Good(w.buckets, w.minted)
  }

  lemma NewIsSound()
    ensures Sound(NEW_WORLD)
  {
    NewIsGood();
  }

  /** A completion makes requests only if its upload is in progress. */
  lemma DeedIsLegal(md5: Digest, c: UploadCall, w: World, made: Option<UploadIndex.MultipartUpload>)
    requires c.Initiate? ==> made.Some? && MayCreate(w.ledger.uploads, c.bucket, c.key, made.value)
    ensures LegalDeed(w.ledger, Deed(c, made, UploadRequests(md5, c, w) != [])) && |UploadRequests(md5, c, w)| <= 1
  {
  }

  lemma DoKeepsInv(md5: Digest, scan: Scanner, c: Call, w: World, g: Given)
    requires UploadRuns.Inv(w.ledger.uploads) && Lawful(md5, scan, c, w, g)
    ensures UploadRuns.Inv(Do(md5, scan, c, w, g).ledger.uploads)
  {
    if c.OfUploads? {
      DeedIsLegal(md5, c.upload, w, g.made);
      AfterKeepsInv(w.ledger, Deed(c.upload, g.made, UploadRequests(md5, c.upload, w) != []));
    }
  }

  lemma NextKeepsGood(c: Call, w: World, g: Given, rs: seq<Request>)
    requires Good(w.buckets, w.minted) && |g.ids| == |rs| && Issued(w.buckets, rs, g.ids, w.minted)
    requires w.minted + |rs| < COUNTER_LIMIT
    ensures Good(Next(c, w, g, rs).buckets, Next(c, w, g, rs).minted) && Next(c, w, g, rs).minted <= w.minted + |rs|
  {
    RunsKeepInv(w.buckets, w.minted, rs, g.ids);
  }

  /** Every call keeps what holds, whatever it is for. */
  lemma DoKeepsSound(md5: Digest, scan: Scanner, c: Call, w: World, g: Given)
    requires Sound(w) && Lawful(md5, scan, c, w, g) && w.minted + Takes(c) < COUNTER_LIMIT
    ensures Sound(Do(md5, scan, c, w, g)) && Do(md5, scan, c, w, g).minted <= w.minted + Takes(c)
  {
    DoKeepsInv(md5, scan, c, w, g);
    RequestsAreFew(md5, scan, c, w);
    NextKeepsGood(c, w, g, Requests(md5, scan, c, w));
  }

  /** In every state that calls lead to, the indexes of the uploads agree and the buckets
      are good. */
  lemma {:induction false} DoAllKeepsSound(md5: Digest, scan: Scanner, cs: seq<Call>, w: World, gs: seq<Given>)
    requires Sound(w) && LawfulAll(md5, scan, cs, w, gs) && w.minted + TakesAll(cs) < COUNTER_LIMIT
    ensures Sound(DoAll(md5, scan, cs, w, gs)) && DoAll(md5, scan, cs, w, gs).minted <= w.minted + TakesAll(cs)
    decreases |cs|
  {
    if cs != [] {
      DoKeepsSound(md5, scan, cs[0], w, gs[0]);
      DoAllKeepsSound(md5, scan, cs[1..], Do(md5, scan, cs[0], w, gs[0]), gs[1..]);
    }
  }

  // ---- the uploads over any calls ----

  /** What the calls are among the deeds of the uploader. */
  ghost function Deeds(md5: Digest, scan: Scanner, cs: seq<Call>, w: World, gs: seq<Given>): seq<Deed>
    requires LawfulAll(md5, scan, cs, w, gs)
    decreases |cs|
  {
    if cs == [] then []
    else
      DeedFirst(cs[0], gs[0].made, Requests(md5, scan, cs[0], w) != [],
                Deeds(md5, scan, cs[1..], Do(md5, scan, cs[0], w, gs[0]), gs[1..]))
  }

  function DeedFirst(c: Call, made: Option<UploadIndex.MultipartUpload>, puts: bool, ds: seq<Deed>): seq<Deed> {
    if c.OfUploads? then [Deed(c.upload, made, puts)] + ds else ds
  }

  /** The puts of objects that complete requests for an upload id make. */
  ghost function Puts(md5: Digest, scan: Scanner, cs: seq<Call>, w: World, gs: seq<Given>, id: string): nat
    requires LawfulAll(md5, scan, cs, w, gs)
    decreases |cs|
  {
    if cs == [] then 0
    else
      (if Completes(cs[0], id) then |Requests(md5, scan, cs[0], w)| else 0) +
      Puts(md5, scan, cs[1..], Do(md5, scan, cs[0], w, gs[0]), gs[1..], id)
  }

  predicate Completes(c: Call, id: string) {
    c.OfUploads? && c.upload.Complete? && c.upload.id == id
  }

  lemma DeedFirstIs(l: Ledger, c: UploadCall, made: Option<UploadIndex.MultipartUpload>, puts: bool, ds: seq<Deed>,
                    id: string)
    requires LegalDeed(l, Deed(c, made, puts)) && LegalDeeds(After(l, Deed(c, made, puts)), ds)
    ensures var all := DeedFirst(OfUploads(c), made, puts, ds);
      && LegalDeeds(l, all) && AfterAll(l, all) == AfterAll(After(l, Deed(c, made, puts)), ds)
      && TimesPut(all, id) == (if Completes(OfUploads(c), id) && puts then 1 else 0) + TimesPut(ds, id)
  {
    assert ([Deed(c, made, puts)] + ds)[1..] == ds;
  }

  lemma DeedStep(md5: Digest, scan: Scanner, c: Call, w: World, g: Given, ds: seq<Deed>, id: string)
    requires Lawful(md5, scan, c, w, g) && LegalDeeds(Do(md5, scan, c, w, g).ledger, ds)
    ensures var (rs, all) := (Requests(md5, scan, c, w), DeedFirst(c, g.made, Requests(md5, scan, c, w) != [], ds));
      && LegalDeeds(w.ledger, all) && AfterAll(w.ledger, all) == AfterAll(Do(md5, scan, c, w, g).ledger, ds)
      && TimesPut(all, id) == (if Completes(c, id) then |rs| else 0) + TimesPut(ds, id)
  {
    if c.OfUploads? {
      DeedIsLegal(md5, c.upload, w, g.made);
      DeedFirstIs(w.ledger, c.upload, g.made, Requests(md5, scan, c, w) != [], ds, id);
    }
  }

  lemma {:induction false} DeedsAreDone(md5: Digest, scan: Scanner, cs: seq<Call>, w: World, gs: seq<Given>, id: string)
    requires LawfulAll(md5, scan, cs, w, gs)
    ensures var ds := Deeds(md5, scan, cs, w, gs);
      && LegalDeeds(w.ledger, ds) && DoAll(md5, scan, cs, w, gs).ledger == AfterAll(w.ledger, ds)
      && Puts(md5, scan, cs, w, gs, id) == TimesPut(ds, id)
    decreases |cs|
  {
    if cs != [] {
      var w' := Do(md5, scan, cs[0], w, gs[0]);
      DeedsAreDone(md5, scan, cs[1..], w', gs[1..], id);
      DeedStep(md5, scan, cs[0], w, gs[0], Deeds(md5, scan, cs[1..], w', gs[1..]), id);
    }
  }

  /** Over any calls, whatever they are, at most one object is put for an upload id. */
  lemma OneObject(md5: Digest, scan: Scanner, cs: seq<Call>, w: World, gs: seq<Given>, id: string)
    requires UploadRuns.Inv(w.ledger.uploads) && LawfulAll(md5, scan, cs, w, gs)
    ensures Puts(md5, scan, cs, w, gs, id) <= 1
  {
    DeedsAreDone(md5, scan, cs, w, gs, id);
    OnePut(w.ledger, Deeds(md5, scan, cs, w, gs), id);
  }

  // ---- completion ----

  /** Exactly when an upload may be completed: it is in progress, the backend can store
      the object, and every entry names a part by the hash of its latest body. */
  predicate Completable(md5: Digest, w: World, sent: seq<(nat, Bytes)>, bucket: string, key: string, id: string,
                        cs: seq<CompletedPart>)
  {
    && Found(w.ledger, bucket, key, id).Ok? && StoreRefused(w.buckets, bucket, key).None?
    && |cs| <= Slots(sent) && forall j :: 0 <= j < |cs| ==> Names(md5, sent, cs[j])
  }

  function PutLatest(bucket: string, key: string, sent: seq<(nat, Bytes)>, cs: seq<CompletedPart>, md5: Digest): Request
  {
    BackendCalls.PutOf(bucket, key, LatestBodies(sent, cs), md5)
  }

  lemma CompletableExactly(md5: Digest, w: World, bucket: string, key: string, id: string, cs: seq<CompletedPart>)
    ensures var sent := PartsFor(w.ledger, bucket, key, id);
      UploadRequests(md5, Complete(bucket, key, id, cs), w) ==
      if Completable(md5, w, sent, bucket, key, id, cs) then [PutLatest(bucket, key, sent, cs, md5)] else []
  {
    CompletionExactly(md5, PartsFor(w.ledger, bucket, key, id), cs);
  }

  /** A body is read back, as the current object and under its version id. */
  predicate ReadsBack(v: map<string, BucketModel.State>, bucket: string, key: string, body: Bytes, md5: Digest,
                      version: string)
  {
    && bucket in v && version != ""
    && GetVersion(v[bucket], key, version, None) == Ok(Object(key, |body|, md5(body), body, version, false))
    && GetCurrent(v[bucket], key, None) ==
       Ok(Object(key, |body|, md5(body), body, if v[bucket].versioning == BucketModel.Enabled then version else "",
                 false))
  }

  lemma IdNotEmpty(id: string, n: nat)
    requires IsIdNumber(id, n)
    ensures id != ""
  {
    var tail :| |tail| == 9 && Octets(tail) && id == VersionIdOf(n, tail);
    assert id[0] == '3';
  }

  lemma PutReadsBack(v: map<string, BucketModel.State>, n: nat, bucket: string, key: string, body: Bytes, md5: Digest,
                     id: string)
    requires StoreRefused(v, bucket, key).None? && IsIdNumber(id, n)
    ensures ReadsBack(Serve(v, BackendCalls.PutOf(bucket, key, body, md5), id), bucket, key, body, md5, id)
  {
    StoringIsServing(v, bucket, key, body, md5, id);
    IdNotEmpty(id, n);
    ObjectUploads.StoredReadsBack(v, bucket, key, body, md5, id);
  }

  lemma PutGiven(v: map<string, BucketModel.State>, n: nat, r: Request, ids: seq<string>)
    requires |ids| == 1 && Issued(v, [r], ids, n)
    ensures ServeMints(v, r) ==> IsIdNumber(ids[0], n + 1)
    ensures ServeAll(v, [r], ids) == Serve(v, r, ids[0])
  {
    assert ServeAll(Serve(v, r, ids[0]), [], ids[1..]) == Serve(v, r, ids[0]);
  }

  lemma GivenReadsBack(v: map<string, BucketModel.State>, n: nat, bucket: string, key: string, body: Bytes,
                       md5: Digest, ids: seq<string>)
    requires StoreRefused(v, bucket, key).None? && |ids| == 1
    requires Issued(v, [BackendCalls.PutOf(bucket, key, body, md5)], ids, n)
    ensures ReadsBack(ServeAll(v, [BackendCalls.PutOf(bucket, key, body, md5)], ids), bucket, key, body, md5, ids[0])
  {
    PutGiven(v, n, BackendCalls.PutOf(bucket, key, body, md5), ids);
    PutReadsBack(v, n + 1, bucket, key, body, md5, ids[0]);
  }

  /** What a complete request makes of a state: nothing, or its upload is no more, and the
      latest of the parts `sent`, in request order, are read back. */
  predicate CompletesTo(md5: Digest, w: World, w': World, ids: seq<string>, sent: seq<(nat, Bytes)>, bucket: string,
                        key: string, id: string, cs: seq<CompletedPart>)
  {
    if Completable(md5, w, sent, bucket, key, id, cs) then
      && |ids| == 1 && ReadsBack(w'.buckets, bucket, key, LatestBodies(sent, cs), md5, ids[0])
      && Found(w'.ledger, bucket, key, id).Err?
    else w' == w
  }

  lemma CompletesNothing(md5: Digest, w: World, ids: seq<string>, sent: seq<(nat, Bytes)>, bucket: string, key: string,
                         id: string, cs: seq<CompletedPart>, made: Option<UploadIndex.MultipartUpload>)
    requires !Completable(md5, w, sent, bucket, key, id, cs)
    ensures CompletesTo(md5, w, Next(OfUploads(Complete(bucket, key, id, cs)), w, Given([], made), []), ids, sent,
                        bucket, key, id, cs)
  {
  }

  lemma CompletesOne(md5: Digest, w: World, w': World, ids: seq<string>, sent: seq<(nat, Bytes)>, bucket: string,
                     key: string, id: string, cs: seq<CompletedPart>)
    requires Completable(md5, w, sent, bucket, key, id, cs) && |ids| == 1
    requires Issued(w.buckets, [PutLatest(bucket, key, sent, cs, md5)], ids, w.minted)
    requires w'.buckets == ServeAll(w.buckets, [PutLatest(bucket, key, sent, cs, md5)], ids)
    requires Found(w'.ledger, bucket, key, id).Err?
    ensures CompletesTo(md5, w, w', ids, sent, bucket, key, id, cs)
  {
    GivenReadsBack(w.buckets, w.minted, bucket, key, LatestBodies(sent, cs), md5, ids);
  }

  lemma EndedNotFound(l: Ledger, d: Deed)
    requires d.call.Complete? && d.puts && Found(l, d.call.bucket, d.call.key, d.call.id).Ok?
    ensures Found(After(l, d), d.call.bucket, d.call.key, d.call.id).Err?
  {
    EndingFinds(l.uploads, d.call.bucket, d.call.key, d.call.id, d.call.bucket, d.call.key, d.call.id);
  }

  lemma CompletesGiven(md5: Digest, w: World, g: Given, sent: seq<(nat, Bytes)>, bucket: string, key: string,
                       id: string, cs: seq<CompletedPart>)
    requires Completable(md5, w, sent, bucket, key, id, cs) && |g.ids| == 1
    requires Issued(w.buckets, [PutLatest(bucket, key, sent, cs, md5)], g.ids, w.minted)
    ensures CompletesTo(md5, w, Next(OfUploads(Complete(bucket, key, id, cs)), w, g,
                                     [PutLatest(bucket, key, sent, cs, md5)]),
                        g.ids, sent, bucket, key, id, cs)
  {
    var c, r := Complete(bucket, key, id, cs), PutLatest(bucket, key, sent, cs, md5);
    var w' := Next(OfUploads(c), w, g, [r]);
    assert Found(w'.ledger, bucket, key, id).Err? by {
      EndedNotFound(w.ledger, Deed(c, g.made, true));
    }
    assert w'.buckets == ServeAll(w.buckets, [r], g.ids);
    CompletesOne(md5, w, w', g.ids, sent, bucket, key, id, cs);
  }

  lemma CompleteStep(md5: Digest, scan: Scanner, w: World, g: Given, bucket: string, key: string, id: string,
                     cs: seq<CompletedPart>)
    requires Lawful(md5, scan, OfUploads(Complete(bucket, key, id, cs)), w, g)
    ensures CompletesTo(md5, w, Do(md5, scan, OfUploads(Complete(bucket, key, id, cs)), w, g), g.ids,
                        PartsFor(w.ledger, bucket, key, id), bucket, key, id, cs)
  {
    var sent := PartsFor(w.ledger, bucket, key, id);
    CompletableExactly(md5, w, bucket, key, id, cs);
    if Completable(md5, w, sent, bucket, key, id, cs) {
      CompletesGiven(md5, w, g, sent, bucket, key, id, cs);
    } else {
      CompletesNothing(md5, w, g.ids, sent, bucket, key, id, cs, g.made);
    }
  }

  /** Where there is no upload, it does not matter what was sent. */
  lemma NoUploadNoParts(md5: Digest, w: World, w': World, ids: seq<string>, sent: seq<(nat, Bytes)>,
                        sent': seq<(nat, Bytes)>, bucket: string, key: string, id: string, cs: seq<CompletedPart>)
    requires CompletesTo(md5, w, w', ids, sent, bucket, key, id, cs)
    requires Found(w.ledger, bucket, key, id).Ok? ==> sent == sent'
    ensures CompletesTo(md5, w, w', ids, sent', bucket, key, id, cs)
  {
  }

  lemma SentFromNew(ds: seq<Deed>, bucket: string, key: string, id: string)
    requires LegalDeeds(NO_LEDGER, ds) && Found(AfterAll(NO_LEDGER, ds), bucket, key, id).Ok?
    ensures PartsFor(AfterAll(NO_LEDGER, ds), bucket, key, id) == Sent(NO_LEDGER, ds, bucket, key, id)
  {
    PartsAreSent(NO_LEDGER, ds, bucket, key, id);
    var sent := Sent(NO_LEDGER, ds, bucket, key, id);
    assert PartsFor(NO_LEDGER, bucket, key, id) == [] && [] + sent == sent;
  }

  lemma PartsSentSince(md5: Digest, scan: Scanner, past: seq<Call>, gs: seq<Given>, bucket: string, key: string,
                       id: string)
    requires LawfulAll(md5, scan, past, NEW_WORLD, gs)
    requires Found(DoAll(md5, scan, past, NEW_WORLD, gs).ledger, bucket, key, id).Ok?
    ensures PartsFor(DoAll(md5, scan, past, NEW_WORLD, gs).ledger, bucket, key, id) ==
      Sent(NO_LEDGER, Deeds(md5, scan, past, NEW_WORLD, gs), bucket, key, id)
  {
    var ds := Deeds(md5, scan, past, NEW_WORLD, gs);
    assert LegalDeeds(NO_LEDGER, ds) && DoAll(md5, scan, past, NEW_WORLD, gs).ledger == AfterAll(NO_LEDGER, ds) by {
      DeedsAreDone(md5, scan, past, NEW_WORLD, gs, id);
    }
    SentFromNew(ds, bucket, key, id);
  }

  /** From a new server on, after any calls: a complete request succeeds if and only if
      its upload is in progress, the backend can store the object, and it names the latest
      of the parts sent for that upload. */
  lemma CompletedReadsBack(md5: Digest, scan: Scanner, past: seq<Call>, gs: seq<Given>, g: Given, bucket: string,
                           key: string, id: string, cs: seq<CompletedPart>)
    requires LawfulAll(md5, scan, past, NEW_WORLD, gs)
    requires Lawful(md5, scan, OfUploads(Complete(bucket, key, id, cs)), DoAll(md5, scan, past, NEW_WORLD, gs), g)
    ensures var w := DoAll(md5, scan, past, NEW_WORLD, gs);
      CompletesTo(md5, w, Do(md5, scan, OfUploads(Complete(bucket, key, id, cs)), w, g), g.ids,
                  Sent(NO_LEDGER, Deeds(md5, scan, past, NEW_WORLD, gs), bucket, key, id), bucket, key, id, cs)
  {
    var w, sent := DoAll(md5, scan, past, NEW_WORLD, gs),
                   Sent(NO_LEDGER, Deeds(md5, scan, past, NEW_WORLD, gs), bucket, key, id);
    if Found(w.ledger, bucket, key, id).Ok? {
      PartsSentSince(md5, scan, past, gs, bucket, key, id);
    }
    CompleteStep(md5, scan, w, g, bucket, key, id, cs);
    NoUploadNoParts(md5, w, Do(md5, scan, OfUploads(Complete(bucket, key, id, cs)), w, g), g.ids,
                    PartsFor(w.ledger, bucket, key, id), sent, bucket, key, id, cs);
  }

  lemma AnswerIs(v: map<string, UploadIndex.Uploads>, b: map<string, BucketModel.State>, bucket: string, key: string,
                 id: string, p: Result<Assembly>, n: nat, md5: Digest, version: string)
    requires p.Ok? ==> bucket in v && id in v[bucket].byId
    ensures var r := Uploaders.Completes(v, b, bucket, key, id, p, n, md5, version).2;
      && (r.Ok? <==> p.Ok? && StoreRefused(b, bucket, key).None?)
      && (r.Ok? ==> r.value.etag == CompleteEtag(md5, p.value.hashes, n))
      && (r.Ok? ==> r.value.versionID == if b[bucket].versioning == BucketModel.Enabled then version else "")
  {
  }

  /** The uploader answers such a request with the hash of the hashes of the latest bodies
      and their number, and with the version id on a versioned bucket, and every other
      with an error. */
  lemma CompleteAnswers(md5: Digest, w: World, bucket: string, key: string, id: string, cs: seq<CompletedPart>,
                        version: string)
    ensures var (sent, p) := (PartsFor(w.ledger, bucket, key, id), Prepared(md5, w.ledger, bucket, key, id, cs));
      var r := Uploaders.Completes(w.ledger.uploads.buckets, w.buckets, bucket, key, id, p, |cs|, md5, version).2;
      && (r.Ok? <==> Completable(md5, w, sent, bucket, key, id, cs))
      && (r.Ok? ==> IsObjectEtag(r.value.etag, md5(LatestHashes(md5, sent, cs)), |cs|))
      && (r.Ok? ==> r.value.versionID == if w.buckets[bucket].versioning == BucketModel.Enabled then version else "")
  {
    CompletionExactly(md5, PartsFor(w.ledger, bucket, key, id), cs);
    AnswerIs(w.ledger.uploads.buckets, w.buckets, bucket, key, id, Prepared(md5, w.ledger, bucket, key, id, cs), |cs|,
             md5, version);
    CompleteEtagIs(md5, LatestHashes(md5, PartsFor(w.ledger, bucket, key, id), cs), |cs|);
  }
}
