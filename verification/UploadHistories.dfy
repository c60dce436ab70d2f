/** The parts accepted for multipart uploads, over any calls on an uploader. */
module UploadHistories {
  import opened Basics
  import opened Encodings
  import opened UploadIndex
  import opened UploadParts
  import opened Uploaders
  import opened UploadRuns

  datatype UploadCall =
    | Initiate(bucket: string, key: string)
    | Upload(bucket: string, key: string, id: string, partNumber: int, contentLength: int, input: Result<Bytes>)
    | Abort(bucket: string, key: string, id: string)
    | Complete(bucket: string, key: string, id: string, cs: seq<CompletedPart>)

  type History = map<MultipartUpload, seq<(nat, Bytes)>>

  /** The uploads in progress, and the parts accepted for each upload, the first one
      earliest. */
  datatype Ledger = Ledger(uploads: Progress, history: History)

  const NO_LEDGER := Ledger(NOTHING_YET, map[])

  /** A call, the upload it creates, and whether it puts an object. */
  datatype Deed = Deed(call: UploadCall, made: Option<MultipartUpload>, puts: bool)

  function Found(l: Ledger, bucket: string, key: string, id: string): Result<MultipartUpload> {
    Find(l.uploads.buckets, bucket, key, id)
  }

  function PartsSent(h: History, u: MultipartUpload): seq<(nat, Bytes)> {
    if u in h then h[u] else []
  }

  /** The parts accepted for an upload that is in progress. */
  function PartsFor(l: Ledger, bucket: string, key: string, id: string): seq<(nat, Bytes)> {
    var found := Found(l, bucket, key, id);
    if found.Ok? then PartsSent(l.history, found.value) else []
  }

  /** Whether a part is accepted. */
  predicate Accepts(c: UploadCall, l: Ledger) {
    c.Upload? && PartRefused(c.partNumber, c.contentLength, c.input, Found(l, c.bucket, c.key, c.id)).None?
  }

  /** A part is accepted if and only if it has a number from 0 to 10000, was read to the
      length declared, and its upload is in progress for that bucket and key. */
  lemma AcceptsExactly(c: UploadCall, l: Ledger)
    requires Inv(l.uploads) && c.Upload?
    ensures Accepts(c, l) <==>
      && 0 <= c.partNumber <= 10000 && c.input.Ok? && |c.input.value| == c.contentLength
      && LiveIn(l.uploads, c.bucket, c.id) && l.uploads.buckets[c.bucket].byId[c.id].key == c.key
  {
    assert Found(l, c.bucket, c.key, c.id).Ok? <==>
      LiveIn(l.uploads, c.bucket, c.id) && l.uploads.buckets[c.bucket].byId[c.id].key == c.key by {
      FoundExactly(l.uploads, c.bucket, c.key, c.id);
    }
    NotRefused(c.partNumber, c.contentLength, c.input, Found(l, c.bucket, c.key, c.id));
  }

  lemma NotRefused(partNumber: int, contentLength: int, input: Result<Bytes>, found: Result<MultipartUpload>)
    ensures PartRefused(partNumber, contentLength, input, found).None? <==>
      0 <= partNumber <= 10000 && input.Ok? && |input.value| == contentLength && found.Ok?
  {
  }

  /** Which error another part is answered: that of the first check it fails. */
  lemma PartErrorsExactly(partNumber: int, contentLength: int, input: Result<Bytes>, found: Result<MultipartUpload>)
    ensures var e := PartRefused(partNumber, contentLength, input, found);
      && (e == Some(Panic) <== partNumber < 0 && input.Ok? && |input.value| == contentLength && found.Ok?)
      && (partNumber > 10000 ==> e == Some(InvalidPart))
      && (partNumber <= 10000 && input.Err? ==> e == Some(input.error))
      && (partNumber <= 10000 && input.Ok? && |input.value| != contentLength ==> e == Some(IncompleteBody))
      && (partNumber <= 10000 && input.Ok? && |input.value| == contentLength && found.Err? ==> e == Some(found.error))
  {
  }

  /** An upload is found if and only if it is in progress for that bucket and key. */
  lemma FoundExactly(s: Progress, bucket: string, key: string, id: string)
    requires Inv(s)
    ensures Find(s.buckets, bucket, key, id) ==
      if LiveIn(s, bucket, id) && s.buckets[bucket].byId[id].key == key then Ok(s.buckets[bucket].byId[id])
      else Err(NoSuchUpload)
  {
    if LiveIn(s, bucket, id) {
      assert UploadOK(s.buckets[bucket], bucket, s.next, id);
    }
  }

  /** The event that a deed is among those of the uploads in progress: a part changes no
      index, and a completion ends its upload if and only if it puts an object. */
  function EventOf(d: Deed): Option<Event> {
    match d.call
    case Initiate(_, _) => if d.made.Some? then Some(CreateEvent(d.made.value)) else None
    case Abort(b, k, id) => Some(AbortEvent(b, k, id))
    case Complete(b, k, id, _) => Some(CompleteEvent(b, k, id, d.puts))
    case Upload(_, _, _, _, _, _) => None
  }

  function Moved(s: Progress, e: Option<Event>): Progress {
    if e.Some? then Step(s, e.value) else s
  }

  function Recorded(d: Deed, l: Ledger): History {
    if d.call.Initiate? && d.made.Some? then l.history[d.made.value := []]
    else if Accepts(d.call, l) then
      var u := Found(l, d.call.bucket, d.call.key, d.call.id).value;
      l.history[u := PartsSent(l.history, u) + [(d.call.partNumber, d.call.input.value)]]
    else l.history
  }

  function After(l: Ledger, d: Deed): Ledger {
    Ledger(Moved(l.uploads, EventOf(d)), Recorded(d, l))
  }

  /** Uploads are numbered in order of creation, and nothing but the completion of an
      upload in progress puts an object. */
  predicate LegalDeed(l: Ledger, d: Deed) {
    && (d.call.Initiate? ==> d.made.Some? && MayCreate(l.uploads, d.call.bucket, d.call.key, d.made.value))
    && (d.puts ==> d.call.Complete? && Found(l, d.call.bucket, d.call.key, d.call.id).Ok?)
  }

  predicate MayCreate(s: Progress, bucket: string, key: string, u: MultipartUpload) {
    u.bucket == bucket && u.key == key && Legal(s, CreateEvent(u))
  }

  predicate LegalDeeds(l: Ledger, ds: seq<Deed>)
    decreases |ds|
  {
    ds == [] || (LegalDeed(l, ds[0]) && LegalDeeds(After(l, ds[0]), ds[1..]))
  }

  function AfterAll(l: Ledger, ds: seq<Deed>): Ledger
    decreases |ds|
  {
    if ds == [] then l else AfterAll(After(l, ds[0]), ds[1..])
  }

  // ---- the life of an upload ----

  function Events(ds: seq<Deed>): seq<Event> {
    if ds == [] then [] else Before(EventOf(ds[0]), Events(ds[1..]))
  }

  function Before(e: Option<Event>, es: seq<Event>): seq<Event> {
    if e.Some? then [e.value] + es else es
  }

  /** How many deeds put an object for an upload id. */
  function TimesPut(ds: seq<Deed>, id: string): nat {
    if ds == [] then 0
    else (if ds[0].call.Complete? && ds[0].call.id == id && ds[0].puts then 1 else 0) + TimesPut(ds[1..], id)
  }

  lemma BeforeIs(s: Progress, e: Option<Event>, es: seq<Event>, id: string)
    ensures (e.Some? ==> Legal(s, e.value)) && LegalRun(Moved(s, e), es) ==> LegalRun(s, Before(e, es))
    ensures UploadRuns.Run(s, Before(e, es)) == UploadRuns.Run(Moved(s, e), es)
    ensures TimesStored(s, Before(e, es), id) ==
      (if e.Some? && StoresFor(s, e.value, id) then 1 else 0) + TimesStored(Moved(s, e), es, id)
  {
    if e.Some? {
      assert Before(e, es)[1..] == es;
    }
  }

  lemma {:induction false} EventsAreRun(l: Ledger, ds: seq<Deed>, id: string)
    requires LegalDeeds(l, ds)
    ensures LegalRun(l.uploads, Events(ds)) && AfterAll(l, ds).uploads == UploadRuns.Run(l.uploads, Events(ds))
    ensures TimesPut(ds, id) == TimesStored(l.uploads, Events(ds), id)
    decreases |ds|
  {
    if ds != [] {
      EventsAreRun(After(l, ds[0]), ds[1..], id);
      BeforeIs(l.uploads, EventOf(ds[0]), Events(ds[1..]), id);
    }
  }

  lemma AfterKeepsInv(l: Ledger, d: Deed)
    requires Inv(l.uploads) && LegalDeed(l, d)
    ensures Inv(After(l, d).uploads)
  {
    if EventOf(d).Some? {
      StepKeepsInv(l.uploads, EventOf(d).value);
    }
  }

  lemma FoundIs(s: Progress, bucket: string, key: string, id: string)
    requires Inv(s) && Find(s.buckets, bucket, key, id).Ok?
    ensures var u := Find(s.buckets, bucket, key, id).value;
      u.id == id == Decimal(u.number) && 0 < u.number <= s.next && u.bucket == bucket && u.key == key
  {
    assert UploadOK(s.buckets[bucket], bucket, s.next, id);
  }

  lemma {:induction false} StoredIsNumbered(s: Progress, es: seq<Event>, id: string) returns (n: nat)
    requires Inv(s) && LegalRun(s, es) && TimesStored(s, es, id) > 0
    ensures id == Decimal(n)
    decreases |es|
  {
    if StoresFor(s, es[0], id) {
      FoundIs(s, es[0].bucket, es[0].key, id);
      n := Find(s.buckets, es[0].bucket, es[0].key, id).value.number;
    } else {
      StepKeepsInv(s, es[0]);
      n := StoredIsNumbered(Step(s, es[0]), es[1..], id);
    }
  }

  /** At most one object is put for an upload id. */
  lemma OnePut(l: Ledger, ds: seq<Deed>, id: string)
    requires Inv(l.uploads) && LegalDeeds(l, ds)
    ensures TimesPut(ds, id) <= 1
  {
    EventsAreRun(l, ds, id);
    if TimesStored(l.uploads, Events(ds), id) > 0 {
      var n := StoredIsNumbered(l.uploads, Events(ds), id);
      OneLife(l.uploads, Events(ds), n);
    }
  }

  lemma FoundIsLive(s: Progress, bucket: string, key: string, id: string)
    ensures Find(s.buckets, bucket, key, id).Ok? ==> Live(s, id)
  {
    assert Find(s.buckets, bucket, key, id).Ok? ==> LiveIn(s, bucket, id);
  }

  lemma CreatedFinds(v: map<string, Uploads>, u: MultipartUpload, bucket: string, key: string, id: string)
    requires u.bucket == bucket && u.id == id ==> bucket !in v || id !in v[bucket].byId
    ensures Find(Created(v, u), bucket, key, id) ==
      if bucket == u.bucket && id == u.id then (if key == u.key then Ok(u) else Err(NoSuchUpload))
      else Find(v, bucket, key, id)
  {
  }

  lemma MadeIsNew(s: Progress, u: MultipartUpload, bucket: string, key: string, id: string)
    requires Inv(s) && Legal(s, CreateEvent(u))
    ensures var (f, f') := (Find(s.buckets, bucket, key, id), Find(Created(s.buckets, u), bucket, key, id));
      if bucket == u.bucket && id == u.id then f.Err? && (f'.Ok? ==> f'.value == u)
      else f' == f && (f.Ok? ==> f.value != u)
  {
    IdIsNew(s, u);
    assert !LiveIn(s, u.bucket, u.id);
    CreatedFinds(s.buckets, u, bucket, key, id);
    if Find(s.buckets, bucket, key, id).Ok? {
      FoundIs(s, bucket, key, id);
    }
  }

  /** An upload is found after another ends, and is not found after its own end. */
  lemma EndingFinds(s: Progress, b: string, k: string, v: string, bucket: string, key: string, id: string)
    ensures var (f, f') := (Find(s.buckets, bucket, key, id), Find(Ending(s, b, k, v).buckets, bucket, key, id));
      (f'.Ok? ==> f' == f) && (f.Ok? && f'.Err? <==> f.Ok? && b == bucket && v == id && Find(s.buckets, b, k, v).Ok?)
  {
  }

  lemma EndingIsOver(s: Progress, b: string, k: string, v: string, bucket: string, key: string, id: string)
    requires Inv(s) && Find(s.buckets, bucket, key, id).Ok?
    requires Find(Ending(s, b, k, v).buckets, bucket, key, id).Err?
    ensures !Live(Ending(s, b, k, v), id)
  {
    EndingFinds(s, b, k, v, bucket, key, id);
    EndingKeepsInv(s, b, k, v);
  }

  lemma OverAfter(s: Progress, e: Event, bucket: string, key: string, id: string)
    requires Inv(s) && Legal(s, e) && Find(s.buckets, bucket, key, id).Ok?
    requires Find(Step(s, e).buckets, bucket, key, id).Err?
    ensures !Live(Step(s, e), id)
  {
    match e
    case CreateEvent(u) => MadeIsNew(s, u, bucket, key, id);
    case AbortEvent(b, k, v) => EndingIsOver(s, b, k, v, bucket, key, id);
    case CompleteEvent(b, k, v, stored) => EndingIsOver(s, b, k, v, bucket, key, id);
  }

  lemma EndedIsOver(s: Progress, e: Option<Event>, bucket: string, key: string, id: string) returns (n: nat)
    requires Inv(s) && (e.Some? ==> Legal(s, e.value)) && Find(s.buckets, bucket, key, id).Ok?
    requires Find(Moved(s, e).buckets, bucket, key, id).Err?
    ensures id == Decimal(n) && Inv(Moved(s, e)) && Over(Moved(s, e), n)
  {
    n := Find(s.buckets, bucket, key, id).value.number;
    FoundIs(s, bucket, key, id);
    OverAfter(s, e.value, bucket, key, id);
    StepKeepsInv(s, e.value);
    NextGrows(s, [e.value]);
  }

  lemma EventIsLegal(l: Ledger, d: Deed)
    requires LegalDeed(l, d)
    ensures EventOf(d).Some? ==> Legal(l.uploads, EventOf(d).value)
  {
  }

  lemma OverIsNotFound(l: Ledger, ds: seq<Deed>, bucket: string, key: string, n: nat)
    requires Inv(l.uploads) && LegalDeeds(l, ds) && Over(l.uploads, n)
    ensures Found(AfterAll(l, ds), bucket, key, Decimal(n)).Err?
  {
    EventsAreRun(l, ds, Decimal(n));
    OverIsForever(l.uploads, Events(ds), n);
    FoundIsLive(AfterAll(l, ds).uploads, bucket, key, Decimal(n));
  }

  /** An upload that has ended is not found again. */
  lemma EndedStaysEnded(l: Ledger, d: Deed, ds: seq<Deed>, bucket: string, key: string, id: string)
    requires Inv(l.uploads) && LegalDeed(l, d) && LegalDeeds(After(l, d), ds)
    requires Found(l, bucket, key, id).Ok? && Found(After(l, d), bucket, key, id).Err?
    ensures Found(AfterAll(After(l, d), ds), bucket, key, id).Err?
  {
    EventIsLegal(l, d);
    var n := EndedIsOver(l.uploads, EventOf(d), bucket, key, id);
    OverIsNotFound(After(l, d), ds, bucket, key, n);
  }

  // ---- the parts of an upload ----

  /** The part that a call adds to an upload. */
  function Sends(c: UploadCall, l: Ledger, bucket: string, key: string, id: string): seq<(nat, Bytes)> {
    if Accepts(c, l) && c.bucket == bucket && c.key == key && c.id == id then [(c.partNumber, c.input.value)] else []
  }

  /** The parts that the deeds add to an upload, the first one earliest. */
  function Sent(l: Ledger, ds: seq<Deed>, bucket: string, key: string, id: string): seq<(nat, Bytes)>
    decreases |ds|
  {
    if ds == [] then []
    else Sends(ds[0].call, l, bucket, key, id) + Sent(After(l, ds[0]), ds[1..], bucket, key, id)
  }

  predicate Fits(f: Result<MultipartUpload>, bucket: string, key: string, id: string) {
    f.Ok? ==> f.value.bucket == bucket && f.value.key == key && f.value.id == id
  }

  lemma FoundFits(s: Progress, bucket: string, key: string, id: string)
    requires Inv(s)
    ensures Fits(Find(s.buckets, bucket, key, id), bucket, key, id)
  {
    if Find(s.buckets, bucket, key, id).Ok? {
      FoundIs(s, bucket, key, id);
    }
  }

  lemma SentMade(l: Ledger, u: MultipartUpload, bucket: string, key: string, id: string)
    requires Inv(l.uploads) && Legal(l.uploads, CreateEvent(u))
    ensures PartsFor(Ledger(Step(l.uploads, CreateEvent(u)), l.history[u := []]), bucket, key, id) ==
      PartsFor(l, bucket, key, id)
  {
    MadeIsNew(l.uploads, u, bucket, key, id);
  }

  lemma SentPart(c: UploadCall, l: Ledger, bucket: string, key: string, id: string)
    requires Accepts(c, l) && Found(l, bucket, key, id).Ok?
    requires Fits(Found(l, c.bucket, c.key, c.id), c.bucket, c.key, c.id)
    requires Fits(Found(l, bucket, key, id), bucket, key, id)
    ensures PartsFor(After(l, Deed(c, None, false)), bucket, key, id) ==
      PartsFor(l, bucket, key, id) + Sends(c, l, bucket, key, id)
  {
  }

  lemma SentEnded(l: Ledger, b: string, k: string, v: string, bucket: string, key: string, id: string)
    requires Find(Ending(l.uploads, b, k, v).buckets, bucket, key, id).Ok?
    ensures PartsFor(l.(uploads := Ending(l.uploads, b, k, v)), bucket, key, id) == PartsFor(l, bucket, key, id)
  {
    EndingFinds(l.uploads, b, k, v, bucket, key, id);
  }

  /** A deed adds to the parts of an upload the one that it sends for it. */
  lemma SentStep(l: Ledger, d: Deed, bucket: string, key: string, id: string)
    requires Inv(l.uploads) && LegalDeed(l, d) && Found(After(l, d), bucket, key, id).Ok?
    ensures PartsFor(After(l, d), bucket, key, id) ==
      PartsFor(l, bucket, key, id) + Sends(d.call, l, bucket, key, id)
  {
    match d.call
    case Initiate(_, _) => SentMade(l, d.made.value, bucket, key, id);
    case Upload(b, k, v, _, _, _) =>
      if Accepts(d.call, l) {
        FoundFits(l.uploads, b, k, v);
        FoundFits(l.uploads, bucket, key, id);
        SentPart(d.call, l, bucket, key, id);
      }
    case Abort(b, k, v) => SentEnded(l, b, k, v, bucket, key, id);
    case Complete(b, k, v, _) =>
      if d.puts {
        SentEnded(l, b, k, v, bucket, key, id);
      }
  }

  lemma Regroup(a: seq<(nat, Bytes)>, b: seq<(nat, Bytes)>, c: seq<(nat, Bytes)>)
    ensures (a + b) + c == a + (b + c)
  {
  }

  lemma SentFirst(l: Ledger, d: Deed, ds: seq<Deed>, bucket: string, key: string, id: string)
    requires Inv(l.uploads) && LegalDeed(l, d) && LegalDeeds(After(l, d), ds)
    requires Found(AfterAll(After(l, d), ds), bucket, key, id).Ok?
    ensures PartsFor(After(l, d), bucket, key, id) ==
      PartsFor(l, bucket, key, id) + Sends(d.call, l, bucket, key, id)
  {
    if Found(After(l, d), bucket, key, id).Ok? {
      SentStep(l, d, bucket, key, id);
    } else if Found(l, bucket, key, id).Ok? {
      EndedStaysEnded(l, d, ds, bucket, key, id);
    }
  }

  /** The parts of an upload in progress are those that were sent for it, in order. */
  lemma {:induction false} PartsAreSent(l: Ledger, ds: seq<Deed>, bucket: string, key: string, id: string)
    requires Inv(l.uploads) && LegalDeeds(l, ds) && Found(AfterAll(l, ds), bucket, key, id).Ok?
    ensures PartsFor(AfterAll(l, ds), bucket, key, id) ==
      PartsFor(l, bucket, key, id) + Sent(l, ds, bucket, key, id)
    decreases |ds|
  {
    if ds != [] {
      var l', rest := After(l, ds[0]), ds[1..];
      assert PartsFor(AfterAll(l', rest), bucket, key, id) ==
        PartsFor(l', bucket, key, id) + Sent(l', rest, bucket, key, id) by {
        AfterKeepsInv(l, ds[0]);
        PartsAreSent(l', rest, bucket, key, id);
      }
      assert PartsFor(l', bucket, key, id) ==
        PartsFor(l, bucket, key, id) + Sends(ds[0].call, l, bucket, key, id) by {
        SentFirst(l, ds[0], rest, bucket, key, id);
      }
      Regroup(PartsFor(l, bucket, key, id), Sends(ds[0].call, l, bucket, key, id),
              Sent(l', rest, bucket, key, id));
    }
  }
}
