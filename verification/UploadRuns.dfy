/** The life of multipart uploads over every run of requests. */
module UploadRuns {
  import opened Encodings
  import opened UploadIndex
  import opened Uploaders

  /** The uploads in progress, and how many were ever created. */
  datatype Progress = Progress(next: nat, buckets: map<string, Uploads>)

  const NOTHING_YET := Progress(0, map[])

  /** A request that may create or end an upload; `stored` tells whether the checks and
      the storing of a complete request succeed. */
  datatype Event =
    | CreateEvent(u: MultipartUpload)
    | AbortEvent(bucket: string, key: string, id: string)
    | CompleteEvent(bucket: string, key: string, id: string, stored: bool)

  /** Uploads are numbered in order of creation. */
  predicate Legal(s: Progress, e: Event) {
    e.CreateEvent? ==> e.u.number == s.next + 1 && e.u.id == Decimal(e.u.number)
  }

  function Ending(s: Progress, bucket: string, key: string, id: string): Progress {
    if Find(s.buckets, bucket, key, id).Ok? then s.(buckets := Ended(s.buckets, bucket, id)) else s
  }

  function Step(s: Progress, e: Event): Progress {
    match e
    case CreateEvent(u) => Progress(s.next + 1, Created(s.buckets, u))
    case AbortEvent(b, k, id) => Ending(s, b, k, id)
    case CompleteEvent(b, k, id, stored) => if stored then Ending(s, b, k, id) else s
  }

  function Run(s: Progress, es: seq<Event>): Progress
    decreases |es|
  {
    if es == [] then s else Run(Step(s, es[0]), es[1..])
  }

  predicate LegalRun(s: Progress, es: seq<Event>)
    decreases |es|
  {
    es == [] || (Legal(s, es[0]) && LegalRun(Step(s, es[0]), es[1..]))
  }

  // ---- the indexes of every bucket agree ----

  predicate LiveIn(s: Progress, b: string, id: string) {
    b in s.buckets && id in s.buckets[b].byId
  }

  ghost predicate Live(s: Progress, id: string) {
    exists b :: LiveIn(s, b, id)
  }

  ghost predicate AllAgree(s: Progress) {
    forall b :: b in s.buckets ==> Agree(s.buckets[b], b, s.next)
  }

  /** No id names uploads in two buckets. */
  ghost predicate Apart(s: Progress) {
    forall b, c, id :: LiveIn(s, b, id) && LiveIn(s, c, id) ==> b == c
  }

  ghost predicate Inv(s: Progress) {
    AllAgree(s) && Apart(s)
  }

  lemma IdIsNew(s: Progress, u: MultipartUpload)
    requires AllAgree(s) && Legal(s, CreateEvent(u))
    ensures !Live(s, u.id)
  {
    if Live(s, u.id) {
      var b :| LiveIn(s, b, u.id);
      NewIdIsNew(s.buckets[b], b, s.next, u);
    }
  }

  lemma CreateAgrees(s: Progress, u: MultipartUpload)
    requires AllAgree(s) && Legal(s, CreateEvent(u))
    ensures AllAgree(Step(s, CreateEvent(u)))
  {
    var s' := Step(s, CreateEvent(u));
    forall b | b in s'.buckets
      ensures Agree(s'.buckets[b], b, s.next + 1)
    {
      if b == u.bucket {
        EmptyAgrees(b, s.next);
        AddAgrees(if b in s.buckets then s.buckets[b] else NO_UPLOADS, b, s.next, u);
      } else {
        AgreeLater(s.buckets[b], b, s.next, s.next + 1);
      }
    }
  }

  lemma CreateKeepsInv(s: Progress, u: MultipartUpload)
    requires Inv(s) && Legal(s, CreateEvent(u))
    ensures Inv(Step(s, CreateEvent(u))) && !Live(s, u.id)
    ensures forall id :: Live(Step(s, CreateEvent(u)), id) <==> Live(s, id) || id == u.id
  {
    IdIsNew(s, u);
    CreateAgrees(s, u);
    forall b, id
      ensures LiveIn(Step(s, CreateEvent(u)), b, id) <==> LiveIn(s, b, id) || (b == u.bucket && id == u.id)
    {
      CreatedLives(s, u, b, id);
    }
    LivesWith(s, Step(s, CreateEvent(u)), u.bucket, u.id);
  }

  lemma CreatedLives(s: Progress, u: MultipartUpload, b: string, id: string)
    ensures LiveIn(Step(s, CreateEvent(u)), b, id) <==> LiveIn(s, b, id) || (b == u.bucket && id == u.id)
  {
  }

  lemma LivesWith(s: Progress, s': Progress, bucket: string, id: string)
    requires Apart(s) && !Live(s, id)
    requires forall b, v :: LiveIn(s', b, v) <==> LiveIn(s, b, v) || (b == bucket && v == id)
    ensures Apart(s') && forall v :: Live(s', v) <==> Live(s, v) || v == id
  {
    forall v
      ensures Live(s', v) <==> Live(s, v) || v == id
    {
      if Live(s, v) { var b :| LiveIn(s, b, v); assert LiveIn(s', b, v); }
      assert LiveIn(s', bucket, id);
    }
  }

  lemma EndingAgrees(s: Progress, bucket: string, key: string, id: string)
    requires AllAgree(s) && Find(s.buckets, bucket, key, id).Ok?
    ensures AllAgree(Ending(s, bucket, key, id))
    ensures forall b, v :: LiveIn(Ending(s, bucket, key, id), b, v) <==> LiveIn(s, b, v) && !(b == bucket && v == id)
  {
    var t := Ending(s, bucket, key, id);
    RemoveExact(s.buckets[bucket], bucket, s.next, id);
    forall b | b in t.buckets
      ensures Agree(t.buckets[b], b, t.next)
    {
    }
    OneGone(s, t, bucket, id);
  }

  lemma OneGone(s: Progress, t: Progress, bucket: string, id: string)
    requires bucket in s.buckets && t.buckets.Keys == s.buckets.Keys &&
      t.buckets[bucket].byId == s.buckets[bucket].byId - {id}
    requires forall b :: b in s.buckets && b != bucket ==> t.buckets[b] == s.buckets[b]
    ensures forall b, v :: LiveIn(t, b, v) <==> LiveIn(s, b, v) && !(b == bucket && v == id)
  {
  }

  lemma EndingKeepsInv(s: Progress, bucket: string, key: string, id: string)
    requires Inv(s)
    ensures Inv(Ending(s, bucket, key, id))
    ensures var found := Find(s.buckets, bucket, key, id).Ok?;
      forall v :: Live(Ending(s, bucket, key, id), v) <==> Live(s, v) && !(found && v == id)
  {
    if Find(s.buckets, bucket, key, id).Ok? {
      EndingAgrees(s, bucket, key, id);
      LivesWithout(s, Ending(s, bucket, key, id), bucket, id);
    }
  }

  lemma LivesWithout(s: Progress, s': Progress, bucket: string, id: string)
    requires Apart(s) && LiveIn(s, bucket, id)
    requires forall b, v :: LiveIn(s', b, v) <==> LiveIn(s, b, v) && !(b == bucket && v == id)
    ensures Apart(s') && forall v :: Live(s', v) <==> Live(s, v) && v != id
  {
    forall v
      ensures Live(s', v) <==> Live(s, v) && v != id
    {
      if Live(s, v) && v != id { var b :| LiveIn(s, b, v); assert LiveIn(s', b, v); }
      if Live(s', v) { var b :| LiveIn(s', b, v); assert LiveIn(s, b, v); }
    }
  }

  lemma StepKeepsInv(s: Progress, e: Event)
    requires Inv(s) && Legal(s, e)
    ensures Inv(Step(s, e))
  {
    match e
    case CreateEvent(u) => CreateKeepsInv(s, u);
    case AbortEvent(b, k, id) => EndingKeepsInv(s, b, k, id);
    case CompleteEvent(b, k, id, stored) => EndingKeepsInv(s, b, k, id);
  }

  /** After any run the two indexes of each bucket agree. */
  lemma {:induction false} RunKeepsInv(s: Progress, es: seq<Event>)
    requires Inv(s) && LegalRun(s, es)
    ensures Inv(Run(s, es))
    decreases |es|
  {
    if es != [] {
      StepKeepsInv(s, es[0]);
      RunKeepsInv(Step(s, es[0]), es[1..]);
    }
  }

  lemma ReachableAgree(es: seq<Event>, b: string)
    requires LegalRun(NOTHING_YET, es) && b in Run(NOTHING_YET, es).buckets
    ensures Agree(Run(NOTHING_YET, es).buckets[b], b, Run(NOTHING_YET, es).next)
  {
    RunKeepsInv(NOTHING_YET, es);
  }

  // ---- the life of an upload id ----

  /** Whether a request issues the id of number `n`. */
  predicate Issues(e: Event, n: nat) {
    e.CreateEvent? && e.u.number == n
  }

  /** Whether a request stores an object for an upload. */
  predicate StoresFor(s: Progress, e: Event, id: string) {
    e.CompleteEvent? && e.id == id && e.stored && Find(s.buckets, e.bucket, e.key, e.id).Ok?
  }

  function TimesIssued(s: Progress, es: seq<Event>, n: nat): nat
    decreases |es|
  {
    if es == [] then 0 else (if Issues(es[0], n) then 1 else 0) + TimesIssued(Step(s, es[0]), es[1..], n)
  }

  function TimesStored(s: Progress, es: seq<Event>, id: string): nat
    decreases |es|
  {
    if es == [] then 0 else (if StoresFor(s, es[0], id) then 1 else 0) + TimesStored(Step(s, es[0]), es[1..], id)
  }

  /** An id that was issued and is not live has come to its end. */
  ghost predicate Over(s: Progress, n: nat) {
    0 < n <= s.next && !Live(s, Decimal(n))
  }

  lemma LiveIsIssued(s: Progress, n: nat)
    requires Inv(s) && Live(s, Decimal(n))
    ensures 0 < n <= s.next
  {
    var b :| LiveIn(s, b, Decimal(n));
    assert UploadOK(s.buckets[b], b, s.next, Decimal(n));
    DecimalInjective(n, s.buckets[b].byId[Decimal(n)].number);
  }

  lemma StepLife(s: Progress, e: Event, n: nat)
    requires Inv(s) && Legal(s, e)
    ensures Over(s, n) ==> Over(Step(s, e), n) && !Issues(e, n) && !StoresFor(s, e, Decimal(n))
    ensures StoresFor(s, e, Decimal(n)) ==> Over(Step(s, e), n)
    ensures Issues(e, n) ==> !Live(s, Decimal(n)) && Live(Step(s, e), Decimal(n)) && s.next < n <= Step(s, e).next
    ensures !Issues(e, n) ==>
      (Live(Step(s, e), Decimal(n)) ==> Live(s, Decimal(n))) && (n <= s.next <==> n <= Step(s, e).next)
  {
    StepKeepsInv(s, e);
    match e
    case CreateEvent(u) =>
      CreateKeepsInv(s, u);
      if u.id == Decimal(n) { DecimalInjective(u.number, n); }
    case AbortEvent(b, k, id) =>
      EndingKeepsInv(s, b, k, id);
    case CompleteEvent(b, k, id, stored) =>
      EndingKeepsInv(s, b, k, id);
      if StoresFor(s, e, Decimal(n)) {
        assert LiveIn(s, b, Decimal(n));
        LiveIsIssued(s, n);
      }
  }

  /** An id whose upload has ended is never issued again, never live again, and nothing
      more is stored for it. */
  lemma {:induction false} OverIsForever(s: Progress, es: seq<Event>, n: nat)
    requires Inv(s) && LegalRun(s, es) && Over(s, n)
    ensures Over(Run(s, es), n) && TimesIssued(s, es, n) == 0 && TimesStored(s, es, Decimal(n)) == 0
    decreases |es|
  {
    if es != [] {
      StepLife(s, es[0], n);
      StepKeepsInv(s, es[0]);
      OverIsForever(Step(s, es[0]), es[1..], n);
    }
  }

  /** Over every run each upload id is issued at most once, and at most one object is
      stored for it. */
  lemma {:induction false} OneLife(s: Progress, es: seq<Event>, n: nat)
    requires Inv(s) && LegalRun(s, es)
    ensures TimesStored(s, es, Decimal(n)) <= 1
    ensures TimesIssued(s, es, n) == if s.next < n <= Run(s, es).next then 1 else 0
    decreases |es|
  {
    if es != [] {
      StepLife(s, es[0], n);
      StepKeepsInv(s, es[0]);
      OneLife(Step(s, es[0]), es[1..], n);
      if StoresFor(s, es[0], Decimal(n)) {
        OverIsForever(Step(s, es[0]), es[1..], n);
      }
      NextGrows(Step(s, es[0]), es[1..]);
    }
  }

  lemma {:induction false} NextGrows(s: Progress, es: seq<Event>)
    ensures s.next <= Run(s, es).next
    decreases |es|
  {
    if es != [] {
      NextGrows(Step(s, es[0]), es[1..]);
    }
  }
}
