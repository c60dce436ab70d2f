/** Runs of requests against a whole backend: one generator serves all its buckets. */
module BackendRuns {
  import opened Basics
  import opened Order
  import opened BucketModel
  import opened Backends
  import opened VersionIds

  datatype Request =
    | CreateBucket(bucket: string)
    | DeleteBucket(bucket: string)
    | ForceDeleteBucket(bucket: string)
    | InBucket(bucket: string, event: Event)

  /** The effect of a request on the buckets; `id` is used if a version id is minted. */
  function Serve(v: map<string, State>, r: Request, id: string): map<string, State> {
    match r
    case CreateBucket(b) => if b in v then v else v[b := NEW_BUCKET]
    case DeleteBucket(b) => if b in v && v[b].objects.keys == [] then v - {b} else v
    case ForceDeleteBucket(b) => v - {b}
    case InBucket(b, e) =>
      if b !in v || (e.PutEvent? && StoreRefused(v, b, e.name).Some?) then v else v[b := Step(v[b], e, id)]
  }

  predicate ServeMints(v: map<string, State>, r: Request) {
    r.InBucket? && r.bucket in v && Mints(v[r.bucket], r.event) &&
    (r.event.PutEvent? ==> StoreRefused(v, r.bucket, r.event.name).None?)
  }

  function ServeAll(v: map<string, State>, rs: seq<Request>, ids: seq<string>): map<string, State>
    requires |rs| == |ids|
    decreases |rs|
  {
    if rs == [] then v else ServeAll(Serve(v, rs[0], ids[0]), rs[1..], ids[1..])
  }

  /** The ids minted over a run bear the numbers after `n`, one after the other. */
  ghost predicate Issued(v: map<string, State>, rs: seq<Request>, ids: seq<string>, n: nat)
    requires |rs| == |ids|
    decreases |rs|
  {
    rs == [] ||
    (var minted := ServeMints(v, rs[0]);
     (minted ==> IsIdNumber(ids[0], n + 1)) &&
       Issued(Serve(v, rs[0], ids[0]), rs[1..], ids[1..], CountAfter(n, minted)))
  }

  /** How many ids have been minted after a run, `n` before it. */
  function CountAll(v: map<string, State>, rs: seq<Request>, ids: seq<string>, n: nat): nat
    requires |rs| == |ids|
    decreases |rs|
  {
    if rs == [] then n
    else CountAll(Serve(v, rs[0], ids[0]), rs[1..], ids[1..], CountAfter(n, ServeMints(v, rs[0])))
  }

  /** A run leads from `v`, with `n` ids minted, to `w`, with `m`. */
  ghost predicate Leads(v: map<string, State>, n: nat, rs: seq<Request>, ids: seq<string>, w: map<string, State>,
                        m: nat)
  {
    && |rs| == |ids| && Issued(v, rs, ids, n)
    && w == ServeAll(v, rs, ids) && m == CountAll(v, rs, ids, n)
  }

  /** A run that goes on where another ended. */
  lemma {:induction false} LeadsOn(v: map<string, State>, n: nat, rs: seq<Request>, ids: seq<string>,
                                   w: map<string, State>, m: nat, rs': seq<Request>, ids': seq<string>,
                                   x: map<string, State>, k: nat)
    requires Leads(v, n, rs, ids, w, m) && Leads(w, m, rs', ids', x, k)
    ensures Leads(v, n, rs + rs', ids + ids', x, k)
    decreases |rs|
  {
    if rs == [] {
      assert rs + rs' == rs' && ids + ids' == ids';
    } else {
      LeadsOn(Serve(v, rs[0], ids[0]), CountAfter(n, ServeMints(v, rs[0])), rs[1..], ids[1..], w, m, rs', ids', x, k);
      assert (rs + rs')[1..] == rs[1..] + rs' && (ids + ids')[1..] == ids[1..] + ids';
    }
  }

  lemma OneLeads(v: map<string, State>, n: nat, r: Request, id: string)
    requires ServeMints(v, r) ==> IsIdNumber(id, n + 1)
    ensures Leads(v, n, [r], [id], Serve(v, r, id), CountAfter(n, ServeMints(v, r)))
  {
    assert ServeAll(Serve(v, r, id), [], []) == Serve(v, r, id);
  }

  lemma NoneLeads(v: map<string, State>, n: nat)
    ensures Leads(v, n, [], [], v, n)
  {
  }

  /** No id names versions in two buckets. */
  ghost predicate BucketsApart(v: map<string, State>) {
    forall b, c, k, l, x :: b in v && c in v && x in VersionsOf(v[b], k) && x in VersionsOf(v[c], l) ==> b == c
  }

  ghost predicate AllInv(v: map<string, State>, last: string) {
    BucketsApart(v) && forall b :: b in v ==> Inv(v[b], last)
  }

  /** The latest id of a generator that has counted to `n`. */
  ghost predicate IsLatest(last: string, n: nat) {
    if n == 0 then last == "" else IsIdNumber(last, n)
  }

  lemma NextIsAbove(last: string, n: nat, id: string)
    requires IsLatest(last, n) && IsIdNumber(id, n + 1) && n + 1 < COUNTER_LIMIT
    ensures Less(last, id)
  {
    if n == 0 {
      var t :| |t| == 9 && Octets(t) && id == VersionIdOf(1, t);
    } else {
      NumbersOrderIds(last, n, id, n + 1);
    }
  }

  /** What one bucket may become in a step after which `next` is the latest id. */
  ghost predicate Follows(v: map<string, State>, b: string, s: State, next: string, added: set<string>) {
    Inv(s, next) && forall k, x :: x in VersionsOf(s, k) ==> x in added || (b in v && x in VersionsOf(v[b], k))
  }

  /** Each request keeps every bucket well-formed; only the bucket it is for may get an
      id, and only a new one. */
  lemma ServeFollows(v: map<string, State>, r: Request, last: string, id: string, b: string)
    requires AllInv(v, last) && b in Serve(v, r, id) && (ServeMints(v, r) ==> Less(last, id))
    ensures Follows(v, b, Serve(v, r, id)[b], if ServeMints(v, r) then id else last,
                    if ServeMints(v, r) && b == r.bucket then {id} else {})
  {
    var v' := Serve(v, r, id);
    if b in v && v'[b] == v[b] {
      if ServeMints(v, r) { IdsGrow(v[b], last, id); }
    } else if r.CreateBucket? {
      NewBucketOK();
    } else if ServeMints(v, r) {
      StepKeepsInv(v[b], r.event, last, id);
      StepOK(v[b], r.event, last, id);
    } else {
      StepWithoutId(v[b], r.event, id);
    }
  }

  lemma ServeKeepsInv(v: map<string, State>, r: Request, last: string, id: string)
    requires AllInv(v, last) && (ServeMints(v, r) ==> Less(last, id))
    ensures AllInv(Serve(v, r, id), if ServeMints(v, r) then id else last)
  {
    var v' := Serve(v, r, id);
    forall b | b in v'
      ensures Inv(v'[b], if ServeMints(v, r) then id else last)
    {
      ServeFollows(v, r, last, id, b);
    }
    forall b, c, k, l, x | b in v' && c in v' && x in VersionsOf(v'[b], k) && x in VersionsOf(v'[c], l)
      ensures b == c
    {
      ServeApart(v, r, last, id, b, c, k, l, x);
    }
  }

  lemma ServeApart(v: map<string, State>, r: Request, last: string, id: string, b: string, c: string, k: string,
                   l: string, x: string)
    requires AllInv(v, last) && (ServeMints(v, r) ==> Less(last, id)) && b in Serve(v, r, id) && c in Serve(v, r, id)
    requires x in VersionsOf(Serve(v, r, id)[b], k) && x in VersionsOf(Serve(v, r, id)[c], l)
    ensures b == c
  {
    var minted := ServeMints(v, r);
    OldOrNew(v, r, last, id, b, k, x);
    OldOrNew(v, r, last, id, c, l, x);
    StaysApart(v, minted, r.bucket, last, id, b, c, k, l, x);
  }

  lemma OldOrNew(v: map<string, State>, r: Request, last: string, id: string, b: string, k: string, x: string)
    requires AllInv(v, last) && (ServeMints(v, r) ==> Less(last, id)) && b in Serve(v, r, id) &&
      x in VersionsOf(Serve(v, r, id)[b], k)
    ensures (ServeMints(v, r) && b == r.bucket && x == id) || (b in v && x in VersionsOf(v[b], k))
  {
    var minted := ServeMints(v, r);
    ServeFollows(v, r, last, id, b);
    FollowsAt(v, b, Serve(v, r, id)[b], if minted then id else last, if minted && b == r.bucket then {id} else {},
              k, x);
  }

  lemma FollowsAt(v: map<string, State>, b: string, s: State, next: string, added: set<string>, k: string, x: string)
    requires Follows(v, b, s, next, added) && x in VersionsOf(s, k)
    ensures x in added || (b in v && x in VersionsOf(v[b], k))
  {
  }

  lemma StaysApart(v: map<string, State>, minted: bool, at: string, last: string, id: string, b: string, c: string,
                   k: string, l: string, x: string)
    requires AllInv(v, last) && (minted ==> Less(last, id))
    requires (minted && b == at && x == id) || (b in v && x in VersionsOf(v[b], k))
    requires (minted && c == at && x == id) || (c in v && x in VersionsOf(v[c], l))
    ensures b == c
  {
    if minted && x == id {
      if b in v && x in VersionsOf(v[b], k) { OldIsNotNew(v[b], last, id, k); }
      if c in v && x in VersionsOf(v[c], l) { OldIsNotNew(v[c], last, id, l); }
    }
  }

  lemma OldIsNotNew(s: State, last: string, id: string, k: string)
    requires IssuedUpTo(s, last) && Less(last, id)
    ensures id !in VersionsOf(s, k)
  {
    if id in VersionsOf(s, k) {
      AtMostLess(id, last, id);
      LessIrreflexive(id);
    }
  }

  /** What holds of the buckets in every state a backend can be in, with `n` ids minted. */
  ghost predicate Good(v: map<string, State>, n: nat) {
    exists last :: AllInv(v, last) && IsLatest(last, n)
  }

  /** Of such a bucket the listings can be asked. */
  lemma GoodIsOK(v: map<string, State>, n: nat, b: string)
    requires Good(v, n) && b in v
    ensures StateOK(v[b])
  {
  }

  lemma LatestAfter(minted: bool, last: string, n: nat, id: string)
    requires IsLatest(last, n) && n + 1 < COUNTER_LIMIT && (minted ==> IsIdNumber(id, n + 1))
    ensures IsLatest(if minted then id else last, CountAfter(n, minted)) && (minted ==> Less(last, id))
  {
    if minted {
      NextIsAbove(last, n, id);
    }
  }

  lemma ServeOne(v: map<string, State>, r: Request, n: nat, id: string)
    requires Good(v, n) && n + 1 < COUNTER_LIMIT && (ServeMints(v, r) ==> IsIdNumber(id, n + 1))
    ensures Good(Serve(v, r, id), CountAfter(n, ServeMints(v, r)))
  {
    var last :| AllInv(v, last) && IsLatest(last, n);
    LatestAfter(ServeMints(v, r), last, n, id);
    ServeKeepsInv(v, r, last, id);
  }

  /** In every state of the backend that requests lead to, each bucket is as its own
      invariant says, and no version id names two versions, in one bucket or in two. */
  lemma {:induction false} RunsKeepInv(v: map<string, State>, n: nat, rs: seq<Request>, ids: seq<string>)
    requires |rs| == |ids| && Good(v, n) && Issued(v, rs, ids, n) && n + |rs| < COUNTER_LIMIT
    ensures Good(ServeAll(v, rs, ids), CountAll(v, rs, ids, n)) && CountAll(v, rs, ids, n) <= n + |rs|
    decreases |rs|
  {
    if rs != [] {
      ServeOne(v, rs[0], n, ids[0]);
      RunsKeepInv(Serve(v, rs[0], ids[0]), CountAfter(n, ServeMints(v, rs[0])), rs[1..], ids[1..]);
    }
  }

  lemma NewIsGood()
    ensures Good(map[], 0)
  {
    assert AllInv(map[], "") && IsLatest("", 0);
  }

  /** So it is for a new backend, over its first 10^30 - 2 requests. */
  lemma ReachableBackendOK(rs: seq<Request>, ids: seq<string>)
    requires |rs| == |ids| && Issued(map[], rs, ids, 0) && |rs| < COUNTER_LIMIT
    ensures Good(ServeAll(map[], rs, ids), CountAll(map[], rs, ids, 0))
  {
    NewIsGood();
    RunsKeepInv(map[], 0, rs, ids);
  }

  // ---- what the methods that are not single requests come to ----

  /** Storing a body is serving a put, or nothing. */
  lemma StoringIsServing(v: map<string, State>, bucket: string, name: string, body: Bytes, md5: Digest, id: string)
    ensures var (r, (w, res)) :=
      (InBucket(bucket, PutEvent(name, body, md5(body))), Stores(v, bucket, name, body, md5, id));
      w == Serve(v, r, id) && (res.Ok? <==> ServeMints(v, r))
  {
  }

  /** The requests a multi-object delete comes to. */
  function DeleteRequest(bucket: string, o: ObjectID): Request {
    InBucket(bucket, if o.versionID != "" then RemoveVersionEvent(o.key, o.versionID) else RemoveEvent(o.key))
  }

  function DeleteRequests(bucket: string, os: seq<ObjectID>): seq<Request> {
    seq(|os|, i requires 0 <= i < |os| => DeleteRequest(bucket, os[i]))
  }

  lemma LastDelete(bucket: string, os: seq<ObjectID>, ids: seq<string>)
    requires |os| == |ids| > 0
    ensures var k := |os| - 1;
      DeleteRequests(bucket, os) == DeleteRequests(bucket, os[..k]) + [DeleteRequest(bucket, os[k])] &&
        ids == ids[..k] + [ids[k]]
  {
  }

  lemma EntryIsServed(v: map<string, State>, w: map<string, State>, bucket: string, o: ObjectID, id: string)
    requires bucket in v && w == v[bucket := DeleteOne(v[bucket], o, id)]
    ensures w == Serve(v, DeleteRequest(bucket, o), id)
    ensures ServeMints(v, DeleteRequest(bucket, o)) <==> DeleteMints(v[bucket], o)
  {
  }

  /** The last entry of a multi-object delete. */
  lemma LastIsServed(v: map<string, State>, u: map<string, State>, w: map<string, State>, bucket: string,
                     os: seq<ObjectID>, ids: seq<string>, n: nat, c: nat, m: nat)
    requires os != [] && EachDeleted(v, w, bucket, os, ids, n, m) && m < COUNTER_LIMIT
    requires u == v[bucket := DeleteEach(v[bucket], os[..|os| - 1], ids[..|os| - 1])]
    requires c == CountDeleted(v[bucket], os[..|os| - 1], ids[..|os| - 1], n)
    ensures EachDeleted(v, u, bucket, os[..|os| - 1], ids[..|os| - 1], n, c) && c < COUNTER_LIMIT
    ensures Leads(u, c, [DeleteRequest(bucket, os[|os| - 1])], [ids[|os| - 1]], w, m)
  {
    var o, id := os[|os| - 1], ids[|os| - 1];
    EntryIsServed(u, w, bucket, o, id);
    OneLeads(u, c, DeleteRequest(bucket, o), id);
  }

  /** A multi-object delete is the run of its entries. */
  lemma {:induction false} DeletesAreServed(v: map<string, State>, w: map<string, State>, bucket: string,
                                            os: seq<ObjectID>, ids: seq<string>, n: nat, m: nat)
    requires EachDeleted(v, w, bucket, os, ids, n, m) && m < COUNTER_LIMIT
    ensures Leads(v, n, DeleteRequests(bucket, os), ids, w, m)
    decreases |os|
  {
    if os == [] {
      NoneLeads(v, n);
      assert v == v[bucket := v[bucket]];
    } else {
      var k := |os| - 1;
      var u := v[bucket := DeleteEach(v[bucket], os[..k], ids[..k])];
      var c := CountDeleted(v[bucket], os[..k], ids[..k], n);
      LastIsServed(v, u, w, bucket, os, ids, n, c, m);
      DeletesAreServed(v, u, bucket, os[..k], ids[..k], n, c);
      LeadsOn(v, n, DeleteRequests(bucket, os[..k]), ids[..k], u, c, [DeleteRequest(bucket, os[k])], [ids[k]], w, m);
      LastDelete(bucket, os, ids);
    }
  }
}
