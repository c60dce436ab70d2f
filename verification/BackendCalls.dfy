/** What the calls on a backend come to: requests served in a row. */
module BackendCalls {
  import opened Basics
  import opened BucketModel
  import opened Backends
  import opened BackendRuns
  import opened VersionIds
  import opened Chunks
  import ObjectUploads

  /** The calls that change a backend; a put comes as an upload, never as a request of its
      own. */
  datatype Call =
    | Single(request: Request)
    | Create(bucket: string, name: string, h: ObjectUploads.Headers, a: ObjectUploads.Arrival)
    | DeleteMulti(bucket: string, os: seq<ObjectID>)

  predicate IsCall(c: Call) {
    c.Single? && c.request.InBucket? ==> !c.request.event.PutEvent?
  }

  /** The most version ids a call can take. */
  function Takes(c: Call): nat {
    if c.DeleteMulti? then |c.os| else 1
  }

  function PutOf(bucket: string, name: string, body: Bytes, md5: Digest): Request {
    InBucket(bucket, PutEvent(name, body, md5(body)))
  }

  /** The put of a body that may be stored. */
  function PutIfStored(v: map<string, State>, bucket: string, name: string, body: Result<Bytes>, md5: Digest):
    seq<Request>
  {
    if body.Ok? && StoreRefused(v, bucket, name).None? then [PutOf(bucket, name, body.value, md5)] else []
  }

  /** The requests a call comes to in a state of the buckets. */
  function Requests(md5: Digest, scan: Scanner, c: Call, v: map<string, State>): (rs: seq<Request>)
    ensures |rs| <= Takes(c)
  {
    match c
    case Single(r) => [r]
    case Create(b, name, h, a) => PutIfStored(v, b, name, ObjectUploads.Accepted(scan, md5, h, name, a), md5)
    case DeleteMulti(b, os) => if b in v then DeleteRequests(b, os) else []
  }

  /** The calls `cs`, given version ids call by call, lead from `v`, with `n` ids minted, to
      `w`, with `m`: each comes to its requests. */
  ghost predicate CallsLead(md5: Digest, scan: Scanner, cs: seq<Call>, v: map<string, State>, n: nat,
                            idss: seq<seq<string>>, w: map<string, State>, m: nat)
    decreases |cs|
  {
    && |idss| == |cs|
    && if cs == [] then w == v && m == n
       else
         var rs := Requests(md5, scan, cs[0], v);
         && |idss[0]| == |rs| && Issued(v, rs, idss[0], n)
         && CallsLead(md5, scan, cs[1..], ServeAll(v, rs, idss[0]), CountAll(v, rs, idss[0], n), idss[1..], w, m)
  }

  lemma FirstCallThenOthers(md5: Digest, scan: Scanner, cs: seq<Call>, v: map<string, State>, n: nat,
                            ids: seq<string>, x: map<string, State>, k: nat, idss: seq<seq<string>>,
                            w: map<string, State>, m: nat)
    requires cs != [] && Leads(v, n, Requests(md5, scan, cs[0], v), ids, x, k)
    requires CallsLead(md5, scan, cs[1..], x, k, idss, w, m)
    ensures CallsLead(md5, scan, cs, v, n, [ids] + idss, w, m)
  {
    assert ([ids] + idss)[1..] == idss;
  }

  function TakesAll(cs: seq<Call>): nat {
    if cs == [] then 0 else Takes(cs[0]) + TakesAll(cs[1..])
  }

  /** After the first call there is room for the others. */
  lemma RoomAfterFirst(md5: Digest, scan: Scanner, cs: seq<Call>, v: map<string, State>, n: nat, ids: seq<string>,
                       x: map<string, State>, k: nat)
    requires cs != [] && Leads(v, n, Requests(md5, scan, cs[0], v), ids, x, k)
    ensures k + TakesAll(cs[1..]) <= n + TakesAll(cs)
  {
    CountMost(v, Requests(md5, scan, cs[0], v), ids, n);
  }

  /** Calls keep the buckets good. */
  lemma {:induction false} CallsKeepGood(md5: Digest, scan: Scanner, cs: seq<Call>, v: map<string, State>, n: nat,
                                         idss: seq<seq<string>>, w: map<string, State>, m: nat)
    requires CallsLead(md5, scan, cs, v, n, idss, w, m) && Good(v, n) && n + TakesAll(cs) < COUNTER_LIMIT
    ensures Good(w, m) && m <= n + TakesAll(cs)
    decreases |cs|
  {
    if cs != [] {
      var rs := Requests(md5, scan, cs[0], v);
      RunsKeepInv(v, n, rs, idss[0]);
      CallsKeepGood(md5, scan, cs[1..], ServeAll(v, rs, idss[0]), CountAll(v, rs, idss[0], n), idss[1..], w, m);
    }
  }

  // ---- what one call comes to ----

  lemma {:induction false} CountMost(v: map<string, State>, rs: seq<Request>, ids: seq<string>, n: nat)
    requires |rs| == |ids|
    ensures CountAll(v, rs, ids, n) <= n + |rs|
    decreases |rs|
  {
    if rs != [] {
      CountMost(Serve(v, rs[0], ids[0]), rs[1..], ids[1..], CountAfter(n, ServeMints(v, rs[0])));
    }
  }

  lemma DeleteLeads(v: map<string, State>, n: nat, bucket: string, name: string, id: string, w: map<string, State>,
                    m: nat, r: Result<DeleteResult>)
    requires (w, r) == Deletes(v, bucket, name, id)
    requires var minted := r.Ok? && r.value.isDeleteMarker; m == CountAfter(n, minted) && (minted ==> IsIdNumber(id, m))
    ensures Leads(v, n, [InBucket(bucket, RemoveEvent(name))], [id], w, m)
  {
    OneLeads(v, n, InBucket(bucket, RemoveEvent(name)), id);
  }

  lemma DeleteVersionLeads(v: map<string, State>, n: nat, bucket: string, name: string, id: string)
    ensures Leads(v, n, [InBucket(bucket, RemoveVersionEvent(name, id))], [""],
                  DeletesVersion(v, bucket, name, id).0, n)
  {
    OneLeads(v, n, InBucket(bucket, RemoveVersionEvent(name, id)), "");
  }

  /** A body is put if it may be stored, and else nothing is served. */
  lemma PutLeads(v: map<string, State>, n: nat, bucket: string, name: string, body: Result<Bytes>, md5: Digest,
                 id: string, w: map<string, State>, m: nat, ok: bool)
    returns (ids: seq<string>)
    requires ok == (body.Ok? && Stores(v, bucket, name, body.value, md5, id).1.Ok?)
    requires w == if ok then Stores(v, bucket, name, body.value, md5, id).0 else v
    requires m == CountAfter(n, ok) && (ok ==> IsIdNumber(id, m))
    ensures Leads(v, n, PutIfStored(v, bucket, name, body, md5), ids, w, m)
    ensures ok <==> PutIfStored(v, bucket, name, body, md5) != []
  {
    if ok {
      StoringIsServing(v, bucket, name, body.value, md5, id);
      OneLeads(v, n, PutOf(bucket, name, body.value, md5), id);
      ids := [id];
    } else {
      NoneLeads(v, n);
      ids := [];
    }
  }

  lemma {:induction false} CountDeletedMost(s: State, os: seq<ObjectID>, ids: seq<string>, n: nat)
    requires |os| == |ids|
    ensures CountDeleted(s, os, ids, n) <= n + |os|
    decreases |os|
  {
    if os != [] {
      CountDeletedMost(s, os[..|os| - 1], ids[..|os| - 1], n);
    }
  }
}
