/** The listing loop over a bucket, ListBucket, and what the loop over its versions shares. */
module BucketListings {
  import opened Basics
  import opened SortedIndex
  import opened Prefixes
  import opened BucketModel
  import opened Buckets
  import opened Listing

  /** A result under construction, and the prefixes it already has. */
  class Results<T(0)> {
    var items: seq<T>
    var commonPrefixes: seq<string>
    // absent until the first prefix is added
    var prefixes: Option<set<string>>

    constructor ()
      ensures Valid() && items == [] && commonPrefixes == []
    {
      items, commonPrefixes, prefixes := [], [], None;
    }

    ghost predicate Valid()
      reads this
    {
      forall q :: q in commonPrefixes <==> prefixes.Some? && q in prefixes.value
    }

    method Add(item: T)
      requires Valid()
      modifies `items
      ensures Valid() && items == old(items) + [item]
    {
      items := items + [item];
    }

    /** Each prefix is added once. */
    method AddPrefix(prefix: string)
      requires Valid()
      modifies `commonPrefixes, `prefixes
      ensures Valid() && commonPrefixes == Listing.AddPrefix(old(commonPrefixes), prefix)
    {
      if prefixes.None? {
        prefixes := Some({});
      } else if prefix in prefixes.value {
        return;
      }
      prefixes := Some(prefixes.value + {prefix});
      commonPrefixes := commonPrefixes + [prefix];
    }
  }

  /** What the loop over a page has gathered. */
  datatype Progress = Progress(contents: seq<Content>, parts: seq<string>, cnt: nat, last: string)

  /** One more object, of kind `k`. */
  function Gather(pr: Progress, k: Kind, d: Data): Progress {
    match k
    case Skip => pr
    case Item => pr.(contents := pr.contents + [ContentOf(d)], cnt := pr.cnt + 1)
    case Roll(part) =>
      if part == pr.last then pr
      else pr.(parts := Listing.AddPrefix(pr.parts, part), cnt := pr.cnt + 1, last := part)
  }

  /** What the loop has gathered before key `h` of a page that goes on at least to `h`,
      over objects that all have a current version. */
  ghost function PageSoFar(s: State, p: Prefix, marker: string, max: int, h: nat): Option<Progress> {
    var (ks, lo) := (Kinds(s, p), Above(s.objects.keys, marker));
    if && lo <= h <= |ks| && PageEnd(ks, lo, lo, max) == PageEnd(ks, lo, h, max)
       && (forall i :: lo <= i < h ==> DataAt(s, i).Some?)
    then Some(Progress(Contents(s, ks, lo, h), Parts(ks, lo, h), Count(ks, lo, h), LastPart(ks, lo, h)))
    else None
  }

  lemma PageStarts(s: State, p: Prefix, marker: string, max: int)
    ensures PageSoFar(s, p, marker, max, Above(s.objects.keys, marker)) == Some(Progress([], [], 0, ""))
  {
  }

  lemma PageStep(s: State, p: Prefix, marker: string, max: int, h: nat, pr: Progress, d: Data)
    requires PageSoFar(s, p, marker, max, h) == Some(pr) && h < |s.objects.keys| && DataAt(s, h) == Some(d) &&
      (max <= 0 || pr.cnt < max)
    ensures PageSoFar(s, p, marker, max, h + 1) == Some(Gather(pr, DataKind(p, d), d))
  {
    var ks, lo, pr' := Kinds(s, p), Above(s.objects.keys, marker), Gather(pr, DataKind(p, d), d);
    assert ks[h] == DataKind(p, d);
    assert PageEnd(ks, lo, h, max) == PageEnd(ks, lo, h + 1, max);
    assert Parts(ks, lo, h + 1) == pr'.parts;
    assert Contents(s, ks, lo, h + 1) == pr'.contents;
    assert Count(ks, lo, h + 1) == pr'.cnt;
    assert LastPart(ks, lo, h + 1) == pr'.last;
  }

  /** What a listing returns: it panics at an object without a current version. */
  ghost function PageResult(s: State, p: Prefix, marker: string, max: int): Result<ObjectList> {
    if PageVisitsCurrent(s, p, marker, max) then Ok(ListPage(s, p, marker, max)) else Err(Panic)
  }

  /** A page is complete when no key is left ... */
  lemma PageExhausted(s: State, p: Prefix, marker: string, max: int, pr: Progress)
    requires PageSoFar(s, p, marker, max, |s.objects.keys|) == Some(pr) && (max <= 0 || pr.cnt < max)
    ensures PageResult(s, p, marker, max) == Ok(ObjectList(pr.contents, pr.parts, false, ""))
  {
  }

  /** ... or when it is full, after the object at `h`. */
  lemma PageFull(s: State, p: Prefix, marker: string, max: int, h: nat, pr: Progress, d: Data, more: bool)
    requires DataAt(s, h) == Some(d) && more == (h + 1 < |s.objects.keys|)
    requires PageSoFar(s, p, marker, max, h + 1) == Some(pr) && 0 < max <= pr.cnt
    ensures PageResult(s, p, marker, max) == Ok(ObjectList(pr.contents, pr.parts, more, d.name))
  {
  }

  /** An object without a current version that the loop reaches is one the page visits. */
  lemma PagePanics(s: State, p: Prefix, marker: string, h: nat, max: int, pr: Progress)
    requires PageSoFar(s, p, marker, max, h) == Some(pr)
    requires h < |s.objects.keys| && DataAt(s, h).None? && (max <= 0 || pr.cnt < max)
    ensures PageResult(s, p, marker, max) == Err(Panic)
  {
  }

  /** Puts the iterator just above a marker. */
  method SeekPast<V>(iter: Iterator<V>, marker: string)
    requires iter.Valid() && iter.Ahead() == 0 && iter.inner.pos == -1
    modifies iter, iter.inner
    ensures iter.Valid() && iter.Ahead() == Above(iter.inner.list.keys, marker)
  {
    if marker != "" {
      var ok := iter.Seek(marker);
      if iter.Key() == Some(marker) {
        ok := iter.Next();
      }
    }
  }

  /** One key of a bucket as its listings meet it. */
  lemma BucketData(b: Bucket, i: nat)
    requires b.Valid() && Sorted(b.objects) && i < |b.objects.keys|
    ensures var (s, key) := (b.View(), b.objects.keys[i]);
      key in b.objects.at && ObjectAt(s, s.objects.keys[i]) == b.objects.at[key].Contents() &&
        b.objects.at[key].name == key
  {
    assert b.objects.keys[i] in b.objects.keys;
  }

  /** What a well-formed bucket holds. */
  ghost function Shown(b: Bucket): Option<State>
    reads b, b.objects.at.Values
  {
    if b.Valid() && Sorted(b.objects) then Some(b.View()) else None
  }

  /** The position of an iterator over a bucket's objects. */
  ghost function Over(b: Bucket, iter: Iterator<BucketObject>): Option<int>
    reads b, iter, iter.inner
  {
    if iter.Valid() && iter.inner.list == b.objects then Some(iter.Ahead()) else None
  }

  /** Moves to the next object, the one at `h`. */
  method NextIn(b: Bucket, iter: Iterator<BucketObject>, ghost s: State, ghost h: nat)
    returns (item: Option<BucketObject>)
    requires Shown(b) == Some(s) && Over(b, iter) == Some(h)
    modifies iter, iter.inner
    ensures item.Some? == (h < |s.objects.keys|) && Shown(b) == Some(s) && !iter.didSeek
    ensures Over(b, iter) == Some(if item.Some? then h + 1 else old(iter.inner.pos) + 1)
    ensures item.Some? ==> IsObject(item.value, s, h) && IsIn(item.value, b)
  {
    var more := iter.Next();
    if !more { return None; }
    BucketData(b, h);
    item := Some(iter.Value());
  }

  method NextObject(b: Bucket, iter: Iterator<BucketObject>, ghost s: State, ghost h: nat)
    returns (item: Option<BucketObject>)
    requires Shown(b) == Some(s) && Over(b, iter) == Some(h)
    modifies iter, iter.inner
    ensures item.Some? == (h < |s.objects.keys|) && Shown(b) == Some(s)
    ensures item.Some? ==> Over(b, iter) == Some(h + 1) && IsObject(item.value, s, h)
  {
    item := NextIn(b, iter, s, h);
  }

  ghost predicate IsIn(o: BucketObject, b: Bucket)
    reads b
  {
    o.name in b.objects.at && b.objects.at[o.name] == o
  }

  ghost predicate IsObject(o: BucketObject, s: State, h: nat)
    reads o
  {
    h < |s.objects.keys| && o.name == s.objects.keys[h] && o.Contents() == ObjectAt(s, o.name)
  }

  /** Adds an object to the page under construction; `cnt` goes up if it counts. */
  method AddObject(ghost b: Bucket, response: Results<Content>, p: Prefix, d: Data, cnt: nat, lastMatchedPart: string,
                   ghost s: State)
    returns (cnt': nat, last: string)
    requires response.Valid() && Shown(b) == Some(s)
    modifies response
    ensures response.Valid() && Shown(b) == Some(s)
    ensures Progress(response.items, response.commonPrefixes, cnt', last)
            == Gather(Progress(old(response.items), old(response.commonPrefixes), cnt, lastMatchedPart),
                      DataKind(p, d), d)
  {
    var m := Match(p, d.name);
    if m.None? || d.deleteMarker {
      cnt', last := cnt, lastMatchedPart;
    } else {
      cnt', last := AddMatch(response, m.value, d, cnt, lastMatchedPart);
    }
  }

  method AddMatch(response: Results<Content>, m: PrefixMatch, d: Data, cnt: nat, lastMatchedPart: string)
    returns (cnt': nat, last: string)
    requires response.Valid()
    modifies response
    ensures response.Valid()
    ensures Progress(response.items, response.commonPrefixes, cnt', last)
            == Gather(Progress(old(response.items), old(response.commonPrefixes), cnt, lastMatchedPart),
                      if m.commonPrefix then Roll(m.matchedPart) else Item, d)
  {
    cnt', last := cnt, lastMatchedPart;
    if m.commonPrefix {
      if m.matchedPart == lastMatchedPart { return; }
      response.AddPrefix(m.matchedPart);
      last := m.matchedPart;
    } else {
      response.Add(ContentOf(d));
    }
    cnt' := cnt + 1;
  }

  /** The listing loop, wherever it stands. */
  datatype PageLoop = PageLoop(s: State, p: Prefix, marker: string, max: int, b: Bucket, iter: Iterator<BucketObject>,
                               response: Results<Content>)
  {
    /** It stands before the object at `h`, the page not yet full, with these in its variables. */
    ghost predicate At(h: nat, cnt: nat, lastMatchedPart: string)
      reads b, b.objects.at.Values, iter, iter.inner, response
    {
      && Shown(b) == Some(s) && Over(b, iter) == Some(h) && response.Valid() && (max <= 0 || cnt < max)
      && PageSoFar(s, p, marker, max, h) ==
        Some(Progress(response.items, response.commonPrefixes, cnt, lastMatchedPart))
    }
  }

  method StartPage(b: Bucket, p: Prefix, marker: string, ghost max: int)
    returns (iter: Iterator<BucketObject>, response: Results<Content>, ghost lp: PageLoop)
    requires Shown(b).Some?
    ensures fresh(iter) && fresh(iter.inner) && fresh(response)
    ensures lp == PageLoop(b.View(), p, marker, max, b, iter, response)
    ensures lp.At(Above(lp.s.objects.keys, marker), 0, "")
  {
    response := new Results<Content>();
    iter := new Iterator(b.objects);
    SeekPast(iter, marker);
    lp := PageLoop(b.View(), p, marker, max, b, iter, response);
    PageStarts(lp.s, p, marker, max);
  }

  /** One turn of the loop. */
  method Turn(b: Bucket, iter: Iterator<BucketObject>, response: Results<Content>, p: Prefix, max: int, cnt: nat,
              lastMatchedPart: string, ghost lp: PageLoop, ghost h: nat)
    returns (r: Option<Result<ObjectList>>, cnt': nat, last: string)
    requires lp == PageLoop(lp.s, p, lp.marker, max, b, iter, response) && lp.At(h, cnt, lastMatchedPart)
    modifies iter, iter.inner, response
    ensures r.None? ==> h < |lp.s.objects.keys| && lp.At(h + 1, cnt', last)
    ensures r.Some? ==> r.value == PageResult(lp.s, p, lp.marker, max)
  {
    cnt', last := cnt, lastMatchedPart;
    ghost var s, marker, pr := lp.s, lp.marker, Progress(response.items, response.commonPrefixes, cnt, lastMatchedPart);
    var item := NextObject(b, iter, s, h);
    if item.None? {
      PageExhausted(s, p, marker, max, pr);
      return Some(Ok(ObjectList(response.items, response.commonPrefixes, false, ""))), cnt', last;
    } else if item.value.data.None? {
      PagePanics(s, p, marker, h, max, pr);
      return Some(Err(Panic)), cnt', last;
    }
    var d := item.value.data.value;
    PageStep(s, p, marker, max, h, pr, d);
    cnt', last := AddObject(b, response, p, d, cnt, lastMatchedPart, s);
    if max > 0 && cnt' >= max {
      var next := NextObject(b, iter, s, h + 1);
      PageFull(s, p, marker, max, h, Gather(pr, DataKind(p, d), d), d, next.Some?);
      return Some(Ok(ObjectList(response.items, response.commonPrefixes, next.Some?, d.name))), cnt', last;
    }
    r := None;
  }

  /** A page of a bucket's objects, or a panic at an object without a current version. */
  method ListBucket(b: Bucket, p: Prefix, marker: string, max: int) returns (r: Result<ObjectList>)
    requires Shown(b).Some?
    ensures r == PageResult(b.View(), p, marker, max)
  {
    var iter, response, lp := StartPage(b, p, marker, max);
    ghost var h := Above(lp.s.objects.keys, marker);
    var cnt: nat, lastMatchedPart, done := 0, "", None;
    while done.None?
      invariant fresh(iter) && fresh(iter.inner) && fresh(response) && h <= |lp.s.objects.keys|
      invariant if done.None? then lp.At(h, cnt, lastMatchedPart) else done.value == PageResult(lp.s, p, marker, max)
      decreases |lp.s.objects.keys| - h, done.None?
    {
      done, cnt, lastMatchedPart := Turn(b, iter, response, p, max, cnt, lastMatchedPart, lp, h);
      h := if done.None? then h + 1 else h;
    }
    r := done.value;
  }
}
