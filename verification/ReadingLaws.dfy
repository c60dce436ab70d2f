/** What listings and reads say of the same bucket. */
module ReadingLaws {
  import opened Basics
  import opened Order
  import opened Prefixes
  import opened BucketModel
  import opened Listing
  import opened ListingWalks
  import opened Backends
  import opened Ranges

  // ---- a listing shows what can be read ----

  /** A content shows an object that can be read. */
  predicate ShowsRead(s: State, c: Content) {
    var r := GetCurrent(s, c.key, None);
    r.Ok? && r.value.name == c.key && c.size == |r.value.contents| && c.hash == r.value.hash
  }

  ghost predicate IsListed(s: State, p: Prefix, i: nat, c: Content) {
    i < |s.objects.keys| && Kinds(s, p)[i].Item? && DataAt(s, i).Some? && c == ContentOf(DataAt(s, i).value)
  }

  lemma {:induction false} ListedAre(s: State, p: Prefix, h: nat, c: Content)
    requires h <= |s.objects.keys|
    ensures c in Contents(s, Kinds(s, p), 0, h) <==> exists i :: 0 <= i < h && IsListed(s, p, i, c)
  {
    var ks := Kinds(s, p);
    if h > 0 {
      ListedAre(s, p, h - 1, c);
      if IsListed(s, p, h - 1, c) { assert 0 <= h - 1 < h; }
    }
  }

  /** Reading a key, by its position. */
  lemma ReadAt(s: State, i: nat)
    requires Listable(s) && i < |s.objects.keys|
    ensures DataAt(s, i).Some?
    ensures var (key, d) := (s.objects.keys[i], DataAt(s, i).value);
      && d.name == key && key in s.objects.at
      && (GetCurrent(s, key, None).Ok? <==> !d.deleteMarker)
      && (!d.deleteMarker ==>
            var o := GetCurrent(s, key, None).value;
            o.name == key && o.contents == d.body && o.hash == d.hash)
  {
    ListableData(s, i);
    assert s.objects.keys[i] in s.objects.keys;
  }

  lemma ListedAt(s: State, p: Prefix, i: nat, c: Content)
    requires Listable(s) && i < |s.objects.keys|
    ensures IsListed(s, p, i, c) <==> s.objects.keys[i] == c.key && MatchesAsKey(p, c.key) && ShowsRead(s, c)
  {
    ReadAt(s, i);
  }

  lemma ReadIsKey(s: State, key: string) returns (i: nat)
    requires Listable(s) && GetCurrent(s, key, None).Ok?
    ensures i < |s.objects.keys| && s.objects.keys[i] == key
  {
    assert key in s.objects.keys;
    i :| 0 <= i < |s.objects.keys| && s.objects.keys[i] == key;
  }

  /** When every object has a current version, the listing for a prefix holds exactly the
      keys that match as themselves and can be read, each with the size and the hash of
      what reading returns. */
  lemma ListingIsWhatReads(s: State, p: Prefix, c: Content)
    requires Listable(s)
    ensures c in ListPage(s, p, "", 0).contents <==> MatchesAsKey(p, c.key) && ShowsRead(s, c)
  {
    UnpagedList(s, p);
    ListedAre(s, p, |s.objects.keys|, c);
    if ShowsRead(s, c) && MatchesAsKey(p, c.key) {
      var i := ReadIsKey(s, c.key);
      ListedAt(s, p, i, c);
    }
    if i :| 0 <= i < |s.objects.keys| && IsListed(s, p, i, c) {
      ListedAt(s, p, i, c);
    }
  }

  /** Its common prefixes, but for the empty one, are those of the keys that can be read. */
  lemma PrefixesAreWhatReads(s: State, p: Prefix, q: string)
    requires Listable(s) && q != ""
    ensures q in ListPage(s, p, "", 0).commonPrefixes <==>
      exists key :: GetCurrent(s, key, None).Ok? && MatchesAsPart(p, key, q)
  {
    var ks := Kinds(s, p);
    UnpagedList(s, p);
    PartsAreRolled(ks, 0, |ks|, q);
    if key :| GetCurrent(s, key, None).Ok? && MatchesAsPart(p, key, q) {
      var i := ReadIsKey(s, key);
      ReadAt(s, i);
      assert ks[i] == Roll(q);
    }
    if i :| 0 <= i < |ks| && ks[i] == Roll(q) {
      ReadAt(s, i);
      assert GetCurrent(s, s.objects.keys[i], None).Ok? && MatchesAsPart(p, s.objects.keys[i], q);
    }
  }

  // ---- deleting hides ----

  lemma {:induction false} ContentsHave(s: State, ks: seq<Kind>, lo: nat, hi: nat, c: Content) returns (i: nat)
    requires lo <= hi <= |ks| && c in Contents(s, ks, lo, hi)
    ensures lo <= i < hi && ks[i].Item? && DataAt(s, i).Some? && c == ContentOf(DataAt(s, i).value)
  {
    if ks[hi - 1].Item? && DataAt(s, hi - 1).Some? && c == ContentOf(DataAt(s, hi - 1).value) {
      i := hi - 1;
    } else {
      i := ContentsHave(s, ks, lo, hi - 1, c);
    }
  }

  /** No page lists a key whose current version is a delete marker. */
  lemma MarkerNotListed(s: State, p: Prefix, marker: string, max: int, c: Content)
    requires StateOK(s) && c in ListPage(s, p, marker, max).contents
    ensures Current(s, c.key) != Err(NoSuchKey)
  {
    var ks, lo := Kinds(s, p), Above(s.objects.keys, marker);
    var i := ContentsHave(s, ks, lo, PageEnd(ks, lo, lo, max), c);
    assert s.objects.keys[i] in s.objects.keys;
  }

  /** After a DELETE on a versioned bucket the key cannot be read and is on no page, and
      everything that could be read by its id still can. */
  lemma DeletedIsHidden(s: State, name: string, id: string, r: Option<RangeRequest>)
    requires StateOK(s) && s.versioning == Enabled && name in s.objects.at
    requires id != "" && forall v :: v in VersionsOf(s, name) ==> Less(v, id)
    ensures var s' := Remove(s, name, id).0;
      && GetCurrent(s', name, r) == Err(NoSuchKey)
      && (forall p, marker, max, c :: c in ListPage(s', p, marker, max).contents ==> c.key != name)
      && (forall v :: v in VersionsOf(s, name) && v != "" ==> GetVersion(s', name, v, r) == GetVersion(s, name, v, r))
      && GetVersion(s', name, id, None) == Ok(Object(name, 0, [], [], id, true))
  {
    var s' := Remove(s, name, id).0;
    MarkerHides(s, name, id);
    RemoveEffect(s, name, id);
    forall p, marker, max, c | c in ListPage(s', p, marker, max).contents
      ensures c.key != name
    {
      MarkerNotListed(s', p, marker, max, c);
    }
  }

  // ---- reading is of the newest version ----

  /** The newest version of a key. */
  ghost predicate Newest(s: State, name: string, id: string) {
    id in VersionsOf(s, name) && forall v :: v in VersionsOf(s, name) ==> v == id || Less(v, id)
  }

  /** When every object has a current version: a key without versions cannot be read, and
      of any other the newest version is, unless it is a delete marker. */
  lemma ReadsTheNewest(s: State, name: string)
    requires Listable(s)
    ensures VersionsOf(s, name) == map[] ==> GetCurrent(s, name, None) == Err(NoSuchKey)
    ensures VersionsOf(s, name) != map[] ==> exists id :: Newest(s, name, id)
    ensures forall id :: Newest(s, name, id) ==>
      var d := VersionsOf(s, name)[id];
      if d.deleteMarker then GetCurrent(s, name, None) == Err(NoSuchKey)
      else
        GetCurrent(s, name, None) ==
        Ok(Object(name, |d.body|, d.hash, d.body, if s.versioning == Enabled then id else "", false))
  {
    if name in s.objects.at {
      var d := s.objects.at[name].data.value;
      assert Newest(s, name, d.versionID);
      forall id | Newest(s, name, id)
        ensures id == d.versionID
      {
        if id != d.versionID {
          LessAsymmetric(id, d.versionID);
        }
      }
      assert d.body[0..|d.body|] == d.body;
    } else {
      EmptyIndex(NO_OBJECT.archive);
    }
  }

  // ---- ranges of what can be read ----

  /** What a range of an object comes to, for requests that a header can make. */
  lemma RangedReadsExactly(s: State, name: string, r: RangeRequest)
    requires FromHeader(r) && GetCurrent(s, name, None).Ok? && |GetCurrent(s, name, None).value.contents| <= MAX64
    ensures var o := GetCurrent(s, name, None).value;
      GetCurrent(s, name, Some(r)) ==
      if !r.fromEnd && r.end == MAX64 && r.start < |o.contents| then Err(if r.start == 0 then InvalidRange else Panic)
      else match Selected(r, |o.contents|)
        case None => Err(InvalidRange)
        case Some((a, b)) => Ok(o.(contents := o.contents[a..b]))
  {
    RequestsRightExactly(r, GetCurrent(s, name, None).value.contents);
  }
}
