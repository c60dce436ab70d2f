/** Uploads in progress for which a marker leads to a wrong page, or a prefix is lost. */
module UploadWitnesses {
  import opened Basics
  import opened Order
  import opened SortedIndex
  import opened Encodings
  import opened Prefixes
  import opened Listing
  import opened VersionListing
  import opened UploadIndex
  import opened UploadListing
  import opened UploadPages
  import opened UploadMarkers

  /** Two uploads of a bucket, the first of its life. */
  ghost predicate FirstTwo(u: MultipartUpload, w: MultipartUpload, bucket: string, j: string, k: string) {
    && u.number == 1 && u.id == Decimal(1) && u.bucket == bucket && u.key == j
    && w.number == 2 && w.id == Decimal(2) && w.bucket == bucket && w.key == k
  }

  function TwoUploads(u: MultipartUpload, w: MultipartUpload): Uploads {
    Added(Added(NO_UPLOADS, u), w)
  }

  lemma TwoKeys<V>(j: string, k: string, v: V, w: V)
    requires Less(j, k)
    ensures Set(Set(Empty(), j, v), k, w) == Index([j, k], map[j := v, k := w])
  {
    LessAsymmetric(j, k);
    LessIrreflexive(j);
    assert Rank([], j) == 0 && Rank([j], k) == 1;
  }

  lemma TwoAre(u: MultipartUpload, w: MultipartUpload, bucket: string, j: string, k: string)
    requires FirstTwo(u, w, bucket, j, k) && Less(j, k)
    ensures TwoUploads(u, w) == Uploads(map[u.id := u, w.id := w], Index([j, k], map[j := [u], k := [w]]))
  {
    LessIrreflexive(j);
    assert [] + [u] == [u] && [] + [w] == [w];
    TwoKeys(j, k, [u], [w]);
  }

  lemma TwoAgree(u: MultipartUpload, w: MultipartUpload, bucket: string, j: string, k: string)
    requires FirstTwo(u, w, bucket, j, k) && Less(j, k)
    ensures var x := TwoUploads(u, w);
      && Agree(x, bucket, 2) && x.index.keys == [j, k] && x.byId == map[u.id := u, w.id := w]
      && x.index.at == map[j := [u], k := [w]] && u.id != w.id
  {
    EmptyAgrees(bucket, 0);
    AddAgrees(NO_UPLOADS, bucket, 0, u);
    AddAgrees(Added(NO_UPLOADS, u), bucket, 1, w);
    TwoAre(u, w, bucket, j, k);
  }

  lemma PlainKind(k: string)
    ensures KeyKind(EMPTY_PREFIX, k) == Item
  {
  }

  /** With uploads of "a" and "b" in progress, the key marker "a" does not pass over the
      upload of "a" ... */
  lemma KeyMarkersMayFail(u: MultipartUpload, w: MultipartUpload, bucket: string, limit: int)
    requires FirstTwo(u, w, bucket, "a", "b")
    ensures !RightPage(TwoUploads(u, w), EMPTY_PREFIX, Marker("a", ""), limit)
  {
    var x := TwoUploads(u, w);
    assert Less("a", "b") && !Less("a", "a");
    TwoAgree(u, w, bucket, "a", "b");
    PlainKind("a");
    assert !AllBelow(x, "a") by { assert "a" in x.index.keys; }
    MarkersExactly(x, bucket, 2, EMPTY_PREFIX, Marker("a", ""), limit);
  }

  /** ... and the key marker "c" leads back to it. */
  lemma HighMarkersMayFail(u: MultipartUpload, w: MultipartUpload, bucket: string, limit: int)
    requires FirstTwo(u, w, bucket, "a", "b")
    ensures !RightPage(TwoUploads(u, w), EMPTY_PREFIX, Marker("c", ""), limit)
  {
    var x := TwoUploads(u, w);
    assert Less("a", "b") && Less("a", "c") && Less("b", "c");
    TwoAgree(u, w, bucket, "a", "b");
    PlainKind("a");
    assert AllBelow(x, "c");
    ListedAreLive(x, bucket, 2, EMPTY_PREFIX, EntryOf(u));
    MarkersExactly(x, bucket, 2, EMPTY_PREFIX, Marker("c", ""), limit);
  }

  /** Once the upload of "a" is over, its marker leads to an empty page that is not
      truncated, although the upload of "b" is still to come. */
  lemma GoneMarkersMayFail(u: MultipartUpload, w: MultipartUpload, bucket: string, limit: int)
    requires FirstTwo(u, w, bucket, "a", "b")
    ensures u.id in TwoUploads(u, w).byId
    ensures var y := Removed(TwoUploads(u, w), u.id);
      && UploadListing.ListUploads(y, Some(Marker("a", u.id)), EMPTY_PREFIX, limit) == UploadList([], [], false, None)
      && EntryOf(w) in AllListed(y, EMPTY_PREFIX) && !RightPage(y, EMPTY_PREFIX, Marker("a", u.id), limit)
  {
    var x := TwoUploads(u, w);
    assert Less("a", "b");
    TwoAgree(u, w, bucket, "a", "b");
    RemoveExact(x, bucket, 2, u.id);
    var y := Removed(x, u.id);
    var m := Marker("a", u.id);
    PlainKind("b");
    assert w.id in y.byId && y.byId[w.id] == w;
    ListedAreLive(y, bucket, 2, EMPTY_PREFIX, EntryOf(w));
    assert UploadOK(y, bucket, 2, w.id) && "b" in y.index.keys;
    assert Less("a", "b") && !Less("b", "a");
    AboveIs(y, "a");
    assert !PassedOver(EntryOf(w), m);
    MarkersExactly(y, bucket, 2, EMPTY_PREFIX, m, limit);
    LocateLost(y, bucket, 2, EMPTY_PREFIX, m);
  }

  lemma BySlash()
    ensures KeyKind(BY_SLASH, "a") == Item && KeyKind(BY_SLASH, "b/x") == Roll("b/")
  {
    MatchIsOnePass(BY_SLASH, "a");
    MatchIsOnePass(BY_SLASH, "b/x");
    assert NextDelimiter("a", '/', 0) == 1 && NextDelimiter("b/x", '/', 0) == 1 && "b/x"[..2] == "b/";
  }

  lemma OneBefore(ks: seq<Kind>, ss: seq<seq<Entry>>, q: string)
    requires ks == [Item, Roll(q)] && |ss| == 2 && |ss[0]| == 1
    ensures UploadPages.Counts(ks, ss, q) == {1}
  {
    assert Flat(ks, ss, 1) == Flat(ks, ss, 0) + ss[0];
    assert ks[1] == Roll(q) && ks[0] != Roll(q);
  }

  /** A prefix rolled up after one upload is lost from pages of one upload. */
  lemma LostAfterOne(x: Uploads, bucket: string, j: string, k: string, p: Prefix, q: string)
    requires Agree(x, bucket, 2) && x.index.keys == [j, k] && |SliceAt(x, j)| == 1
    requires KeyKind(p, j) == Item && KeyKind(p, k) == Roll(q)
    ensures !SomePageRolls(PagesOf(x, p, 1), q)
  {
    var ks, ss := UploadKinds(x, p), AllEntries(x);
    assert ks == [Item, Roll(q)];
    OneBefore(ks, ss, q);
    OnlyOne(UploadPages.Counts(ks, ss, q));
    PagesGivePrefixesExactly(x, bucket, 2, p, 1, q);
  }

  lemma OnlyOne(cs: set<nat>)
    requires cs == {1}
    ensures !exists c :: c in cs && (c == 0 || c % 1 != 0)
  {
  }

  /** With uploads of "a" and "b/x" in progress, pages of one upload, divided by "/", lack
      the common prefix "b/". */
  lemma PrefixesMayBeLost(u: MultipartUpload, w: MultipartUpload, bucket: string)
    requires FirstTwo(u, w, bucket, "a", "b/x")
    ensures KeyKind(BY_SLASH, "b/x") == Roll("b/") && !SomePageRolls(PagesOf(TwoUploads(u, w), BY_SLASH, 1), "b/")
  {
    BySlash();
    assert Less("a", "b/x");
    TwoAgree(u, w, bucket, "a", "b/x");
    LostAfterOne(TwoUploads(u, w), bucket, "a", "b/x", BY_SLASH, "b/");
  }
}
