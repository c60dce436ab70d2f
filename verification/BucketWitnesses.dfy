/** Short runs at which the failures happen that the laws of buckets and of their listings
    exclude. */
module BucketWitnesses {
  import opened Basics
  import opened Order
  import opened SortedIndex
  import opened Prefixes
  import opened BucketModel
  import opened Listing
  import opened ListingWalks
  import opened ListingLaws

  lemma RunCons(s: State, e: Event, es: seq<Event>, id: string, ids: seq<string>)
    requires |es| == |ids|
    ensures Run(s, [e] + es, [id] + ids) == Run(Step(s, e, id), es, ids)
  {
    assert ([e] + es)[1..] == es && ([id] + ids)[1..] == ids;
  }

  function PutOf(name: string): Event {
    PutEvent(name, [], [])
  }

  function DataOf(name: string, id: string): Data {
    Data(name, id, false, [], [])
  }

  // ---- versions ----

  /** A bucket with versioning enabled and two versions of one object. */
  function TwoVersions(): State {
    State(Enabled, Index(["a"], map["a" := Obj(Some(DataOf("a", "3")), Index(["2"], map["2" := DataOf("a", "2")]))]))
  }

  const TWO_PUTS := [VersioningEvent(true), PutOf("a"), PutOf("a")]

  lemma TwoVersionsReached()
    ensures Run(NEW_BUCKET, TWO_PUTS, ["1", "2", "3"]) == TwoVersions()
  {
    RunCons(NEW_BUCKET, VersioningEvent(true), [PutOf("a"), PutOf("a")], "1", ["2", "3"]);
    var s := Step(NEW_BUCKET, VersioningEvent(true), "1");
    RunCons(s, PutOf("a"), [PutOf("a")], "2", ["3"]);
    var t := Step(s, PutOf("a"), "2");
    RunCons(t, PutOf("a"), [], "3", []);
    assert t == State(Enabled, Index(["a"], map["a" := Obj(Some(DataOf("a", "2")), Empty())]));
    assert Archived(Enabled, t.objects.at["a"]) == Index(["2"], map["2" := DataOf("a", "2")]);
    assert Step(t, PutOf("a"), "3") == TwoVersions();
  }

  /** After it is deleted by its id, the object has an archived version and no current
      one; so it is after a deletion once versioning is suspended. */
  lemma BeheadedRuns()
    ensures var s := Run(NEW_BUCKET, TWO_PUTS, ["1", "2", "3"]);
      && (var t := Step(s, RemoveVersionEvent("a", "3"), "4");
          Current(t, "a") == Err(Panic) && Lookup(t, "a", "2").Ok?)
      && (var t := Step(Step(s, VersioningEvent(false), "4"), RemoveEvent("a"), "5");
          Current(t, "a") == Err(Panic) && Lookup(t, "a", "2").Ok?)
  {
    TwoVersionsReached();
  }

  /** A put while versioning is suspended loses a version stored while it was enabled. */
  lemma SuspendedPutLoses()
    ensures var s := Step(Run(NEW_BUCKET, TWO_PUTS, ["1", "2", "3"]), VersioningEvent(false), "4");
      Lookup(s, "a", "3").Ok? && Lookup(Step(s, PutOf("a"), "5"), "a", "3") == Err(NoSuchVersion)
  {
    TwoVersionsReached();
  }

  // ---- listings of two keys ----

  function TwoKeys(a: string, b: string): State {
    State(Never, Index([a, b], map[a := Obj(Some(DataOf(a, "1")), Empty()), b := Obj(Some(DataOf(b, "2")), Empty())]))
  }

  lemma TwoKeysReached(a: string, b: string)
    requires Less(a, b)
    ensures Run(NEW_BUCKET, [PutOf(a), PutOf(b)], ["1", "2"]) == TwoKeys(a, b) && Listable(TwoKeys(a, b))
  {
    RunCons(NEW_BUCKET, PutOf(a), [PutOf(b)], "1", ["2"]);
    var s := Step(NEW_BUCKET, PutOf(a), "1");
    RunCons(s, PutOf(b), [], "2", []);
    LessAsymmetric(a, b);
    assert Rank([a], b) == 1;
    var ids := ["1", "2"];
    assert Less("1", "2");
    assert Ascending([""] + ids);
    ReachableStatesOK([PutOf(a), PutOf(b)], ids);
  }

  lemma TwoKinds(p: Prefix, a: string, b: string)
    requires a != b
    ensures Kinds(TwoKeys(a, b), p) == [DataKind(p, DataOf(a, "1")), DataKind(p, DataOf(b, "2"))]
  {
  }

  lemma SlashKinds()
    ensures DataKind(BY_SLASH, DataOf("!/a", "1")) == Roll("!/") && DataKind(BY_SLASH, DataOf("/", "2")) == Roll("")
  {
    MatchIsOnePass(BY_SLASH, "!/a");
    assert TrimLeft("!/a", "/") == "!/a" && NextDelimiter("!/a", '/', 0) == 1 && "!/a"[..2] == "!/";
    MatchIsOnePass(BY_SLASH, "/");
    assert "/"[1..] == "" && TrimLeft("/", "/") == "" && NextDelimiter("", '/', 0) == 0;
  }

  /** Listed one entry a page, the keys "!/a" and "/" lack the empty prefix that a single
      listing has. */
  lemma EmptyPrefixMayBeLost()
    ensures var s := Run(NEW_BUCKET, [PutOf("!/a"), PutOf("/")], ["1", "2"]);
      Listable(s) && !Stuck(s, BY_SLASH, 1) && !SamePrefixes(s, BY_SLASH, 1)
  {
    assert Less("!/a", "/");
    TwoKeysReached("!/a", "/");
    TwoKinds(BY_SLASH, "!/a", "/");
    SlashKinds();
    var s, ks := TwoKeys("!/a", "/"), [Roll("!/"), Roll("")];
    assert Kinds(s, BY_SLASH) == ks;
    CutInTwo(ks);
    EmptyPrefixExactly(s, BY_SLASH, 1);
  }

  lemma CutInTwo(ks: seq<Kind>)
    requires ks == [Roll("!/"), Roll("")]
    ensures EmptyAfterOther(ks, 0, 2) && !OnOnePage(ks, 0, 1)
  {
    assert OtherThenEmpty(ks[0], ks[1]);
    assert LastPart(ks, 0, 0) == "" && Count(ks, 0, 0) == 0 && Counts(ks, 0, 0) && Count(ks, 0, 1) == 1;
    assert PageEnd(ks, 0, 1, 1) == 1 == PageEnd(ks, 0, 0, 1);
    assert !EmptyAfterOther(ks, 0, 1) && !EmptyAfterOther(ks, 1, PageEnd(ks, 1, 1, 1));
    assert !OnOnePage(ks, 1, 1);
  }

  /** With the empty key first and one entry a page, the same page comes for ever. */
  lemma EmptyKeySticks()
    ensures var s := Run(NEW_BUCKET, [PutOf(""), PutOf("a")], ["1", "2"]);
      Listable(s) && Stuck(s, EMPTY_PREFIX, 1) && !WalkIsWhole(s, EMPTY_PREFIX, 1)
  {
    TwoKeysReached("", "a");
    TwoKinds(EMPTY_PREFIX, "", "a");
    PagesMakeTheListing(TwoKeys("", "a"), EMPTY_PREFIX, 1);
  }
}
