/** What a client collects that follows the markers of a bucket listing. */
module ListingWalks {
  import opened Order
  import opened SortedIndex
  import opened Prefixes
  import opened BucketModel
  import opened Listing
  import opened Joining

  // ---- the pages one after the other, by position ----

  /** The pages from position `lo` on, each beginning where the one before ends. */
  function PagesAt(s: State, ks: seq<Kind>, lo: nat, max: int): seq<ObjectList>
    requires lo <= |ks| && max > 0
    decreases |ks| - lo
  {
    var hi := PageEnd(ks, lo, lo, max);
    [PageFrom(s, ks, lo, max)] + if lo < hi < |ks| then PagesAt(s, ks, hi, max) else []
  }

  function AllContents(pages: seq<ObjectList>): seq<Content> {
    if pages == [] then [] else pages[0].contents + AllContents(pages[1..])
  }

  function PrefixesOf(page: ObjectList): seq<string> {
    page.commonPrefixes
  }

  ghost predicate SomePageRolls(pages: seq<ObjectList>, part: string) {
    SomeHas(pages, PrefixesOf, part)
  }

  lemma PageEnds(ks: seq<Kind>, lo: nat, max: int)
    requires lo <= |ks| && max > 0
    ensures var hi := PageEnd(ks, lo, lo, max);
      EndsAt(ks, lo, hi, max) && (hi < |ks| ==> lo < hi && Count(ks, lo, hi) >= max)
  {
    assert Count(ks, lo, lo) == 0;
  }

  /** What the pages from `lo` on must hold: the contents there once and in order, and
      the parts rolled up there; none over its limit or with a common prefix twice, all but
      the last truncated. */
  ghost predicate Collects(s: State, ks: seq<Kind>, lo: nat, max: int, pages: seq<ObjectList>) {
    && lo <= |ks| && pages != [] && AllContents(pages) == Contents(s, ks, lo, |ks|)
    && (forall q :: q != "" ==> (SomePageRolls(pages, q) <==> RolledIn(ks, lo, |ks|, q)))
    && (forall i :: 0 <= i < |pages| ==> PageOK(pages, i, max))
  }

  ghost predicate PageOK(pages: seq<ObjectList>, i: nat, max: int)
    requires i < |pages|
  {
    && |pages[i].contents| + |pages[i].commonPrefixes| <= max && EachOnce(pages[i].commonPrefixes)
    && (pages[i].isTruncated <==> i < |pages| - 1)
  }

  lemma {:induction false} PagesCollect(s: State, ks: seq<Kind>, lo: nat, max: int)
    requires lo <= |ks| && max > 0
    ensures Collects(s, ks, lo, max, PagesAt(s, ks, lo, max))
    decreases |ks| - lo
  {
    PageEnds(ks, lo, max);
    var hi := PageEnd(ks, lo, lo, max);
    if hi < |ks| {
      PagesCollect(s, ks, hi, max);
      OnePageMore(s, ks, lo, max, PagesAt(s, ks, hi, max));
    } else {
      LastPage(s, ks, lo, max);
      assert [PageFrom(s, ks, lo, max)] + [] == [PageFrom(s, ks, lo, max)];
    }
  }

  lemma OnePageMore(s: State, ks: seq<Kind>, lo: nat, max: int, rest: seq<ObjectList>)
    requires lo <= |ks| && max > 0
    requires var hi := PageEnd(ks, lo, lo, max); hi < |ks| && Collects(s, ks, hi, max, rest)
    ensures Collects(s, ks, lo, max, [PageFrom(s, ks, lo, max)] + rest)
  {
    PageEnds(ks, lo, max);
    var hi, page := PageEnd(ks, lo, lo, max), PageFrom(s, ks, lo, max);
    ContentsJoin(s, ks, lo, hi, |ks|);
    PageWithinLimit(s, ks, lo, hi, max);
    PartsDistinct(ks, lo, hi);
    FirstPageOK(page, rest, max);
    assert ([page] + rest)[1..] == rest;
    forall q | q != ""
      ensures SomePageRolls([page] + rest, q) <==> RolledIn(ks, lo, |ks|, q)
    {
      SomeHasFirst(page, rest, PrefixesOf, q);
      PartsAreRolled(ks, lo, hi, q);
      RolledSplit(ks, lo, hi, q);
    }
  }

  lemma FirstPageOK(page: ObjectList, rest: seq<ObjectList>, max: int)
    requires |page.contents| + |page.commonPrefixes| <= max && (page.isTruncated <==> rest != [])
    requires EachOnce(page.commonPrefixes)
    requires forall i :: 0 <= i < |rest| ==> PageOK(rest, i, max)
    ensures forall i :: 0 <= i < |[page] + rest| ==> PageOK([page] + rest, i, max)
  {
    forall i | 0 <= i < |[page] + rest|
      ensures PageOK([page] + rest, i, max)
    {
      if i > 0 {
        assert PageOK(rest, i - 1, max);
      }
    }
  }

  lemma RolledSplit(ks: seq<Kind>, lo: nat, hi: nat, q: string)
    requires lo <= hi <= |ks|
    ensures RolledIn(ks, lo, |ks|, q) <==> RolledIn(ks, lo, hi, q) || RolledIn(ks, hi, |ks|, q)
  {
  }

  lemma LastPage(s: State, ks: seq<Kind>, lo: nat, max: int)
    requires lo <= |ks| && max > 0 && PageEnd(ks, lo, lo, max) == |ks|
    ensures Collects(s, ks, lo, max, [PageFrom(s, ks, lo, max)])
  {
    PageEnds(ks, lo, max);
    var page := PageFrom(s, ks, lo, max);
    assert AllContents([page]) == page.contents + AllContents([]);
    PageWithinLimit(s, ks, lo, |ks|, max);
    PartsDistinct(ks, lo, |ks|);
    FirstPageOK(page, [], max);
    assert [page] + [] == [page];
    forall q | q != ""
      ensures SomePageRolls([page], q) <==> RolledIn(ks, lo, |ks|, q)
    {
      SomeHasOne(page, PrefixesOf, q);
      PartsAreRolled(ks, lo, |ks|, q);
    }
  }

  // ---- the marker of a page ----

  ghost predicate Listable(s: State) {
    StateOK(s) && AllCurrent(s)
  }

  lemma ListableData(s: State, i: nat)
    requires Listable(s) && i < |s.objects.keys|
    ensures DataAt(s, i).Some? && DataAt(s, i).value.name == s.objects.keys[i]
  {
    assert s.objects.keys[i] in s.objects.keys;
  }

  /** Where a page is cut, and the marker it names there. */
  lemma PageCut(s: State, ks: seq<Kind>, lo: nat, max: int)
    requires lo <= |ks| && max > 0
    ensures var (page, hi) := (PageFrom(s, ks, lo, max), PageEnd(ks, lo, lo, max));
      && EndsAt(ks, lo, hi, max) && page.isTruncated == (hi < |ks|)
      && (hi < |ks| ==> lo < hi && (DataAt(s, hi - 1).Some? ==> page.nextMarker == DataAt(s, hi - 1).value.name))
  {
    PageEnds(ks, lo, max);
  }

  /** A key as a marker leads to what follows it, but the empty key is no marker. */
  lemma AboveKey(keys: seq<string>, i: nat)
    requires Ascending(keys) && i < |keys|
    ensures Above(keys, keys[i]) == if keys[i] == "" then 0 else i + 1
    ensures keys[i] == "" ==> i == 0
  {
    RankOfKey(keys, i);
    if i > 0 {
      assert Less(keys[0], keys[i]);
    }
  }

  /** The one way to ask for the same page for ever: pages of one entry, the first of
      them the empty key, and other keys after it. */
  predicate Stuck(s: State, p: Prefix, max: int) {
    max == 1 && |s.objects.keys| > 1 && s.objects.keys[0] == "" && Kinds(s, p)[0].Item?
  }

  /** The empty key is never rolled up. */
  lemma EmptyKeyKind(s: State, p: Prefix)
    requires Listable(s) && s.objects.keys != [] && s.objects.keys[0] == ""
    ensures !Kinds(s, p)[0].Roll?
  {
    ListableData(s, 0);
    EmptyKeyMatches(p);
  }

  /** A page that is cut right after the empty key. */
  lemma CutAfterEmptyKey(s: State, p: Prefix, lo: nat, max: int)
    requires Listable(s) && max > 0 && lo <= |s.objects.keys|
    requires var hi := PageEnd(Kinds(s, p), lo, lo, max); 0 < hi < |s.objects.keys| && s.objects.keys[hi - 1] == ""
    ensures lo == 0 && Stuck(s, p, max)
  {
    var ks := Kinds(s, p);
    var hi := PageEnd(ks, lo, lo, max);
    AboveKey(s.objects.keys, hi - 1);
    PageEnds(ks, lo, max);
    EmptyKeyKind(s, p);
    assert Count(ks, 0, 0) == 0;
  }

  lemma StuckIsCut(ks: seq<Kind>)
    requires |ks| > 1 && ks[0].Item?
    ensures PageEnd(ks, 0, 0, 1) == 1
  {
    assert Count(ks, 0, 0) == 0 && Counts(ks, 0, 0) && Count(ks, 0, 1) == 1;
    assert PageEnd(ks, 0, 1, 1) == 1;
  }

  lemma LeadsOn(s: State, p: Prefix, lo: nat, max: int, hi: nat)
    requires Listable(s) && max > 0 && lo <= |s.objects.keys|
    requires 0 < hi < |s.objects.keys| && hi == PageEnd(Kinds(s, p), lo, lo, max)
    ensures Above(s.objects.keys, s.objects.keys[hi - 1]) == hi <==> !(lo == 0 && Stuck(s, p, max))
  {
    AboveKey(s.objects.keys, hi - 1);
    if s.objects.keys[hi - 1] == "" {
      CutAfterEmptyKey(s, p, lo, max);
    } else if lo == 0 && Stuck(s, p, max) {
      StuckIsCut(Kinds(s, p));
    }
  }

  /** A page from `lo` to `hi` is truncated if keys are left, and then names the one before `hi`. */
  ghost predicate NamesLast(s: State, page: ObjectList, lo: nat, hi: nat) {
    page.isTruncated <==> hi < |s.objects.keys| && lo < hi && page.nextMarker == s.objects.keys[hi - 1]
  }

  lemma PageNamesLast(s: State, ks: seq<Kind>, lo: nat, max: int)
    requires Listable(s) && max > 0 && lo <= |ks| == |s.objects.keys|
    ensures var hi := PageEnd(ks, lo, lo, max);
      EndsAt(ks, lo, hi, max) && NamesLast(s, PageFrom(s, ks, lo, max), lo, hi)
  {
    var hi := PageEnd(ks, lo, lo, max);
    PageCut(s, ks, lo, max);
    if 0 < hi < |ks| {
      ListableData(s, hi - 1);
    }
  }

  /** A truncated page names the last key it visited.  That is where the next page begins,
      except exactly when the walk is stuck at the empty key. */
  lemma NextPageStarts(s: State, p: Prefix, marker: string, max: int)
    requires Listable(s) && max > 0
    ensures var (ks, lo, page) := (Kinds(s, p), Above(s.objects.keys, marker), ListPage(s, p, marker, max));
      var hi := PageEnd(ks, lo, lo, max);
      && EndsAt(ks, lo, hi, max) && NamesLast(s, page, lo, hi)
      && (page.isTruncated ==> MarksNext(s, p, page, lo, hi, max))
  {
    var lo := Above(s.objects.keys, marker);
    PageNamesLast(s, Kinds(s, p), lo, max);
    NextAfter(s, p, ListPage(s, p, marker, max), lo, PageEnd(Kinds(s, p), lo, lo, max), max);
  }

  /** The page's marker leads to `hi`, unless the walk is stuck. */
  ghost predicate MarksNext(s: State, p: Prefix, page: ObjectList, lo: nat, hi: nat, max: int) {
    Above(s.objects.keys, page.nextMarker) == hi <==> !(lo == 0 && Stuck(s, p, max))
  }

  lemma NextAfter(s: State, p: Prefix, page: ObjectList, lo: nat, hi: nat, max: int)
    requires Listable(s) && max > 0 && lo <= |s.objects.keys| && hi == PageEnd(Kinds(s, p), lo, lo, max)
    requires NamesLast(s, page, lo, hi)
    ensures page.isTruncated ==> MarksNext(s, p, page, lo, hi, max)
  {
    if page.isTruncated {
      LeadsOn(s, p, lo, max, hi);
    }
  }

  // ---- following the markers ----

  /** The pages a client collects that follows NextMarker until a page is whole; it ends
      too where the marker leads nowhere new. */
  function Walk(s: State, p: Prefix, marker: string, max: int): seq<ObjectList>
    requires max > 0
    decreases |s.objects.keys| - Above(s.objects.keys, marker)
  {
    var page := ListPage(s, p, marker, max);
    [page] +
    if page.isTruncated && Above(s.objects.keys, page.nextMarker) > Above(s.objects.keys, marker)
    then Walk(s, p, page.nextMarker, max) else []
  }

  /** Unless it is stuck, a walk is the pages one after the other. */
  lemma {:induction false} WalkIsPages(s: State, p: Prefix, marker: string, max: int)
    requires Listable(s) && max > 0 && !(Above(s.objects.keys, marker) == 0 && Stuck(s, p, max))
    ensures Walk(s, p, marker, max) == PagesAt(s, Kinds(s, p), Above(s.objects.keys, marker), max)
    decreases |s.objects.keys| - Above(s.objects.keys, marker)
  {
    NextPageStarts(s, p, marker, max);
    var page := ListPage(s, p, marker, max);
    if page.isTruncated {
      WalkIsPages(s, p, page.nextMarker, max);
    }
  }

  /** From any marker on: the contents there once and in order, the non-empty common
      prefixes, no page over its limit, only the last one not truncated. */
  lemma WalkCollectsAll(s: State, p: Prefix, marker: string, max: int)
    requires Listable(s) && max > 0 && !(Above(s.objects.keys, marker) == 0 && Stuck(s, p, max))
    ensures Collects(s, Kinds(s, p), Above(s.objects.keys, marker), max, Walk(s, p, marker, max))
  {
    WalkIsPages(s, p, marker, max);
    PagesCollect(s, Kinds(s, p), Above(s.objects.keys, marker), max);
  }

  /** A stuck walk is given the empty key as its marker, and so the same page again. */
  lemma StuckStays(s: State, p: Prefix, max: int)
    requires Listable(s) && Stuck(s, p, max)
    ensures var page := ListPage(s, p, "", max);
      page.isTruncated && page.nextMarker == "" && Walk(s, p, "", max) == [page]
  {
    NextPageStarts(s, p, "", max);
    StuckIsCut(Kinds(s, p));
  }

  lemma UnpagedList(s: State, p: Prefix)
    ensures var (ks, all) := (Kinds(s, p), ListPage(s, p, "", 0));
      && all.contents == Contents(s, ks, 0, |ks|) && all.commonPrefixes == Parts(ks, 0, |ks|) && !all.isTruncated
      && PageEnd(ks, 0, 0, 0) == |ks|
  {
  }

  /** The pages of a walk from the start make up the unpaged listing: its contents once
      and in order and its non-empty common prefixes, no page over the limit or with a
      common prefix twice, and the walk ends with a page that is not truncated. */
  ghost predicate WalkIsWhole(s: State, p: Prefix, max: int)
    requires max > 0
  {
    var (pages, all) := (Walk(s, p, "", max), ListPage(s, p, "", 0));
    && AllContents(pages) == all.contents
    && (forall q :: q != "" ==> (SomePageRolls(pages, q) <==> q in all.commonPrefixes))
    && (forall i :: 0 <= i < |pages| ==> PageOK(pages, i, max))
  }

  /** Following NextMarker from the start, for any page size, yields the unpaged listing,
      unless the walk is stuck at the empty key.  Only the empty prefix is not promised;
      see ListingLaws.EmptyPrefixExactly. */
  lemma PagesMakeTheListing(s: State, p: Prefix, max: int)
    requires Listable(s) && max > 0
    ensures WalkIsWhole(s, p, max) <==> !Stuck(s, p, max)
  {
    if Stuck(s, p, max) {
      StuckStays(s, p, max);
      assert !PageOK(Walk(s, p, "", max), 0, max);
    } else {
      WalkCollectsAll(s, p, "", max);
      UnpagedList(s, p);
      forall q | q != ""
        ensures SomePageRolls(Walk(s, p, "", max), q) <==> q in ListPage(s, p, "", 0).commonPrefixes
      {
        PartsAreRolled(Kinds(s, p), 0, |Kinds(s, p)|, q);
      }
    }
  }
}
