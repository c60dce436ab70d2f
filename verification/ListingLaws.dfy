/** Further laws of bucket listings: what a page depends on, what is listed at all, and
    when pages have the empty prefix. */
module ListingLaws {
  import opened SortedIndex
  import opened Prefixes
  import opened BucketModel
  import opened Listing
  import opened ListingWalks
  import opened Joining

  // ---- a page depends only on the keys above its marker ----

  /** The bucket without its keys up to a marker. */
  function Beyond(s: State, marker: string): State {
    var keys := s.objects.keys[Above(s.objects.keys, marker)..];
    State(s.versioning, Index(keys, map k | k in keys :: ObjectAt(s, k)))
  }

  ghost predicate Shifted(ks: seq<Kind>, lo: nat, ls: seq<Kind>) {
    lo <= |ks| && ls == ks[lo..]
  }

  lemma {:induction false} ShiftedPage(ks: seq<Kind>, lo: nat, ls: seq<Kind>, h: nat)
    requires Shifted(ks, lo, ls) && lo <= h <= |ks|
    ensures LastPart(ks, lo, h) == LastPart(ls, 0, h - lo)
    ensures Count(ks, lo, h) == Count(ls, 0, h - lo)
    ensures Parts(ks, lo, h) == Parts(ls, 0, h - lo)
  {
    if lo < h {
      ShiftedPage(ks, lo, ls, h - 1);
      assert ks[h - 1] == ls[h - 1 - lo];
    }
  }

  lemma {:induction false} ShiftedEnd(ks: seq<Kind>, lo: nat, ls: seq<Kind>, h: nat, max: int)
    requires Shifted(ks, lo, ls) && lo <= h <= |ks|
    ensures PageEnd(ks, lo, h, max) == lo + PageEnd(ls, 0, h - lo, max)
    decreases |ks| - h
  {
    ShiftedPage(ks, lo, ls, h);
    if h < |ks| && !(max > 0 && Count(ks, lo, h) >= max) {
      ShiftedEnd(ks, lo, ls, h + 1, max);
    }
  }

  lemma BeyondData(s: State, marker: string, i: nat)
    requires Sorted(s.objects) && Above(s.objects.keys, marker) + i < |s.objects.keys|
    ensures var (t, lo) := (Beyond(s, marker), Above(s.objects.keys, marker));
      i < |t.objects.keys| && t.objects.keys[i] == s.objects.keys[lo + i] &&
      ObjectAt(t, t.objects.keys[i]) == ObjectAt(s, s.objects.keys[lo + i]) && DataAt(t, i) == DataAt(s, lo + i)
  {
    var t := Beyond(s, marker);
    assert t.objects.keys[i] in t.objects.keys;
  }

  /** From `lo` on, `t` holds the data of `s`. */
  ghost predicate DataFrom(s: State, t: State, lo: nat, i: nat) {
    DataAt(t, i) == DataAt(s, lo + i)
  }

  lemma BeyondAllData(s: State, marker: string)
    requires Sorted(s.objects)
    ensures var (t, lo) := (Beyond(s, marker), Above(s.objects.keys, marker));
      && |t.objects.keys| == |s.objects.keys| - lo
      && forall i :: 0 <= i < |t.objects.keys| ==> DataFrom(s, t, lo, i)
  {
    forall i | 0 <= i < |Beyond(s, marker).objects.keys|
      ensures DataFrom(s, Beyond(s, marker), Above(s.objects.keys, marker), i)
    {
      BeyondData(s, marker, i);
    }
  }

  /** The kinds of the objects of a bucket, by any way to sort them. */
  function KindsBy(s: State, kind: Obj -> Kind): (ks: seq<Kind>)
    ensures |ks| == |s.objects.keys|
  {
    seq(|s.objects.keys|, i requires 0 <= i < |s.objects.keys| => kind(ObjectAt(s, s.objects.keys[i])))
  }

  lemma KindsAreBy(s: State, p: Prefix)
    ensures Kinds(s, p) == KindsBy(s, o => KindOf(p, o))
  {
    var ks, ls := Kinds(s, p), KindsBy(s, o => KindOf(p, o));
    assert forall i :: 0 <= i < |ks| ==> ks[i] == ls[i];
  }

  lemma BeyondKindAt(s: State, kind: Obj -> Kind, marker: string, i: nat)
    requires Sorted(s.objects) && Above(s.objects.keys, marker) + i < |s.objects.keys|
    ensures i < |Beyond(s, marker).objects.keys|
    ensures KindsBy(Beyond(s, marker), kind)[i] == KindsBy(s, kind)[Above(s.objects.keys, marker) + i]
  {
    BeyondData(s, marker, i);
  }

  lemma BeyondKindsBy(s: State, kind: Obj -> Kind, marker: string)
    requires Sorted(s.objects)
    ensures Shifted(KindsBy(s, kind), Above(s.objects.keys, marker), KindsBy(Beyond(s, marker), kind))
  {
    var ks, ls, lo := KindsBy(s, kind), KindsBy(Beyond(s, marker), kind), Above(s.objects.keys, marker);
    forall i | 0 <= i < |ls|
      ensures ls[i] == ks[lo + i]
    {
      BeyondKindAt(s, kind, marker, i);
    }
    TailIs(ks, lo, ls);
  }

  lemma TailIs(ks: seq<Kind>, lo: nat, ls: seq<Kind>)
    requires lo + |ls| == |ks| && forall i :: 0 <= i < |ls| ==> ls[i] == ks[lo + i]
    ensures ls == ks[lo..]
  {
  }

  lemma BeyondKinds(s: State, p: Prefix, marker: string)
    requires Sorted(s.objects)
    ensures Shifted(Kinds(s, p), Above(s.objects.keys, marker), Kinds(Beyond(s, marker), p))
  {
    KindsAreBy(s, p);
    KindsAreBy(Beyond(s, marker), p);
    BeyondKindsBy(s, o => KindOf(p, o), marker);
  }

  lemma {:induction false} ShiftedContents(s: State, t: State, ks: seq<Kind>, ls: seq<Kind>, lo: nat, h: nat)
    requires Shifted(ks, lo, ls) && lo <= h <= |ks|
    requires forall i :: 0 <= i < |ls| ==> DataFrom(s, t, lo, i)
    ensures Contents(s, ks, lo, h) == Contents(t, ls, 0, h - lo)
    decreases h
  {
    if lo < h {
      ShiftedContents(s, t, ks, ls, lo, h - 1);
      assert ks[h - 1] == ls[h - 1 - lo] && DataFrom(s, t, lo, h - 1 - lo);
    }
  }

  lemma ShiftedListing(s: State, t: State, ks: seq<Kind>, ls: seq<Kind>, lo: nat, max: int)
    requires Shifted(ks, lo, ls) && forall i :: 0 <= i < |ls| ==> DataFrom(s, t, lo, i)
    ensures PageFrom(s, ks, lo, max) == PageFrom(t, ls, 0, max)
  {
    var hi, ho := PageEnd(ks, lo, lo, max), PageEnd(ls, 0, 0, max);
    ShiftedEnd(ks, lo, ls, lo, max);
    ShiftedPage(ks, lo, ls, hi);
    ShiftedContents(s, t, ks, ls, lo, hi);
    assert ho > 0 ==> DataFrom(s, t, lo, ho - 1);
  }

  /** A page after a marker, whether or not the marker is a key, is the first page of
      the bucket without the keys up to it. */
  lemma PageAfterMarker(s: State, p: Prefix, marker: string, max: int)
    requires Sorted(s.objects)
    ensures ListPage(s, p, marker, max) == ListPage(Beyond(s, marker), p, "", max)
  {
    var t, lo := Beyond(s, marker), Above(s.objects.keys, marker);
    BeyondKinds(s, p, marker);
    BeyondAllData(s, marker);
    ShiftedListing(s, t, Kinds(s, p), Kinds(t, p), lo, max);
    assert ListPage(t, p, "", max) == PageFrom(t, Kinds(t, p), 0, max);
  }

  // ---- without a delimiter the last key is the marker ----

  lemma CutAtItem(s: State, ks: seq<Kind>, lo: nat, max: int)
    requires lo <= |ks| && max > 0 && PageEnd(ks, lo, lo, max) < |ks| && forall i :: 0 <= i < |ks| ==> !ks[i].Roll?
    ensures var (hi, page) := (PageEnd(ks, lo, lo, max), PageFrom(s, ks, lo, max));
      hi > lo && (DataAt(s, hi - 1).Some? ==>
        page.contents != [] && page.contents[|page.contents| - 1].key == page.nextMarker)
  {
    var hi := PageEnd(ks, lo, lo, max);
    PageEnds(ks, lo, max);
    assert Count(ks, lo, hi - 1) < max && Counts(ks, lo, hi - 1);
  }

  lemma {:induction false} ItemsCount(s: State, ks: seq<Kind>, lo: nat, hi: nat)
    requires lo <= hi <= |ks|
    requires forall i :: 0 <= i < |ks| ==> !ks[i].Roll? && (ks[i].Item? ==> DataAt(s, i).Some?)
    ensures |Contents(s, ks, lo, hi)| == Count(ks, lo, hi) && Parts(ks, lo, hi) == []
  {
    if lo < hi {
      ItemsCount(s, ks, lo, hi - 1);
    }
  }

  /** Without a delimiter, every page but the last has as many contents as were asked for,
      and the last no more. */
  lemma FullPages(s: State, p: Prefix, marker: string, max: int)
    requires max > 0 && !p.hasDelimiter
    ensures var page := ListPage(s, p, marker, max);
      page.commonPrefixes == [] && if page.isTruncated then |page.contents| == max else |page.contents| <= max
  {
    var ks, lo := Kinds(s, p), Above(s.objects.keys, marker);
    var hi := PageEnd(ks, lo, lo, max);
    NothingRolls(s, p);
    PageEnds(ks, lo, max);
    PageWithinLimit(s, ks, lo, hi, max);
    ItemsCount(s, ks, lo, hi);
  }

  /** Clients of the first listing version are told to use the last key of a truncated
      page; without a delimiter that is NextMarker. */
  lemma LastKeyIsNextMarker(s: State, p: Prefix, marker: string, max: int)
    requires Listable(s) && max > 0 && !p.hasDelimiter && ListPage(s, p, marker, max).isTruncated
    ensures var page := ListPage(s, p, marker, max);
      page.contents != [] && page.contents[|page.contents| - 1].key == page.nextMarker
  {
    var ks, lo := Kinds(s, p), Above(s.objects.keys, marker);
    NothingRolls(s, p);
    CutAtItem(s, ks, lo, max);
    ListableData(s, PageEnd(ks, lo, lo, max) - 1);
  }

  lemma NothingRolls(s: State, p: Prefix)
    requires !p.hasDelimiter
    ensures forall i :: 0 <= i < |Kinds(s, p)| ==> !Kinds(s, p)[i].Roll?
  {
  }

  // ---- the empty prefix ----

  /** A key is rolled up into the empty prefix exactly when it consists of characters of
      the delimiter only and so does the prefix. */
  lemma EmptyPartExactly(p: Prefix, key: string)
    requires p.hasDelimiter && p.delimiter != ""
    ensures var m := MatchOf(p, key);
      m.Some? && m.value.commonPrefix && m.value.matchedPart == ""
      <==> key != "" && TrimLeft(key, p.delimiter) == "" && TrimLeft(p.prefix, p.delimiter) == ""
  {
    MatchExactly(p, key);
  }

  /** Among the keys from `lo` up to `hi` one is rolled up into the empty prefix after
      another was rolled up into a different one. */
  ghost predicate EmptyAfterOther(ks: seq<Kind>, lo: nat, hi: nat) {
    exists j, i :: lo <= j < i < hi <= |ks| && OtherThenEmpty(ks[j], ks[i])
  }

  predicate OtherThenEmpty(k: Kind, l: Kind) {
    k.Roll? && k.part != "" && l == Roll("")
  }

  /** Where the last part is empty again, the empty prefix came after the other one. */
  lemma {:induction false} LastPartEmpty(ks: seq<Kind>, lo: nat, hi: nat, j: nat)
    requires lo <= j < hi <= |ks| && ks[j].Roll? && ks[j].part != "" && LastPart(ks, lo, hi) == ""
    ensures EmptyAfterOther(ks, lo, hi)
  {
    if ks[hi - 1].Roll? {
      assert OtherThenEmpty(ks[j], ks[hi - 1]);
    } else {
      LastPartEmpty(ks, lo, hi - 1, j);
    }
  }

  lemma {:induction false} LastPartThere(ks: seq<Kind>, lo: nat, hi: nat)
    requires lo <= hi <= |ks| && LastPart(ks, lo, hi) != ""
    ensures exists j :: lo <= j < hi && ks[j].Roll? && ks[j].part != ""
  {
    if !ks[hi - 1].Roll? {
      LastPartThere(ks, lo, hi - 1);
    } else {
      assert lo <= hi - 1 < hi && ks[hi - 1].Roll?;
    }
  }

  /** When a page has the empty prefix: only after another, because the code takes it for
      the part it saw last when it has seen none. */
  lemma {:induction false} EmptyOnPage(ks: seq<Kind>, lo: nat, hi: nat)
    requires lo <= hi <= |ks|
    ensures "" in Parts(ks, lo, hi) <==> EmptyAfterOther(ks, lo, hi)
  {
    if lo < hi {
      EmptyOnPage(ks, lo, hi - 1);
      if ks[hi - 1] == Roll("") {
        LastEmptyOnPage(ks, lo, hi);
      } else {
        EmptyBefore(ks, lo, hi);
      }
    }
  }

  lemma EmptyBefore(ks: seq<Kind>, lo: nat, hi: nat)
    requires lo < hi <= |ks| && ks[hi - 1] != Roll("")
    ensures EmptyAfterOther(ks, lo, hi) <==> EmptyAfterOther(ks, lo, hi - 1)
  {
  }

  lemma LastEmptyOnPage(ks: seq<Kind>, lo: nat, hi: nat)
    requires lo < hi <= |ks| && ks[hi - 1] == Roll("")
    requires "" in Parts(ks, lo, hi - 1) <==> EmptyAfterOther(ks, lo, hi - 1)
    ensures "" in Parts(ks, lo, hi) <==> EmptyAfterOther(ks, lo, hi)
  {
    if LastPart(ks, lo, hi - 1) != "" {
      LastPartThere(ks, lo, hi - 1);
      var j :| lo <= j < hi - 1 && ks[j].Roll? && ks[j].part != "";
      assert OtherThenEmpty(ks[j], ks[hi - 1]);
    } else if EmptyAfterOther(ks, lo, hi) {
      var j, i :| lo <= j < i < hi <= |ks| && OtherThenEmpty(ks[j], ks[i]);
      LastPartEmpty(ks, lo, hi - 1, j);
    }
  }

  /** Both keys fall into one page, the pages being cut from `lo` on. */
  ghost predicate OnOnePage(ks: seq<Kind>, lo: nat, max: int)
    requires lo <= |ks| && max > 0
    decreases |ks| - lo
  {
    var hi := PageEnd(ks, lo, lo, max);
    EmptyAfterOther(ks, lo, hi) || (lo < hi < |ks| && OnOnePage(ks, hi, max))
  }

  lemma {:induction false} PagesHaveEmpty(s: State, ks: seq<Kind>, lo: nat, max: int)
    requires lo <= |ks| && max > 0
    ensures SomePageRolls(PagesAt(s, ks, lo, max), "") <==> OnOnePage(ks, lo, max)
    decreases |ks| - lo
  {
    var hi, page := PageEnd(ks, lo, lo, max), PageFrom(s, ks, lo, max);
    PageEnds(ks, lo, max);
    EmptyOnPage(ks, lo, hi);
    if hi < |ks| {
      PagesHaveEmpty(s, ks, hi, max);
      SomeHasFirst(page, PagesAt(s, ks, hi, max), PrefixesOf, "");
    } else {
      SomeHasFirst(page, [], PrefixesOf, "");
    }
  }

  lemma {:induction false} OnePageInAll(ks: seq<Kind>, lo: nat, max: int)
    requires lo <= |ks| && max > 0 && OnOnePage(ks, lo, max)
    ensures EmptyAfterOther(ks, 0, |ks|)
    decreases |ks| - lo
  {
    var hi := PageEnd(ks, lo, lo, max);
    if EmptyAfterOther(ks, lo, hi) {
      var j, i :| lo <= j < i < hi <= |ks| && OtherThenEmpty(ks[j], ks[i]);
      assert OtherThenEmpty(ks[j], ks[i]);
    } else {
      OnePageInAll(ks, hi, max);
    }
  }

  ghost predicate SamePrefixes(s: State, p: Prefix, max: int)
    requires max > 0
  {
    forall q :: SomePageRolls(Walk(s, p, "", max), q) <==> q in ListPage(s, p, "", 0).commonPrefixes
  }

  /** Exactly when the pages have the same common prefixes as the single listing: if it
      has the empty one, the two keys that give it fall into one page. */
  lemma EmptyPrefixExactly(s: State, p: Prefix, max: int)
    requires Listable(s) && max > 0 && !Stuck(s, p, max)
    ensures SamePrefixes(s, p, max) <==>
      (EmptyAfterOther(Kinds(s, p), 0, |Kinds(s, p)|) ==> OnOnePage(Kinds(s, p), 0, max))
  {
    var ks := Kinds(s, p);
    WalkIsPages(s, p, "", max);
    PagesHaveEmpty(s, ks, 0, max);
    EmptyOnPage(ks, 0, |ks|);
    UnpagedList(s, p);
    PagesMakeTheListing(s, p, max);
    if OnOnePage(ks, 0, max) {
      OnePageInAll(ks, 0, max);
    }
    SameWhenEmptyIs(s, p, max);
  }

  lemma SameWhenEmptyIs(s: State, p: Prefix, max: int)
    requires max > 0 && WalkIsWhole(s, p, max)
    ensures SamePrefixes(s, p, max) <==>
      (SomePageRolls(Walk(s, p, "", max), "") <==> "" in ListPage(s, p, "", 0).commonPrefixes)
  {
  }
}
