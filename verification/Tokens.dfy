/** The queries of bucket listings, version 1 and 2, and the pages their clients collect. */
module Tokens {
  import opened Basics
  import opened Prefixes
  import opened BucketModel
  import opened Listing
  import opened ListingWalks
  import opened BlockCodec
  import opened Numerals
  import opened Encodings
  import ListingLaws
  import Ranges

  const MAX_BUCKET_KEYS := 1000

  function ParseClampedInt(text: string, default: int, min: int, max: int): Result<int> {
    if text != "" && Ranges.ParseInt64(text).None? then Err(InvalidArgument)
    else
      var v := if text == "" then default else Ranges.ParseInt64(text).value;
      Ok(if v < min then min else if v > max then max else v)
  }

  /** The parameters of a listing; an absent one is None. */
  datatype Query = Query(maxKeys: string, marker: Option<string>, continuationToken: Option<string>,
                         startAfter: Option<string>)

  datatype Page = Page(marker: string, hasMarker: bool, maxKeys: int)

  /** listBucketPageFromQuery: `marker` before `continuation-token` before `start-after`. */
  function PageFromQuery(q: Query): Result<Page> {
    match ParseClampedInt(q.maxKeys, MAX_BUCKET_KEYS, 0, MAX_BUCKET_KEYS)
    case Err(e) => Err(e)
    case Ok(n) =>
      if q.marker.Some? then Ok(Page(q.marker.value, true, n))
      else if q.continuationToken.Some? then
        match Decode64(q.continuationToken.value)
        case None => Err(InvalidToken)
        case Some(tok) => Ok(Page(tok, true, n))
      else if q.startAfter.Some? then Ok(Page(q.startAfter.value, true, n))
      else Ok(Page("", false, n))
  }

  predicate AsksFor(q: Query, n: nat) {
    PageFromQuery(q).Ok? && PageFromQuery(q).value.maxKeys == n
  }

  /** How many keys a page may have: as many as asked for in decimal, but no more than a
      thousand, and none for a negative number. */
  lemma MaxKeysIs(q: Query, v: int)
    requires -Ranges.MAX64 <= v <= Ranges.MAX64 && (q.marker.Some? || q.continuationToken.None?)
    requires q.maxKeys == if v < 0 then "-" + Decimal(-v) else Decimal(v)
    ensures AsksFor(q, if v < 0 then 0 else if v < 1000 then v else 1000)
  {
    if v < 0 {
      ReadDecimal(-v);
      ParseNegative(Decimal(-v), -v);
    } else {
      Ranges.ParseDecimal(v);
    }
    NumberAsked(q, v);
  }

  lemma ParseNegative(s: string, n: int)
    requires s != "" && IsNumeral(DECIMAL, s) && Read(DECIMAL, s) == n <= Ranges.MAX64
    ensures Ranges.ParseInt64("-" + s) == Some(-n)
  {
    assert ("-" + s)[1..] == s;
  }

  lemma NumberAsked(q: Query, v: int)
    requires q.marker.Some? || q.continuationToken.None?
    requires q.maxKeys != "" && Ranges.ParseInt64(q.maxKeys) == Some(v)
    ensures AsksFor(q, if v < 0 then 0 else if v < 1000 then v else 1000)
  {
  }

  /** Where a page starts: with the marker if there is one, else with the token's key, else
      with `start-after`, else at the beginning; a token that is none is refused.  If no
      number is asked for, it has a thousand keys. */
  lemma PageStartIs(q: Query)
    requires q.maxKeys == ""
    ensures match PageFromQuery(q)
      case Err(e) => q.marker.None? && q.continuationToken.Some? && Decode64(q.continuationToken.value).None? &&
        e == InvalidToken
      case Ok(page) =>
        page.maxKeys == 1000 &&
        if q.marker.Some? then page.hasMarker && page.marker == q.marker.value
        else if q.continuationToken.Some? then
          page.hasMarker && Decode64(q.continuationToken.value) == Some(page.marker)
        else if q.startAfter.Some? then page.hasMarker && page.marker == q.startAfter.value
        else !page.hasMarker && page.marker == ""
  {
  }

  /** The two listing protocols. */
  datatype Version = V1 | V2

  /** What a response offers to go on with: in version 1 the marker, which is shown only
      with a delimiter; in version 2 a token that encodes it. */
  function Offered(v: Version, p: Prefix, list: ObjectList): string {
    match v
    case V1 => if p.delimiter != "" then list.nextMarker else ""
    case V2 => if list.nextMarker != "" then Encode(BASE64, list.nextMarker) else ""
  }

  /** A response offers something exactly if there is a next marker, and in version 1 a
      delimiter too. */
  lemma OffersExactly(v: Version, p: Prefix, list: ObjectList)
    ensures Offered(v, p, list) != "" <==> list.nextMarker != "" && (v == V2 || p.delimiter != "")
  {
    if list.nextMarker != "" {
      EncodeNonEmpty(list.nextMarker);
    }
  }

  /** What a client goes on with: the last key if a version 1 response offers nothing. */
  function Chosen(v: Version, p: Prefix, list: ObjectList): string {
    var t := Offered(v, p, list);
    if v == V1 && t == "" && list.contents != [] then list.contents[|list.contents| - 1].key else t
  }

  /** The query for the page after `t`, or for the first one. */
  function Ask(v: Version, maxKeys: string, t: Option<string>): Query {
    match v
    case V1 => Query(maxKeys, t, None, None)
    case V2 => Query(maxKeys, None, t, None)
  }

  function Answer(s: State, p: Prefix, q: Query): Result<ObjectList> {
    match PageFromQuery(q)
    case Err(e) => Err(e)
    case Ok(page) => Ok(ListPage(s, p, page.marker, page.maxKeys))
  }

  /** The pages a client collects that goes on until a page is not truncated, for at most
      `patience` more of them. */
  function Collect(v: Version, s: State, p: Prefix, maxKeys: string, t: Option<string>, patience: nat): seq<ObjectList>
    decreases patience
  {
    match Answer(s, p, Ask(v, maxKeys, t))
    case Err(_) => []
    case Ok(list) =>
      if list.isTruncated && patience > 0 then
        [list] + Collect(v, s, p, maxKeys, Some(Chosen(v, p, list)), patience - 1)
      else [list]
  }

  // ---- both versions walk the same pages ----

  /** How each version writes a marker. */
  function Written(v: Version, marker: string): string {
    if v == V1 then marker else Encode(BASE64, marker)
  }

  lemma WrittenIsRead(v: Version, maxKeys: string, marker: string)
    requires Octets(marker) && ParseClampedInt(maxKeys, MAX_BUCKET_KEYS, 0, MAX_BUCKET_KEYS).Ok?
    ensures var n := ParseClampedInt(maxKeys, MAX_BUCKET_KEYS, 0, MAX_BUCKET_KEYS).value;
      PageFromQuery(Ask(v, maxKeys, Some(Written(v, marker)))) == Ok(Page(marker, true, n))
  {
    Base64RoundTrip(marker);
  }

  ghost predicate OctetKeys(s: State) {
    forall i :: 0 <= i < |s.objects.keys| ==> Octets(s.objects.keys[i])
  }

  /** What a client goes on with after a truncated page is the next marker, as written. */
  lemma ChosenIsMarker(v: Version, s: State, p: Prefix, marker: string, max: int)
    requires Listable(s) && OctetKeys(s) && max > 0 && (p.hasDelimiter <==> p.delimiter != "")
    requires ListPage(s, p, marker, max).isTruncated && !(Above(s.objects.keys, marker) == 0 && Stuck(s, p, max))
    ensures var list := ListPage(s, p, marker, max);
      && list.nextMarker != "" && Octets(list.nextMarker) && Chosen(v, p, list) == Written(v, list.nextMarker)
      && Above(s.objects.keys, marker) < Above(s.objects.keys, list.nextMarker)
  {
    NextPageStarts(s, p, marker, max);
    if !p.hasDelimiter {
      ListingLaws.LastKeyIsNextMarker(s, p, marker, max);
    }
  }

  /** What a client asks next is answered with the page after the next marker. */
  lemma NextIsAsked(v: Version, s: State, p: Prefix, maxKeys: string, marker: string, max: int)
    requires Listable(s) && OctetKeys(s) && max > 0 && (p.hasDelimiter <==> p.delimiter != "")
    requires ListPage(s, p, marker, max).isTruncated && !(Above(s.objects.keys, marker) == 0 && Stuck(s, p, max))
    requires ParseClampedInt(maxKeys, MAX_BUCKET_KEYS, 0, MAX_BUCKET_KEYS) == Ok(max)
    ensures var list := ListPage(s, p, marker, max);
      && Answer(s, p, Ask(v, maxKeys, Some(Chosen(v, p, list)))) == Ok(ListPage(s, p, list.nextMarker, max))
      && Above(s.objects.keys, marker) < Above(s.objects.keys, list.nextMarker)
  {
    ChosenIsMarker(v, s, p, marker, max);
    WrittenIsRead(v, maxKeys, ListPage(s, p, marker, max).nextMarker);
  }

  lemma {:induction false} CollectsWalk(v: Version, s: State, p: Prefix, maxKeys: string, max: int, t: Option<string>,
                                        marker: string, patience: nat)
    requires Listable(s) && OctetKeys(s) && max > 0 && (p.hasDelimiter <==> p.delimiter != "")
    requires !(Above(s.objects.keys, marker) == 0 && Stuck(s, p, max))
    requires Answer(s, p, Ask(v, maxKeys, t)) == Ok(ListPage(s, p, marker, max))
    requires ParseClampedInt(maxKeys, MAX_BUCKET_KEYS, 0, MAX_BUCKET_KEYS) == Ok(max)
    requires |s.objects.keys| - Above(s.objects.keys, marker) <= patience
    ensures Collect(v, s, p, maxKeys, t, patience) == Walk(s, p, marker, max)
    decreases patience
  {
    var list := ListPage(s, p, marker, max);
    if list.isTruncated {
      NextIsAsked(v, s, p, maxKeys, marker, max);
      CollectsWalk(v, s, p, maxKeys, max, Some(Chosen(v, p, list)), list.nextMarker, patience - 1);
    } else {
      assert [list] + [] == [list];
    }
  }

  /** A client that is stuck at the empty key keeps asking. */
  lemma StuckCollects(v: Version, s: State, p: Prefix, maxKeys: string, max: int, patience: nat)
    requires Listable(s) && Stuck(s, p, max) && patience > 0
    requires ParseClampedInt(maxKeys, MAX_BUCKET_KEYS, 0, MAX_BUCKET_KEYS) == Ok(max)
    ensures |Collect(v, s, p, maxKeys, None, patience)| > |Walk(s, p, "", max)|
  {
    StuckStays(s, p, max);
    var list := ListPage(s, p, "", max);
    var t := Chosen(v, p, list);
    assert v == V2 ==> t == "" && Decode64("") == Some("");
    assert |Collect(v, s, p, maxKeys, Some(t), patience - 1)| > 0;
  }

  /** A client of either version, following what the responses offer, collects the pages
      that the next markers lead to, unless it is stuck at the empty key. */
  lemma BothVersionsWalk(v: Version, s: State, p: Prefix, maxKeys: string, max: int, patience: nat)
    requires Listable(s) && OctetKeys(s) && (p.hasDelimiter <==> p.delimiter != "")
    requires ParseClampedInt(maxKeys, MAX_BUCKET_KEYS, 0, MAX_BUCKET_KEYS) == Ok(max) && max > 0
    requires |s.objects.keys| <= patience
    ensures Collect(v, s, p, maxKeys, None, patience) == Walk(s, p, "", max) <==> !Stuck(s, p, max)
  {
    if Stuck(s, p, max) {
      StuckCollects(v, s, p, maxKeys, max, patience);
    } else {
      CollectsWalk(v, s, p, maxKeys, max, None, "", patience);
    }
  }
}
