/** What a page of a multipart upload listing holds, and what following its markers yields. */
module UploadListing {
  import opened Basics
  import opened SortedIndex
  import opened Prefixes
  import opened Listing
  import opened VersionListing
  import opened UploadIndex

  /** One upload as it is listed; its number stands for the time it was initiated. */
  datatype Entry = Entry(key: string, id: string, number: nat)

  datatype Marker = Marker(key: string, uploadID: string)

  datatype UploadList = UploadList(uploads: seq<Entry>, commonPrefixes: seq<string>, isTruncated: bool,
                                   next: Option<Entry>)

  // ---- uploads key by key: `ks` is how each key is sorted, `ss` are its uploads ----

  function SliceOf(ks: seq<Kind>, ss: seq<seq<Entry>>, i: nat): seq<Entry>
    requires i < |ks| == |ss|
  {
    if ks[i].Item? then ss[i] else []
  }

  /** The uploads listed one by one, of the keys before `hi`. */
  function Flat(ks: seq<Kind>, ss: seq<seq<Entry>>, hi: nat): seq<Entry>
    requires hi <= |ks| == |ss|
  {
    if hi == 0 then [] else Flat(ks, ss, hi - 1) + SliceOf(ks, ss, hi - 1)
  }

  /** The common prefixes of the keys from `lo` up to `hi`. */
  function RolledBetween(ks: seq<Kind>, lo: nat, hi: nat): seq<string>
    requires lo <= hi <= |ks|
  {
    if lo == hi then []
    else if ks[hi - 1].Roll? then AddPrefix(RolledBetween(ks, lo, hi - 1), ks[hi - 1].part)
    else RolledBetween(ks, lo, hi - 1)
  }

  /** The keys it takes, from `h` on, to come to `t` uploads. */
  function Reach(ks: seq<Kind>, ss: seq<seq<Entry>>, h: nat, t: nat): (hi: nat)
    requires h <= |ks| == |ss|
    ensures h <= hi <= |ks|
    decreases |ks| - h
  {
    if h == |ks| || |Flat(ks, ss, h)| >= t then h else Reach(ks, ss, h + 1, t)
  }

  function AtLeastOne(limit: int): (n: nat)
    ensures n >= 1
  {
    if limit < 1 then 1 else limit
  }

  /** The page that starts at key `h` with the upload numbered `f`. */
  function PageAt(ks: seq<Kind>, ss: seq<seq<Entry>>, h: nat, f: nat, limit: int): UploadList
    requires h <= |ks| == |ss| && f <= |Flat(ks, ss, |ks|)|
  {
    var all := Flat(ks, ss, |ks|);
    var t := f + AtLeastOne(limit);
    UploadList(all[f..if t <= |all| then t else |all|], RolledBetween(ks, h, Reach(ks, ss, h, t)),
               t < |all|, if t < |all| then Some(all[t]) else None)
  }

  // ---- where a page starts ----

  function IndexOf(s: seq<Entry>, id: string, i: nat): Option<nat>
    requires i <= |s|
    decreases |s| - i
  {
    if i == |s| then None else if s[i].id == id then Some(i) else IndexOf(s, id, i + 1)
  }

  /** A start: a key, and how many of its uploads are passed over. */
  datatype Start = Start(h: nat, skip: nat)

  /** The first key from `h` on that matches and has the upload sought. */
  function Locate(ks: seq<Kind>, ss: seq<seq<Entry>>, id: string, h: nat): Option<Start>
    requires h <= |ks| == |ss|
    decreases |ks| - h
  {
    if h == |ks| then None
    else
      var at := IndexOf(ss[h], id, 0);
      if !ks[h].Skip? && at.Some? then Some(Start(h, at.value))
      else Locate(ks, ss, id, h + 1)
  }

  function StartAt(ks: seq<Kind>, ss: seq<seq<Entry>>, keys: seq<string>, marker: Option<Marker>): Option<Start>
    requires |keys| == |ks| == |ss|
  {
    if marker.None? then Some(Start(0, 0))
    else if marker.value.uploadID == "" then Some(Start(Rank(keys, marker.value.key), 0))
    else Locate(ks, ss, marker.value.uploadID, Rank(keys, marker.value.key))
  }

  /** The number of the upload a page starts with. */
  function First(ks: seq<Kind>, ss: seq<seq<Entry>>, st: Start): nat
    requires st.h <= |ks| == |ss|
  {
    |Flat(ks, ss, st.h)| + if st.h < |ks| && ks[st.h].Item? then st.skip else 0
  }

  lemma {:induction false} LocateIs(ks: seq<Kind>, ss: seq<seq<Entry>>, id: string, h: nat)
    requires h <= |ks| == |ss|
    ensures var st := Locate(ks, ss, id, h);
      st.Some? ==> h <= st.value.h < |ks| && st.value.skip < |ss[st.value.h]|
    decreases |ks| - h
  {
    if h < |ks| {
      IndexOfIs(ss[h], id, 0);
      LocateIs(ks, ss, id, h + 1);
    }
  }

  lemma {:induction false} IndexOfIs(s: seq<Entry>, id: string, i: nat)
    requires i <= |s|
    ensures IndexOf(s, id, i).Some? ==> i <= IndexOf(s, id, i).value < |s| && s[IndexOf(s, id, i).value].id == id
    decreases |s| - i
  {
    if i < |s| {
      IndexOfIs(s, id, i + 1);
    }
  }

  lemma {:induction false} FlatGrows(ks: seq<Kind>, ss: seq<seq<Entry>>, lo: nat, hi: nat)
    requires lo <= hi <= |ks| == |ss|
    ensures Flat(ks, ss, lo) <= Flat(ks, ss, hi)
  {
    if lo < hi {
      FlatGrows(ks, ss, lo, hi - 1);
    }
  }

  lemma StartFits(ks: seq<Kind>, ss: seq<seq<Entry>>, keys: seq<string>, marker: Option<Marker>)
    requires |keys| == |ks| == |ss|
    ensures var st := StartAt(ks, ss, keys, marker);
      st.Some? ==> st.value.h <= |ks| && First(ks, ss, st.value) <= |Flat(ks, ss, |ks|)|
  {
    if marker.Some? && marker.value.uploadID != "" {
      LocateIs(ks, ss, marker.value.uploadID, Rank(keys, marker.value.key));
    }
    var st := StartAt(ks, ss, keys, marker);
    if st.Some? {
      FlatGrows(ks, ss, st.value.h, |ks|);
      if st.value.h < |ks| {
        FlatGrows(ks, ss, st.value.h + 1, |ks|);
      }
    }
  }

  /** The page after a marker.  A key above all others makes the search begin anew, so
      that the first upload of all comes out as the next one; an upload id that is not
      found leaves the page empty. */
  function Page(ks: seq<Kind>, ss: seq<seq<Entry>>, keys: seq<string>, marker: Option<Marker>, limit: int): UploadList
    requires |keys| == |ks| == |ss|
  {
    StartFits(ks, ss, keys, marker);
    var all, st := Flat(ks, ss, |ks|), StartAt(ks, ss, keys, marker);
    if marker.Some? && Rank(keys, marker.value.key) == |keys| then
      UploadList([], [], all != [], if all != [] then Some(all[0]) else None)
    else if st.None? then UploadList([], [], false, None)
    else PageAt(ks, ss, st.value.h, First(ks, ss, st.value), limit)
  }

  // ---- the uploads of a bucket ----

  function KeyEntries(key: string, us: seq<MultipartUpload>): (es: seq<Entry>)
    ensures |es| == |us|
  {
    seq(|us|, j requires 0 <= j < |us| => Entry(key, us[j].id, us[j].number))
  }

  function AllEntries(x: Uploads): (ss: seq<seq<Entry>>)
    ensures |ss| == |x.index.keys|
  {
    seq(|x.index.keys|, i requires 0 <= i < |x.index.keys| => KeyEntries(x.index.keys[i], SliceAt(x, x.index.keys[i])))
  }

  function UploadKinds(x: Uploads, p: Prefix): (ks: seq<Kind>)
    ensures |ks| == |x.index.keys|
  {
    seq(|x.index.keys|, i requires 0 <= i < |x.index.keys| => KeyKind(p, x.index.keys[i]))
  }

  function ListUploads(x: Uploads, marker: Option<Marker>, p: Prefix, limit: int): UploadList {
    Page(UploadKinds(x, p), AllEntries(x), x.index.keys, marker, limit)
  }
}
