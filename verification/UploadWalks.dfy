/** The listing loop over multipart uploads: ListMultipartUploads. */
module UploadWalks {
  import opened Basics
  import opened SortedIndex
  import opened Prefixes
  import opened Listing
  import opened VersionListing
  import opened UploadIndex
  import opened UploadListing

  // ---- the state of the loop ----

  /** The uploads and prefixes of a page from key `hs` and upload `f`, of `n` uploads, that
      is not full before key `h`. */
  ghost function InPage(ks: seq<Kind>, ss: seq<seq<Entry>>, hs: nat, f: nat, n: nat, h: nat):
    Option<(seq<Entry>, seq<string>)>
    requires |ks| == |ss|
  {
    if hs <= h <= |ks| && f <= |Flat(ks, ss, h)| < f + n && Reach(ks, ss, hs, f + n) == Reach(ks, ss, h, f + n)
    then Some((Flat(ks, ss, h)[f..], RolledBetween(ks, hs, h)))
    else None
  }

  /** What follows the upload numbered `t`. */
  ghost function NextOf(ks: seq<Kind>, ss: seq<seq<Entry>>, t: nat): Option<Entry>
    requires |ks| == |ss|
  {
    var all := Flat(ks, ss, |ks|);
    if t < |all| then Some(all[t]) else None
  }

  lemma PassOver(ks: seq<Kind>, ss: seq<seq<Entry>>, hs: nat, f: nat, n: nat, h: nat, us: seq<Entry>, ps: seq<string>)
    requires h < |ks| == |ss| && !ks[h].Item? && InPage(ks, ss, hs, f, n, h) == Some((us, ps))
    ensures InPage(ks, ss, hs, f, n, h + 1) == Some((us, if ks[h].Roll? then AddPrefix(ps, ks[h].part) else ps))
  {
    assert Flat(ks, ss, h + 1) == Flat(ks, ss, h);
    assert Reach(ks, ss, h, f + n) == Reach(ks, ss, h + 1, f + n);
  }

  /** The page has `us` before the item at `h`, of whose uploads `rest` are to follow. */
  ghost predicate Meets(ks: seq<Kind>, ss: seq<seq<Entry>>, hs: nat, f: nat, n: nat, h: nat, us: seq<Entry>,
                        rest: seq<Entry>, ps: seq<string>)
  {
    && hs <= h < |ks| == |ss| && ks[h].Item? && |Flat(ks, ss, h)| < f + n
    && Reach(ks, ss, hs, f + n) == Reach(ks, ss, h, f + n)
    && f <= |Flat(ks, ss, h + 1)| && us + rest == Flat(ks, ss, h + 1)[f..] && |us| < n && ps == RolledBetween(ks, hs, h)
  }

  /** Either these fit in the page ... */
  lemma ItemFits(ks: seq<Kind>, ss: seq<seq<Entry>>, hs: nat, f: nat, n: nat, h: nat, us: seq<Entry>, rest: seq<Entry>,
                 ps: seq<string>)
    requires Meets(ks, ss, hs, f, n, h, us, rest, ps) && |us| + |rest| < n
    ensures InPage(ks, ss, hs, f, n, h + 1) == Some((us + rest, ps))
  {
    assert Reach(ks, ss, h, f + n) == Reach(ks, ss, h + 1, f + n);
  }

  /** ... or they make it full. */
  lemma ItemFills(ks: seq<Kind>, ss: seq<seq<Entry>>, hs: nat, f: nat, limit: int, h: nat, us: seq<Entry>,
                  rest: seq<Entry>, ps: seq<string>)
    requires Meets(ks, ss, hs, f, AtLeastOne(limit), h, us, rest, ps) && AtLeastOne(limit) <= |us| + |rest| &&
      f <= |Flat(ks, ss, |ks|)|
    ensures var (k, t) := (AtLeastOne(limit) - |us|, f + AtLeastOne(limit));
      && PageAt(ks, ss, hs, f, limit) == UploadList(us + rest[..k], ps, NextOf(ks, ss, t).Some?, NextOf(ks, ss, t))
      && (if k < |rest| then NextOf(ks, ss, t) == Some(rest[k]) else |Flat(ks, ss, h + 1)| == t)
  {
    FillsAfter(ks, ss, hs, f + AtLeastOne(limit), h);
    Cut(us, rest, Flat(ks, ss, h + 1), Flat(ks, ss, |ks|), f, AtLeastOne(limit));
    PageCut(ks, ss, hs, f, limit, h + 1);
  }

  lemma FillsAfter(ks: seq<Kind>, ss: seq<seq<Entry>>, hs: nat, t: nat, h: nat)
    requires hs <= h < |ks| == |ss| && ks[h].Item? && |Flat(ks, ss, h)| < t <= |Flat(ks, ss, h + 1)| &&
      Reach(ks, ss, hs, t) == Reach(ks, ss, h, t)
    ensures Reach(ks, ss, hs, t) == h + 1 && RolledBetween(ks, hs, h + 1) == RolledBetween(ks, hs, h) &&
      Flat(ks, ss, h + 1) <= Flat(ks, ss, |ks|)
  {
    FlatGrows(ks, ss, h + 1, |ks|);
    assert Reach(ks, ss, h + 1, t) == h + 1;
  }

  lemma PageCut(ks: seq<Kind>, ss: seq<seq<Entry>>, hs: nat, f: nat, limit: int, hi: nat)
    requires hs <= hi <= |ks| == |ss| && f + AtLeastOne(limit) <= |Flat(ks, ss, |ks|)| &&
      Reach(ks, ss, hs, f + AtLeastOne(limit)) == hi
    ensures var t := f + AtLeastOne(limit);
      PageAt(ks, ss, hs, f, limit) ==
        UploadList(Flat(ks, ss, |ks|)[f..t], RolledBetween(ks, hs, hi), NextOf(ks, ss, t).Some?, NextOf(ks, ss, t))
  {
  }

  lemma Cut(us: seq<Entry>, rest: seq<Entry>, upTo: seq<Entry>, all: seq<Entry>, f: nat, n: nat)
    requires upTo <= all && f <= |upTo| && us + rest == upTo[f..] && |us| < n <= |us| + |rest|
    ensures f + n <= |all| && all[f..f + n] == us + rest[..n - |us|]
    ensures n < |us| + |rest| ==> f + n < |all| && all[f + n] == rest[n - |us|]
  {
    assert upTo == all[..|upTo|];
    assert (us + rest)[..n] == us + rest[..n - |us|];
    assert upTo[f..][..n] == all[f..f + n];
  }

  /** The page ends with its keys. */
  lemma PageEndsFirst(ks: seq<Kind>, ss: seq<seq<Entry>>, hs: nat, f: nat, limit: int, us: seq<Entry>, ps: seq<string>)
    requires |ks| == |ss| && f <= |Flat(ks, ss, |ks|)| &&
      InPage(ks, ss, hs, f, AtLeastOne(limit), |ks|) == Some((us, ps))
    ensures hs <= |ks| && PageAt(ks, ss, hs, f, limit) == UploadList(us, ps, false, None)
  {
  }

  /** From key `h` on, the next upload is the first of the next item. */
  lemma NextItem(ks: seq<Kind>, ss: seq<seq<Entry>>, h: nat)
    requires |ks| == |ss| && h <= |ks| && forall i :: 0 <= i < |ss| ==> ss[i] != []
    ensures var t := |Flat(ks, ss, h)|;
      if h == |ks| then NextOf(ks, ss, t) == None
      else if ks[h].Item? then NextOf(ks, ss, t) == Some(ss[h][0])
      else |Flat(ks, ss, h + 1)| == t
  {
    if h < |ks| {
      FlatGrows(ks, ss, h + 1, |ks|);
      assert ks[h].Item? ==> Flat(ks, ss, h + 1)[|Flat(ks, ss, h)|] == ss[h][0];
    }
  }

  // ---- one key ----

  /** What the loop has before key `h`, once the first upload of the page was found or not. */
  ghost function Stand(ks: seq<Kind>, ss: seq<seq<Entry>>, st: Option<Start>, id: string, n: nat, h: nat, found: bool):
    Option<(seq<Entry>, seq<string>)>
    requires |ks| == |ss|
  {
    if !found then (if id != "" && h <= |ks| && st == Locate(ks, ss, id, h) then Some(([], [])) else None)
    else if st.Some? && st.value.h <= |ks| then InPage(ks, ss, st.value.h, First(ks, ss, st.value), n, h)
    else None
  }

  /** A visit to a key: the loop goes on, or the page is full; then `next` is what follows
      among the same key's uploads, if anything. */
  datatype Visit =
    | Goes(found: bool, uploads: seq<Entry>, prefixes: seq<string>)
    | Full(uploads: seq<Entry>, prefixes: seq<string>, next: Option<Entry>)

  /** What a visit to the key at `h` has to come to. */
  ghost predicate VisitOK(ks: seq<Kind>, ss: seq<seq<Entry>>, st: Option<Start>, id: string, limit: int, h: nat,
                          v: Visit)
  {
    && h < |ks| == |ss|
    && match v
       case Goes(found, us, ps) => Stand(ks, ss, st, id, AtLeastOne(limit), h + 1, found) == Some((us, ps))
       case Full(us, ps, next) =>
         && st.Some? && st.value.h <= |ks| && First(ks, ss, st.value) <= |Flat(ks, ss, |ks|)|
         && var t := First(ks, ss, st.value) + AtLeastOne(limit);
            && PageAt(ks, ss, st.value.h, First(ks, ss, st.value), limit) ==
              UploadList(us, ps, NextOf(ks, ss, t).Some?, NextOf(ks, ss, t))
            && (if next.Some? then NextOf(ks, ss, t) == next else |Flat(ks, ss, h + 1)| == t)
  }

  /** The inner loop: uploads are added until the limit is reached. */
  method AddUploads(before: seq<Entry>, rest: seq<Entry>, prefixes: seq<string>, limit: int) returns (v: Visit)
    requires |before| < AtLeastOne(limit)
    ensures var n := AtLeastOne(limit);
      v == if |before| + |rest| < n then Goes(true, before + rest, prefixes)
           else Full(before + rest[..n - |before|], prefixes,
                     if n - |before| < |rest| then Some(rest[n - |before|]) else None)
  {
    var uploads, idx := before, 0;
    assert before + rest[..0] == before;
    while idx < |rest|
      invariant idx <= |rest| && uploads == before + rest[..idx] && |uploads| < AtLeastOne(limit)
    {
      uploads := uploads + [rest[idx]];
      idx := idx + 1;
      assert rest[..idx] == rest[..idx - 1] + [rest[idx - 1]];
      if |uploads| >= limit {
        return Full(uploads, prefixes, if idx != |rest| then Some(rest[idx]) else None);
      }
    }
    assert rest[..|rest|] == rest;
    v := Goes(true, uploads, prefixes);
  }

  /** An item, from the upload its page goes on with. */
  method VisitItem(before: seq<Entry>, rest: seq<Entry>, prefixes: seq<string>, limit: int,
                   ghost ks: seq<Kind>, ghost ss: seq<seq<Entry>>, ghost st: Start, ghost id: string,
                    ghost h: nat)
    returns (v: Visit)
    requires |ks| == |ss| && st.h <= |ks| && First(ks, ss, st) <= |Flat(ks, ss, |ks|)|
    requires Meets(ks, ss, st.h, First(ks, ss, st), AtLeastOne(limit), h, before, rest, prefixes)
    ensures VisitOK(ks, ss, Some(st), id, limit, h, v)
  {
    v := AddUploads(before, rest, prefixes, limit);
    if |before| + |rest| < AtLeastOne(limit) {
      ItemFits(ks, ss, st.h, First(ks, ss, st), AtLeastOne(limit), h, before, rest, prefixes);
    } else {
      ItemFills(ks, ss, st.h, First(ks, ss, st), limit, h, before, rest, prefixes);
    }
  }

  method FindUpload(us: seq<Entry>, id: string) returns (at: Option<nat>)
    ensures at == IndexOf(us, id, 0)
  {
    for idx := 0 to |us|
      invariant IndexOf(us, id, 0) == IndexOf(us, id, idx)
    {
      if us[idx].id == id {
        return Some(idx);
      }
    }
    at := None;
  }

  function KindOfMatch(m: Option<PrefixMatch>): Kind {
    if m.None? then Skip else if m.value.commonPrefix then Roll(m.value.matchedPart) else Item
  }

  ghost predicate StartOK(ks: seq<Kind>, ss: seq<seq<Entry>>, st: Option<Start>)
    requires |ks| == |ss|
  {
    st.Some? ==> st.value.h <= |ks| && First(ks, ss, st.value) <= |Flat(ks, ss, |ks|)|
  }

  /** Where the upload sought is found: the page begins there. */
  lemma FoundItem(ks: seq<Kind>, ss: seq<seq<Entry>>, id: string, n: nat, h: nat, at: nat)
    requires h < |ks| == |ss| && ks[h].Item? && at <= |ss[h]| && n > 0
    ensures Meets(ks, ss, h, First(ks, ss, Start(h, at)), n, h, [], ss[h][at..], [])
  {
    assert [] + ss[h][at..] == Flat(ks, ss, h + 1)[|Flat(ks, ss, h)| + at..];
  }

  lemma FoundRoll(ks: seq<Kind>, ss: seq<seq<Entry>>, n: nat, h: nat, at: nat)
    requires h < |ks| == |ss| && ks[h].Roll? && n > 0
    ensures InPage(ks, ss, h, First(ks, ss, Start(h, at)), n, h) == Some(([], []))
  {
    var all := Flat(ks, ss, h);
    assert First(ks, ss, Start(h, at)) == |all| && all[|all|..] == [];
  }

  lemma GoesOn(ks: seq<Kind>, ss: seq<seq<Entry>>, hs: nat, f: nat, n: nat, h: nat, us: seq<Entry>, ps: seq<string>)
    requires h < |ks| == |ss| && ks[h].Item? && InPage(ks, ss, hs, f, n, h) == Some((us, ps))
    ensures Meets(ks, ss, hs, f, n, h, us, ss[h], ps)
  {
    assert us + ss[h] == Flat(ks, ss, h + 1)[f..];
  }

  /** One key of the listing, its name matched. */
  method VisitKey(m: Option<PrefixMatch>, entries: seq<Entry>, id: string, found: bool, uploads: seq<Entry>,
                  prefixes: seq<string>, limit: int, ghost ks: seq<Kind>, ghost ss: seq<seq<Entry>>,
                  ghost st: Option<Start>, ghost h: nat)
    returns (v: Visit)
    requires h < |ks| == |ss| && entries == ss[h] && ks[h] == KindOfMatch(m) && StartOK(ks, ss, st)
    requires Stand(ks, ss, st, id, AtLeastOne(limit), h, found) == Some((uploads, prefixes))
    ensures VisitOK(ks, ss, st, id, limit, h, v)
  {
    if found {
      v := VisitFound(m, entries, uploads, prefixes, limit, ks, ss, st.value, id, h);
    } else if m.None? {
      v := Goes(false, uploads, prefixes);
    } else {
      var at := FindUpload(entries, id);
      IndexOfIs(entries, id, 0);
      if at.None? {
        v := Goes(false, uploads, prefixes);
      } else if m.value.commonPrefix {
        FoundRoll(ks, ss, AtLeastOne(limit), h, at.value);
        v := VisitFound(m, entries, [], [], limit, ks, ss, st.value, id, h);
      } else {
        FoundItem(ks, ss, id, AtLeastOne(limit), h, at.value);
        v := VisitItem([], entries[at.value..], [], limit, ks, ss, st.value, id, h);
      }
    }
  }

  /** The same, once the first upload of the page is found. */
  method VisitFound(m: Option<PrefixMatch>, entries: seq<Entry>, uploads: seq<Entry>, prefixes: seq<string>, limit: int,
                    ghost ks: seq<Kind>, ghost ss: seq<seq<Entry>>, ghost st: Start, ghost id: string,
                    ghost h: nat)
    returns (v: Visit)
    requires h < |ks| == |ss| && entries == ss[h] && ks[h] == KindOfMatch(m) && StartOK(ks, ss, Some(st))
    requires Stand(ks, ss, Some(st), id, AtLeastOne(limit), h, true) == Some((uploads, prefixes))
    ensures VisitOK(ks, ss, Some(st), id, limit, h, v)
  {
    if m.Some? && !m.value.commonPrefix {
      GoesOn(ks, ss, st.h, First(ks, ss, st), AtLeastOne(limit), h, uploads, prefixes);
      v := VisitItem(uploads, entries, prefixes, limit, ks, ss, st, id, h);
    } else {
      PassOver(ks, ss, st.h, First(ks, ss, st), AtLeastOne(limit), h, uploads, prefixes);
      v := Goes(true, uploads, if m.Some? then AddPrefix(prefixes, m.value.matchedPart) else prefixes);
    }
  }

  // ---- the listing ----

  type UploadIterator = Iterator<seq<MultipartUpload>>

  /** The position of an iterator over the uploads of `x`; a failed seek ends at the keys'
      number, and is forgotten after that. */
  ghost function Over(iter: UploadIterator, x: Uploads): Option<int>
    reads iter, iter.inner
  {
    if iter.Valid() && iter.inner.list == x.index then Some(iter.Ahead()) else None
  }

  ghost predicate SeekFailed(iter: UploadIterator)
    reads iter
  {
    iter.didSeek && !iter.seekWasOK
  }

  method NextKey(iter: UploadIterator, ghost x: Uploads, ghost h: nat)
    returns (key: Option<string>, us: seq<MultipartUpload>)
    requires Over(iter, x) == Some(h)
    modifies iter, iter.inner
    ensures if h < |x.index.keys| then key == Some(x.index.keys[h]) && us == SliceAt(x, x.index.keys[h])
      else key == None
    ensures key.Some? ==> Over(iter, x) == Some(h + 1) && !SeekFailed(iter)
    ensures key.None? && !old(SeekFailed(iter)) ==> Over(iter, x) == Some(h) && !SeekFailed(iter)
    ensures key.None? && old(SeekFailed(iter)) && old(iter.inner.pos) == -1 ==>
      Over(iter, x) == Some(0) && !SeekFailed(iter)
  {
    var more := iter.Next();
    if !more { return None, []; }
    assert x.index.keys[h] in x.index.keys;
    key, us := iter.Key(), iter.Value();
  }

  /** From key `h` on, the next upload is `goal`. */
  ghost predicate Awaits(ks: seq<Kind>, ss: seq<seq<Entry>>, h: nat, goal: Option<Entry>) {
    h <= |ks| == |ss| && goal == NextOf(ks, ss, |Flat(ks, ss, h)|)
  }

  lemma AwaitStep(ks: seq<Kind>, ss: seq<seq<Entry>>, h: nat, goal: Option<Entry>)
    requires Awaits(ks, ss, h, goal) && forall i :: 0 <= i < |ss| ==> ss[i] != []
    ensures if h == |ks| then goal == None else if ks[h].Item? then goal == Some(ss[h][0])
      else Awaits(ks, ss, h + 1, goal)
  {
    NextItem(ks, ss, h);
  }

  /** The same for the uploads of a bucket. */
  ghost function NextFrom(x: Uploads, p: Prefix, h: nat): Option<Entry>
    requires h <= |x.index.keys|
  {
    NextOf(UploadKinds(x, p), AllEntries(x), |Flat(UploadKinds(x, p), AllEntries(x), h)|)
  }

  lemma NextFromStep(x: Uploads, p: Prefix, h: nat)
    requires h <= |x.index.keys| && NoneEmpty(AllEntries(x))
    ensures if h == |x.index.keys| then NextFrom(x, p, h) == None
            else if UploadKinds(x, p)[h].Item? then
              AllEntries(x)[h] != [] && NextFrom(x, p, h) == Some(AllEntries(x)[h][0])
            else NextFrom(x, p, h) == NextFrom(x, p, h + 1)
  {
    AwaitStep(UploadKinds(x, p), AllEntries(x), h, NextFrom(x, p, h));
  }

  /** What the listing knows of one of its keys. */
  lemma KeyKnown(x: Uploads, p: Prefix, h: nat)
    requires h < |x.index.keys|
    ensures var key := x.index.keys[h];
      UploadKinds(x, p)[h] == KindOfMatch(MatchOf(p, key)) && AllEntries(x)[h] == KeyEntries(key, SliceAt(x, key))
  {
  }

  /** Moves to the next key, and sorts it. */
  method NextMatch(iter: UploadIterator, p: Prefix, ghost x: Uploads, ghost h: nat)
    returns (more: bool, m: Option<PrefixMatch>, entries: seq<Entry>)
    requires Over(iter, x) == Some(h)
    modifies iter, iter.inner
    ensures more == (h < |x.index.keys|)
    ensures more ==> Over(iter, x) == Some(h + 1) && !SeekFailed(iter)
    ensures more ==> UploadKinds(x, p)[h] == KindOfMatch(m) && AllEntries(x)[h] == entries
    ensures !more && !old(SeekFailed(iter)) ==> Over(iter, x) == Some(h) && !SeekFailed(iter)
    ensures !more && old(SeekFailed(iter)) && old(iter.inner.pos) == -1 ==>
      Over(iter, x) == Some(0) && !SeekFailed(iter)
  {
    var key, us := NextKey(iter, x, h);
    if key.None? {
      return false, None, [];
    }
    KeyKnown(x, p, h);
    more, entries := true, KeyEntries(key.value, us);
    m := Match(p, key.value);
  }

  /** The next upload from each key on, and none after the last. */
  ghost predicate GoalAt(x: Uploads, p: Prefix, goals: seq<Option<Entry>>, h: nat)
    requires h < |goals| == |x.index.keys| + 1
  {
    if h == |x.index.keys| then goals[h] == None
    else if UploadKinds(x, p)[h].Item? then AllEntries(x)[h] != [] && goals[h] == Some(AllEntries(x)[h][0])
    else goals[h] == goals[h + 1]
  }

  ghost predicate GoalsOK(x: Uploads, p: Prefix, goals: seq<Option<Entry>>) {
    |goals| == |x.index.keys| + 1 && forall h :: 0 <= h < |goals| ==> GoalAt(x, p, goals, h)
  }

  lemma GoalsFrom(x: Uploads, p: Prefix, start: nat, goal: Option<Entry>) returns (goals: seq<Option<Entry>>)
    requires NoneEmpty(AllEntries(x)) && Awaits(UploadKinds(x, p), AllEntries(x), start, goal)
    ensures GoalsOK(x, p, goals) && start < |goals| && goals[start] == goal
  {
    goals := seq(|x.index.keys| + 1, h requires 0 <= h <= |x.index.keys| => NextFrom(x, p, h));
    forall h | 0 <= h < |goals|
      ensures GoalAt(x, p, goals, h)
    {
      NextFromStep(x, p, h);
    }
  }

  /** The position of an iterator from which the next upload is `goal`. */
  ghost function Seeking(iter: UploadIterator, x: Uploads, goals: seq<Option<Entry>>, goal: Option<Entry>): Option<int>
    reads iter, iter.inner
  {
    var at := Over(iter, x);
    if at.Some? && !SeekFailed(iter) && 0 <= at.value < |goals| && goals[at.value] == goal then at else None
  }

  /** One more key. */
  method SeekKey(iter: UploadIterator, p: Prefix, ghost x: Uploads, ghost goals: seq<Option<Entry>>, ghost h: nat,
                 ghost goal: Option<Entry>)
    returns (done: bool, next: Option<Entry>)
    requires GoalsOK(x, p, goals) && Seeking(iter, x, goals, goal) == Some(h)
    modifies iter, iter.inner
    ensures if done then next == goal else h < |x.index.keys| && Seeking(iter, x, goals, goal) == Some(h + 1)
  {
    assert GoalAt(x, p, goals, h);
    var more, m, entries := NextMatch(iter, p, x, h);
    if !more {
      return true, None;
    }
    if m.Some? && !m.value.commonPrefix {
      return true, Some(entries[0]);
    }
    done, next := false, None;
  }

  /** After the loop: whether an item is left, and the first of its uploads. */
  method SeekNext(iter: UploadIterator, p: Prefix, ghost x: Uploads, ghost goals: seq<Option<Entry>>, ghost start: nat,
                  ghost goal: Option<Entry>)
    returns (next: Option<Entry>)
    requires GoalsOK(x, p, goals) && Seeking(iter, x, goals, goal) == Some(start)
    modifies iter, iter.inner
    ensures next == goal
  {
    ghost var h := start;
    var done := false;
    next := None;
    while !done
      invariant if done then next == goal else Seeking(iter, x, goals, goal) == Some(h)
      decreases if done then 0 else |goals| - h
    {
      done, next := SeekKey(iter, p, x, goals, h, goal);
      h := if done then h else h + 1;
    }
  }

  ghost predicate NoneEmpty(ss: seq<seq<Entry>>) {
    forall i :: 0 <= i < |ss| ==> ss[i] != []
  }

  /** A listing: what is asked for, and where its page starts. */
  datatype Listed = Listed(x: Uploads, p: Prefix, marker: Option<Marker>, limit: int)
  {
    ghost function Start(): Option<Start> {
      StartAt(UploadKinds(x, p), AllEntries(x), x.index.keys, marker)
    }

    ghost function Id(): string {
      if marker.Some? then marker.value.uploadID else ""
    }

    ghost predicate BeyondAll() {
      marker.Some? && Rank(x.index.keys, marker.value.key) == |x.index.keys|
    }

    /** What the loop has before key `h`. */
    ghost function At(h: nat, found: bool): Option<(seq<Entry>, seq<string>)> {
      Stand(UploadKinds(x, p), AllEntries(x), Start(), Id(), AtLeastOne(limit), h, found)
    }

    ghost function Result(): UploadList {
      UploadListing.ListUploads(x, marker, p, limit)
    }
  }

  /** The loop starts at the marker's key, or at the first. */
  lemma ListingStarts(l: Listed)
    ensures var h := if l.marker.Some? then Rank(l.x.index.keys, l.marker.value.key) else 0;
      l.At(h, l.marker.None? || l.marker.value.uploadID == "") == Some(([], []))
  {
    var h := if l.marker.Some? then Rank(l.x.index.keys, l.marker.value.key) else 0;
    var all := Flat(UploadKinds(l.x, l.p), AllEntries(l.x), h);
    assert all[|all|..] == [];
  }

  lemma ListingStartOK(l: Listed)
    ensures StartOK(UploadKinds(l.x, l.p), AllEntries(l.x), l.Start())
  {
    StartFits(UploadKinds(l.x, l.p), AllEntries(l.x), l.x.index.keys, l.marker);
  }

  lemma ListingExhausted(l: Listed, found: bool, us: seq<Entry>, ps: seq<string>)
    requires l.At(|l.x.index.keys|, found) == Some((us, ps)) && !l.BeyondAll()
    ensures l.Result() == UploadList(us, ps, false, None)
    ensures Awaits(UploadKinds(l.x, l.p), AllEntries(l.x), |l.x.index.keys|, None)
  {
    ListingStartOK(l);
    var ks, ss, st := UploadKinds(l.x, l.p), AllEntries(l.x), l.Start();
    if found {
      PageEndsFirst(ks, ss, st.value.h, First(ks, ss, st.value), l.limit, us, ps);
    }
  }

  lemma ListingBeyondAll(l: Listed)
    requires l.BeyondAll()
    ensures var goal := NextOf(UploadKinds(l.x, l.p), AllEntries(l.x), 0);
      l.Result() == UploadList([], [], goal.Some?, goal) && Awaits(UploadKinds(l.x, l.p), AllEntries(l.x), 0, goal)
  {
    assert Flat(UploadKinds(l.x, l.p), AllEntries(l.x), 0) == [];
  }

  lemma PageIsAt(ks: seq<Kind>, ss: seq<seq<Entry>>, keys: seq<string>, marker: Option<Marker>, limit: int)
    requires |keys| == |ks| == |ss| && StartAt(ks, ss, keys, marker).Some? &&
      StartOK(ks, ss, StartAt(ks, ss, keys, marker))
    requires marker.Some? ==> Rank(keys, marker.value.key) < |keys|
    ensures var st := StartAt(ks, ss, keys, marker).value;
      Page(ks, ss, keys, marker, limit) == PageAt(ks, ss, st.h, First(ks, ss, st), limit)
  {
  }

  lemma ListingFull(l: Listed, h: nat, v: Visit) returns (goal: Option<Entry>)
    requires v.Full? && VisitOK(UploadKinds(l.x, l.p), AllEntries(l.x), l.Start(), l.Id(), l.limit, h, v) &&
      !l.BeyondAll()
    ensures l.Result() == UploadList(v.uploads, v.prefixes, goal.Some?, goal)
    ensures if v.next.Some? then goal == v.next else Awaits(UploadKinds(l.x, l.p), AllEntries(l.x), h + 1, goal)
  {
    goal := FullPage(UploadKinds(l.x, l.p), AllEntries(l.x), l.x.index.keys, l.marker, l.Id(), l.limit, h, v);
  }

  lemma FullPage(ks: seq<Kind>, ss: seq<seq<Entry>>, keys: seq<string>, marker: Option<Marker>, id: string, limit: int,
                 h: nat, v: Visit)
    returns (goal: Option<Entry>)
    requires |keys| == |ks| == |ss| && v.Full? && VisitOK(ks, ss, StartAt(ks, ss, keys, marker), id, limit, h, v)
    requires marker.Some? ==> Rank(keys, marker.value.key) < |keys|
    ensures Page(ks, ss, keys, marker, limit) == UploadList(v.uploads, v.prefixes, goal.Some?, goal)
    ensures if v.next.Some? then goal == v.next else Awaits(ks, ss, h + 1, goal)
  {
    PageIsAt(ks, ss, keys, marker, limit);
    goal := NextOf(ks, ss, First(ks, ss, StartAt(ks, ss, keys, marker).value) + AtLeastOne(limit));
  }

  /** One turn of the loop. */
  method Turn(iter: UploadIterator, p: Prefix, limit: int, id: string, found: bool, uploads: seq<Entry>,
              prefixes: seq<string>, ghost l: Listed, ghost h: nat)
    returns (r: Option<UploadList>, v: Visit)
    requires l == Listed(l.x, p, l.marker, limit) && id == l.Id() && NoneEmpty(AllEntries(l.x)) &&
      Over(iter, l.x) == Some(h)
    requires SeekFailed(iter) == l.BeyondAll() &&
      (l.BeyondAll() ==> h == |l.x.index.keys| && iter.inner.pos == -1 && uploads == [] && prefixes == [])
    requires l.At(h, found) == Some((uploads, prefixes))
    modifies iter, iter.inner
    ensures r.Some? ==> r.value == l.Result()
    ensures r.None? ==>
      h < |l.x.index.keys| && v.Goes? && Over(iter, l.x) == Some(h + 1) && !SeekFailed(iter) && !l.BeyondAll()
    ensures r.None? ==> l.At(h + 1, v.found) == Some((v.uploads, v.prefixes))
  {
    v := Goes(found, uploads, prefixes);
    var more, m, entries := NextMatch(iter, p, l.x, h);
    if !more {
      r := Exhausted(iter, p, found, uploads, prefixes, l);
      return;
    }
    ListingStartOK(l);
    v := VisitKey(m, entries, id, found, uploads, prefixes, limit, UploadKinds(l.x, p), AllEntries(l.x), l.Start(), h);
    if v.Goes? {
      return None, v;
    }
    r := Filled(iter, p, v, l, h);
  }

  /** The page is full: what follows is of the same key or of a later one. */
  method Filled(iter: UploadIterator, p: Prefix, v: Visit, ghost l: Listed, ghost h: nat)
    returns (r: Option<UploadList>)
    requires p == l.p && NoneEmpty(AllEntries(l.x)) && Over(iter, l.x) == Some(h + 1) && !SeekFailed(iter) &&
      !l.BeyondAll()
    requires v.Full? && VisitOK(UploadKinds(l.x, l.p), AllEntries(l.x), l.Start(), l.Id(), l.limit, h, v)
    modifies iter, iter.inner
    ensures r == Some(l.Result())
  {
    ghost var goal := ListingFull(l, h, v);
    if v.next.Some? {
      return Some(UploadList(v.uploads, v.prefixes, true, v.next));
    }
    ghost var goals := GoalsFrom(l.x, p, h + 1, goal);
    var after := SeekNext(iter, p, l.x, goals, h + 1, goal);
    r := Some(UploadList(v.uploads, v.prefixes, after.Some?, after));
  }

  method Exhausted(iter: UploadIterator, p: Prefix, found: bool, uploads: seq<Entry>, prefixes: seq<string>,
                   ghost l: Listed)
    returns (r: Option<UploadList>)
    requires p == l.p && NoneEmpty(AllEntries(l.x)) && !SeekFailed(iter)
    requires Over(iter, l.x) == Some(if l.BeyondAll() then 0 else |l.x.index.keys|)
    requires if l.BeyondAll() then uploads == [] && prefixes == []
      else l.At(|l.x.index.keys|, found) == Some((uploads, prefixes))
    modifies iter, iter.inner
    ensures r == Some(l.Result())
  {
    ghost var goal: Option<Entry> := None;
    ghost var start := 0;
    if l.BeyondAll() {
      ListingBeyondAll(l);
      goal := NextOf(UploadKinds(l.x, l.p), AllEntries(l.x), 0);
    } else {
      ListingExhausted(l, found, uploads, prefixes);
      start := |l.x.index.keys|;
    }
    ghost var goals := GoalsFrom(l.x, p, start, goal);
    var next := SeekNext(iter, p, l.x, goals, start, goal);
    r := Some(UploadList(uploads, prefixes, next.Some?, next));
  }

  method Begin(x: Uploads, marker: Option<Marker>, ghost l: Listed)
    returns (iter: UploadIterator, firstFound: bool, id: string, ghost h: nat)
    requires Sorted(x.index) && l.x == x && l.marker == marker
    ensures fresh(iter) && fresh(iter.inner) && Over(iter, x) == Some(h) && h <= |x.index.keys|
    ensures SeekFailed(iter) == l.BeyondAll() && (l.BeyondAll() ==> h == |x.index.keys| && iter.inner.pos == -1)
    ensures id == l.Id() && l.At(h, firstFound) == Some(([], []))
  {
    iter := new Iterator(x.index);
    firstFound, id, h := true, "", 0;
    if marker.Some? {
      var ok := iter.Seek(marker.value.key);
      firstFound, id, h := marker.value.uploadID == "", marker.value.uploadID, Rank(x.index.keys, marker.value.key);
    }
    ListingStarts(l);
  }

  /** ListMultipartUploads over the uploads of a bucket, for any marker. */
  method ListUploads(x: Uploads, marker: Option<Marker>, p: Prefix, limit: int) returns (r: UploadList)
    requires Sorted(x.index) && NoneEmpty(AllEntries(x))
    ensures r == UploadListing.ListUploads(x, marker, p, limit)
  {
    ghost var l := Listed(x, p, marker, limit);
    var iter, firstFound, id, h := Begin(x, marker, l);
    var uploads, prefixes, done := [], [], None;
    while done.None?
      invariant fresh(iter) && fresh(iter.inner) && h <= |x.index.keys|
      invariant done.None? ==>
        Over(iter, x) == Some(h) && SeekFailed(iter) == l.BeyondAll() &&
          l.At(h, firstFound) == Some((uploads, prefixes))
      invariant done.None? && l.BeyondAll() ==>
        h == |x.index.keys| && iter.inner.pos == -1 && uploads == [] && prefixes == []
      invariant done.Some? ==> done.value == l.Result()
      decreases |x.index.keys| - h, done.None?
    {
      var v;
      done, v := Turn(iter, p, limit, id, firstFound, uploads, prefixes, l, h);
      if v.Goes? {
        firstFound, uploads, prefixes := v.found, v.uploads, v.prefixes;
      }
      h := if done.None? then h + 1 else h;
    }
    r := done.value;
  }
}
