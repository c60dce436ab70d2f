/** The prefix/delimiter matcher of bucket listings. */
module Prefixes {
  import opened Basics

  datatype Prefix = Prefix(hasPrefix: bool, prefix: string, hasDelimiter: bool, delimiter: string)

  datatype PrefixMatch = PrefixMatch(key: string, commonPrefix: bool, matchedPart: string)

  const EMPTY_PREFIX := Prefix(false, "", false, "")

  const BY_SLASH := Prefix(false, "", true, "/")

  // ---- Go's string functions ----

  /** strings.TrimLeft: drops leading characters that occur in the cutset. */
  function TrimLeft(s: string, cutset: string): (t: string)
    ensures |t| <= |s|
  {
    if s != "" && s[0] in cutset then TrimLeft(s[1..], cutset) else s
  }

  /** The first place where `sep` starts in `s`, or the length of `s`. */
  function Find(s: string, sep: string): (i: nat)
    requires sep != ""
    ensures i <= |s|
    ensures i < |s| ==> i + |sep| <= |s| && s[i..i + |sep|] == sep
  {
    if s == "" || sep <= s then 0
    else
      var i := Find(s[1..], sep);
      assert i + 1 < |s| ==> s[i + 1..i + 1 + |sep|] == s[1..][i..i + |sep|];
      i + 1
  }

  /** strings.Split; an empty separator splits into characters. */
  function Split(s: string, sep: string): (parts: seq<string>)
    decreases |s|
  {
    if sep == "" then seq(|s|, i requires 0 <= i < |s| => [s[i]])
    else
      var i := Find(s, sep);
      if i == |s| then [s] else [s[..i]] + Split(s[i + |sep|..], sep)
  }

  function Join(parts: seq<string>, sep: string): string {
    if parts == [] then ""
    else if |parts| == 1 then parts[0]
    else parts[0] + sep + Join(parts[1..], sep)
  }

  // ---- the matcher ----

  /** All parts but the last of the prefix equal the key's; the last begins it. */
  predicate PartsMatch(keyParts: seq<string>, preParts: seq<string>) {
    && 0 < |preParts| <= |keyParts|
    && (forall i :: 0 <= i < |preParts| - 1 ==> keyParts[i] == preParts[i])
    && preParts[|preParts| - 1] <= keyParts[|preParts| - 1]
  }

  /** The key's matched parts, with a delimiter where more parts follow. */
  function MatchedParts(keyParts: seq<string>, n: nat, delimiter: string): string
    requires n <= |keyParts|
  {
    Join(keyParts[..n], delimiter) + (if |keyParts| != n then delimiter else "")
  }

  function MatchOf(p: Prefix, key: string): Option<PrefixMatch> {
    if !p.hasPrefix && !p.hasDelimiter then Some(PrefixMatch(key, false, key))
    else if !p.hasDelimiter then
      if p.prefix <= key then Some(PrefixMatch(key, false, p.prefix)) else None
    else
      var keyParts := Split(TrimLeft(key, p.delimiter), p.delimiter);
      var preParts := Split(TrimLeft(p.prefix, p.delimiter), p.delimiter);
      if PartsMatch(keyParts, preParts) then
        var out := MatchedParts(keyParts, |preParts|, p.delimiter);
        Some(PrefixMatch(key, out != key, out))
      else None
  }

  /** A key that matches as itself, or as one with the common prefix `part`. */
  predicate MatchesAsKey(p: Prefix, key: string) {
    MatchOf(p, key).Some? && !MatchOf(p, key).value.commonPrefix
  }

  predicate MatchesAsPart(p: Prefix, key: string, part: string) {
    MatchOf(p, key).Some? && MatchOf(p, key).value.commonPrefix && MatchOf(p, key).value.matchedPart == part
  }

  /** Without a delimiter every key that starts with the prefix matches as itself, and no
      other does; without a prefix every key. */
  lemma NoDelimiterExactly(p: Prefix, key: string)
    requires !p.hasDelimiter
    ensures MatchesAsKey(p, key) <==>
      p.hasPrefix ==> |p.prefix| <= |key| && forall i :: 0 <= i < |p.prefix| ==> key[i] == p.prefix[i]
    ensures MatchOf(p, key).Some? ==>
      MatchOf(p, key) == Some(PrefixMatch(key, false, if p.hasPrefix then key[..|p.prefix|] else key))
  {
    assert |p.prefix| <= |key| ==> (p.prefix <= key <==> key[..|p.prefix|] == p.prefix);
  }

  /** Prefix.Match: None where the original returns false. */
  method Match(p: Prefix, key: string) returns (m: Option<PrefixMatch>)
    ensures m == MatchOf(p, key)
  {
    if !p.hasPrefix && !p.hasDelimiter {
      return Some(PrefixMatch(key, false, key));
    }
    if !p.hasDelimiter {
      if p.prefix <= key {
        return Some(PrefixMatch(key, false, p.prefix));
      }
      return None;
    }
    var keyParts := Split(TrimLeft(key, p.delimiter), p.delimiter);
    var preParts := Split(TrimLeft(p.prefix, p.delimiter), p.delimiter);
    if |keyParts| < |preParts| {
      return None;
    }
    var appendDelim := |keyParts| != |preParts|;
    var matched := CountMatched(keyParts, preParts);
    if matched == 0 {
      return None;
    }
    var out := Join(keyParts[..matched], p.delimiter);
    out := out + if appendDelim then p.delimiter else "";
    return Some(PrefixMatch(key, out != key, out));
  }

  /** The matching loop: all parts, or zero where the original returns false. */
  method CountMatched(keyParts: seq<string>, preParts: seq<string>) returns (matched: nat)
    requires |preParts| <= |keyParts|
    ensures matched == if PartsMatch(keyParts, preParts) then |preParts| else 0
  {
    var last := |preParts| - 1;
    matched := 0;
    for i := 0 to |preParts|
      invariant matched == i
      invariant forall j :: 0 <= j < i && j < last ==> keyParts[j] == preParts[j]
      invariant i == last + 1 && i > 0 ==> preParts[last] <= keyParts[last]
    {
      if i == last {
        if !(preParts[i] <= keyParts[i]) { return 0; }
      } else {
        if keyParts[i] != preParts[i] { return 0; }
      }
      matched := matched + 1;
    }
  }

  // ---- where the prefix ends: any delimiter ----

  /** Where the last delimiter of `s` ends, splitting from the left; 0 if there is none. */
  function LastEnd(s: string, d: string): (r: nat)
    requires d != ""
    ensures r <= |s|
    decreases |s|
  {
    var i := Find(s, d);
    if i == |s| then 0 else i + |d| + LastEnd(s[i + |d|..], d)
  }

  /** Where the key's next delimiter starts, looking from the end of the prefix's last one. */
  function NextStart(key: string, prefix: string, d: string): nat
    requires d != "" && prefix <= key
  {
    var r := LastEnd(prefix, d);
    r + Find(key[r..], d)
  }

  /** The key starts with the prefix, and its next delimiter does not start inside it. */
  predicate StartsWhole(key: string, prefix: string, d: string)
    requires d != ""
  {
    prefix <= key && NextStart(key, prefix, d) >= |prefix|
  }

  /** The key through that delimiter, or the whole key when there is none. */
  function Through(key: string, prefix: string, d: string): string
    requires d != "" && prefix <= key
  {
    var e := NextStart(key, prefix, d);
    if e < |key| && e + |d| <= |key| then key[..e + |d|] else key
  }

  /** What the split-and-compare matcher says of a key and a prefix, given their parts. */
  ghost predicate PartsSay(keyParts: seq<string>, preParts: seq<string>, key: string, prefix: string, d: string)
    requires d != ""
  {
    && (PartsMatch(keyParts, preParts) <==> StartsWhole(key, prefix, d))
    && (StartsWhole(key, prefix, d) ==>
          |preParts| <= |keyParts| && MatchedParts(keyParts, |preParts|, d) == Through(key, prefix, d))
  }

  ghost predicate MatchesWhole(key: string, prefix: string, d: string)
    requires d != ""
  {
    PartsSay(Split(key, d), Split(prefix, d), key, prefix, d)
  }

  lemma SplitNonEmpty(s: string, d: string)
    requires d != ""
    ensures |Split(s, d)| >= 1
  {
  }

  /** A delimiter that a key shares with the prefix is the first of both. */
  lemma {:induction false} FindShared(prefix: string, key: string, d: string)
    requires d != "" && Find(prefix, d) < |prefix| && prefix[..Find(prefix, d) + |d|] <= key
    ensures Find(key, d) == Find(prefix, d)
    decreases |prefix|
  {
    var i := Find(prefix, d);
    assert key[..i + |d|] == prefix[..i + |d|];
    if d <= prefix {
      assert key[..|d|] == d;
    } else {
      assert key[..|d|] == prefix[..i + |d|][..|d|] == prefix[..|d|];
      TailShared(prefix, key, i + |d|);
      FindShared(prefix[1..], key[1..], d);
    }
  }

  lemma TailShared(s: string, t: string, n: nat)
    requires 0 < n <= |s| && s[..n] <= t
    ensures s[1..][..n - 1] <= t[1..]
  {
    assert t[..n] == s[..n];
    assert s[1..][..n - 1] == s[..n][1..] == t[..n][1..] == t[1..][..n - 1];
  }

  lemma OnePart(keyParts: seq<string>, d: string)
    requires keyParts != []
    ensures MatchedParts(keyParts, 1, d) == keyParts[0] + (if |keyParts| != 1 then d else "")
  {
    assert keyParts[..1] == [keyParts[0]];
  }

  /** A prefix without a delimiter: the key's first one decides. */
  lemma ThroughFirst(key: string, prefix: string, d: string)
    requires d != "" && Find(prefix, d) == |prefix| && prefix <= key
    ensures var j := Find(key, d);
      NextStart(key, prefix, d) == j && Through(key, prefix, d) == key[..j] + (if j < |key| then d else "")
  {
    assert LastEnd(prefix, d) == 0 && key[0..] == key;
    HeadAndNext(key, Find(key, d), |d|);
  }

  lemma HeadAndNext(s: string, i: nat, n: nat)
    ensures i + n <= |s| ==> s[..i + n] == s[..i] + s[i..i + n]
    ensures i == |s| ==> s[..i] + "" == s
  {
  }

  /** The last part of the prefix: it has no delimiter left. */
  lemma LastPartMatches(key: string, prefix: string, d: string)
    requires d != "" && Find(prefix, d) == |prefix|
    ensures MatchesWhole(key, prefix, d)
  {
    FirstPart(key, d);
    BeginsHead(key, prefix, Find(key, d));
    OnePart(Split(key, d), d);
    if prefix <= key {
      ThroughFirst(key, prefix, d);
    }
    assert Split(prefix, d) == [prefix];
  }

  /** The first part of `s` runs up to `i`, where the first delimiter is, if there is one. */
  ghost predicate FirstPartIs(parts: seq<string>, s: string, i: nat, d: string) {
    && i <= |s| && parts != [] && parts[0] == s[..i] && (|parts| == 1 <==> i == |s|)
    && (i < |s| ==> i + |d| <= |s| && s[i..i + |d|] == d)
  }

  lemma FirstPart(s: string, d: string)
    requires d != ""
    ensures FirstPartIs(Split(s, d), s, Find(s, d), d)
  {
    var i := Find(s, d);
    if i < |s| {
      SplitNonEmpty(s[i + |d|..], d);
    }
  }

  lemma BeginsHead(s: string, t: string, j: nat)
    requires j <= |s|
    ensures t <= s[..j] <==> t <= s && |t| <= j
  {
    if t <= s && |t| <= j {
      assert s[..j][..|t|] == s[..|t|];
    }
    if t <= s[..j] {
      assert s[..|t|] == s[..j][..|t|];
    }
  }

  lemma JoinCons(head: string, parts: seq<string>, sep: string)
    requires parts != []
    ensures Join([head] + parts, sep) == head + sep + Join(parts, sep)
  {
    assert ([head] + parts)[1..] == parts;
  }

  lemma PartsMatchCons(h: string, keyParts: seq<string>, g: string, preParts: seq<string>)
    requires preParts != []
    ensures PartsMatch([h] + keyParts, [g] + preParts) <==> h == g && PartsMatch(keyParts, preParts)
  {
    var ks, ps, n := [h] + keyParts, [g] + preParts, |preParts|;
    if PartsMatch(ks, ps) {
      forall i | 0 <= i < n - 1
        ensures keyParts[i] == preParts[i]
      {
        assert ks[i + 1] == ps[i + 1];
      }
      assert ks[0] == ps[0] && ps[n] == preParts[n - 1] && ks[n] == keyParts[n - 1];
    }
    if h == g && PartsMatch(keyParts, preParts) {
      forall i | 0 <= i < n
        ensures ks[i] == ps[i]
      {
      }
    }
  }

  lemma MatchedPartsCons(head: string, keyParts: seq<string>, n: nat, d: string)
    requires 0 < n <= |keyParts|
    ensures MatchedParts([head] + keyParts, n + 1, d) == head + d + MatchedParts(keyParts, n, d)
  {
    assert ([head] + keyParts)[..n + 1] == [head] + keyParts[..n];
    JoinCons(head, keyParts[..n], d);
  }

  lemma PrefixShift(front: string, x: string, y: string)
    ensures front + x <= front + y <==> x <= y
  {
    assert (front + x)[|front|..] == x && (front + y)[|front|..] == y;
    if front + x <= front + y {
      assert (front + y)[..|front| + |x|] == front + x;
      assert y[..|x|] == (front + y)[..|front| + |x|][|front|..];
    }
  }

  lemma TailOfSum(front: string, x: string, r: nat)
    requires r <= |x|
    ensures (front + x)[|front| + r..] == x[r..] && (front + x)[..|front| + r] == front + x[..r]
  {
  }

  /** Where `front` ends with the first delimiter of the prefix. */
  lemma LastEndShift(front: string, q: string, d: string)
    requires d != "" && Find(front + q, d) < |front + q| && Find(front + q, d) + |d| == |front|
    ensures LastEnd(front + q, d) == |front| + LastEnd(q, d)
  {
    TailOfSum(front, q, 0);
    assert q[0..] == q;
  }

  lemma NextStartShift(front: string, k: string, q: string, d: string)
    requires d != "" && LastEnd(front + q, d) == |front| + LastEnd(q, d) && q <= k && front + q <= front + k
    ensures NextStart(front + k, front + q, d) == |front| + NextStart(k, q, d)
  {
    var r := LastEnd(q, d);
    TailOfSum(front, k, r);
    assert NextStart(front + k, front + q, d) == |front| + r + Find((front + k)[|front| + r..], d);
  }

  lemma ThroughShift(front: string, k: string, q: string, d: string)
    requires d != "" && q <= k && front + q <= front + k
    requires NextStart(front + k, front + q, d) == |front| + NextStart(k, q, d)
    ensures Through(front + k, front + q, d) == front + Through(k, q, d)
  {
    var e := NextStart(k, q, d);
    if e < |k| && e + |d| <= |k| {
      TailOfSum(front, k, e + |d|);
    }
  }

  /** Both begin with `front`. */
  lemma StartsShift(front: string, k: string, q: string, d: string)
    requires d != "" && Find(front + q, d) < |front + q| && Find(front + q, d) + |d| == |front|
    ensures StartsWhole(front + k, front + q, d) <==> StartsWhole(k, q, d)
    ensures StartsWhole(k, q, d) ==> Through(front + k, front + q, d) == front + Through(k, q, d)
  {
    PrefixShift(front, q, k);
    LastEndShift(front, q, d);
    if q <= k {
      NextStartShift(front, k, q, d);
      ThroughShift(front, k, q, d);
    }
  }

  /** A shared first part is put before the parts of both. */
  lemma PartsSayCons(h: string, ks: seq<string>, qs: seq<string>, k: string, q: string, key: string, prefix: string,
                     d: string)
    requires d != "" && qs != [] && PartsSay(ks, qs, k, q, d)
    requires StartsWhole(key, prefix, d) <==> StartsWhole(k, q, d)
    requires StartsWhole(k, q, d) ==> Through(key, prefix, d) == h + d + Through(k, q, d)
    ensures PartsSay([h] + ks, [h] + qs, key, prefix, d)
  {
    PartsMatchCons(h, ks, h, qs);
    if StartsWhole(k, q, d) {
      MatchedPartsCons(h, ks, |qs|, d);
    }
  }

  lemma SplitFirst(s: string, d: string)
    requires d != "" && Find(s, d) < |s|
    ensures var i := Find(s, d);
      s == s[..i] + d + s[i + |d|..] && Split(s, d) == [s[..i]] + Split(s[i + |d|..], d)
  {
    Recompose(s, Find(s, d), |d|);
  }

  lemma Recompose(s: string, i: nat, n: nat)
    requires i + n <= |s|
    ensures s == s[..i] + s[i..i + n] + s[i + n..]
  {
  }

  lemma HeadOfPrefix(s: string, t: string, n: nat)
    requires n <= |s|
    ensures s <= t ==> s[..n] <= t
  {
    if s <= t {
      assert t[..n] == t[..|s|][..n];
    }
  }

  /** Equal first parts, each followed by the delimiter. */
  lemma SameFirstPart(key: string, prefix: string, i: nat, d: string)
    requires i + |d| <= |prefix| && prefix[i..i + |d|] == d && i + |d| <= |key| && key[i..i + |d|] == d
    ensures key[..i] == prefix[..i] ==> prefix[..i + |d|] <= key
  {
    HeadAndNext(key, i, |d|);
    HeadAndNext(prefix, i, |d|);
  }

  /** Where the key does not go on as the prefix does, nothing matches. */
  lemma PartsDiffer(key: string, prefix: string, d: string)
    requires d != "" && Find(prefix, d) < |prefix| && !(prefix[..Find(prefix, d) + |d|] <= key)
    ensures !PartsMatch(Split(key, d), Split(prefix, d))
  {
    FirstPart(key, d);
    FirstPart(prefix, d);
    DifferByParts(Split(key, d), Split(prefix, d), key, prefix, Find(prefix, d), Find(key, d), d);
  }

  lemma DifferByParts(keyParts: seq<string>, preParts: seq<string>, key: string, prefix: string, i: nat, j: nat,
                      d: string)
    requires FirstPartIs(keyParts, key, j, d) && FirstPartIs(preParts, prefix, i, d)
    requires i < |prefix| && !(prefix[..i + |d|] <= key)
    ensures !PartsMatch(keyParts, preParts)
  {
    FirstPartsAgree(keyParts, preParts);
    if i == j < |key| {
      SameFirstPart(key, prefix, i, d);
    }
  }

  lemma FirstPartsAgree(keyParts: seq<string>, preParts: seq<string>)
    requires |preParts| > 1
    ensures PartsMatch(keyParts, preParts) ==> |keyParts| > 1 && keyParts[0] == preParts[0]
  {
  }

  /** Where it does, both lose the same first part. */
  lemma SharedPart(key: string, prefix: string, d: string)
    requires d != "" && Find(prefix, d) < |prefix| && prefix[..Find(prefix, d) + |d|] <= key
    requires var n := Find(prefix, d) + |d|; MatchesWhole(key[n..], prefix[n..], d)
    ensures MatchesWhole(key, prefix, d)
  {
    var i := Find(prefix, d);
    var front, k, q := prefix[..i + |d|], key[i + |d|..], prefix[i + |d|..];
    FindShared(prefix, key, d);
    SplitFirst(prefix, d);
    SplitFirst(key, d);
    HeadAndNext(prefix, i, |d|);
    SameHead(prefix, key, i, i + |d|);
    StartsShift(front, k, q, d);
    SplitNonEmpty(q, d);
    PartsSayCons(prefix[..i], Split(k, d), Split(q, d), k, q, key, prefix, d);
  }

  lemma SameHead(s: string, t: string, i: nat, n: nat)
    requires i <= n <= |s| && s[..n] <= t
    ensures t[..i] == s[..i] && s == s[..n] + s[n..] && t == s[..n] + t[n..]
  {
    assert t[..n] == s[..n];
    assert t[..i] == t[..n][..i];
  }

  lemma {:induction false} SplitMatches(key: string, prefix: string, d: string)
    requires d != ""
    ensures MatchesWhole(key, prefix, d)
    decreases |prefix|
  {
    var i := Find(prefix, d);
    if i == |prefix| {
      LastPartMatches(key, prefix, d);
    } else if prefix[..i + |d|] <= key {
      SplitMatches(key[i + |d|..], prefix[i + |d|..], d);
      SharedPart(key, prefix, d);
    } else {
      HeadOfPrefix(prefix, key, i + |d|);
      PartsDiffer(key, prefix, d);
    }
  }

  /** The matcher with any non-empty delimiter, for every key and prefix.  Leading
      characters of the delimiter are ignored.  It holds exactly when the key starts with
      the prefix and no delimiter of the key starts inside the prefix's last part; the
      matched part runs through the key's next delimiter; it is a common prefix unless it
      is the whole key as stored. */
  lemma MatchExactly(p: Prefix, key: string)
    requires p.hasDelimiter && p.delimiter != ""
    ensures var (k, q) := (TrimLeft(key, p.delimiter), TrimLeft(p.prefix, p.delimiter));
      && (MatchOf(p, key).Some? <==> StartsWhole(k, q, p.delimiter))
      && (MatchOf(p, key).Some? ==>
            var part := Through(k, q, p.delimiter);
            MatchOf(p, key).value == PrefixMatch(key, part != key, part))
  {
    SplitMatches(TrimLeft(key, p.delimiter), TrimLeft(p.prefix, p.delimiter), p.delimiter);
  }

  /** The second condition is needed: with a delimiter of two characters a key that starts
      with the prefix may not match. */
  lemma LongDelimitersSplitThePrefix()
    ensures var p := Prefix(true, "xa", true, "ab");
      p.prefix <= "xab" && MatchOf(p, "xab").None?
  {
    assert Find("xab", "ab") == 1 by {
      assert "xab"[1..] == "ab";
      assert !("ab" <= "xab") by { assert "xab"[0] == 'x'; }
    }
    assert Find("xa", "ab") == 2;
  }

  // ---- a delimiter of one character ----

  /** The first place at or after `from` where `d` stands, or the length of `s`. */
  function NextDelimiter(s: string, d: char, from: nat): (i: nat)
    requires from <= |s|
    ensures from <= i <= |s|
    ensures i < |s| ==> s[i] == d
    ensures forall j :: from <= j < i ==> s[j] != d
    decreases |s| - from
  {
    if from == |s| || s[from] == d then from else NextDelimiter(s, d, from + 1)
  }

  /** The key through the first delimiter at or after `from`, or the whole key. */
  function ThroughNext(key: string, d: char, from: nat): string
    requires from <= |key|
  {
    var i := NextDelimiter(key, d, from);
    if i < |key| then key[..i + 1] else key
  }

  /** Where the first delimiter is, is determined by what is before it. */
  lemma NextUnique(s: string, d: char, from: nat, i: nat)
    requires from <= i <= |s| && (i < |s| ==> s[i] == d) && forall j :: from <= j < i ==> s[j] != d
    ensures NextDelimiter(s, d, from) == i
  {
  }

  lemma {:induction false} FindIs(s: string, d: char)
    ensures Find(s, [d]) < |s| ==> s[Find(s, [d])] == d
    ensures forall j :: 0 <= j < Find(s, [d]) ==> s[j] != d
  {
    if s != "" && !([d] <= s) {
      FindIs(s[1..], d);
      assert forall j :: 0 < j < Find(s, [d]) ==> s[j] == s[1..][j - 1];
    }
  }

  /** After the prefix's last delimiter there is none. */
  lemma {:induction false} LastPartPlain(s: string, d: char)
    ensures forall j :: LastEnd(s, [d]) <= j < |s| ==> s[j] != d
    decreases |s|
  {
    var i := Find(s, [d]);
    FindIs(s, d);
    if i < |s| {
      var rest := s[i + 1..];
      LastPartPlain(rest, d);
      assert forall j :: i + 1 <= j < |s| ==> s[j] == rest[j - (i + 1)];
    }
  }

  lemma NextStartIs(key: string, prefix: string, d: char)
    requires prefix <= key
    ensures NextStart(key, prefix, [d]) == NextDelimiter(key, d, |prefix|)
  {
    var r := LastEnd(prefix, [d]);
    var i := Find(key[r..], [d]);
    LastPartPlain(prefix, d);
    FindIs(key[r..], d);
    assert forall j :: r <= j < r + i ==> key[j] == key[r..][j - r];
    assert forall j :: 0 <= j < |prefix| ==> key[j] == prefix[j];
    assert r + i < |key| ==> key[r + i] == key[r..][i];
    NextUnique(key, d, |prefix|, r + i);
  }

  /** So with a delimiter of one character it holds exactly when the key starts with the
      prefix; the matched part runs through the first delimiter after the prefix. */
  lemma MatchIsOnePass(p: Prefix, key: string)
    requires p.hasDelimiter && |p.delimiter| == 1
    ensures var (k, q) := (TrimLeft(key, p.delimiter), TrimLeft(p.prefix, p.delimiter));
      && (MatchOf(p, key).Some? <==> q <= k)
      && (q <= k ==>
            var part := ThroughNext(k, p.delimiter[0], |q|);
            MatchOf(p, key).value == PrefixMatch(key, part != key, part))
  {
    var k, q, d := TrimLeft(key, p.delimiter), TrimLeft(p.prefix, p.delimiter), p.delimiter[0];
    assert p.delimiter == [d];
    MatchExactly(p, key);
    if q <= k {
      ThroughNextIs(k, q, d);
    }
  }

  lemma ThroughNextIs(key: string, prefix: string, d: char)
    requires prefix <= key
    ensures StartsWhole(key, prefix, [d]) && Through(key, prefix, [d]) == ThroughNext(key, d, |prefix|)
  {
    NextStartIs(key, prefix, d);
  }

  /** For keys and prefixes that do not start with the delimiter, the documented rule:
      a match starts with the prefix, and a common prefix is a proper part of the key. */
  lemma MatchOfPlainKeys(p: Prefix, key: string)
    requires p.hasDelimiter && |p.delimiter| == 1
    requires key == "" || key[0] != p.delimiter[0]
    requires p.prefix == "" || p.prefix[0] != p.delimiter[0]
    ensures MatchOf(p, key).Some? <==> p.prefix <= key
    ensures MatchOf(p, key).Some? ==>
      var m := MatchOf(p, key).value;
      p.prefix <= m.matchedPart <= key && (m.commonPrefix <==> m.matchedPart < key)
  {
    NotTrimmed(key, p.delimiter);
    NotTrimmed(p.prefix, p.delimiter);
    MatchIsOnePass(p, key);
    if p.prefix <= key {
      ThroughBetween(key, p.prefix, p.delimiter[0]);
    }
  }

  lemma NotTrimmed(s: string, cutset: string)
    requires |cutset| == 1 && (s == "" || s[0] != cutset[0])
    ensures TrimLeft(s, cutset) == s
  {
  }

  lemma ThroughBetween(key: string, prefix: string, d: char)
    requires prefix <= key
    ensures var part := ThroughNext(key, d, |prefix|); prefix <= part <= key && (part != key <==> part < key)
  {
    var i := NextDelimiter(key, d, |prefix|);
    if i < |key| {
      assert key[..i + 1][..|prefix|] == key[..|prefix|];
    }
  }

  /** The empty key is never rolled up. */
  lemma EmptyKeyMatches(p: Prefix)
    ensures var m := MatchOf(p, ""); m.Some? ==> !m.value.commonPrefix && m.value.matchedPart == ""
  {
    var keyParts := Split("", p.delimiter);
    if p.delimiter != "" {
      assert keyParts == [""];
    }
  }
}
