/** The skiplist as an abstract sorted map, its cursor, and the cursor adapter. */
module SortedIndex {
  import opened Basics
  import opened Order

  /** The number of leading keys below `k`: where `k` stands or would stand. */
  function Rank(keys: seq<string>, k: string): (r: nat)
    ensures r <= |keys|
    ensures forall i :: 0 <= i < r ==> Less(keys[i], k)
    ensures r < |keys| ==> !Less(keys[r], k)
  {
    if keys == [] || !Less(keys[0], k) then 0 else 1 + Rank(keys[1..], k)
  }

  /** A map whose keys can be walked in ascending order. */
  datatype Index<V> = Index(keys: seq<string>, at: map<string, V>)

  ghost predicate Sorted<V>(x: Index<V>) {
    Ascending(x.keys) && forall k :: k in x.keys <==> k in x.at
  }

  function Empty<V>(): Index<V> {
    Index([], map[])
  }

  function Set<V>(x: Index<V>, k: string, v: V): (y: Index<V>)
    ensures y.at == x.at[k := v]
  {
    if k in x.at then Index(x.keys, x.at[k := v])
    else
      var r := Rank(x.keys, k);
      Index(x.keys[..r] + [k] + x.keys[r..], x.at[k := v])
  }

  function Delete<V>(x: Index<V>, k: string): (y: Index<V>)
    ensures y.at == x.at - {k}
  {
    if k !in x.at then Index(x.keys, x.at - {k})
    else
      var r := Rank(x.keys, k);
      if r < |x.keys| then Index(x.keys[..r] + x.keys[r + 1..], x.at - {k}) else Index(x.keys, x.at - {k})
  }

  // ---- ranks in ascending sequences ----

  /** In an ascending sequence everything from the rank on is at least the key. */
  lemma RankSplits(keys: seq<string>, k: string, i: nat)
    requires Ascending(keys) && i < |keys|
    ensures i < Rank(keys, k) <==> Less(keys[i], k)
  {
    var r := Rank(keys, k);
    if r <= i && Less(keys[i], k) {
      if r < i { LessTransitive(keys[r], keys[i], k); }
    }
  }

  lemma RankOfKey(keys: seq<string>, i: nat)
    requires Ascending(keys) && i < |keys|
    ensures Rank(keys, keys[i]) == i
  {
    var r := Rank(keys, keys[i]);
    RankSplits(keys, keys[i], i);
    LessIrreflexive(keys[i]);
    RankSplits(keys, keys[i], r);
  }

  // ---- updates keep the order ----

  lemma SetSorted<V>(x: Index<V>, k: string, v: V)
    requires Sorted(x)
    ensures Sorted(Set(x, k, v))
  {
    if k !in x.at {
      InsertedAscends(x.keys, k);
      InsertedMembers(x.keys, k, Rank(x.keys, k));
    }
  }

  lemma InsertedAscends(keys: seq<string>, k: string)
    requires Ascending(keys) && k !in keys
    ensures Ascending(keys[..Rank(keys, k)] + [k] + keys[Rank(keys, k)..])
  {
    var r := Rank(keys, k);
    var all := keys[..r] + [k] + keys[r..];
    forall i, j | 0 <= i < j < |all|
      ensures Less(all[i], all[j])
    {
      if i < r {
        RankSplits(keys, k, i);
      } else if i == r {
        RankSplits(keys, k, j - 1);
        LessTotal(k, keys[j - 1]);
        assert keys[j - 1] in keys;
      }
    }
  }

  lemma InsertedMembers(keys: seq<string>, k: string, r: nat)
    requires r <= |keys|
    ensures forall q :: q in keys[..r] + [k] + keys[r..] <==> q in keys || q == k
  {
    assert keys == keys[..r] + keys[r..];
  }

  lemma DeleteSorted<V>(x: Index<V>, k: string)
    requires Sorted(x)
    ensures Sorted(Delete(x, k))
    ensures k in x.at ==> |Delete(x, k).keys| == |x.keys| - 1
  {
    if k in x.at {
      var i :| 0 <= i < |x.keys| && x.keys[i] == k;
      RankOfKey(x.keys, i);
      WithoutMembers(x.keys, i);
    }
  }

  lemma WithoutMembers(keys: seq<string>, i: nat)
    requires Ascending(keys) && i < |keys|
    ensures var rest := keys[..i] + keys[i + 1..];
      Ascending(rest) && forall q :: q in rest <==> q in keys && q != keys[i]
  {
    var rest := keys[..i] + keys[i + 1..];
    assert forall j :: 0 <= j < |rest| ==> rest[j] == keys[if j < i then j else j + 1];
    assert keys == keys[..i] + [keys[i]] + keys[i + 1..];
    if keys[i] in rest {
      var j :| 0 <= j < |rest| && rest[j] == keys[i];
      AscendingDistinct(keys, i, if j < i then j else j + 1);
    }
  }

  lemma HeadMember(a: seq<string>)
    ensures a != [] ==> a[0] in a
  {
  }

  // ---- the cursor ----

  /** The skiplist's own iterator.  It starts before the first key; a seek that finds
      no key at or above the target leaves it where it was. */
  class Cursor<V> {
    const list: Index<V>
    var pos: int

    constructor (list: Index<V>)
      ensures this.list == list && pos == -1
    {
      this.list, pos := list, -1;
    }

    ghost predicate Valid()
      reads this
    {
      Sorted(list) && -1 <= pos < |list.keys|
    }

    method Next() returns (ok: bool)
      requires Valid()
      modifies this
      ensures Valid() && ok == (old(pos) + 1 < |list.keys|) && pos == old(pos) + if ok then 1 else 0
    {
      ok := pos + 1 < |list.keys|;
      if ok { pos := pos + 1; }
    }

    method Seek(key: string) returns (ok: bool)
      requires Valid()
      modifies this
      ensures Valid() && ok == (Rank(list.keys, key) < |list.keys|)
      ensures pos == if ok then Rank(list.keys, key) else old(pos)
    {
      var r := Rank(list.keys, key);
      ok := r < |list.keys|;
      if ok { pos := r; }
    }
  }

  /** goskipiter's wrapper: after a Seek, the next Next stays on the key sought. */
  class Iterator<V> {
    const inner: Cursor<V>
    var didSeek: bool
    var seekWasOK: bool

    constructor (list: Index<V>)
      requires Sorted(list)
      ensures Valid() && fresh(inner) && inner.list == list && Ahead() == 0 && inner.pos == -1 && !didSeek
    {
      inner := new Cursor(list);
      didSeek, seekWasOK := false, false;
    }

    ghost predicate Valid()
      reads this, inner
    {
      inner.Valid() && (didSeek && seekWasOK ==> inner.pos >= 0)
    }

    /** The position the next Next will report, or the number of keys if it will
        report none. */
    function Ahead(): int
      reads this, inner
    {
      if didSeek then (if seekWasOK then inner.pos else |inner.list.keys|) else inner.pos + 1
    }

    /** Walks the keys in order, each once.  Only a failed Seek is forgotten: after
        the Next that reports it, the walk is back before the first key. */
    method Next() returns (ok: bool)
      requires Valid()
      modifies this, inner
      ensures Valid() && !didSeek && inner.pos >= old(inner.pos)
      ensures ok == (old(Ahead()) < |inner.list.keys|)
      ensures ok ==> inner.pos == old(Ahead()) && Ahead() == old(Ahead()) + 1
      ensures !ok ==> inner.pos == old(inner.pos) && Ahead() == inner.pos + 1
    {
      if didSeek {
        didSeek := false;
        ok := seekWasOK;
      } else {
        ok := inner.Next();
      }
    }

    /** The walk goes on from the first key at or above the one sought. */
    method Seek(key: string) returns (ok: bool)
      requires Valid()
      modifies this, inner
      ensures Valid() && ok == (Rank(inner.list.keys, key) < |inner.list.keys|)
      ensures Ahead() == Rank(inner.list.keys, key) && didSeek && seekWasOK == ok
      ensures if ok then inner.pos == Ahead() else inner.pos == old(inner.pos)
    {
      didSeek := true;
      ok := inner.Seek(key);
      seekWasOK := ok;
    }

    /** The current key, if the walk stands on one. */
    function Key(): Option<string>
      requires Valid()
      reads this, inner
    {
      if inner.pos >= 0 then Some(inner.list.keys[inner.pos]) else None
    }

    function Value(): V
      requires Valid() && inner.pos >= 0
      reads this, inner
    {
      inner.list.at[inner.list.keys[inner.pos]]
    }
  }
}
