/** Sequences put together from pages or from the entries of one key after another. */
module Joining {
  import opened Order

  /** Some page has `q` among its parts. */
  ghost predicate SomeHas<P(!new)>(pages: seq<P>, parts: P -> seq<string>, q: string) {
    exists i :: 0 <= i < |pages| && q in parts(pages[i])
  }

  lemma SomeHasFirst<P(!new)>(page: P, rest: seq<P>, parts: P -> seq<string>, q: string)
    ensures SomeHas([page] + rest, parts, q) <==> q in parts(page) || SomeHas(rest, parts, q)
  {
    var pages := [page] + rest;
    if q in parts(page) {
      assert q in parts(pages[0]);
    }
    if SomeHas(rest, parts, q) {
      var i :| 0 <= i < |rest| && q in parts(rest[i]);
      assert q in parts(pages[i + 1]);
    }
    if SomeHas(pages, parts, q) {
      var i :| 0 <= i < |pages| && q in parts(pages[i]);
      if i > 0 {
        assert q in parts(rest[i - 1]);
      }
    }
  }

  lemma SomeHasOne<P(!new)>(page: P, parts: P -> seq<string>, q: string)
    ensures SomeHas([page], parts, q) <==> q in parts(page)
  {
    SomeHasFirst(page, [], parts, q);
    assert [page] + [] == [page];
  }

  ghost predicate OrderedBy<T(!new)>(xs: seq<T>, before: (T, T) -> bool) {
    forall i, j :: 0 <= i < j < |xs| ==> before(xs[i], xs[j])
  }

  ghost predicate IsBelow(k: string, keys: seq<string>, hi: nat)
    requires hi <= |keys|
  {
    exists i :: 0 <= i < hi && k == keys[i]
  }

  /** Every element is for one of the first `hi` keys. */
  ghost predicate KeysBelow<T(!new)>(xs: seq<T>, key: T -> string, keys: seq<string>, hi: nat) {
    hi <= |keys| && forall j :: 0 <= j < |xs| ==> IsBelow(key(xs[j]), keys, hi)
  }

  ghost predicate AllFor<T(!new)>(xs: seq<T>, key: T -> string, k: string) {
    forall j :: 0 <= j < |xs| ==> key(xs[j]) == k
  }

  /** Elements whose keys ascend are in order. */
  ghost predicate KeysDecide<T(!new)>(before: (T, T) -> bool, key: T -> string) {
    forall x, y :: Less(key(x), key(y)) ==> before(x, y)
  }

  /** The elements of the next key keep the order. */
  lemma OrderJoins<T(!new)>(front: seq<T>, back: seq<T>, before: (T, T) -> bool, key: T -> string, keys: seq<string>,
                            hi: nat)
    requires Ascending(keys) && hi < |keys| && KeysDecide(before, key)
    requires KeysBelow(front, key, keys, hi) && AllFor(back, key, keys[hi])
    requires OrderedBy(front, before) && OrderedBy(back, before)
    ensures OrderedBy(front + back, before) && KeysBelow(front + back, key, keys, hi + 1)
  {
    var xs := front + back;
    forall j | 0 <= j < |xs|
      ensures IsBelow(key(xs[j]), keys, hi + 1)
    {
      if j < |front| {
        assert IsBelow(key(front[j]), keys, hi);
      } else {
        assert key(back[j - |front|]) == keys[hi];
      }
    }
    forall i, j | 0 <= i < |front| && 0 <= j < |back|
      ensures before(front[i], back[j])
    {
      assert IsBelow(key(front[i]), keys, hi);
      var k :| 0 <= k < hi && key(front[i]) == keys[k];
      assert key(back[j]) == keys[hi];
    }
  }
}
