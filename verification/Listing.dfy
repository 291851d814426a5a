/** Listing a set in an order, and reading the list a page at a time from the last key served. */
module Listing {
  import opened Types

  /** What an order promises of three keys. Named, so that a proof uses it of the keys it names. */
  ghost predicate Ordered<K(!new)>(less: (K, K) -> bool, a: K, b: K, c: K) {
    && !less(a, a)
    && (less(a, b) && less(b, c) ==> less(a, c))
    && (a == b || less(a, b) || less(b, a))
  }

  ghost predicate StrictOrder<K(!new)>(less: (K, K) -> bool) {
    forall a, b, c :: Ordered(less, a, b, c)
  }

  ghost predicate Ascending<K(!new)>(list: seq<K>, less: (K, K) -> bool) {
    forall i, j | 0 <= i < j < |list| :: less(list[i], list[j])
  }

  ghost predicate Lists<K(!new)>(list: seq<K>, keys: set<K>, less: (K, K) -> bool) {
    Ascending(list, less) && forall key :: key in list <==> key in keys
  }

  predicate IsLeast<K>(keys: set<K>, less: (K, K) -> bool, least: K) {
    least in keys && forall key | key in keys :: key == least || (less(least, key) && !less(key, least))
  }

  lemma LeastExists<K(!new)>(keys: set<K>, less: (K, K) -> bool)
    requires StrictOrder(less) && keys != {}
    ensures exists least :: IsLeast(keys, less, least)
  {
    var one :| one in keys;
    var rest := keys - {one};
    if rest == {} {
      assert keys == {one};
      assert IsLeast(keys, less, one);
    } else {
      LeastExists(rest, less);
      var least :| IsLeast(rest, less, least);
      var lowest := if less(one, least) then one else least;
      assert Ordered(less, one, least, one) && Ordered(less, least, one, least);
      forall key | key in keys && key != lowest ensures less(lowest, key) && !less(key, lowest) {
        assert key == one || key in rest;
        assert Ordered(less, lowest, least, key) && Ordered(less, lowest, key, lowest) && Ordered(less, key, lowest, key);
      }
      assert IsLeast(keys, less, lowest);
    }
  }

  function Least<K(!new)>(keys: set<K>, less: (K, K) -> bool): (least: K)
    requires StrictOrder(less) && keys != {}
    ensures IsLeast(keys, less, least)
  {
    LeastExists(keys, less);
    var least :| IsLeast(keys, less, least);
    least
  }

  /** Nothing comes before itself, or both before and after another. */
  lemma Asymmetric<K(!new)>(less: (K, K) -> bool, a: K, b: K)
    requires StrictOrder(less) && less(a, b)
    ensures a != b && !less(b, a)
  {
    assert Ordered(less, a, b, a);
  }

  /** In a list, what comes before a key has a lower place. */
  lemma PlaceOrder<K(!new)>(list: seq<K>, less: (K, K) -> bool, i: nat, j: nat)
    requires StrictOrder(less) && Ascending(list, less) && i < |list| && j < |list|
    ensures less(list[i], list[j]) <==> i < j
  {
    if less(list[i], list[j]) {
      Asymmetric(less, list[i], list[j]);
    }
  }

  /** `ORDER BY`: the keys in order. */
  function Sorted<K(!new)>(keys: set<K>, less: (K, K) -> bool): (list: seq<K>)
    requires StrictOrder(less)
    ensures |list| == |keys|
    decreases keys
  {
    if keys == {} then []
    else
      var least := Least(keys, less);
      [least] + Sorted(keys - {least}, less)
  }

  lemma {:induction false} SortedLists<K(!new)>(keys: set<K>, less: (K, K) -> bool)
    requires StrictOrder(less)
    ensures Lists(Sorted(keys, less), keys, less)
    decreases keys
  {
    if keys != {} {
      var least := Least(keys, less);
      var rest := Sorted(keys - {least}, less);
      SortedLists(keys - {least}, less);
      forall j | 0 <= j < |rest| ensures less(least, rest[j]) {
        assert rest[j] in keys - {least};
      }
    }
  }

  lemma ListsTail<K(!new)>(list: seq<K>, keys: set<K>, less: (K, K) -> bool)
    requires StrictOrder(less) && Lists(list, keys, less) && list != []
    ensures IsLeast(keys, less, list[0]) && Lists(list[1..], keys - {list[0]}, less)
  {
    var first, rest := list[0], list[1..];
    forall key | key in keys && key != first ensures less(first, key) && !less(key, first) && key in rest {
      var i :| 0 <= i < |list| && list[i] == key;
      Asymmetric(less, first, key);
      assert rest[i - 1] == key;
    }
    forall i | 0 <= i < |rest| ensures rest[i] in keys && rest[i] != first {
      assert list[i + 1] == rest[i];
      Asymmetric(less, first, list[i + 1]);
    }
  }

  /** There is one such list. */
  lemma {:induction false} SortedUnique<K(!new)>(list: seq<K>, keys: set<K>, less: (K, K) -> bool)
    requires StrictOrder(less) && Lists(list, keys, less)
    ensures list == Sorted(keys, less)
    decreases |list|
  {
    if list == [] {
      assert forall key | key in keys :: key in list;
      assert keys == {};
    } else {
      assert list[0] in keys;
      ListsTail(list, keys, less);
      SortedUnique(list[1..], keys - {list[0]}, less);
      assert Least(keys, less) == list[0];
    }
  }

  /** The keys after the last one served; None is from the start. */
  function Beyond<K(!new)>(keys: set<K>, after: Option<K>, less: (K, K) -> bool): set<K> {
    set key | key in keys && (after.Some? ==> less(after.value, key))
  }

  /** Cutting a list anywhere, what is left is the list of the keys after the cut. */
  lemma SortedBeyond<K(!new)>(keys: set<K>, less: (K, K) -> bool, n: nat)
    requires StrictOrder(less) && 0 < n <= |keys|
    ensures Sorted(keys, less)[n..] == Sorted(Beyond(keys, Some(Sorted(keys, less)[n - 1]), less), less)
  {
    var list := Sorted(keys, less);
    SortedLists(keys, less);
    var rest := list[n..];
    var beyond := Beyond(keys, Some(list[n - 1]), less);
    forall key ensures key in rest <==> key in beyond {
      if key in rest {
        var i :| 0 <= i < |rest| && rest[i] == key;
        assert list[n + i] == key;
      }
      if key in beyond {
        var i :| 0 <= i < |list| && list[i] == key;
        PlaceOrder(list, less, n - 1, i);
        assert rest[i - n] == key;
      }
    }
    SortedUnique(rest, beyond, less);
  }

  /**
   * A superset with nothing new among the first `n` lists the same first `n`: so does any subset that
   * keeps those `n`.
   */
  lemma FirstOfFewer<K(!new)>(few: set<K>, keys: set<K>, less: (K, K) -> bool, n: nat)
    requires StrictOrder(less) && few <= keys && n <= |keys|
    requires forall key | key in Sorted(keys, less)[..n] :: key in few
    ensures n <= |few| && Sorted(few, less)[..n] == Sorted(keys, less)[..n]
  {
    var all := Sorted(keys, less);
    var first := all[..n];
    var later := set key | key in few && key !in first;
    var rest := Sorted(later, less);
    SortedLists(keys, less);
    SortedLists(later, less);
    forall a, b | a in first && b in rest ensures less(a, b) {
      var i :| 0 <= i < n && all[i] == a;
      assert b in later && b in all;
      var j :| 0 <= j < |all| && all[j] == b;
      assert forall k | 0 <= k < n :: all[k] in first;
      assert n <= j;
    }
    AscendingJoin(first, rest, less);
    SortedUnique(first + rest, few, less);
  }

  lemma AscendingJoin<K(!new)>(first: seq<K>, rest: seq<K>, less: (K, K) -> bool)
    requires Ascending(first, less) && Ascending(rest, less)
    requires forall a, b | a in first && b in rest :: less(a, b)
    ensures Ascending(first + rest, less)
  {
  }

  /** `LIMIT`. */
  function Take<K>(list: seq<K>, most: nat): seq<K> {
    if most <= |list| then list[..most] else list
  }

  function Before<K(!new)>(keys: set<K>, key: K, less: (K, K) -> bool): set<K> {
    set k | k in keys && less(k, key)
  }

  /** A key's place in the list is how many keys come before it. */
  lemma PlaceIsCount<K(!new)>(keys: set<K>, less: (K, K) -> bool, i: nat)
    requires StrictOrder(less) && i < |keys|
    ensures |Before(keys, Sorted(keys, less)[i], less)| == i
  {
    var list := Sorted(keys, less);
    var first, before := list[..i], Before(keys, list[i], less);
    SortedLists(keys, less);
    forall key ensures key in first <==> key in before {
      if key in first {
        var j :| 0 <= j < i && list[j] == key;
      }
      if key in before {
        var j :| 0 <= j < |list| && list[j] == key;
        PlaceOrder(list, less, j, i);
        assert first[j] == key;
      }
    }
    SortedUnique(first, before, less);
  }

  /** A key comes no later in the list of fewer keys. */
  lemma EarlierAmongFewer<K(!new)>(few: set<K>, keys: set<K>, less: (K, K) -> bool, most: nat, key: K)
    requires StrictOrder(less) && few <= keys
    requires key in few && key in Take(Sorted(keys, less), most)
    ensures key in Take(Sorted(few, less), most)
  {
    hide StrictOrder, Sorted;
    var all, list := Sorted(keys, less), Sorted(few, less);
    SortedLists(few, less);
    var i :| 0 <= i < |all| && i < most && all[i] == key;
    var j :| 0 <= j < |list| && list[j] == key;
    PlaceIsCount(keys, less, i);
    PlaceIsCount(few, less, j);
    FewerCount(Before(few, key, less), Before(keys, key, less));
    assert Take(list, most)[j] == key;
  }

  /** Fewer keys that keep the first `most` list the same first `most`. */
  lemma TakeOfFewer<K(!new)>(few: set<K>, keys: set<K>, less: (K, K) -> bool, most: nat)
    requires StrictOrder(less) && few <= keys
    requires forall key | key in Take(Sorted(keys, less), most) :: key in few
    ensures Take(Sorted(few, less), most) == Take(Sorted(keys, less), most)
  {
    FewerCount(few, keys);
    if most <= |keys| {
      FirstOfFewer(few, keys, less, most);
    } else {
      SortedLists(keys, less);
      assert forall key | key in keys :: key in few;
      assert few == keys;
    }
  }

  lemma FewerCount<K>(few: set<K>, keys: set<K>)
    requires few <= keys
    ensures |few| <= |keys|
  {
    var rest := keys - few;
    assert keys == few + rest;
  }

  /** Pages read one after another, each a prefix of what follows the last key served. */
  ghost predicate IsWalk<K(!new)>(keys: set<K>, less: (K, K) -> bool, after: Option<K>, pages: seq<seq<K>>)
    requires StrictOrder(less)
    decreases |pages|
  {
    pages == [] ||
    (&& pages[0] <= Sorted(Beyond(keys, after, less), less)
     && IsWalk(keys, less, NextAfter(after, pages[0]), pages[1..]))
  }

  function Flatten<K>(pages: seq<seq<K>>): seq<K> {
    if pages == [] then [] else pages[0] + Flatten(pages[1..])
  }

  function NextAfter<K>(after: Option<K>, page: seq<K>): Option<K> {
    if page == [] then after else Some(page[|page| - 1])
  }

  /** However the pages are cut, they are the list: nothing skipped, nothing served twice. */
  lemma {:induction false} WalkIsPrefix<K(!new)>(keys: set<K>, less: (K, K) -> bool, after: Option<K>,
                                          pages: seq<seq<K>>)
    requires StrictOrder(less) && IsWalk(keys, less, after, pages)
    ensures Flatten(pages) <= Sorted(Beyond(keys, after, less), less)
    decreases |pages|
  {
    if pages != [] {
      var page, more := pages[0], pages[1..];
      assert IsWalk(keys, less, NextAfter(after, page), more);
      WalkIsPrefix(keys, less, NextAfter(after, page), more);
      NextPage(keys, less, after, page);
      PrefixJoin(page, Flatten(more), Sorted(Beyond(keys, after, less), less));
    }
  }

  lemma PrefixJoin<K>(page: seq<K>, more: seq<K>, list: seq<K>)
    requires page <= list && more <= list[|page|..]
    ensures page + more <= list
  {
    assert list == page + list[|page|..];
  }

  /** After a page, what is left to serve is the rest of the list. */
  lemma NextPage<K(!new)>(keys: set<K>, less: (K, K) -> bool, after: Option<K>, page: seq<K>)
    requires StrictOrder(less) && page <= Sorted(Beyond(keys, after, less), less)
    ensures Sorted(Beyond(keys, NextAfter(after, page), less), less) == Sorted(Beyond(keys, after, less), less)[|page|..]
  {
    if page == [] {
      return;
    }
    var here := Beyond(keys, after, less);
    var last := page[|page| - 1];
    SortedLists(here, less);
    assert Sorted(here, less)[|page| - 1] == last && last in here;
    SortedBeyond(here, less, |page|);
    forall key | key in Beyond(keys, Some(last), less) ensures key in Beyond(here, Some(last), less) {
      assert after.Some? ==> Ordered(less, after.value, last, key);
    }
    assert Beyond(here, Some(last), less) == Beyond(keys, Some(last), less);
  }
}
