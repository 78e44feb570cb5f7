/**
 * `Array.prototype.sort` with a comparator `(a, b) => key(a) - key(b)`, which
 * JavaScript performs as a stable sort, modelled as an insertion sort on
 * values that is proved stable, and `findIndex` followed by "take the next
 * element", which the progression walk and the trend chart build on.
 */
module Sorting {
  import opened Wrappers

  ghost predicate SortedBy<T>(s: seq<T>, key: T -> int) {
    forall i, j :: 0 <= i < j < |s| ==> key(s[i]) <= key(s[j])
  }

  ghost predicate StrictlySortedBy<T>(s: seq<T>, key: T -> int) {
    forall i, j :: 0 <= i < j < |s| ==> key(s[i]) < key(s[j])
  }

  /** No two elements (positions) of `s` share a key. */
  predicate DistinctKeys<T>(s: seq<T>, key: T -> int) {
    forall i, j :: 0 <= i < j < |s| ==> key(s[i]) != key(s[j])
  }

  /** Puts `x` behind every element of `t` whose key is at most `key(x)`. */
  function Insert<T>(t: seq<T>, x: T, key: T -> int): (r: seq<T>)
    ensures |r| == |t| + 1
    decreases |t|
  {
    if |t| == 0 || key(t[|t| - 1]) <= key(x) then t + [x]
    else Insert(t[..|t| - 1], x, key) + [t[|t| - 1]]
  }

  /** The array after `sort`, equal keys keeping their original order. */
  function SortBy<T>(s: seq<T>, key: T -> int): (r: seq<T>)
    ensures |r| == |s|
    decreases |s|
  {
    if |s| == 0 then [] else Insert(SortBy(s[..|s| - 1], key), s[|s| - 1], key)
  }

  lemma {:induction false} InsertMultiset<T>(t: seq<T>, x: T, key: T -> int)
    ensures multiset(Insert(t, x, key)) == multiset(t) + multiset{x}
    decreases |t|
  {
    if |t| > 0 && key(t[|t| - 1]) > key(x) {
      assert t == t[..|t| - 1] + [t[|t| - 1]];
      InsertMultiset(t[..|t| - 1], x, key);
    }
  }

  /** Every element of `Insert(t, x)` lies below `bound` when `x` and `t`'s elements do. */
  lemma InsertBelow<T>(t: seq<T>, x: T, key: T -> int, bound: int, strict: bool)
    requires forall y :: y in t ==> (if strict then key(y) < bound else key(y) <= bound)
    requires if strict then key(x) < bound else key(x) <= bound
    ensures forall y :: y in Insert(t, x, key) ==> (if strict then key(y) < bound else key(y) <= bound)
  {
    InsertMultiset(t, x, key);
    forall y | y in Insert(t, x, key)
      ensures if strict then key(y) < bound else key(y) <= bound
    {
      assert y in multiset(Insert(t, x, key));
      assert y == x || y in multiset(t);
    }
  }

  lemma AppendSorted<T>(u: seq<T>, last: T, key: T -> int, strict: bool)
    requires if strict then StrictlySortedBy(u, key) else SortedBy(u, key)
    requires forall y :: y in u ==> (if strict then key(y) < key(last) else key(y) <= key(last))
    ensures if strict then StrictlySortedBy(u + [last], key) else SortedBy(u + [last], key)
  {
    var v := u + [last];
    forall i, j | 0 <= i < j < |v|
      ensures if strict then key(v[i]) < key(v[j]) else key(v[i]) <= key(v[j])
    {
      if j == |u| { assert v[i] == u[i] && u[i] in u; }
      else { assert v[i] == u[i] && v[j] == u[j]; }
    }
  }

  lemma {:induction false} InsertSorted<T>(t: seq<T>, x: T, key: T -> int, strict: bool)
    requires if strict then StrictlySortedBy(t, key) && (forall y :: y in t ==> key(y) != key(x))
             else SortedBy(t, key)
    ensures if strict then StrictlySortedBy(Insert(t, x, key), key) else SortedBy(Insert(t, x, key), key)
    decreases |t|
  {
    if |t| == 0 || key(t[|t| - 1]) <= key(x) {
      forall y | y in t ensures if strict then key(y) < key(x) else key(y) <= key(x) {
        var j :| 0 <= j < |t| && t[j] == y;
      }
      AppendSorted(t, x, key, strict);
    } else {
      var init, last := t[..|t| - 1], t[|t| - 1];
      assert forall j :: 0 <= j < |init| ==> init[j] == t[j];
      forall y | y in init ensures if strict then key(y) < key(last) else key(y) <= key(last) {
        var j :| 0 <= j < |init| && init[j] == y;
      }
      InsertSorted(init, x, key, strict);
      InsertBelow(init, x, key, key(last), strict);
      AppendSorted(Insert(init, x, key), last, key, strict);
    }
  }

  lemma InsertProperties<T>(t: seq<T>, x: T, key: T -> int)
    requires SortedBy(t, key)
    ensures multiset(Insert(t, x, key)) == multiset(t) + multiset{x}
    ensures SortedBy(Insert(t, x, key), key)
    ensures StrictlySortedBy(t, key) && (forall y :: y in t ==> key(y) != key(x))
            ==> StrictlySortedBy(Insert(t, x, key), key)
  {
    InsertMultiset(t, x, key);
    InsertSorted(t, x, key, false);
    if StrictlySortedBy(t, key) && (forall y :: y in t ==> key(y) != key(x)) {
      InsertSorted(t, x, key, true);
    }
  }

  /** The sorted array is a permutation of the input, ordered by key. */
  lemma {:induction false} SortByProperties<T>(s: seq<T>, key: T -> int)
    ensures multiset(SortBy(s, key)) == multiset(s)
    ensures SortedBy(SortBy(s, key), key)
    ensures DistinctKeys(s, key) ==> StrictlySortedBy(SortBy(s, key), key)
    decreases |s|
  {
    if |s| > 0 {
      var init, last := s[..|s| - 1], s[|s| - 1];
      assert s == init + [last];
      SortByProperties(init, key);
      var t := SortBy(init, key);
      InsertProperties(t, last, key);
      if DistinctKeys(s, key) {
        forall y | y in t ensures key(y) != key(last) {
          assert y in multiset(t);
          var j :| 0 <= j < |init| && init[j] == y;
          assert s[j] == y;
        }
      }
    }
  }

  /** The elements of `s` whose key is `k`, in their order in `s`. */
  function OfKey<T>(s: seq<T>, key: T -> int, k: int): (r: seq<T>)
    ensures forall y :: y in r ==> y in s && key(y) == k
    decreases |s|
  {
    if |s| == 0 then []
    else OfKey(s[..|s| - 1], key, k) + (if key(s[|s| - 1]) == k then [s[|s| - 1]] else [])
  }

  lemma {:induction false} InsertOfKey<T>(t: seq<T>, x: T, key: T -> int, k: int)
    ensures OfKey(Insert(t, x, key), key, k) == OfKey(t, key, k) + (if key(x) == k then [x] else [])
    decreases |t|
  {
    var r := Insert(t, x, key);
    if |t| == 0 || key(t[|t| - 1]) <= key(x) {
      assert r[..|r| - 1] == t && r[|r| - 1] == x;
    } else {
      var init, last := t[..|t| - 1], t[|t| - 1];
      var ofX := if key(x) == k then [x] else [];
      var ofLast := if key(last) == k then [last] else [];
      assert r[..|r| - 1] == Insert(init, x, key) && r[|r| - 1] == last;
      InsertOfKey(init, x, key, k);
      assert OfKey(r, key, k) == OfKey(init, key, k) + ofX + ofLast;
      assert OfKey(t, key, k) == OfKey(init, key, k) + ofLast;
      // `last` sorts after `x`, so at most one of them has key `k`.
      assert ofX == [] || ofLast == [];
    }
  }

  /** The sort is stable: for every key, the elements with that key keep their input order. */
  lemma {:induction false} SortByStable<T>(s: seq<T>, key: T -> int, k: int)
    ensures OfKey(SortBy(s, key), key, k) == OfKey(s, key, k)
    decreases |s|
  {
    if |s| > 0 {
      SortByStable(s[..|s| - 1], key, k);
      InsertOfKey(SortBy(s[..|s| - 1], key), s[|s| - 1], key, k);
    }
  }

  lemma SortByKeepsMembers<T>(s: seq<T>, key: T -> int, y: T)
    ensures y in SortBy(s, key) <==> y in s
  {
    SortByProperties(s, key);
    assert y in SortBy(s, key) <==> y in multiset(SortBy(s, key));
    assert y in s <==> y in multiset(s);
  }

  /** `s.findIndex(x => key(x) === k)`: -1 when no element has key `k`. */
  function FindIndexByKey<T>(s: seq<T>, key: T -> int, k: int, from: nat := 0): (r: int)
    requires from <= |s|
    decreases |s| - from
    ensures r == -1 || from <= r < |s|
    ensures r != -1 ==> key(s[r]) == k && forall j :: from <= j < r ==> key(s[j]) != k
    ensures r == -1 ==> forall j :: from <= j < |s| ==> key(s[j]) != k
  {
    if from == |s| then -1
    else if key(s[from]) == k then from
    else FindIndexByKey(s, key, k, from + 1)
  }

  /** `s.find(x => key(x) === k)`. */
  function FindByKey<T>(s: seq<T>, key: T -> int, k: int): (r: Option<T>)
    ensures r.Some? ==> r.value in s && key(r.value) == k
    ensures r.Some? ==> exists i :: 0 <= i < |s| && s[i] == r.value && FirstWithKey(s, key, k, i)
    ensures r.None? <==> forall j :: 0 <= j < |s| ==> key(s[j]) != k
  {
    var i := FindIndexByKey(s, key, k);
    if i == -1 then None else assert FirstWithKey(s, key, k, i); Some(s[i])
  }

  /** Position `i` holds key `k` and no earlier position does. */
  predicate FirstWithKey<T>(s: seq<T>, key: T -> int, k: int, i: int)
    requires 0 <= i < |s|
  {
    key(s[i]) == k && forall j :: 0 <= j < i ==> key(s[j]) != k
  }

  /**
   * Sort by key, find the first element with key `k`, and take the one that
   * follows it in the sorted array, if any.
   */
  function NextAfter<T>(s: seq<T>, key: T -> int, k: int): (r: Option<T>)
    ensures r.Some? ==> r.value in s && key(r.value) >= k
  {
    var sorted := SortBy(s, key);
    var i := FindIndexByKey(sorted, key, k);
    SortByProperties(s, key);
    if i != -1 && i < |sorted| - 1 then
      SortByKeepsMembers(s, key, sorted[i + 1]);
      Some(sorted[i + 1])
    else None
  }

  /** `y` is the element of `s` with the smallest key above `k`. */
  ghost predicate IsSuccessor<T>(s: seq<T>, key: T -> int, k: int, y: T) {
    && y in s && key(y) > k
    && forall z :: z in s && key(z) > k ==> key(y) <= key(z)
  }

  /**
   * With distinct keys, the element after `k` in the sorted array exists
   * exactly when `k` is present and some key is larger, and it is the element
   * with the smallest larger key.
   */
  lemma NextAfterIsSuccessor<T>(s: seq<T>, key: T -> int, k: int)
    requires DistinctKeys(s, key)
    ensures NextAfter(s, key, k).Some? <==>
              (exists x :: x in s && key(x) == k) && (exists z :: z in s && key(z) > k)
    ensures NextAfter(s, key, k).Some? ==> IsSuccessor(s, key, k, NextAfter(s, key, k).value)
  {
    var sorted := SortBy(s, key);
    SortByProperties(s, key);
    var i := FindIndexByKey(sorted, key, k);
    forall y ensures y in sorted <==> y in s { SortByKeepsMembers(s, key, y); }
    if i != -1 {
      assert sorted[i] in s;
      forall z | z in s && key(z) > k
        ensures i < |sorted| - 1 && key(sorted[i + 1]) <= key(z)
      {
        var j :| 0 <= j < |sorted| && sorted[j] == z;
        assert j > i;
      }
      if i < |sorted| - 1 {
        assert key(sorted[i + 1]) > k;
        assert sorted[i + 1] in s;
      }
    } else {
      forall x | x in s ensures key(x) != k {
        var j :| 0 <= j < |sorted| && sorted[j] == x;
      }
    }
  }
}
