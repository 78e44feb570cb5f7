/**
 * Group-by with a running total and count per key, in first-seen key order:
 * the dictionary a `forEach` fills on both performance pages
 * (`grouped[topic] = grouped[topic] || { total: 0, count: 0 }`, then
 * `total += contribution; count += 1`).
 */
module Grouping {
  import opened JsNumber

  datatype Tally = Tally(total: real, count: nat)

  /** The dictionary, with its keys in the order they were first added. */
  datatype Grouped = Grouped(keys: seq<string>, tallies: map<string, Tally>)

  /** A row's average, `count ? Math.round(total / count) : 0`. */
  function Average(t: Tally): int {
    if t.count != 0 then Round(t.total / t.count as real) else 0
  }

  /** Each record as its (key, value) pair, in order: what the `forEach` adds to the dictionary. */
  function Keyed<T>(xs: seq<T>, key: T -> string, val: T -> real): (items: seq<(string, real)>)
    ensures |items| == |xs|
    ensures forall i :: 0 <= i < |xs| ==> items[i] == (key(xs[i]), val(xs[i]))
  {
    seq(|xs|, i requires 0 <= i < |xs| => (key(xs[i]), val(xs[i])))
  }

  /** Adds one item to the dictionary. */
  function AddItem(g: Grouped, key: string, v: real): Grouped {
    if key in g.tallies then
      Grouped(g.keys, g.tallies[key := Tally(g.tallies[key].total + v, g.tallies[key].count + 1)])
    else
      Grouped(g.keys + [key], g.tallies[key := Tally(v, 1)])
  }

  /** The dictionary after adding every item in order. */
  function GroupAll(items: seq<(string, real)>): (g: Grouped)
    ensures 1 <= |g.keys| <= |items| || (|g.keys| == 0 && |items| == 0)
    decreases |items|
  {
    if |items| == 0 then Grouped([], map[])
    else
      var last := items[|items| - 1];
      AddItem(GroupAll(items[..|items| - 1]), last.0, last.1)
  }

  /** The `forEach` loop that fills the dictionary. */
  method Group(items: seq<(string, real)>) returns (g: Grouped)
    ensures g == GroupAll(items)
  {
    var keys: seq<string> := [];
    var tallies: map<string, Tally> := map[];
    var i := 0;
    while i < |items|
      invariant 0 <= i <= |items|
      invariant Grouped(keys, tallies) == GroupAll(items[..i])
    {
      var (key, v) := items[i];
      if key !in tallies {
        tallies := tallies[key := Tally(0.0, 0)];
        keys := keys + [key];
      }
      tallies := tallies[key := Tally(tallies[key].total + v, tallies[key].count + 1)];
      assert items[..i + 1][..i] == items[..i];
      i := i + 1;
    }
    assert items[..i] == items;
    g := Grouped(keys, tallies);
  }

  /** Keys are listed once each, exactly the dictionary's keys, and every tally counts at least one item. */
  predicate WellFormed(g: Grouped) {
    && (forall i, j :: 0 <= i < j < |g.keys| ==> g.keys[i] != g.keys[j])
    && g.tallies.Keys == set k | k in g.keys
    && (forall k :: k in g.tallies ==> g.tallies[k].count >= 1)
  }

  /** How many items carry key `k`. */
  function Occurrences(items: seq<(string, real)>, k: string): nat
    decreases |items|
  {
    if |items| == 0 then 0
    else Occurrences(items[..|items| - 1], k) + (if items[|items| - 1].0 == k then 1 else 0)
  }

  /** The sum of the values of the items carrying key `k`. */
  function KeySum(items: seq<(string, real)>, k: string): real
    decreases |items|
  {
    if |items| == 0 then 0.0
    else KeySum(items[..|items| - 1], k) + (if items[|items| - 1].0 == k then items[|items| - 1].1 else 0.0)
  }

  /** The sum of the counts of the listed keys. */
  function SumCounts(keys: seq<string>, m: map<string, Tally>): nat
    requires forall k :: k in keys ==> k in m
  {
    if |keys| == 0 then 0 else m[keys[0]].count + SumCounts(keys[1..], m)
  }

  lemma {:induction false} GroupAllWellFormed(items: seq<(string, real)>)
    ensures WellFormed(GroupAll(items))
    decreases |items|
  {
    if |items| > 0 {
      GroupAllWellFormed(items[..|items| - 1]);
    }
  }

  /**
   * Every key present in the items gets one tally, whose count is the number
   * of its items and whose total is the sum of their values; no other key
   * gets one.
   */
  lemma {:induction false} GroupAllTallies(items: seq<(string, real)>, k: string)
    ensures k in GroupAll(items).tallies <==> Occurrences(items, k) > 0
    ensures k in GroupAll(items).tallies ==>
              GroupAll(items).tallies[k] == Tally(KeySum(items, k), Occurrences(items, k))
    ensures Occurrences(items, k) == 0 ==> KeySum(items, k) == 0.0
    decreases |items|
  {
    if |items| > 0 {
      GroupAllTallies(items[..|items| - 1], k);
    }
  }

  lemma {:induction false} SumCountsAppend(keys: seq<string>, k: string, m: map<string, Tally>)
    requires forall x :: x in keys + [k] ==> x in m
    ensures SumCounts(keys + [k], m) == SumCounts(keys, m) + m[k].count
    decreases |keys|
  {
    if |keys| > 0 {
      assert (keys + [k])[1..] == keys[1..] + [k];
      SumCountsAppend(keys[1..], k, m);
    }
  }

  /** Updating a key that is not listed leaves the sum alone. */
  lemma {:induction false} SumCountsOther(keys: seq<string>, m: map<string, Tally>, k: string, t: Tally)
    requires forall x :: x in keys ==> x in m
    requires k !in keys
    ensures SumCounts(keys, m[k := t]) == SumCounts(keys, m)
    decreases |keys|
  {
    if |keys| > 0 {
      SumCountsOther(keys[1..], m, k, t);
    }
  }

  /** Adding one to the count of a key listed once adds one to the sum. */
  lemma {:induction false} SumCountsBump(keys: seq<string>, m: map<string, Tally>, k: string, t: Tally)
    requires forall x :: x in keys ==> x in m
    requires forall i, j :: 0 <= i < j < |keys| ==> keys[i] != keys[j]
    requires k in keys && t.count == m[k].count + 1
    ensures SumCounts(keys, m[k := t]) == SumCounts(keys, m) + 1
    decreases |keys|
  {
    if keys[0] == k {
      assert k !in keys[1..];
      SumCountsOther(keys[1..], m, k, t);
    } else {
      SumCountsBump(keys[1..], m, k, t);
    }
  }

  /** Every item is counted exactly once: the counts add up to the number of items. */
  lemma {:induction false} GroupAllCountsSum(items: seq<(string, real)>)
    ensures WellFormed(GroupAll(items))
    ensures SumCounts(GroupAll(items).keys, GroupAll(items).tallies) == |items|
    decreases |items|
  {
    GroupAllWellFormed(items);
    if |items| > 0 {
      var init := items[..|items| - 1];
      GroupAllCountsSum(init);
      AddItemCountsOne(GroupAll(init), items[|items| - 1].0, items[|items| - 1].1);
    }
  }

  /** Adding an item to a well-formed dictionary adds one to the sum of its counts. */
  lemma AddItemCountsOne(g: Grouped, k: string, v: real)
    requires WellFormed(g)
    ensures SumCounts(AddItem(g, k, v).keys, AddItem(g, k, v).tallies) == SumCounts(g.keys, g.tallies) + 1
  {
    assert forall x :: x in g.keys ==> x in g.tallies;
    if k in g.tallies {
      SumCountsBump(g.keys, g.tallies, k, Tally(g.tallies[k].total + v, g.tallies[k].count + 1));
    } else {
      var m := g.tallies[k := Tally(v, 1)];
      SumCountsAppend(g.keys, k, m);
      SumCountsOther(g.keys, g.tallies, k, Tally(v, 1));
    }
  }

  /**
   * When every value lies in [lo, hi], each tally's total lies between
   * `count * lo` and `count * hi`.
   */
  lemma {:induction false} GroupAllTotalBounds(items: seq<(string, real)>, lo: real, hi: real, k: string)
    requires forall i :: 0 <= i < |items| ==> lo <= items[i].1 <= hi
    requires k in GroupAll(items).tallies
    ensures var t := GroupAll(items).tallies[k];
            t.count as real * lo <= t.total <= t.count as real * hi
    decreases |items|
  {
    var init := items[..|items| - 1];
    var (key, v) := items[|items| - 1];
    if k in GroupAll(init).tallies {
      GroupAllTotalBounds(init, lo, hi, k);
    }
  }
}
