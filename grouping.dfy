/**
 * Grouping items into the buckets of a JavaScript `Map`, as the front end
 * does with `index.get(key) ?? []`, `push` and `index.set(key, ...)`: the
 * buckets keep input order and the map remembers the order in which it
 * first saw each key.
 */
module Grouping {
  /** Every key of every item, item by item. */
  function Flat<T, K(==,!new)>(xs: seq<T>, keys: T -> seq<K>): seq<K>
    decreases |xs|
  {
    if |xs| == 0 then [] else Flat(xs[..|xs| - 1], keys) + keys(xs[|xs| - 1])
  }

  /** How often `k` occurs in `s`. */
  function Count<K(==,!new)>(s: seq<K>, k: K): nat
    decreases |s|
  {
    if |s| == 0 then 0 else Count(s[..|s| - 1], k) + (if s[|s| - 1] == k then 1 else 0)
  }

  function Repeat<T>(x: T, n: nat): (r: seq<T>)
    ensures |r| == n && forall i :: 0 <= i < n ==> r[i] == x
  {
    seq(n, _ => x)
  }

  /** The bucket of `k`: each item once per occurrence of `k` among its keys, in input order. */
  function Bucket<T, K(==,!new)>(xs: seq<T>, keys: T -> seq<K>, k: K): seq<T>
    decreases |xs|
  {
    if |xs| == 0 then [] else Bucket(xs[..|xs| - 1], keys, k) + Repeat(xs[|xs| - 1], Count(keys(xs[|xs| - 1]), k))
  }

  predicate NoDuplicates<K(==,!new)>(s: seq<K>) {
    forall i, j :: 0 <= i < j < |s| ==> s[i] != s[j]
  }

  /** The distinct elements of `s` in the order of their first occurrence. */
  function Distinct<K(==,!new)>(s: seq<K>): (r: seq<K>)
    ensures forall k :: k in r <==> k in s
    ensures NoDuplicates(r)
    decreases |s|
  {
    if |s| == 0 then []
    else
      var init := s[..|s| - 1];
      assert s == init + [s[|s| - 1]];
      if s[|s| - 1] in init then Distinct(init) else Distinct(init) + [s[|s| - 1]]
  }

  /** `index` and `order` are the map built from the items `done`. */
  ghost predicate Indexes<T, K(!new)>(index: map<K, seq<T>>, order: seq<K>, done: seq<T>, keys: T -> seq<K>) {
    (forall k :: k in index <==> k in Flat(done, keys))
    && (forall k :: k in index ==> index[k] == Bucket(done, keys, k))
    && (forall k :: k !in index ==> Bucket(done, keys, k) == [])
    && order == Distinct(Flat(done, keys))
  }

  /**
   * The index loop: for every item and every key of it, the item is
   * appended to that key's bucket. `order` is the key order of the `Map`.
   */
  method GroupBy<T, K(==,!new)>(xs: seq<T>, keys: T -> seq<K>) returns (index: map<K, seq<T>>, order: seq<K>)
    ensures forall k :: k in index <==> k in Flat(xs, keys)
    ensures forall k :: k in index ==> index[k] == Bucket(xs, keys, k)
    ensures order == Distinct(Flat(xs, keys))
  {
    index := map[];
    order := [];
    for i := 0 to |xs|
      invariant Indexes(index, order, xs[..i], keys)
    {
      index, order := FileItem(index, order, xs, i, keys);
    }
    assert xs[..|xs|] == xs;
  }

  /** The inner loop: files one item under each of its keys. */
  method FileItem<T, K(==,!new)>(index0: map<K, seq<T>>, order0: seq<K>, xs: seq<T>, i: nat, keys: T -> seq<K>)
    returns (index: map<K, seq<T>>, order: seq<K>)
    requires i < |xs| && Indexes(index0, order0, xs[..i], keys)
    ensures Indexes(index, order, xs[..i + 1], keys)
  {
    index, order := index0, order0;
    var ks := keys(xs[i]);
    assert Flat(xs[..i], keys) + ks[..0] == Flat(xs[..i], keys);
    for j := 0 to |ks|
      invariant Filed(index, order, xs[..i], keys, xs[i], j)
    {
      index, order := FileUnder(index, order, xs[..i], keys, xs[i], j);
    }
    Finish(index, order, xs, i, keys);
  }

  /** The map after filing `item` under its first `j` keys. */
  ghost predicate Filed<T, K(!new)>(index: map<K, seq<T>>, order: seq<K>, done: seq<T>, keys: T -> seq<K>, item: T, j: nat) {
    var ks := keys(item);
    j <= |ks|
    && (forall k :: k in index <==> k in Flat(done, keys) + ks[..j])
    && (forall k :: k in index ==> index[k] == Bucket(done, keys, k) + Repeat(item, Count(ks[..j], k)))
    && (forall k :: k !in index ==> Bucket(done, keys, k) == [] && Count(ks[..j], k) == 0)
    && order == Distinct(Flat(done, keys) + ks[..j])
  }

  /** One step of the inner loop: `index.get(key) ?? []`, `push(item)`, `index.set(key, ...)`. */
  method FileUnder<T, K(==,!new)>(index0: map<K, seq<T>>, order0: seq<K>, ghost done: seq<T>, keys: T -> seq<K>, item: T, j: nat)
    returns (index: map<K, seq<T>>, order: seq<K>)
    requires j < |keys(item)| && Filed(index0, order0, done, keys, item, j)
    ensures Filed(index, order, done, keys, item, j + 1)
  {
    var key := keys(item)[j];
    ghost var ks, flat := keys(item), Flat(done, keys);
    KeyStep(flat, ks, j);
    var existing := if key in index0 then index0[key] else [];
    order := if key in index0 then order0 else order0 + [key];
    RepeatStep(Bucket(done, keys, key), item, Count(ks[..j], key));
    index := index0[key := existing + [item]];
    DistinctSnoc(flat + ks[..j], key);
    FiledBuckets(index0, done, keys, item, j);
  }

  /** The buckets after filing `item` under one more key. */
  lemma {:induction false} FiledBuckets<T, K(!new)>(index0: map<K, seq<T>>, done: seq<T>, keys: T -> seq<K>, item: T, j: nat)
    requires j < |keys(item)|
    requires forall k :: k in index0 ==> index0[k] == Bucket(done, keys, k) + Repeat(item, Count(keys(item)[..j], k))
    requires forall k :: k !in index0 ==> Bucket(done, keys, k) == [] && Count(keys(item)[..j], k) == 0
    requires forall k :: Count(keys(item)[..j + 1], k) == Count(keys(item)[..j], k) + (if keys(item)[j] == k then 1 else 0)
    ensures var key := keys(item)[j];
      var index := index0[key := (if key in index0 then index0[key] else []) + [item]];
      forall k :: k in index ==> index[k] == Bucket(done, keys, k) + Repeat(item, Count(keys(item)[..j + 1], k))
  {
    var ks, key := keys(item), keys(item)[j];
    var b := Bucket(done, keys, key);
    var n := Count(ks[..j], key);
    RepeatStep(b, item, n);
    if key !in index0 {
      assert b == [] && n == 0;
      assert (b + Repeat(item, n)) + [item] == [item];
    }
  }

  lemma {:induction false} Finish<T, K(!new)>(index: map<K, seq<T>>, order: seq<K>, xs: seq<T>, i: nat, keys: T -> seq<K>)
    requires i < |xs| && Filed(index, order, xs[..i], keys, xs[i], |keys(xs[i])|)
    ensures Indexes(index, order, xs[..i + 1], keys)
  {
    var ks := keys(xs[i]);
    assert ks[..|ks|] == ks;
    PrefixSnoc(xs, i);
    Snoc(xs[..i], keys, xs[i]);
  }

  lemma {:induction false} PrefixSnoc<T>(xs: seq<T>, i: nat)
    requires i < |xs|
    ensures xs[..i + 1] == xs[..i] + [xs[i]]
  {
  }

  /** One more key of the item being filed. */
  lemma {:induction false} KeyStep<K(!new)>(flat: seq<K>, ks: seq<K>, j: nat)
    requires j < |ks|
    ensures flat + ks[..j + 1] == (flat + ks[..j]) + [ks[j]]
    ensures forall k :: Count(ks[..j + 1], k) == Count(ks[..j], k) + (if ks[j] == k then 1 else 0)
  {
    assert ks[..j + 1][..j] == ks[..j];
    assert ks[..j + 1] == ks[..j] + [ks[j]];
  }

  lemma {:induction false} RepeatStep<T>(b: seq<T>, item: T, n: nat)
    ensures (b + Repeat(item, n)) + [item] == b + Repeat(item, n + 1)
  {
    assert Repeat(item, n + 1) == Repeat(item, n) + [item];
  }

  /** Filing one more item extends the keys and every bucket at the end. */
  lemma {:induction false} Snoc<T, K(!new)>(done: seq<T>, keys: T -> seq<K>, item: T)
    ensures Flat(done + [item], keys) == Flat(done, keys) + keys(item)
    ensures forall k :: Bucket(done + [item], keys, k) == Bucket(done, keys, k) + Repeat(item, Count(keys(item), k))
  {
    assert (done + [item])[..|done|] == done;
  }

  // ---------------------------------------------------------------- one summary per key

  /**
   * `acc` maps every key of the items `done` to `f` of its bucket, and
   * `order` is the order in which the keys first appeared: a record built by
   * a `reduce` that files each item under at most one key.
   */
  ghost predicate Summarises<T, K(!new), V>(acc: map<K, V>, order: seq<K>, done: seq<T>, keys: T -> seq<K>, f: seq<T> -> V) {
    (forall k :: k in acc <==> k in Flat(done, keys))
    && (forall k :: k in acc ==> |Bucket(done, keys, k)| > 0 && acc[k] == f(Bucket(done, keys, k)))
    && (forall k :: k !in acc ==> Bucket(done, keys, k) == [])
    && order == Distinct(Flat(done, keys))
  }

  lemma {:induction false} SummaryEmpty<T, K(!new), V>(keys: T -> seq<K>, f: seq<T> -> V)
    ensures Summarises(map[], [], [], keys, f)
  {
  }

  /** An item without a key changes nothing. */
  lemma {:induction false} SummarySkip<T, K(!new), V>(acc: map<K, V>, order: seq<K>, done: seq<T>, keys: T -> seq<K>, f: seq<T> -> V, item: T)
    requires Summarises(acc, order, done, keys, f) && keys(item) == []
    ensures Summarises(acc, order, done + [item], keys, f)
  {
    Snoc(done, keys, item);
    assert Flat(done, keys) + [] == Flat(done, keys);
    forall k
      ensures Bucket(done + [item], keys, k) == Bucket(done, keys, k)
    {
      assert Count(keys(item), k) == 0;
      assert Repeat(item, 0) == [];
      assert Bucket(done, keys, k) + [] == Bucket(done, keys, k);
    }
  }

  /** An item with the single key `key` extends that key's bucket, creating the key when it is new. */
  lemma {:induction false} SummaryStep<T, K(!new), V>(acc: map<K, V>, order: seq<K>, done: seq<T>, keys: T -> seq<K>, f: seq<T> -> V, item: T, key: K)
    requires Summarises(acc, order, done, keys, f) && keys(item) == [key]
    ensures Bucket(done + [item], keys, key) == Bucket(done, keys, key) + [item]
    ensures Summarises(acc[key := f(Bucket(done, keys, key) + [item])], if key in acc then order else order + [key], done + [item], keys, f)
  {
    SingleKeyStep(done, keys, item, key);
    var acc' := acc[key := f(Bucket(done, keys, key) + [item])];
    var done' := done + [item];
    forall k | k in acc'
      ensures |Bucket(done', keys, k)| > 0 && acc'[k] == f(Bucket(done', keys, k))
    {
      if k != key {
        assert acc'[k] == acc[k];
      }
    }
    var flat := Flat(done, keys);
    assert forall k :: k in flat + [key] <==> k in flat || k == key;
    assert forall k :: k in acc' <==> k in Flat(done', keys);
    assert forall k :: k !in acc' ==> Bucket(done', keys, k) == [];
    DistinctSnoc(flat, key);
    assert (if key in acc then order else order + [key]) == Distinct(Flat(done', keys));
  }

  lemma {:induction false} SingleKeyStep<T, K(!new)>(done: seq<T>, keys: T -> seq<K>, item: T, key: K)
    requires keys(item) == [key]
    ensures Flat(done + [item], keys) == Flat(done, keys) + [key]
    ensures Bucket(done + [item], keys, key) == Bucket(done, keys, key) + [item]
    ensures forall k :: k != key ==> Bucket(done + [item], keys, k) == Bucket(done, keys, k)
  {
    Snoc(done, keys, item);
    assert [key][..0] == [];
    assert Count([key], key) == 1;
    assert Repeat(item, 1) == [item];
    forall k | k != key
      ensures Bucket(done + [item], keys, k) == Bucket(done, keys, k)
    {
      assert Count([key], k) == 0;
      assert Repeat(item, 0) == [];
      assert Bucket(done, keys, k) + [] == Bucket(done, keys, k);
    }
  }

  lemma {:induction false} DistinctSnoc<K(!new)>(s: seq<K>, x: K)
    ensures Distinct(s + [x]) == if x in s then Distinct(s) else Distinct(s) + [x]
  {
    assert (s + [x])[..|s|] == s;
  }

  /** The index of the first occurrence of `x` in `s`. */
  function FirstIndex<K(==)>(s: seq<K>, x: K): (r: nat)
    requires x in s
    ensures r < |s| && s[r] == x && forall j :: 0 <= j < r ==> s[j] != x
    decreases |s|
  {
    if s[0] == x then 0 else 1 + FirstIndex(s[1..], x)
  }

  lemma {:induction false} FirstIndexSnoc<K>(s: seq<K>, y: K, x: K)
    requires x in s
    ensures FirstIndex(s + [y], x) == FirstIndex(s, x)
  {
    var r1, r2 := FirstIndex(s + [y], x), FirstIndex(s, x);
    assert (s + [y])[r2] == x;
  }

  /** `Distinct` keeps the order of first occurrences. */
  lemma {:induction false} DistinctOrder<K(!new)>(s: seq<K>)
    ensures forall i, j :: 0 <= i < j < |Distinct(s)| ==> FirstIndex(s, Distinct(s)[i]) < FirstIndex(s, Distinct(s)[j])
    decreases |s|
  {
    if |s| > 0 {
      var init, x := s[..|s| - 1], s[|s| - 1];
      assert s == init + [x];
      DistinctOrder(init);
      DistinctSnoc(init, x);
      var d := Distinct(s);
      forall i, j | 0 <= i < j < |d|
        ensures FirstIndex(s, d[i]) < FirstIndex(s, d[j])
      {
        var di := Distinct(init);
        assert d[i] in di;
        FirstIndexSnoc(init, x, d[i]);
        if j < |di| {
          assert d[i] == di[i] && d[j] == di[j];
          FirstIndexSnoc(init, x, d[j]);
        } else {
          assert d[j] == x && x !in init;
          assert FirstIndex(s, x) == |init|;
        }
      }
    }
  }

  // ---------------------------------------------------------------- bucket sizes

  /** The sizes of the buckets listed in `order`, added up. */
  function BucketTotal<T, K(==,!new)>(order: seq<K>, xs: seq<T>, keys: T -> seq<K>): nat
    decreases |order|
  {
    if |order| == 0 then 0 else BucketTotal(order[..|order| - 1], xs, keys) + |Bucket(xs, keys, order[|order| - 1])|
  }

  /** The occurrences in `s` of the keys listed in `order`, added up. */
  function CountTotal<K(==,!new)>(order: seq<K>, s: seq<K>): nat
    decreases |order|
  {
    if |order| == 0 then 0 else CountTotal(order[..|order| - 1], s) + Count(s, order[|order| - 1])
  }

  lemma {:induction false} CountAppend<K(!new)>(a: seq<K>, b: seq<K>, k: K)
    ensures Count(a + b, k) == Count(a, k) + Count(b, k)
    decreases |b|
  {
    if |b| == 0 {
      assert a + b == a;
    } else {
      assert (a + b)[..|a + b| - 1] == a + b[..|b| - 1];
      CountAppend(a, b[..|b| - 1], k);
    }
  }

  lemma {:induction false} CountAbsent<K(!new)>(s: seq<K>, k: K)
    requires k !in s
    ensures Count(s, k) == 0
    decreases |s|
  {
    if |s| > 0 {
      assert forall x :: x in s[..|s| - 1] ==> x in s;
      CountAbsent(s[..|s| - 1], k);
    }
  }

  /** A key listed once occurs once. */
  lemma {:induction false} CountOnce<K(!new)>(s: seq<K>, k: K)
    requires NoDuplicates(s) && k in s
    ensures Count(s, k) == 1
    decreases |s|
  {
    var init := s[..|s| - 1];
    assert s == init + [s[|s| - 1]];
    if s[|s| - 1] == k {
      assert k !in init by {
        forall i | 0 <= i < |init|
          ensures init[i] != k
        {
          assert s[i] != s[|s| - 1];
        }
      }
      CountAbsent(init, k);
    } else {
      CountOnce(init, k);
    }
  }

  /** The size of a bucket is the number of times its key occurs among the items' keys. */
  lemma {:induction false} BucketSize<T, K(!new)>(xs: seq<T>, keys: T -> seq<K>, k: K)
    ensures |Bucket(xs, keys, k)| == Count(Flat(xs, keys), k)
    decreases |xs|
  {
    if |xs| > 0 {
      BucketSize(xs[..|xs| - 1], keys, k);
      CountAppend(Flat(xs[..|xs| - 1], keys), keys(xs[|xs| - 1]), k);
    }
  }

  lemma {:induction false} BucketTotalIsCountTotal<T, K(!new)>(order: seq<K>, xs: seq<T>, keys: T -> seq<K>)
    ensures BucketTotal(order, xs, keys) == CountTotal(order, Flat(xs, keys))
    decreases |order|
  {
    if |order| > 0 {
      BucketTotalIsCountTotal(order[..|order| - 1], xs, keys);
      BucketSize(xs, keys, order[|order| - 1]);
    }
  }

  /** Appending one key to `s` adds its count in `order` to the total. */
  lemma {:induction false} CountTotalSnoc<K(!new)>(order: seq<K>, s: seq<K>, x: K)
    ensures CountTotal(order, s + [x]) == CountTotal(order, s) + Count(order, x)
    decreases |order|
  {
    if |order| > 0 {
      CountTotalSnoc(order[..|order| - 1], s, x);
      assert (s + [x])[..|s + [x]| - 1] == s;
    }
  }

  /** Counting, for each key of a duplicate-free cover of `s`, its occurrences gives `|s|`. */
  lemma {:induction false} CountTotalCovers<K(!new)>(order: seq<K>, s: seq<K>)
    requires NoDuplicates(order) && forall x :: x in s ==> x in order
    ensures CountTotal(order, s) == |s|
    decreases |s|
  {
    if |s| == 0 {
      CountTotalEmpty(order);
    } else {
      var init, x := s[..|s| - 1], s[|s| - 1];
      assert s == init + [x];
      assert forall y :: y in init ==> y in s;
      CountTotalCovers(order, init);
      CountTotalSnoc(order, init, x);
      CountOnce(order, x);
    }
  }

  lemma {:induction false} CountTotalEmpty<K(!new)>(order: seq<K>)
    ensures CountTotal(order, []) == 0
    decreases |order|
  {
    if |order| > 0 {
      CountTotalEmpty(order[..|order| - 1]);
    }
  }

  /** Over the keys of the map, the bucket sizes add up to the number of (item, key) filings. */
  lemma {:induction false} BucketsPartitionKeys<T, K(!new)>(xs: seq<T>, keys: T -> seq<K>)
    ensures BucketTotal(Distinct(Flat(xs, keys)), xs, keys) == |Flat(xs, keys)|
  {
    BucketTotalIsCountTotal(Distinct(Flat(xs, keys)), xs, keys);
    CountTotalCovers(Distinct(Flat(xs, keys)), Flat(xs, keys));
  }

  // ---------------------------------------------------------------- one key per item

  /** At most one key per item, as when grouping by an optional property. */
  ghost predicate SingleKeyed<T, K(!new)>(xs: seq<T>, keys: T -> seq<K>) {
    forall i :: 0 <= i < |xs| ==> |keys(xs[i])| <= 1
  }

  /** The items that have a key. */
  function Keyed<T, K(==,!new)>(xs: seq<T>, keys: T -> seq<K>): (r: seq<T>)
    decreases |xs|
  {
    if |xs| == 0 then [] else Keyed(xs[..|xs| - 1], keys) + (if |keys(xs[|xs| - 1])| > 0 then [xs[|xs| - 1]] else [])
  }

  /** With one key per item, the filings are exactly the items that have a key. */
  lemma {:induction false} FlatOfSingleKeys<T, K(!new)>(xs: seq<T>, keys: T -> seq<K>)
    requires SingleKeyed(xs, keys)
    ensures |Flat(xs, keys)| == |Keyed(xs, keys)|
    decreases |xs|
  {
    if |xs| > 0 {
      FlatOfSingleKeys(xs[..|xs| - 1], keys);
    }
  }

  // ---------------------------------------------------------------- duplicate-free keys

  /** The items having `k` among their keys, in input order, as `filter(... includes(k))` keeps them. */
  function Having<T, K(==,!new)>(xs: seq<T>, keys: T -> seq<K>, k: K): (r: seq<T>)
    decreases |xs|
  {
    if |xs| == 0 then [] else Having(xs[..|xs| - 1], keys, k) + (if k in keys(xs[|xs| - 1]) then [xs[|xs| - 1]] else [])
  }

  /** When no item lists a key twice, a bucket is the filter of the items having its key. */
  lemma {:induction false} BucketOfDistinctKeys<T, K(!new)>(xs: seq<T>, keys: T -> seq<K>, k: K)
    requires forall i :: 0 <= i < |xs| ==> NoDuplicates(keys(xs[i]))
    ensures Bucket(xs, keys, k) == Having(xs, keys, k)
    decreases |xs|
  {
    if |xs| > 0 {
      var last := xs[|xs| - 1];
      BucketOfDistinctKeys(xs[..|xs| - 1], keys, k);
      if k in keys(last) {
        CountOnce(keys(last), k);
        assert Repeat(last, 1) == [last];
      } else {
        CountAbsent(keys(last), k);
      }
    }
  }
}
