/**
 * The fingerprint of a connector instance: its identity and its
 * configuration entries, normalised to `key=value` pairs sorted by key,
 * passed to a hash. SHA-256 itself is a parameter.
 */
module ConnectorInstanceHash {
  import opened Wrappers
  import opened Text

  // ---------------------------------------------------------------- key order

  /** `String.compareTo(a, b) <= 0`: lexicographic order on characters. */
  predicate KeyLe(a: string, b: string)
    decreases |a|
  {
    |a| == 0 || (|b| > 0 && (a[0] < b[0] || (a[0] == b[0] && KeyLe(a[1..], b[1..]))))
  }

  lemma {:induction false} KeyLeReflexive(a: string)
    ensures KeyLe(a, a)
    decreases |a|
  {
    if |a| > 0 {
      KeyLeReflexive(a[1..]);
    }
  }

  lemma {:induction false} KeyLeTotal(a: string, b: string)
    ensures KeyLe(a, b) || KeyLe(b, a)
    decreases |a|
  {
    if |a| > 0 && |b| > 0 && a[0] == b[0] {
      KeyLeTotal(a[1..], b[1..]);
    }
  }

  lemma {:induction false} KeyLeTransitive(a: string, b: string, c: string)
    requires KeyLe(a, b) && KeyLe(b, c)
    ensures KeyLe(a, c)
    decreases |a|
  {
    if |a| > 0 && a[0] == b[0] && b[0] == c[0] {
      KeyLeTransitive(a[1..], b[1..], c[1..]);
    }
  }

  lemma {:induction false} KeyLeAntisymmetric(a: string, b: string)
    requires KeyLe(a, b) && KeyLe(b, a)
    ensures a == b
    decreases |a|
  {
    if |a| > 0 {
      KeyLeAntisymmetric(a[1..], b[1..]);
      assert a == [a[0]] + a[1..] && b == [b[0]] + b[1..];
    }
  }

  // ---------------------------------------------------------------- entries

  /** A `ConnectorInstanceConfiguration`; `None` is a `null` key or value. */
  datatype Configuration = Configuration(key: Option<string>, value: Option<string>)

  /** A configuration kept by the filter: non-null, with a key and a value. */
  datatype Entry = Entry(key: string, value: string)

  /** The filter of non-null configurations with a key and a value. */
  function Complete(cs: seq<Option<Configuration>>): (r: seq<Entry>)
    ensures |r| <= |cs|
    decreases |cs|
  {
    if |cs| == 0 then []
    else
      var rest := Complete(cs[..|cs| - 1]);
      var c := cs[|cs| - 1];
      if c.Some? && c.value.key.Some? && c.value.value.Some? then rest + [Entry(c.value.key.value, c.value.value.value)] else rest
  }

  /** An entry is kept as often as its configuration occurs. */
  lemma {:induction false} CompleteCounts(cs: seq<Option<Configuration>>, e: Entry)
    ensures multiset(Complete(cs))[e] == multiset(cs)[Some(Configuration(Some(e.key), Some(e.value)))]
    decreases |cs|
  {
    if |cs| > 0 {
      var init := cs[..|cs| - 1];
      CompleteCounts(init, e);
      assert cs == init + [cs[|cs| - 1]];
    }
  }

  predicate SortedByKey(s: seq<Entry>) {
    forall i, j :: 0 <= i < j < |s| ==> KeyLe(s[i].key, s[j].key)
  }

  predicate DistinctKeys(s: seq<Entry>) {
    forall i, j :: 0 <= i < j < |s| ==> s[i].key != s[j].key
  }

  function Insert(e: Entry, s: seq<Entry>): (r: seq<Entry>)
    requires SortedByKey(s)
    ensures multiset(r) == multiset(s) + multiset{e}
    ensures SortedByKey(r)
    decreases |s|
  {
    if |s| == 0 then [e]
    else if KeyLe(e.key, s[0].key) then
      assert forall j :: 0 <= j < |s| ==> KeyLe(e.key, s[j].key) by {
        forall j | 0 < j < |s|
          ensures KeyLe(e.key, s[j].key)
        {
          KeyLeTransitive(e.key, s[0].key, s[j].key);
        }
      }
      SortedCons(e, s);
      [e] + s
    else
      KeyLeTotal(e.key, s[0].key);
      var rest := Insert(e, s[1..]);
      InsertedAbove(e, s, rest);
      SortedCons(s[0], rest);
      [s[0]] + rest
  }

  /** What is inserted after the head of a sorted sequence stays above the head. */
  lemma {:induction false} InsertedAbove(e: Entry, s: seq<Entry>, rest: seq<Entry>)
    requires |s| > 0 && SortedByKey(s) && KeyLe(s[0].key, e.key)
    requires multiset(rest) == multiset(s[1..]) + multiset{e}
    ensures forall j :: 0 <= j < |rest| ==> KeyLe(s[0].key, rest[j].key)
    ensures multiset([s[0]] + rest) == multiset(s) + multiset{e}
  {
    forall j | 0 <= j < |rest|
      ensures KeyLe(s[0].key, rest[j].key)
    {
      assert rest[j] in multiset(rest);
      if rest[j] != e {
        assert rest[j] in s[1..];
      }
    }
    assert s == [s[0]] + s[1..];
  }

  lemma {:induction false} SortedCons(x: Entry, s: seq<Entry>)
    requires SortedByKey(s) && forall j :: 0 <= j < |s| ==> KeyLe(x.key, s[j].key)
    ensures SortedByKey([x] + s)
  {
    var r := [x] + s;
    forall i, j | 0 <= i < j < |r|
      ensures KeyLe(r[i].key, r[j].key)
    {
      if i > 0 {
        assert r[i] == s[i - 1] && r[j] == s[j - 1];
      } else {
        assert r[j] == s[j - 1];
      }
    }
  }

  /** The head of a sorted sequence has the least key. */
  lemma {:induction false} FirstIsLeast(a: seq<Entry>, x: Entry)
    requires SortedByKey(a) && x in a
    ensures KeyLe(a[0].key, x.key)
  {
    var i :| 0 <= i < |a| && a[i] == x;
    if i == 0 {
      KeyLeReflexive(x.key);
    }
  }

  /** `sorted(Comparator.comparing(getKey))`, as a stable insertion sort. */
  function SortByKey(s: seq<Entry>): (r: seq<Entry>)
    ensures multiset(r) == multiset(s)
    ensures SortedByKey(r)
    decreases |s|
  {
    if |s| == 0 then []
    else
      assert s == [s[0]] + s[1..];
      Insert(s[0], SortByKey(s[1..]))
  }

  /** `String.format("%s=%s", key, value)`. */
  function Pair(e: Entry): string {
    e.key + "=" + e.value
  }

  function Pairs(s: seq<Entry>): (r: seq<string>)
    ensures |r| == |s| && forall i :: 0 <= i < |s| ==> r[i] == Pair(s[i])
  {
    seq(|s|, i requires 0 <= i < |s| => Pair(s[i]))
  }

  /**
   * `transformConfigurationsToString`: `""` for no configurations, otherwise
   * the kept entries as `key=value`, sorted by key and joined by `;`. The
   * set is given as a sequence in its iteration order.
   */
  function TransformConfigurations(configurations: Option<seq<Option<Configuration>>>): (r: string)
    ensures configurations.None? || |configurations.value| == 0 ==> r == ""
    ensures configurations.Some? && |Complete(configurations.value)| == 0 ==> r == ""
  {
    if configurations.None? || |configurations.value| == 0 then ""
    else Join(Pairs(SortByKey(Complete(configurations.value))), ";")
  }

  /** Two sorted orderings of the same entries with distinct keys are the same. */
  lemma {:induction false} SortedUnique(a: seq<Entry>, b: seq<Entry>)
    requires SortedByKey(a) && SortedByKey(b) && multiset(a) == multiset(b) && DistinctKeys(a)
    ensures a == b
    decreases |a|
  {
    if |a| > 0 {
      HeadsEqual(a, b);
      assert a == [a[0]] + a[1..] && b == [b[0]] + b[1..];
      assert multiset(a) == multiset{a[0]} + multiset(a[1..]);
      assert multiset(b) == multiset{a[0]} + multiset(b[1..]);
      assert forall x :: multiset(a[1..])[x] == multiset(b[1..])[x] by {
        forall x
          ensures multiset(a[1..])[x] == multiset(b[1..])[x]
        {
          assert multiset(a)[x] == multiset{a[0]}[x] + multiset(a[1..])[x];
          assert multiset(b)[x] == multiset{a[0]}[x] + multiset(b[1..])[x];
        }
      }
      assert multiset(a[1..]) == multiset(b[1..]);
      SortedUnique(a[1..], b[1..]);
    }
  }

  lemma {:induction false} HeadsEqual(a: seq<Entry>, b: seq<Entry>)
    requires |a| > 0 && SortedByKey(a) && SortedByKey(b) && multiset(a) == multiset(b) && DistinctKeys(a)
    ensures |b| > 0 && a[0] == b[0]
  {
    assert a[0] in multiset(b);
    assert b[0] in multiset(a);
    FirstIsLeast(b, a[0]);
    FirstIsLeast(a, b[0]);
    KeyLeAntisymmetric(a[0].key, b[0].key);
    var j :| 0 <= j < |a| && a[j] == b[0];
    assert j == 0;
  }

  /** With distinct keys, the normalised configuration does not depend on the set's iteration order. */
  lemma {:induction false} IterationOrderIrrelevant(xs: seq<Option<Configuration>>, ys: seq<Option<Configuration>>)
    requires multiset(xs) == multiset(ys)
    requires DistinctKeys(SortByKey(Complete(xs)))
    ensures TransformConfigurations(Some(xs)) == TransformConfigurations(Some(ys))
  {
    forall e
      ensures multiset(Complete(xs))[e] == multiset(Complete(ys))[e]
    {
      CompleteCounts(xs, e);
      CompleteCounts(ys, e);
    }
    assert multiset(Complete(xs)) == multiset(Complete(ys));
    SortedUnique(SortByKey(Complete(xs)), SortByKey(Complete(ys)));
    assert |xs| == |multiset(xs)| == |multiset(ys)| == |ys|;
  }

  /** Configurations without a key or a value do not show. */
  lemma {:induction false} IncompleteIgnored(xs: seq<Option<Configuration>>, c: Option<Configuration>)
    requires c.None? || c.value.key.None? || c.value.value.None?
    ensures Complete(xs + [c]) == Complete(xs)
  {
    assert (xs + [c])[..|xs|] == xs;
  }

  // ---------------------------------------------------------------- hash

  /** The fields of a `ConnectorInstance` the hash reads; `None` is `null`. */
  datatype ConnectorInstance = ConnectorInstance(hashIdentity: Option<string>, configurations: Option<seq<Option<Configuration>>>)

  datatype HashError = IllegalArgument(message: string)

  /** `%s` of a possibly null string. */
  function Shown(s: Option<string>): string {
    if s.Some? then s.value else "null"
  }

  /** The text that is hashed: `identity|CONFIG[config]`. */
  function HashInput(instance: ConnectorInstance): (r: string)
    ensures StartsWith(r, Shown(instance.hashIdentity) + "|CONFIG[")
    ensures r[|r| - 1] == ']'
  {
    var prefix := Shown(instance.hashIdentity) + "|CONFIG[";
    var r := prefix + TransformConfigurations(instance.configurations) + "]";
    assert r[..|prefix|] == prefix;
    r
  }

  /** `computeInstanceHash`, with `sha256` standing for `hashWithSHA256`. */
  function ComputeInstanceHash(instance: Option<ConnectorInstance>, sha256: string -> string): (r: Result<string, HashError>)
    ensures instance.None? <==> r.Err?
    ensures instance.Some? ==> r == Ok(sha256(HashInput(instance.value)))
  {
    if instance.None? then Err(IllegalArgument("ConnectorInstance cannot be null"))
    else Ok(sha256(HashInput(instance.value)))
  }

  /** The same identity and the same entries in any order give the same hash. */
  lemma {:induction false} SameInstanceSameHash(a: ConnectorInstance, b: ConnectorInstance, sha256: string -> string)
    requires a.hashIdentity == b.hashIdentity
    requires a.configurations.Some? && b.configurations.Some?
    requires multiset(a.configurations.value) == multiset(b.configurations.value)
    requires DistinctKeys(SortByKey(Complete(a.configurations.value)))
    ensures ComputeInstanceHash(Some(a), sha256) == ComputeInstanceHash(Some(b), sha256)
  {
    IterationOrderIrrelevant(a.configurations.value, b.configurations.value);
  }
}
