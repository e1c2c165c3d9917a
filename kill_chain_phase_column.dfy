/**
 * The per-pattern statistics of a kill-chain phase column: resolved data
 * indexed by external id, summed per attack pattern, and optionally
 * restricted to the covered patterns.
 */
module KillChainPhaseColumn {
  import opened Wrappers
  import opened Grouping
  import opened SecurityCoverage

  // ---------------------------------------------------------------- external-id index

  /** The bucket key of a resolved entry: its external id, when that is set and non-empty. */
  function ExternalIdKey(e: Resolved): seq<string> {
    if e.externalId.Some? && e.externalId.value != "" then [e.externalId.value] else []
  }

  /** The entries carrying external id `id`, in input order. */
  function WithExternalId(data: seq<Resolved>, id: string): seq<Resolved> {
    Having(data, ExternalIdKey, id)
  }

  /**
   * `buildExternalIdIndex`: every non-empty external id some entry carries,
   * mapped to the entries carrying it in input order; entries without one
   * are left out.
   */
  method BuildExternalIdIndex(data: seq<Resolved>) returns (index: map<string, seq<Resolved>>, order: seq<string>)
    ensures forall id :: id in index <==> id != "" && exists i :: 0 <= i < |data| && data[i].externalId == Some(id)
    ensures forall id :: id in index ==> index[id] == WithExternalId(data, id)
    ensures order == Distinct(Flat(data, ExternalIdKey))
  {
    index, order := GroupBy(data, ExternalIdKey);
    ExternalIds(data);
    SingleIds(data);
    forall id | id in index
      ensures index[id] == WithExternalId(data, id)
    {
      BucketOfDistinctKeys(data, ExternalIdKey, id);
    }
  }

  /** One key per entry, so no entry lists a key twice. */
  lemma {:induction false} SingleIds(data: seq<Resolved>)
    ensures forall i :: 0 <= i < |data| ==> NoDuplicates(ExternalIdKey(data[i]))
    ensures SingleKeyed(data, ExternalIdKey)
  {
  }

  lemma {:induction false} ExternalIds(data: seq<Resolved>)
    ensures forall id :: id in Flat(data, ExternalIdKey) <==> id != "" && exists i :: 0 <= i < |data| && data[i].externalId == Some(id)
    decreases |data|
  {
    if |data| > 0 {
      var init := data[..|data| - 1];
      ExternalIds(init);
      forall id | id != "" && exists i :: 0 <= i < |data| && data[i].externalId == Some(id)
        ensures id in Flat(data, ExternalIdKey)
      {
        var i :| 0 <= i < |data| && data[i].externalId == Some(id);
        if i < |init| {
          assert init[i] == data[i];
        }
      }
      forall id | id in Flat(data, ExternalIdKey)
        ensures id != "" && exists i :: 0 <= i < |data| && data[i].externalId == Some(id)
      {
        if id in Flat(init, ExternalIdKey) {
          var i :| 0 <= i < |init| && init[i].externalId == Some(id);
          assert data[i] == init[i];
        } else {
          assert data[|data| - 1].externalId == Some(id);
        }
      }
    }
  }

  /** The buckets together hold every entry that has an external id, each once. */
  lemma {:induction false} IndexSizes(data: seq<Resolved>)
    ensures BucketTotal(Distinct(Flat(data, ExternalIdKey)), data, ExternalIdKey) == |Keyed(data, ExternalIdKey)|
  {
    BucketsPartitionKeys(data, ExternalIdKey);
    SingleIds(data);
    FlatOfSingleKeys(data, ExternalIdKey);
  }

  /** A bucket holds exactly the entries with that external id. */
  lemma {:induction false} WithExternalIdMeaning(data: seq<Resolved>, id: string)
    requires id != ""
    ensures forall e :: e in WithExternalId(data, id) <==> e in data && e.externalId == Some(id)
    decreases |data|
  {
    if |data| > 0 {
      var init := data[..|data| - 1];
      WithExternalIdMeaning(init, id);
      assert data == init + [data[|data| - 1]];
    }
  }

  // ---------------------------------------------------------------- per-pattern statistics

  /** `reduce((acc, d) => acc + (d?.value ?? 0), 0)`. */
  function ValueSum(ds: seq<Resolved>): real
    decreases |ds|
  {
    if |ds| == 0 then 0.0 else ValueSum(ds[..|ds| - 1]) + (if ds[|ds| - 1].value.Some? then ds[|ds| - 1].value.value else 0.0)
  }

  /** `map(d => d.key).filter(Boolean)`. */
  function PresentKeys(ds: seq<Resolved>): (r: seq<string>)
    ensures |r| <= |ds|
    ensures forall k :: k in r ==> k != "" && exists i :: 0 <= i < |ds| && ds[i].key == Some(k)
    decreases |ds|
  {
    if |ds| == 0 then []
    else
      var init, d := ds[..|ds| - 1], ds[|ds| - 1];
      var rest := PresentKeys(init);
      assert forall k :: k in rest ==> exists i :: 0 <= i < |ds| && ds[i].key == Some(k) by {
        forall k | k in rest
          ensures exists i :: 0 <= i < |ds| && ds[i].key == Some(k)
        {
          var i :| 0 <= i < |init| && init[i].key == Some(k);
          assert ds[i] == init[i];
        }
      }
      if d.key.Some? && d.key.value != "" then rest + [d.key.value] else rest
  }

  datatype PatternStats = PatternStats(
    pattern: AttackPattern,
    success: real,
    failure: real,
    total: real,
    successKeys: seq<string>,
    failureKeys: seq<string>)

  /** The entries of an index for the pattern's external id: none without an id, `[]` for an unknown one. */
  function Entries(index: map<string, seq<Resolved>>, externalId: Option<string>): seq<Resolved> {
    if externalId.Some? && externalId.value != "" && externalId.value in index then index[externalId.value] else []
  }

  /** The statistics of one attack pattern, read from the success and failure indexes. */
  function PatternStat(p: AttackPattern, successIndex: map<string, seq<Resolved>>, failureIndex: map<string, seq<Resolved>>): (r: PatternStats)
    ensures r.pattern == p
    ensures r.total == r.success + r.failure
  {
    var successData := Entries(successIndex, p.externalId);
    var failureData := Entries(failureIndex, p.externalId);
    var success := ValueSum(successData);
    var failure := ValueSum(failureData);
    PatternStats(p, success, failure, success + failure, PresentKeys(successData), PresentKeys(failureData))
  }

  /** The index `buildExternalIdIndex` returns for `data`. */
  ghost predicate IndexOf(index: map<string, seq<Resolved>>, data: seq<Resolved>) {
    (forall id :: id in index <==> id != "" && exists i :: 0 <= i < |data| && data[i].externalId == Some(id))
    && forall id :: id in index ==> index[id] == WithExternalId(data, id)
  }

  /** Read through the indexes, a pattern's counts sum the values of the data carrying its external id. */
  lemma {:induction false} StatCountsData(p: AttackPattern, successData: seq<Resolved>, failureData: seq<Resolved>,
                       successIndex: map<string, seq<Resolved>>, failureIndex: map<string, seq<Resolved>>)
    requires IndexOf(successIndex, successData) && IndexOf(failureIndex, failureData)
    ensures p.externalId.Some? && p.externalId.value != "" ==>
      PatternStat(p, successIndex, failureIndex).success == ValueSum(WithExternalId(successData, p.externalId.value))
      && PatternStat(p, successIndex, failureIndex).failure == ValueSum(WithExternalId(failureData, p.externalId.value))
    ensures !(p.externalId.Some? && p.externalId.value != "") ==>
      PatternStat(p, successIndex, failureIndex).total == 0.0
  {
    if p.externalId.Some? && p.externalId.value != "" {
      UnindexedIsEmpty(successData, successIndex, p.externalId.value);
      UnindexedIsEmpty(failureData, failureIndex, p.externalId.value);
    }
  }

  lemma {:induction false} UnindexedIsEmpty(data: seq<Resolved>, index: map<string, seq<Resolved>>, id: string)
    requires IndexOf(index, data) && id != ""
    ensures id !in index ==> WithExternalId(data, id) == []
  {
    if id !in index {
      NoneCarrying(data, id);
    }
  }

  lemma {:induction false} NoneCarrying(data: seq<Resolved>, id: string)
    requires forall i :: 0 <= i < |data| ==> data[i].externalId != Some(id)
    ensures WithExternalId(data, id) == []
    decreases |data|
  {
    if |data| > 0 {
      NoneCarrying(data[..|data| - 1], id);
    }
  }

  /** The statistics of every pattern, in pattern order. */
  function AttackPatternStats(patterns: seq<AttackPattern>, successIndex: map<string, seq<Resolved>>, failureIndex: map<string, seq<Resolved>>): (r: seq<PatternStats>)
    ensures |r| == |patterns|
    ensures forall i :: 0 <= i < |r| ==> r[i] == PatternStat(patterns[i], successIndex, failureIndex)
  {
    seq(|patterns|, i requires 0 <= i < |patterns| => PatternStat(patterns[i], successIndex, failureIndex))
  }

  /** The covered statistics, in order. */
  function Covered(stats: seq<PatternStats>): (r: seq<PatternStats>)
    ensures |r| <= |stats|
    ensures forall s :: s in r <==> s in stats && s.total > 0.0
    decreases |stats|
  {
    if |stats| == 0 then []
    else
      var init, s := stats[..|stats| - 1], stats[|stats| - 1];
      var rest := Covered(init);
      assert stats == init + [s];
      if s.total > 0.0 then rest + [s] else rest
  }

  /** `filteredStats`: every statistic, or with `showCoveredOnly` exactly those with a positive total. */
  function FilteredStats(stats: seq<PatternStats>, showCoveredOnly: bool): (r: seq<PatternStats>)
    ensures !showCoveredOnly ==> r == stats
    ensures showCoveredOnly ==> forall s :: s in r <==> s in stats && s.total > 0.0
  {
    if !showCoveredOnly then stats else Covered(stats)
  }

  /** Filtering keeps relative order: a covered statistic of the first part precedes one of the rest. */
  lemma {:induction false} CoveredSplits(a: seq<PatternStats>, b: seq<PatternStats>)
    ensures Covered(a + b) == Covered(a) + Covered(b)
    decreases |b|
  {
    if |b| > 0 {
      var init := b[..|b| - 1];
      assert (a + b)[..|a + b| - 1] == a + init;
      CoveredSplits(a, init);
    } else {
      assert a + b == a;
    }
  }
}
