/**
 * Helpers of the expectation validation screens: grouping expectations by
 * asset, the target-kind predicates, whether an expectation can be updated
 * by hand, and the label of a result's source.
 */
module ExpectationUtils {
  import opened Wrappers
  import opened Text
  import opened Grouping

  datatype ExpectationResult = ExpectationResult(sourceName: Option<string>, sourcePlatform: Option<string>)

  /** The fields of an inject expectation the helpers read; `None` is `null`/`undefined`. */
  datatype InjectExpectation = InjectExpectation(
    kind: string,
    asset: Option<string>,
    assetGroup: Option<string>,
    agent: Option<string>,
    user: Option<string>,
    results: Option<seq<ExpectationResult>>)

  // ---------------------------------------------------------------- grouping by asset

  /** The bucket key of an expectation: its asset, when that is set and non-empty. */
  function AssetKey(e: InjectExpectation): seq<string> {
    if e.asset.Some? && e.asset.value != "" then [e.asset.value] else []
  }

  /** The expectations on asset `a`, in input order. */
  function OnAsset(es: seq<InjectExpectation>, a: string): seq<InjectExpectation>
    decreases |es|
  {
    if |es| == 0 then [] else OnAsset(es[..|es| - 1], a) + (if es[|es| - 1].asset == Some(a) then [es[|es| - 1]] else [])
  }

  /** The number of expectations that have an asset. */
  function WithAssetCount(es: seq<InjectExpectation>): nat
    decreases |es|
  {
    if |es| == 0 then 0 else WithAssetCount(es[..|es| - 1]) + (if |AssetKey(es[|es| - 1])| > 0 then 1 else 0)
  }

  /**
   * `groupedByAsset`: a map from every asset some expectation has to the
   * expectations on it, in input order; expectations without an asset are
   * dropped. `order` is the map's key order.
   */
  method GroupedByAsset(es: seq<InjectExpectation>) returns (group: map<string, seq<InjectExpectation>>, order: seq<string>)
    ensures forall a :: a in group <==> a != "" && exists i :: 0 <= i < |es| && es[i].asset == Some(a)
    ensures forall a :: a in group ==> group[a] == OnAsset(es, a)
    ensures NoDuplicates(order) && forall a :: a in order <==> a in group
  {
    group, order := GroupBy(es, AssetKey);
    AssetKeys(es);
    forall a | a in group
      ensures group[a] == OnAsset(es, a)
    {
      AssetBucket(es, a);
    }
  }

  lemma {:induction false} AssetBucket(es: seq<InjectExpectation>, a: string)
    requires a != ""
    ensures Bucket(es, AssetKey, a) == OnAsset(es, a)
    decreases |es|
  {
    if |es| > 0 {
      AssetBucket(es[..|es| - 1], a);
      var last := es[|es| - 1];
      if last.asset == Some(a) {
        assert AssetKey(last) == [a];
        assert Count([a], a) == 1 by {
          assert [a][..0] == [];
        }
        assert Repeat(last, 1) == [last];
      } else {
        CountAbsent(AssetKey(last), a);
      }
    }
  }

  lemma {:induction false} AssetKeys(es: seq<InjectExpectation>)
    ensures forall a :: a in Flat(es, AssetKey) <==> a != "" && exists i :: 0 <= i < |es| && es[i].asset == Some(a)
    decreases |es|
  {
    if |es| > 0 {
      var init := es[..|es| - 1];
      AssetKeys(init);
      forall a | a != "" && exists i :: 0 <= i < |es| && es[i].asset == Some(a)
        ensures a in Flat(es, AssetKey)
      {
        var i :| 0 <= i < |es| && es[i].asset == Some(a);
        if i < |init| {
          assert init[i] == es[i];
        }
      }
      forall a | a in Flat(es, AssetKey)
        ensures a != "" && exists i :: 0 <= i < |es| && es[i].asset == Some(a)
      {
        if a in Flat(init, AssetKey) {
          var i :| 0 <= i < |init| && init[i].asset == Some(a);
          assert es[i] == init[i];
        } else {
          assert es[|es| - 1].asset == Some(a);
        }
      }
    }
  }

  /** The buckets hold every expectation that has an asset, exactly once. */
  lemma {:induction false} GroupedSizes(es: seq<InjectExpectation>)
    ensures BucketTotal(Distinct(Flat(es, AssetKey)), es, AssetKey) == WithAssetCount(es)
  {
    BucketsPartitionKeys(es, AssetKey);
    SingleAssetKeys(es);
  }

  lemma {:induction false} SingleAssetKeys(es: seq<InjectExpectation>)
    ensures |Flat(es, AssetKey)| == WithAssetCount(es)
    decreases |es|
  {
    if |es| > 0 {
      SingleAssetKeys(es[..|es| - 1]);
    }
  }

  // ---------------------------------------------------------------- target kinds

  predicate IsAssetGroupExpectation(e: InjectExpectation) {
    e.assetGroup.Some? && e.asset.None? && e.agent.None?
  }

  predicate IsAssetExpectation(e: InjectExpectation) {
    e.asset.Some? && e.agent.None?
  }

  predicate IsAgentExpectation(e: InjectExpectation) {
    e.agent.Some?
  }

  predicate IsPlayerExpectation(e: InjectExpectation) {
    e.user.Some?
  }

  /** An expectation targets at most one of asset group, asset and agent. */
  lemma {:induction false} TargetKindsExclusive(e: InjectExpectation)
    ensures !(IsAssetGroupExpectation(e) && IsAssetExpectation(e))
    ensures IsAgentExpectation(e) ==> !IsAssetGroupExpectation(e) && !IsAssetExpectation(e)
  {
  }

  // ---------------------------------------------------------------- manual updates

  predicate IsTechnical(e: InjectExpectation) {
    e.kind == "DETECTION" || e.kind == "PREVENTION"
  }

  /**
   * `useIsManuallyUpdatable`: detection and prevention expectations unless
   * they target an asset group or an agent; manual expectations (as the
   * given `isManual` recognises their type) while they have no result;
   * nothing else.
   */
  function IsManuallyUpdatable(e: InjectExpectation, isManual: string -> bool): (r: bool)
    ensures IsTechnical(e) ==> (r <==> !IsAssetGroupExpectation(e) && !IsAgentExpectation(e))
    ensures !IsTechnical(e) ==> (r <==> isManual(e.kind) && (e.results.None? || |e.results.value| == 0))
  {
    if IsTechnical(e) then
      if IsAssetGroupExpectation(e) || IsAgentExpectation(e) then false else true
    else if isManual(e.kind) then
      var count := if e.results.Some? then |e.results.value| else 0;
      if count > 0 then false else true
    else false
  }

  /** Technical expectations on a single asset can always be updated by hand. */
  lemma {:induction false} AssetExpectationUpdatable(e: InjectExpectation, isManual: string -> bool)
    requires IsTechnical(e) && IsAssetExpectation(e)
    ensures IsManuallyUpdatable(e, isManual)
  {
    TargetKindsExclusive(e);
  }

  // ---------------------------------------------------------------- source label

  /** `x?.trim()`. */
  function TrimmedField(x: Option<string>): Option<string> {
    if x.Some? then Some(Trim(x.value)) else None
  }

  /**
   * `getSourceLabel`: `-` without a (non-blank) source name, otherwise the
   * trimmed name followed by the trimmed platform in parentheses when there
   * is one.
   */
  function SourceLabel(result: Option<ExpectationResult>): (r: string)
    ensures r != ""
    ensures var name := if result.Some? then TrimmedField(result.value.sourceName) else None;
      var platform := if result.Some? then TrimmedField(result.value.sourcePlatform) else None;
      (name.None? || name.value == "" ==> r == "-")
      && (name.Some? && name.value != "" && (platform.None? || platform.value == "") ==> r == name.value)
      && (name.Some? && name.value != "" && platform.Some? && platform.value != "" ==>
        r == name.value + " (" + platform.value + ")")
  {
    var name := if result.Some? then TrimmedField(result.value.sourceName) else None;
    var platform := if result.Some? then TrimmedField(result.value.sourcePlatform) else None;
    if name.None? || name.value == "" then "-"
    else if platform.Some? && platform.value != "" then name.value + " (" + platform.value + ")"
    else name.value
  }

  /** A named source's label starts with its name, which does not start with a blank. */
  lemma {:induction false} SourceLabelShape(result: ExpectationResult)
    requires result.sourceName.Some? && Trim(result.sourceName.value) != ""
    ensures StartsWith(SourceLabel(Some(result)), Trim(result.sourceName.value))
    ensures !IsJsWhitespace(SourceLabel(Some(result))[0])
  {
    var name := Trim(result.sourceName.value);
    if result.sourcePlatform.Some? && Trim(result.sourcePlatform.value) != "" {
      Parenthesised(name, Trim(result.sourcePlatform.value));
    }
  }

  lemma {:induction false} Parenthesised(name: string, platform: string)
    ensures StartsWith(name + " (" + platform + ")", name)
  {
    assert (name + " (" + platform + ")")[..|name|] == name;
  }
}
