/**
 * The security-coverage widget's data preparation: climbing to the root of
 * an attack pattern's parent chain, resolving series data against the
 * attack patterns and kill-chain phases, and indexing the result by phase.
 */
module SecurityCoverage {
  import opened Wrappers
  import opened Lookup
  import opened Grouping

  /** The attack-pattern fields the widget reads; `None` is `null`/`undefined`. */
  datatype AttackPattern = AttackPattern(
    id: string,
    externalId: Option<string>,
    parent: Option<string>,
    killChainPhases: Option<seq<string>>)

  /** One entry of the series data: a key (an attack pattern id), a value and a label. */
  datatype SeriesData = SeriesData(key: Option<string>, value: Option<real>, caption: Option<string>)

  /** `ResolvedTTPData`. */
  datatype Resolved = Resolved(
    key: Option<string>,
    value: Option<real>,
    caption: Option<string>,
    externalId: Option<string>,
    phaseExternalIds: Option<seq<string>>)

  type PatternMap = map<string, AttackPattern>

  // ---------------------------------------------------------------- root of the parent chain

  /** The loop of `retrieveParent` stops here: no parent, or one the map does not hold. */
  predicate IsTop(m: PatternMap, p: AttackPattern) {
    !(p.parent.Some? && p.parent.value != "") || p.parent.value !in m
  }

  /** One step up the chain, staying put at the top. */
  function Up(m: PatternMap, p: AttackPattern): AttackPattern {
    if IsTop(m, p) then p else m[p.parent.value]
  }

  /** `n` steps up the chain from `p`. */
  function Climb(m: PatternMap, p: AttackPattern, n: nat): AttackPattern
    decreases n
  {
    if n == 0 then p else Up(m, Climb(m, p, n - 1))
  }

  /** The chain from `p` reaches its top within `n` steps. */
  predicate ReachesTop(m: PatternMap, p: AttackPattern, n: nat) {
    IsTop(m, Climb(m, p, n))
  }

  /** The chain from `p` is finite; on a cycle `retrieveParent` would never return. */
  ghost predicate Acyclic(m: PatternMap, p: AttackPattern) {
    exists n: nat :: ReachesTop(m, p, n)
  }

  /** Once at the top, climbing further changes nothing. */
  lemma {:induction false} TopIsStable(m: PatternMap, p: AttackPattern, k: nat, n: nat)
    requires ReachesTop(m, p, k) && k <= n
    ensures Climb(m, p, n) == Climb(m, p, k)
    decreases n - k
  {
    if n > k {
      TopIsStable(m, p, k, n - 1);
    }
  }

  /**
   * `retrieveParent`: follows parent ids through the map as long as the
   * parent is known, and returns the pattern where the chain stops.
   */
  method RetrieveParent(p: AttackPattern, m: PatternMap) returns (current: AttackPattern)
    requires Acyclic(m, p)
    ensures IsTop(m, current)
    ensures forall n: nat :: ReachesTop(m, p, n) ==> current == Climb(m, p, n)
    ensures IsTop(m, p) ==> current == p
  {
    ghost var bound: nat :| ReachesTop(m, p, bound);
    current := p;
    ghost var steps: nat := 0;
    while current.parent.Some? && current.parent.value != "" && current.parent.value in m
      invariant current == Climb(m, p, steps)
      invariant steps <= bound
      decreases bound - steps
    {
      current := m[current.parent.value];
      steps := steps + 1;
    }
    forall n: nat | ReachesTop(m, p, n)
      ensures current == Climb(m, p, n)
    {
      if n <= steps {
        TopIsStable(m, p, n, steps);
      } else {
        TopIsStable(m, p, steps, n);
      }
    }
  }

  /** The root of an acyclic chain, as a function for the specifications below. */
  ghost function Root(m: PatternMap, p: AttackPattern): (r: AttackPattern)
    requires Acyclic(m, p)
    ensures IsTop(m, r)
    ensures forall n: nat :: ReachesTop(m, p, n) ==> r == Climb(m, p, n)
  {
    var n: nat :| ReachesTop(m, p, n);
    assert forall k: nat :: ReachesTop(m, p, k) ==> Climb(m, p, k) == Climb(m, p, n) by {
      forall k: nat | ReachesTop(m, p, k)
        ensures Climb(m, p, k) == Climb(m, p, n)
      {
        if k <= n {
          TopIsStable(m, p, k, n);
        } else {
          TopIsStable(m, p, n, k);
        }
      }
    }
    Climb(m, p, n)
  }

  // ---------------------------------------------------------------- id index

  /** The pattern the index keeps for `id`: the last one with that id. */
  function LastWithId(values: seq<AttackPattern>, id: string): (r: Option<AttackPattern>)
    ensures r.Some? ==> r.value in values && r.value.id == id
    ensures r.None? <==> forall x :: x in values ==> x.id != id
    decreases |values|
  {
    if |values| == 0 then None
    else if values[|values| - 1].id == id then Some(values[|values| - 1])
    else
      var r := LastWithId(values[..|values| - 1], id);
      assert values == values[..|values| - 1] + [values[|values| - 1]];
      r
  }

  /** `buildAttackPatternIdIndex`, over `Object.values(attackPatternMap)`: id to pattern, a later pattern overriding an earlier one. */
  method BuildAttackPatternIdIndex(values: seq<AttackPattern>) returns (index: map<string, AttackPattern>)
    ensures forall id :: id in index <==> LastWithId(values, id).Some?
    ensures forall id :: id in index ==> index[id] == LastWithId(values, id).value
  {
    index := map[];
    for i := 0 to |values|
      invariant forall id :: id in index <==> LastWithId(values[..i], id).Some?
      invariant forall id :: id in index ==> index[id] == LastWithId(values[..i], id).value
    {
      assert values[..i + 1][..i] == values[..i];
      index := index[values[i].id := values[i]];
    }
    assert values[..|values|] == values;
  }

  // ---------------------------------------------------------------- resolved data

  /** `attack_pattern_kill_chain_phases?.map(phase => killChainPhaseMap[phase]?.phase_external_id).filter(Boolean)`. */
  function PhaseExternalIds(p: AttackPattern, phases: NameTable): Option<seq<string>> {
    if p.killChainPhases.Some? then Some(KnownNames(p.killChainPhases.value, phases)) else None
  }

  /** The entry `resolvedData` pushes for series data `d` and its attack pattern `p`. */
  ghost function ResolveEntry(m: PatternMap, phases: NameTable, d: SeriesData, p: AttackPattern): (r: Resolved)
    requires Acyclic(m, p)
    ensures r.key == d.key && r.value == d.value && r.caption == d.caption
    ensures r.externalId == Root(m, p).externalId
  {
    Resolved(d.key, d.value, d.caption, Root(m, p).externalId, PhaseExternalIds(p, phases))
  }

  /** Series data `resolvedData` keeps: a non-empty key naming an indexed pattern. */
  predicate Kept(values: seq<AttackPattern>, d: SeriesData) {
    d.key.Some? && d.key.value != "" && LastWithId(values, d.key.value).Some?
  }

  /**
   * The parent chain of every pattern some kept datum names is finite:
   * `retrieveParent` is only called for those, so cycles elsewhere in the
   * map do no harm.
   */
  ghost predicate KeptAcyclic(m: PatternMap, values: seq<AttackPattern>, data: seq<SeriesData>) {
    forall d :: d in data && Kept(values, d) ==> Acyclic(m, LastWithId(values, d.key.value).value)
  }

  /** The specification of `resolvedData`: the kept entries, resolved, in input order. */
  ghost function ResolvedSpec(m: PatternMap, values: seq<AttackPattern>, phases: NameTable, data: seq<SeriesData>): (r: seq<Resolved>)
    requires KeptAcyclic(m, values, data)
    ensures |r| <= |data|
    decreases |data|
  {
    if |data| == 0 then []
    else
      var init, d := data[..|data| - 1], data[|data| - 1];
      var rest := ResolvedSpec(m, values, phases, init);
      if Kept(values, d) then rest + [ResolveEntry(m, phases, d, LastWithId(values, d.key.value).value)] else rest
  }

  /**
   * `resolvedData`: skips data without a key or whose key is no attack
   * pattern, and resolves the rest to their root's external id and their
   * phases' external ids.
   */
  method ResolvedData(m: PatternMap, values: seq<AttackPattern>, phases: NameTable, data: seq<SeriesData>)
    returns (result: seq<Resolved>)
    requires forall x :: x in values <==> x in m.Values
    requires KeptAcyclic(m, values, data)
    ensures result == ResolvedSpec(m, values, phases, data)
  {
    var index := BuildAttackPatternIdIndex(values);
    result := [];
    for i := 0 to |data|
      invariant result == ResolvedSpec(m, values, phases, data[..i])
    {
      var d := data[i];
      assert data[..i + 1][..i] == data[..i];
      if d.key.Some? && d.key.value != "" && d.key.value in index {
        var pattern := index[d.key.value];
        ghost var n: nat :| ReachesTop(m, pattern, n);
        var parent := RetrieveParent(pattern, m);
        result := result + [Resolved(d.key, d.value, d.caption, parent.externalId, PhaseExternalIds(pattern, phases))];
      }
    }
    assert data[..|data|] == data;
  }

  /** Every resolved entry has a non-empty key, the id of a known attack pattern. */
  lemma {:induction false} ResolvedKeys(m: PatternMap, values: seq<AttackPattern>, phases: NameTable, data: seq<SeriesData>)
    requires KeptAcyclic(m, values, data)
    ensures forall e :: e in ResolvedSpec(m, values, phases, data) ==>
      e.key.Some? && e.key.value != "" && exists x :: x in values && x.id == e.key.value
    decreases |data|
  {
    if |data| > 0 {
      ResolvedKeys(m, values, phases, data[..|data| - 1]);
    }
  }

  /** The series data `resolvedData` keeps, in input order. */
  function KeptData(values: seq<AttackPattern>, data: seq<SeriesData>): (r: seq<SeriesData>)
    ensures |r| <= |data|
    ensures forall d :: d in r ==> d in data && Kept(values, d)
    decreases |data|
  {
    if |data| == 0 then []
    else
      var init, d := data[..|data| - 1], data[|data| - 1];
      var rest := KeptData(values, init);
      assert forall x :: x in rest ==> x in data;
      if Kept(values, d) then rest + [d] else rest
  }

  /** `resolvedData` resolves exactly the kept data, one entry each, with key, value and label carried over. */
  lemma {:induction false} ResolvedFollowsData(m: PatternMap, values: seq<AttackPattern>, phases: NameTable, data: seq<SeriesData>)
    requires KeptAcyclic(m, values, data)
    ensures |ResolvedSpec(m, values, phases, data)| == |KeptData(values, data)|
    ensures forall i :: 0 <= i < |KeptData(values, data)| ==>
      var e, d := ResolvedSpec(m, values, phases, data)[i], KeptData(values, data)[i];
      e.key == d.key && e.value == d.value && e.caption == d.caption
    decreases |data|
  {
    if |data| > 0 {
      ResolvedFollowsData(m, values, phases, data[..|data| - 1]);
    }
  }

  /**
   * Data that keeps nothing places no demand on the parent chains, cyclic or
   * not, and resolves to nothing.
   */
  lemma {:induction false} NothingKeptNothingRequired(m: PatternMap, values: seq<AttackPattern>, phases: NameTable, data: seq<SeriesData>)
    requires forall d :: d in data ==> !Kept(values, d)
    ensures KeptAcyclic(m, values, data) && ResolvedSpec(m, values, phases, data) == []
    decreases |data|
  {
    if |data| > 0 {
      NothingKeptNothingRequired(m, values, phases, data[..|data| - 1]);
    }
  }

  /** Data naming no attack pattern adds nothing. */
  lemma {:induction false} UnknownKeySkipped(m: PatternMap, values: seq<AttackPattern>, phases: NameTable, data: seq<SeriesData>, d: SeriesData)
    requires KeptAcyclic(m, values, data + [d])
    requires d.key.None? || d.key.value == "" || forall x :: x in values ==> x.id != d.key.value
    ensures ResolvedSpec(m, values, phases, data + [d]) == ResolvedSpec(m, values, phases, data)
  {
    assert (data + [d])[..|data|] == data;
  }

  // ---------------------------------------------------------------- kill-chain phase index

  /** The phase keys of a resolved entry: its phase external ids, when it has a list. */
  function PhaseKeys(r: Resolved): seq<string> {
    if r.phaseExternalIds.Some? then r.phaseExternalIds.value else []
  }

  /**
   * `buildKillChainPhaseIndex`: each entry is filed under every phase of its
   * list, once per occurrence, and each bucket keeps input order.
   */
  method BuildKillChainPhaseIndex(data: seq<Resolved>) returns (index: map<string, seq<Resolved>>, order: seq<string>)
    ensures forall p :: p in index <==> p in Flat(data, PhaseKeys)
    ensures forall p :: p in index ==> index[p] == Bucket(data, PhaseKeys, p)
    ensures order == Distinct(Flat(data, PhaseKeys))
  {
    index, order := GroupBy(data, PhaseKeys);
  }

  /** `filterByKillChainPhase`: the entries whose phase list includes the phase. */
  function FilterByKillChainPhase(data: seq<Resolved>, phase: string): (r: seq<Resolved>)
    ensures |r| <= |data|
    ensures forall e :: e in r ==> e in data && e.phaseExternalIds.Some? && phase in e.phaseExternalIds.value
    decreases |data|
  {
    if |data| == 0 then []
    else
      var init, e := data[..|data| - 1], data[|data| - 1];
      var rest := FilterByKillChainPhase(init, phase);
      assert forall x :: x in rest ==> x in data;
      if e.phaseExternalIds.Some? && phase in e.phaseExternalIds.value then rest + [e] else rest
  }

  lemma {:induction false} FilterIsHaving(data: seq<Resolved>, phase: string)
    ensures FilterByKillChainPhase(data, phase) == Having(data, PhaseKeys, phase)
    decreases |data|
  {
    if |data| > 0 {
      FilterIsHaving(data[..|data| - 1], phase);
    }
  }

  /** Without duplicate phases in any list, filtering by a phase reads that phase's bucket. */
  lemma {:induction false} FilterIsBucket(data: seq<Resolved>, phase: string)
    requires forall i :: 0 <= i < |data| ==> NoDuplicates(PhaseKeys(data[i]))
    ensures FilterByKillChainPhase(data, phase) == Bucket(data, PhaseKeys, phase)
  {
    FilterIsHaving(data, phase);
    BucketOfDistinctKeys(data, PhaseKeys, phase);
  }
}
