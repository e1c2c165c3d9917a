/**
 * A dashboard widget's configuration and its `remap`, which rewrites, in
 * the filters of every series, the values that a mapping renames.
 */
module WidgetConfiguration {
  import opened Wrappers
  import opened Grouping

  /** A filter: the attribute it reads, its operator, and its values (`null` when absent). */
  datatype Filter = Filter(key: string, operator: Option<string>, values: Option<seq<string>>)

  datatype FilterGroup = FilterGroup(mode: Option<string>, filters: Option<seq<Filter>>)

  datatype Series = Series(name: Option<string>, filter: Option<FilterGroup>)

  /** A renaming: the entries of the map in iteration order. */
  type Renaming = seq<(string, string)>

  // ---------------------------------------------------------------- one list of values

  /** `List.remove(Object)`: the list without the first occurrence of `x`. */
  function RemoveFirst(xs: seq<string>, x: string): (r: seq<string>)
    ensures x !in xs ==> r == xs
    ensures x in xs ==> r == xs[..FirstIndex(xs, x)] + xs[FirstIndex(xs, x) + 1..]
    decreases |xs|
  {
    if |xs| == 0 then []
    else if xs[0] == x then xs[1..]
    else
      var rest := RemoveFirst(xs[1..], x);
      assert x in xs ==> xs[..FirstIndex(xs, x)] == [xs[0]] + xs[1..][..FirstIndex(xs[1..], x)];
      [xs[0]] + rest
  }

  /**
   * One entry of the renaming applied to a list: when the list holds the
   * old value, its first occurrence is removed and the new value appended;
   * otherwise the list is left alone.
   */
  function Switch(values: seq<string>, pair: (string, string)): (r: seq<string>)
    ensures pair.0 in values ==> r == values[..FirstIndex(values, pair.0)] + values[FirstIndex(values, pair.0) + 1..] + [pair.1]
    ensures pair.0 !in values ==> r == values
  {
    if pair.0 in values then RemoveFirst(values, pair.0) + [pair.1] else values
  }

  /** The entries applied one after the other, in iteration order. */
  function SwitchAll(values: seq<string>, renaming: Renaming): seq<string>
    decreases |renaming|
  {
    if |renaming| == 0 then values
    else Switch(SwitchAll(values, renaming[..|renaming| - 1]), renaming[|renaming| - 1])
  }

  /** The values of one filter, renamed entry by entry. */
  method RemapValues(values: seq<string>, renaming: Renaming) returns (r: seq<string>)
    ensures r == SwitchAll(values, renaming)
  {
    r := values;
    for e := 0 to |renaming|
      invariant r == SwitchAll(values, renaming[..e])
    {
      var (key, value) := renaming[e];
      if key in r {
        r := RemoveFirst(r, key);
        r := r + [value];
      }
      assert renaming[..e + 1][..e] == renaming[..e];
    }
    assert renaming[..|renaming|] == renaming;
  }

  // ---------------------------------------------------------------- the whole configuration

  function RemapFilter(f: Filter, renaming: Renaming): Filter {
    if f.values.Some? then f.(values := Some(SwitchAll(f.values.value, renaming))) else f
  }

  /** A series whose filter group has filters gets every filter remapped; any other is left alone. */
  function RemapSeries(s: Series, renaming: Renaming): Series {
    if s.filter.Some? && s.filter.value.filters.Some? && |s.filter.value.filters.value| > 0 then
      var fs := s.filter.value.filters.value;
      s.(filter := Some(s.filter.value.(filters := Some(seq(|fs|, i requires 0 <= i < |fs| => RemapFilter(fs[i], renaming))))))
    else s
  }

  function RemapAllSeries(series: Option<seq<Series>>, renaming: Renaming): Option<seq<Series>> {
    if series.Some? && |series.value| > 0 then
      Some(seq(|series.value|, i requires 0 <= i < |series.value| => RemapSeries(series.value[i], renaming)))
    else series
  }

  class WidgetConfiguration {
    const configurationType: string
    var title: Option<string>
    var start: Option<string>
    var end: Option<string>
    var timeRange: string
    var dateAttribute: string
    var series: Option<seq<Series>>

    constructor (configurationType: string)
      ensures this.configurationType == configurationType
      ensures title.None? && start.None? && end.None?
      ensures timeRange == "DEFAULT" && dateAttribute == "base_created_at" && series == Some([])
    {
      this.configurationType := configurationType;
      title, start, end := None, None, None;
      timeRange, dateAttribute := "DEFAULT", "base_created_at";
      series := Some([]);
    }

    /**
     * `remap`: the values of every filter of every series renamed by the
     * entries of `renaming` in turn; absent or empty lists are skipped and
     * nothing but the filter values changes.
     */
    method Remap(renaming: Renaming)
      modifies this
      ensures series == RemapAllSeries(old(series), renaming)
      ensures title == old(title) && start == old(start) && end == old(end)
      ensures timeRange == old(timeRange) && dateAttribute == old(dateAttribute)
    {
      if series.Some? && |series.value| > 0 {
        var all := series.value;
        var remapped := RemapSeriesList(all, renaming);
        assert remapped == seq(|all|, i requires 0 <= i < |all| => RemapSeries(all[i], renaming));
        series := Some(remapped);
      }
    }
  }

  /** The loop over the series of `remap`. */
  method RemapSeriesList(all: seq<Series>, renaming: Renaming) returns (out: seq<Series>)
    ensures |out| == |all| && forall k :: 0 <= k < |all| ==> out[k] == RemapSeries(all[k], renaming)
  {
    out := [];
    for i := 0 to |all|
      invariant |out| == i && forall k :: 0 <= k < i ==> out[k] == RemapSeries(all[k], renaming)
    {
      var currentSeries := all[i];
      if currentSeries.filter.Some? && currentSeries.filter.value.filters.Some? && |currentSeries.filter.value.filters.value| > 0 {
        var filters := currentSeries.filter.value.filters.value;
        var remapped := RemapFilters(filters, renaming);
        assert remapped == seq(|filters|, k requires 0 <= k < |filters| => RemapFilter(filters[k], renaming));
        currentSeries := currentSeries.(filter := Some(currentSeries.filter.value.(filters := Some(remapped))));
      }
      out := out + [currentSeries];
    }
  }

  /** The loop over the filters of one series. */
  method RemapFilters(filters: seq<Filter>, renaming: Renaming) returns (remapped: seq<Filter>)
    ensures |remapped| == |filters| && forall k :: 0 <= k < |filters| ==> remapped[k] == RemapFilter(filters[k], renaming)
  {
    remapped := [];
    for j := 0 to |filters|
      invariant |remapped| == j && forall k :: 0 <= k < j ==> remapped[k] == RemapFilter(filters[k], renaming)
    {
      var filter := filters[j];
      if filter.values.Some? {
        var values := RemapValues(filter.values.value, renaming);
        filter := filter.(values := Some(values));
      }
      remapped := remapped + [filter];
    }
  }

  // ---------------------------------------------------------------- properties

  /** Every hit is one removal and one addition: a list keeps its length. */
  lemma {:induction false} SwitchAllKeepsLength(values: seq<string>, renaming: Renaming)
    ensures |SwitchAll(values, renaming)| == |values|
    decreases |renaming|
  {
    if |renaming| > 0 {
      SwitchAllKeepsLength(values, renaming[..|renaming| - 1]);
    }
  }

  /** A hit trades one occurrence of the old value for one of the new. */
  lemma {:induction false} SwitchTrades(values: seq<string>, pair: (string, string))
    requires pair.0 in values
    ensures multiset(Switch(values, pair)) == multiset(values) - multiset{pair.0} + multiset{pair.1}
  {
    var i := FirstIndex(values, pair.0);
    assert values == values[..i] + [pair.0] + values[i + 1..];
  }

  /** A list holding none of the renamed values is unchanged. */
  lemma {:induction false} NoHitUnchanged(values: seq<string>, renaming: Renaming)
    requires forall e :: 0 <= e < |renaming| ==> renaming[e].0 !in values
    ensures SwitchAll(values, renaming) == values
    decreases |renaming|
  {
    if |renaming| > 0 {
      NoHitUnchanged(values, renaming[..|renaming| - 1]);
    }
  }

  /** Chained entries depend on the iteration order: `a→b, b→c` and `b→c, a→b` differ. */
  lemma {:induction false} ChainDependsOnOrder()
    ensures SwitchAll(["a"], [("a", "b"), ("b", "c")]) == ["c"]
    ensures SwitchAll(["a"], [("b", "c"), ("a", "b")]) == ["b"]
  {
    var ab, bc := ("a", "b"), ("b", "c");
    assert [ab, bc][..1] == [ab] && [bc, ab][..1] == [bc];
    assert [ab][..0] == [] && [bc][..0] == [];
    assert Switch(["a"], ab) == ["b"];
    assert Switch(["b"], bc) == ["c"];
    assert Switch(["a"], bc) == ["a"];
  }

  /** An absent or empty series list, and a series without filters, are left alone. */
  lemma {:induction false} SkippedWithoutFilters(series: Option<seq<Series>>, s: Series, renaming: Renaming)
    ensures (series.None? || series.value == []) ==> RemapAllSeries(series, renaming) == series
    ensures (s.filter.None? || s.filter.value.filters.None? || s.filter.value.filters.value == []) ==> RemapSeries(s, renaming) == s
  {
  }

  /** Remapping keeps the shape: the same series, with the same names and filters, and the same keys. */
  lemma {:induction false} RemapKeepsShape(s: Series, renaming: Renaming)
    ensures RemapSeries(s, renaming).name == s.name
    ensures RemapSeries(s, renaming).filter.Some? == s.filter.Some?
    ensures s.filter.Some? ==> RemapSeries(s, renaming).filter.value.mode == s.filter.value.mode
    ensures s.filter.Some? && s.filter.value.filters.Some? ==>
      var before, after := s.filter.value.filters.value, RemapSeries(s, renaming).filter.value.filters.value;
      |after| == |before| && forall i :: 0 <= i < |before| ==>
        after[i].key == before[i].key && after[i].operator == before[i].operator
        && after[i].values.Some? == before[i].values.Some?
        && (before[i].values.Some? ==> |after[i].values.value| == |before[i].values.value|)
  {
    if s.filter.Some? && s.filter.value.filters.Some? {
      var before := s.filter.value.filters.value;
      forall i | 0 <= i < |before| && before[i].values.Some?
        ensures |RemapFilter(before[i], renaming).values.value| == |before[i].values.value|
      {
        SwitchAllKeepsLength(before[i].values.value, renaming);
      }
    }
  }
}
