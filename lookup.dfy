/** Id-to-name lookups that drop what the table does not name. */
module Lookup {
  import opened Wrappers

  /** A lookup table from id to a record whose name field may be missing. */
  type NameTable = map<string, Option<string>>

  /** True when the table gives `id` a non-empty name; `!!x` drops `undefined` and `''`. */
  predicate Named(table: NameTable, id: string) {
    id in table && table[id].Some? && table[id].value != ""
  }

  /** `ids.map(id => table[id]?.name).filter(x => !!x)`, as export rows and resolved kill-chain phases compute it. */
  function KnownNames(ids: seq<string>, table: NameTable): (r: seq<string>)
    ensures |r| <= |ids|
    ensures forall n :: n in r ==> n != "" && exists id :: id in ids && Named(table, id) && table[id].value == n
    decreases |ids|
  {
    if |ids| == 0 then []
    else
      var rest := KnownNames(ids[1..], table);
      assert forall id :: id in ids[1..] ==> id in ids;
      if Named(table, ids[0]) then [table[ids[0]].value] + rest else rest
  }

  /** Ids that all have a name are resolved one for one, in order. */
  lemma {:induction false} AllNamed(ids: seq<string>, table: NameTable)
    requires forall i :: 0 <= i < |ids| ==> Named(table, ids[i])
    ensures |KnownNames(ids, table)| == |ids|
    ensures forall i :: 0 <= i < |ids| ==>
      ids[i] in table && table[ids[i]].Some? && KnownNames(ids, table)[i] == table[ids[i]].value
    decreases |ids|
  {
    if |ids| > 0 {
      AllNamed(ids[1..], table);
    }
  }

  /** Ids without a name contribute nothing. */
  lemma {:induction false} NoneNamed(ids: seq<string>, table: NameTable)
    requires forall i :: 0 <= i < |ids| ==> !Named(table, ids[i])
    ensures KnownNames(ids, table) == []
    decreases |ids|
  {
    if |ids| > 0 {
      NoneNamed(ids[1..], table);
    }
  }
}
