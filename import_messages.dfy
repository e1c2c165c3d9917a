/**
 * The grouping of spreadsheet import messages before they are shown: one
 * group per message code (per code and column for unmatched columns), with
 * the rows the messages came from.
 */
module ImportMessages {
  import opened Wrappers
  import opened Grouping

  /** An import message: its code, and the `row_num` and `column_type_num` of its parameters. */
  datatype ImportMessage = ImportMessage(code: Option<string>, rowNum: Option<string>, column: Option<string>)

  /** `GroupedMessage`. */
  datatype GroupedMessage = GroupedMessage(code: string, column: Option<string>, rows: seq<string>)

  const NoPotentialMatchFound := "NO_POTENTIAL_MATCH_FOUND"

  /** Messages without a code or without a row number are skipped. */
  predicate Kept(m: ImportMessage) {
    m.code.Some? && m.code.value != "" && m.rowNum.Some? && m.rowNum.value != ""
  }

  /** A column as a template literal shows it: `undefined` when absent. */
  function ColumnText(column: Option<string>): string {
    if column.Some? then column.value else "undefined"
  }

  /** The group of a message: unmatched columns are grouped per column, every other code by itself. */
  function GroupKey(code: string, column: Option<string>): string {
    if code == NoPotentialMatchFound then code + "_" + ColumnText(column) else code
  }

  /** The group key of a kept message, none for a skipped one. */
  function MessageKeys(m: ImportMessage): (r: seq<string>)
    ensures |r| <= 1
  {
    if Kept(m) then [GroupKey(m.code.value, m.column)] else []
  }

  function RowNum(m: ImportMessage): string {
    if m.rowNum.Some? then m.rowNum.value else ""
  }

  function RowNums(ms: seq<ImportMessage>): (r: seq<string>)
    ensures |r| == |ms| && forall i :: 0 <= i < |ms| ==> r[i] == RowNum(ms[i])
    decreases |ms|
  {
    if |ms| == 0 then [] else RowNums(ms[..|ms| - 1]) + [RowNum(ms[|ms| - 1])]
  }

  /** The group made of messages `b`: the code and column of the first, the rows of all. */
  function Group(b: seq<ImportMessage>): (r: GroupedMessage)
    ensures r.rows == RowNums(b)
  {
    if |b| == 0 then GroupedMessage("", None, [])
    else GroupedMessage(if b[0].code.Some? then b[0].code.value else "", b[0].column, RowNums(b))
  }

  /** A message joining a group only adds its row. */
  lemma {:induction false} GroupSnoc(b: seq<ImportMessage>, m: ImportMessage)
    requires m.code.Some? && m.rowNum.Some?
    ensures |b| == 0 ==> Group(b + [m]) == GroupedMessage(m.code.value, m.column, [m.rowNum.value])
    ensures |b| > 0 ==> Group(b + [m]) == Group(b).(rows := Group(b).rows + [m.rowNum.value])
  {
    assert (b + [m])[..|b|] == b;
    if |b| > 0 {
      assert (b + [m])[0] == b[0];
    }
  }

  /**
   * `groupMessages`: every kept message is filed under its group key; a group
   * takes its code and column from the message that created it and lists
   * the row numbers of all its messages in input order. `order` is the
   * order in which groups were created.
   */
  method GroupMessages(ms: seq<ImportMessage>) returns (acc: map<string, GroupedMessage>, order: seq<string>)
    ensures forall k :: k in acc <==> exists i :: 0 <= i < |ms| && Kept(ms[i]) && GroupKey(ms[i].code.value, ms[i].column) == k
    ensures forall k :: k in acc ==> |Having(ms, MessageKeys, k)| > 0 && acc[k] == Group(Having(ms, MessageKeys, k))
    ensures order == Distinct(Flat(ms, MessageKeys))
  {
    acc, order := map[], [];
    SummaryEmpty(MessageKeys, Group);
    for i := 0 to |ms|
      invariant Summarises(acc, order, ms[..i], MessageKeys, Group)
    {
      acc, order := FileMessage(acc, order, ms, i);
    }
    assert ms[..|ms|] == ms;
    GroupsMeaning(acc, order, ms);
  }

  /** One step of the reduce: the message `ms[i]` is filed, or skipped. */
  method FileMessage(acc0: map<string, GroupedMessage>, order0: seq<string>, ms: seq<ImportMessage>, i: nat)
    returns (acc: map<string, GroupedMessage>, order: seq<string>)
    requires i < |ms| && Summarises(acc0, order0, ms[..i], MessageKeys, Group)
    ensures Summarises(acc, order, ms[..i + 1], MessageKeys, Group)
  {
    var msg := ms[i];
    PrefixSnoc(ms, i);
    acc, order := acc0, order0;
    if !msg.code.Some? || msg.code.value == "" || !msg.rowNum.Some? || msg.rowNum.value == "" {
      SummarySkip(acc0, order0, ms[..i], MessageKeys, Group, msg);
      return;
    }
    var key := GroupKey(msg.code.value, msg.column);
    ghost var b := Bucket(ms[..i], MessageKeys, key);
    SummaryStep(acc0, order0, ms[..i], MessageKeys, Group, msg, key);
    GroupSnoc(b, msg);
    var group := if key in acc0 then acc0[key] else GroupedMessage(msg.code.value, msg.column, []);
    if key !in acc0 {
      order := order + [key];
    }
    group := group.(rows := group.rows + [msg.rowNum.value]);
    if key in acc0 {
      assert acc0[key] == Group(b) && |b| > 0;
    }
    assert group == Group(b + [msg]);
    acc := acc0[key := group];
  }

  /** The record summarising all messages, read as `groupMessages` promises it. */
  lemma {:induction false} GroupsMeaning(acc: map<string, GroupedMessage>, order: seq<string>, ms: seq<ImportMessage>)
    requires Summarises(acc, order, ms, MessageKeys, Group)
    ensures forall k :: k in acc <==> exists i :: 0 <= i < |ms| && Kept(ms[i]) && GroupKey(ms[i].code.value, ms[i].column) == k
    ensures forall k :: k in acc ==> |Having(ms, MessageKeys, k)| > 0 && acc[k] == Group(Having(ms, MessageKeys, k))
  {
    MessageKeysIn(ms);
    forall k | k in acc
      ensures |Having(ms, MessageKeys, k)| > 0 && acc[k] == Group(Having(ms, MessageKeys, k))
    {
      BucketOfDistinctKeys(ms, MessageKeys, k);
      NonEmptyHaving(ms, k);
    }
  }

  lemma {:induction false} MessageKeysIn(ms: seq<ImportMessage>)
    ensures forall k :: k in Flat(ms, MessageKeys) <==>
      exists i :: 0 <= i < |ms| && Kept(ms[i]) && GroupKey(ms[i].code.value, ms[i].column) == k
    ensures forall i :: 0 <= i < |ms| ==> NoDuplicates(MessageKeys(ms[i]))
    decreases |ms|
  {
    if |ms| > 0 {
      var init := ms[..|ms| - 1];
      MessageKeysIn(init);
      forall k | exists i :: 0 <= i < |ms| && Kept(ms[i]) && GroupKey(ms[i].code.value, ms[i].column) == k
        ensures k in Flat(ms, MessageKeys)
      {
        var i :| 0 <= i < |ms| && Kept(ms[i]) && GroupKey(ms[i].code.value, ms[i].column) == k;
        if i < |init| {
          assert init[i] == ms[i];
        }
      }
      forall k | k in Flat(ms, MessageKeys)
        ensures exists i :: 0 <= i < |ms| && Kept(ms[i]) && GroupKey(ms[i].code.value, ms[i].column) == k
      {
        if k in Flat(init, MessageKeys) {
          var i :| 0 <= i < |init| && Kept(init[i]) && GroupKey(init[i].code.value, init[i].column) == k;
          assert ms[i] == init[i];
        } else {
          assert Kept(ms[|ms| - 1]);
        }
      }
    }
  }

  // ---------------------------------------------------------------- properties

  /** The row counts of the groups, in creation order, added up. */
  function RowTotal(order: seq<string>, acc: map<string, GroupedMessage>): nat
    decreases |order|
  {
    if |order| == 0 then 0
    else RowTotal(order[..|order| - 1], acc) + (if order[|order| - 1] in acc then |acc[order[|order| - 1]].rows| else 0)
  }

  /** The messages that are kept, in input order. */
  function KeptMessages(ms: seq<ImportMessage>): (r: seq<ImportMessage>)
    ensures forall m :: m in r ==> Kept(m)
    decreases |ms|
  {
    if |ms| == 0 then [] else KeptMessages(ms[..|ms| - 1]) + (if Kept(ms[|ms| - 1]) then [ms[|ms| - 1]] else [])
  }

  /** Every kept message lands in exactly one group: the row counts add up to the kept messages. */
  lemma {:induction false} RowCountsAddUp(ms: seq<ImportMessage>, acc: map<string, GroupedMessage>, order: seq<string>)
    requires forall k :: k in acc <==> exists i :: 0 <= i < |ms| && Kept(ms[i]) && GroupKey(ms[i].code.value, ms[i].column) == k
    requires forall k :: k in acc ==> acc[k] == Group(Having(ms, MessageKeys, k))
    requires order == Distinct(Flat(ms, MessageKeys))
    ensures RowTotal(order, acc) == |KeptMessages(ms)|
  {
    MessageKeysIn(ms);
    forall k | k in acc
      ensures |acc[k].rows| == |Bucket(ms, MessageKeys, k)|
    {
      BucketOfDistinctKeys(ms, MessageKeys, k);
    }
    assert forall k :: k in order ==> k in acc;
    RowTotalIsBucketTotal(order, acc, ms);
    BucketsPartitionKeys(ms, MessageKeys);
    FlatOfSingleKeys(ms, MessageKeys);
    KeptIsKeyed(ms);
  }

  lemma {:induction false} RowTotalIsBucketTotal(order: seq<string>, acc: map<string, GroupedMessage>, ms: seq<ImportMessage>)
    requires forall k :: k in order ==> k in acc
    requires forall k :: k in acc ==> |acc[k].rows| == |Bucket(ms, MessageKeys, k)|
    ensures RowTotal(order, acc) == BucketTotal(order, ms, MessageKeys)
    decreases |order|
  {
    if |order| > 0 {
      assert order[|order| - 1] in order;
      RowTotalIsBucketTotal(order[..|order| - 1], acc, ms);
    }
  }

  lemma {:induction false} KeptIsKeyed(ms: seq<ImportMessage>)
    ensures Keyed(ms, MessageKeys) == KeptMessages(ms)
    decreases |ms|
  {
    if |ms| > 0 {
      KeptIsKeyed(ms[..|ms| - 1]);
    }
  }

  /** A key some message is filed under has that message in its filter. */
  lemma {:induction false} NonEmptyHaving(ms: seq<ImportMessage>, k: string)
    requires k in Flat(ms, MessageKeys)
    ensures |Having(ms, MessageKeys, k)| > 0
    decreases |ms|
  {
    var init := ms[..|ms| - 1];
    if k !in MessageKeys(ms[|ms| - 1]) {
      NonEmptyHaving(init, k);
    }
  }

  /** Unmatched-column messages share a group exactly when their columns read the same. */
  lemma {:induction false} UnmatchedPerColumn(a: Option<string>, b: Option<string>)
    ensures GroupKey(NoPotentialMatchFound, a) == GroupKey(NoPotentialMatchFound, b) <==> ColumnText(a) == ColumnText(b)
  {
    var p := NoPotentialMatchFound + "_";
    if GroupKey(NoPotentialMatchFound, a) == GroupKey(NoPotentialMatchFound, b) {
      assert ColumnText(a) == (p + ColumnText(a))[|p|..];
      assert ColumnText(b) == (p + ColumnText(b))[|p|..];
    }
  }

  /** Any other code groups all its messages together, whatever their column. */
  lemma {:induction false} OtherCodesIgnoreColumn(code: string, a: Option<string>, b: Option<string>)
    requires code != NoPotentialMatchFound
    ensures GroupKey(code, a) == GroupKey(code, b) == code
  {
  }

  /** A column given as the text `undefined` lands in the same group as a missing column. */
  lemma {:induction false} UndefinedColumnCollides()
    ensures GroupKey(NoPotentialMatchFound, Some("undefined")) == GroupKey(NoPotentialMatchFound, None)
  {
  }
}
