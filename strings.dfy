/** The front end's small string helpers: truncation, user names, chips, labels, case, MAC addresses. */
module Strings {
  import opened Wrappers
  import opened Text

  /** JavaScript `slice(0, end)`: a negative end counts from the back, and ends are clamped. */
  function SlicePrefix<T>(s: seq<T>, end: int): (r: seq<T>)
    ensures 0 <= end <= |s| ==> r == s[..end]
    ensures end > |s| ==> r == s
    ensures end < 0 ==> r == s[..if |s| + end < 0 then 0 else |s| + end]
  {
    var e := if end < 0 then |s| + end else end;
    s[..if e < 0 then 0 else if e > |s| then |s| else e]
  }

  /** `lastIndexOf(c)`: the last index of `c`, or -1. */
  function LastIndexOf(s: string, c: char): (i: int)
    ensures -1 <= i < |s|
    ensures i == -1 <==> c !in s
    ensures i >= 0 ==> s[i] == c && c !in s[i + 1..]
  {
    if |s| == 0 then -1
    else if s[|s| - 1] == c then |s| - 1
    else
      var i := LastIndexOf(s[..|s| - 1], c);
      assert i >= 0 ==> s[i + 1..] == s[..|s| - 1][i + 1..] + [s[|s| - 1]];
      i
  }

  /**
   * `truncate`: a text longer than `limit` is cut to its first `limit`
   * characters, then back to the last space among them if there is one,
   * and `...` is appended.
   */
  function Truncate(str: Option<string>, limit: int): (r: Option<string>)
    ensures str.None? || |str.value| <= limit ==> r == str
    ensures str.Some? && |str.value| > limit ==>
      var w := SlicePrefix(str.value, limit);
      r.Some? && (' ' !in w ==> r.value == w + "...")
      && (' ' in w ==> exists k :: 0 <= k < |w| && w[k] == ' ' && ' ' !in w[k + 1..] && r.value == w[..k] + "...")
    ensures str.Some? && |str.value| > limit && limit >= 0 ==> |r.value| <= limit + 3
  {
    match str
    case None => None
    case Some(s) =>
      if |s| <= limit then str
      else
        var trimmed := SlicePrefix(s, limit);
        if ' ' !in trimmed then Some(trimmed + "...")
        else
          var k := LastIndexOf(trimmed, ' ');
          Some(SlicePrefix(trimmed, if |trimmed| < k then |trimmed| else k) + "...")
  }

  /** The name fields of a user; absent ones are `undefined`. */
  datatype UserWithName = UserWithName(firstname: Option<string>, lastname: Option<string>, email: Option<string>)

  /** JavaScript truthiness of an optional string. */
  predicate Truthy(s: Option<string>) { s.Some? && s.value != "" }

  /** `resolveUserName`: the full name when both parts are given, else the e-mail, else empty. */
  function ResolveUserName(user: UserWithName): (r: string)
    ensures Truthy(user.firstname) && Truthy(user.lastname) ==> r == user.firstname.value + " " + user.lastname.value
    ensures !(Truthy(user.firstname) && Truthy(user.lastname)) ==> r == if user.email.Some? then user.email.value else ""
  {
    if Truthy(user.firstname) && Truthy(user.lastname) then user.firstname.value + " " + user.lastname.value
    else if user.email.Some? then user.email.value
    else ""
  }

  /** One entry of `resolveUserNames`, with the e-mail in parentheses on request. */
  function UserEntry(user: UserWithName, withEmailAddress: bool): (r: string)
    ensures !withEmailAddress ==> r == ResolveUserName(user)
  {
    if Truthy(user.firstname) && Truthy(user.lastname) then
      user.firstname.value + " " + user.lastname.value
        + (if withEmailAddress && Truthy(user.email) then " (" + user.email.value + ")" else "")
    else if user.email.Some? then user.email.value
    else ""
  }

  /** `resolveUserNames`: the entries joined by `, `. */
  function ResolveUserNames(users: seq<UserWithName>, withEmailAddress: bool): string {
    Join(seq(|users|, i requires 0 <= i < |users| => UserEntry(users[i], withEmailAddress)), ", ")
  }

  /** `getVisibleItems`: the first `limit` items, `undefined` for no list. */
  function GetVisibleItems<T>(items: Option<seq<T>>, limit: int): (r: Option<seq<T>>)
    ensures r.None? <==> items.None?
    ensures r.Some? ==> r.value <= items.value && (0 <= limit ==> |r.value| == if limit < |items.value| then limit else |items.value|)
  {
    match items
    case None => None
    case Some(s) => Some(SlicePrefix(s, limit))
  }

  /** JavaScript `slice(start)`. */
  function SliceSuffix<T>(s: seq<T>, start: int): (r: seq<T>)
    ensures 0 <= start <= |s| ==> r == s[start..]
    ensures start > |s| ==> r == []
  {
    var b := if start < 0 then |s| + start else start;
    s[if b < 0 then 0 else if b > |s| then |s| else b..]
  }

  /** The names of the items from `start` on, in order. */
  function RemainingNames<T>(s: seq<T>, start: int, name: T -> string): (r: seq<string>)
    ensures |r| == |SliceSuffix(s, start)|
    ensures forall k :: 0 <= k < |r| ==> r[k] == name(SliceSuffix(s, start)[k])
  {
    var rest := SliceSuffix(s, start);
    seq(|rest|, i requires 0 <= i < |rest| => name(rest[i]))
  }

  /** `getLabelOfRemainingItems`: the labels from `start` on, joined by `, `. */
  function GetLabelOfRemainingItems<T>(items: Option<seq<T>>, start: int, name: T -> string): (r: Option<string>)
    ensures r.None? <==> items.None?
  {
    match items
    case None => None
    case Some(s) => Some(Join(RemainingNames(s, start, name), ", "))
  }

  /** The chips and the label share their cut: together they are the whole list, in order. */
  lemma {:induction false} VisibleAndRemaining<T>(s: seq<T>, limit: int)
    ensures GetVisibleItems(Some(s), limit).value + SliceSuffix(s, limit) == s
  {
    var e := if limit < 0 then |s| + limit else limit;
    var c := if e < 0 then 0 else if e > |s| then |s| else e;
    assert GetVisibleItems(Some(s), limit).value == s[..c];
    assert SliceSuffix(s, limit) == s[c..];
  }

  /**
   * The label is empty exactly when no item remains, or when the only one
   * left has an empty name.
   */
  lemma {:induction false} LabelEmpty<T>(s: seq<T>, start: int, name: T -> string)
    ensures var rest := SliceSuffix(s, start);
      GetLabelOfRemainingItems(Some(s), start, name) == Some("")
      <==> |rest| == 0 || (|rest| == 1 && name(rest[0]) == "")
  {
    var names := RemainingNames(s, start, name);
    if |names| >= 2 {
      JoinLength(names, ", ");
    }
  }

  /** One remaining item is labelled by its name alone. */
  lemma {:induction false} LabelOfOne<T>(s: seq<T>, start: int, name: T -> string)
    requires |SliceSuffix(s, start)| == 1
    ensures GetLabelOfRemainingItems(Some(s), start, name) == Some(name(SliceSuffix(s, start)[0]))
  {
    assert RemainingNames(s, start, name) == [name(SliceSuffix(s, start)[0])];
  }

  /** The pieces of a `, ` join, with the space of each separator kept in front of the later pieces. */
  function Spaced(parts: seq<string>): (r: seq<string>)
    requires |parts| >= 1
  {
    [parts[0]] + seq(|parts| - 1, i requires 0 <= i < |parts| - 1 => " " + parts[i + 1])
  }

  /** A text put before the first piece of a join is put before the join. */
  lemma {:induction false} JoinLeading(prefix: string, parts: seq<string>, sep: string)
    requires |parts| >= 1
    ensures Join([prefix + parts[0]] + parts[1..], sep) == prefix + Join(parts, sep)
  {
    var q := [prefix + parts[0]] + parts[1..];
    assert q[1..] == parts[1..];
  }

  /** Joining by `, ` is joining the spaced pieces by `,`. */
  lemma {:induction false} CommaJoin(parts: seq<string>)
    requires |parts| >= 1
    ensures Join(parts, ", ") == Join(Spaced(parts), [','])
    decreases |parts|
  {
    if |parts| >= 2 {
      var tail := parts[1..];
      CommaJoin(tail);
      var sp := Spaced(parts);
      assert sp[1..] == [" " + tail[0]] + Spaced(tail)[1..];
      JoinLeading(" ", Spaced(tail), [',']);
      assert [','] + (" " + Join(tail, ", ")) == ", " + Join(tail, ", ");
    }
  }

  /**
   * When no remaining name holds a comma, cutting the label at its commas
   * gives the remaining names back in order, each after the first behind
   * the space of its separator.
   */
  lemma {:induction false} LabelSplitsIntoNames<T>(s: seq<T>, start: int, name: T -> string)
    requires |SliceSuffix(s, start)| >= 1
    requires forall x :: x in SliceSuffix(s, start) ==> ',' !in name(x)
    ensures var rest := SliceSuffix(s, start);
      var parts := Split(GetLabelOfRemainingItems(Some(s), start, name).value, ',');
      |parts| == |rest| && parts[0] == name(rest[0])
      && forall k :: 1 <= k < |rest| ==> parts[k] == " " + name(rest[k])
  {
    var rest := SliceSuffix(s, start);
    var names := RemainingNames(s, start, name);
    CommaJoin(names);
    var sp := Spaced(names);
    forall k | 0 <= k < |sp|
      ensures ',' !in sp[k]
    {
      assert rest[k] in rest;
      if k > 0 {
        assert sp[k] == " " + names[k];
      }
    }
    SplitJoin(sp, ',');
  }

  /**
   * `getRemainingItemsCount`: how many items are not visible, or `null`
   * when either list is missing or none is hidden.
   */
  function GetRemainingItemsCount<T>(items: Option<seq<T>>, visibleItems: Option<seq<T>>): (r: Option<int>)
    ensures r.Some? <==> items.Some? && visibleItems.Some? && |items.value| != |visibleItems.value|
    ensures r.Some? ==> r.value == |items.value| - |visibleItems.value| && r.value != 0
  {
    if items.None? || visibleItems.None? then None
    else
      var d := |items.value| - |visibleItems.value|;
      if d == 0 then None else Some(d)
  }

  /** `computeLabel`. */
  function ComputeLabel(status: Option<string>): (r: string)
    ensures r in {"Pending validation", "Success", "Partial", "Failed"}
    ensures r == "Pending validation" <==> status.None? || status.value == "PENDING"
    ensures r == "Success" <==> status == Some("SUCCESS")
    ensures r == "Partial" <==> status == Some("PARTIAL")
  {
    if status.None? || status.value == "PENDING" then "Pending validation"
    else if status.value == "SUCCESS" then "Success"
    else if status.value == "PARTIAL" then "Partial"
    else "Failed"
  }

  /** `capitalize`: the first character upper case, the rest lower case. */
  function Capitalize(text: string): (r: string)
    ensures |r| == |text|
    ensures |text| > 0 ==> r[0] == ToUpperChar(text[0])
    ensures forall i :: 1 <= i < |text| ==> r[i] == ToLowerChar(text[i])
  {
    ToUpper(text[..if |text| > 0 then 1 else 0]) + ToLower(text[if |text| > 0 then 1 else 0..])
  }

  /**
   * `match(/.{1,2}/g)`: from left to right, one or two characters other
   * than line terminators; line terminators are skipped.
   */
  function Pairs(s: string): (r: seq<string>)
    ensures forall k :: 0 <= k < |r| ==> 1 <= |r[k]| <= 2
    ensures forall k :: 0 <= k < |r| ==> forall j :: 0 <= j < |r[k]| ==> !IsLineTerminator(r[k][j])
    decreases |s|
  {
    if |s| == 0 then []
    else if IsLineTerminator(s[0]) then Pairs(s[1..])
    else if |s| >= 2 && !IsLineTerminator(s[1]) then [s[..2]] + Pairs(s[2..])
    else [s[..1]] + Pairs(s[1..])
  }

  /** `formatMacAddress`: upper case, in groups of two joined by `:`, or `-` when nothing matches. */
  function FormatMacAddress(mac: string): (r: string)
    ensures r != ""
  {
    var groups := Pairs(ToUpper(mac));
    if |groups| == 0 then "-"
    else
      assert |groups[0]| > 0;
      JoinNonEmpty(groups, ":");
      Join(groups, ":")
  }

  /** Joining a non-empty first piece gives a non-empty text. */
  lemma {:induction false} JoinNonEmpty(parts: seq<string>, sep: string)
    requires |parts| > 0 && |parts[0]| > 0
    ensures Join(parts, sep) != ""
  {
  }

  /** `formatIp`: unchanged. */
  function FormatIp(ip: string): string {
    ip
  }

  /** The pieces laid end to end. */
  function Concat(parts: seq<string>): string {
    if |parts| == 0 then "" else parts[0] + Concat(parts[1..])
  }

  /**
   * Without line terminators the groups are the text cut every two
   * characters: they lay back out to the text, and only the last may be short.
   */
  lemma {:induction false} PairsOfLine(s: string)
    requires forall i :: 0 <= i < |s| ==> !IsLineTerminator(s[i])
    ensures Concat(Pairs(s)) == s
    ensures |Pairs(s)| == (|s| + 1) / 2
    ensures forall k :: 0 <= k < |Pairs(s)| - 1 ==> |Pairs(s)[k]| == 2
    decreases |s|
  {
    if |s| >= 2 {
      PairsOfLine(s[2..]);
      assert Pairs(s)[1..] == Pairs(s[2..]);
      assert s == s[..2] + s[2..];
    } else if |s| == 1 {
      assert Pairs(s[1..]) == [];
    }
  }

  /** Joined pieces are as long as the pieces plus one separator between each two. */
  lemma {:induction false} JoinLength(parts: seq<string>, sep: string)
    requires |parts| > 0
    ensures |Join(parts, sep)| == |Concat(parts)| + (|parts| - 1) * |sep|
    decreases |parts|
  {
    if |parts| > 1 {
      JoinLength(parts[1..], sep);
    }
  }

  /** A twelve-digit MAC address becomes six groups of two separated by colons: 17 characters. */
  lemma {:induction false} MacAddressLength(mac: string)
    requires |mac| == 12 && forall i :: 0 <= i < |mac| ==> !IsLineTerminator(mac[i])
    ensures |FormatMacAddress(mac)| == 17
  {
    var u := ToUpper(mac);
    assert forall i :: 0 <= i < |u| ==> !IsLineTerminator(u[i]);
    PairsOfLine(u);
    JoinLength(Pairs(u), ":");
  }

  /** `capitalize` is idempotent on ASCII text; JavaScript case mapping beyond ASCII can change the length (`ß` upper-cases to `SS`). */
  lemma {:induction false} CapitalizeIdempotent(text: string)
    requires forall i :: 0 <= i < |text| ==> text[i] as int < 128
    ensures Capitalize(Capitalize(text)) == Capitalize(text)
  {
  }
}
