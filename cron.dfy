/**
 * Cron expressions of the front end: fields keyed by position, the Unix
 * (5-field) and Quartz (6/7-field) arrangements, parsing, serialisation,
 * the field queries and the expression-level classification.
 */
module Cron {
  import opened Wrappers
  import opened Text
  import opened JsNumber
  import opened CronGrammar
  import opened PeriodExpression

  /** `CronFieldPosition`. */
  datatype Position = Seconds | Minutes | Hours | Monthdays | Months | Weekdays | Years

  /** The mask both parser sets attach to a position. */
  function MaskOf(p: Position): Mask {
    match p
    case Seconds => SecondsMask
    case Minutes => MinutesMask
    case Hours => HoursMask
    case Monthdays => MonthdaysMask
    case Months => MonthsMask
    case Weekdays => WeekdaysMask
    case Years => YearsMask
  }

  /** A field: its expression (undefined when the text had too few parts), its mask and position. */
  datatype CronField = CronField(expression: Option<string>, mask: Mask, position: Position)

  /** A cron expression: its fields in the order of the arrangement that built it. */
  datatype Cron = Cron(fields: seq<CronField>)

  /** The Quartz arrangement: seconds first, years last. */
  const QuartzArrangement: seq<Position> := [Seconds, Minutes, Hours, Monthdays, Months, Weekdays, Years]

  /** The Unix arrangement: no seconds and no years. */
  const UnixArrangement: seq<Position> := [Minutes, Hours, Monthdays, Months, Weekdays]

  // ---------------------------------------------------------------- field queries

  /** The index of the first character of `e` that is not `*`, or `|e|`. */
  function FirstNonStar(e: string): (i: nat)
    ensures i <= |e| && (i < |e| ==> e[i] != '*')
    ensures forall k :: 0 <= k < i ==> e[k] == '*'
  {
    if |e| == 0 || e[0] != '*' then 0 else 1 + FirstNonStar(e[1..])
  }

  /** The end of the run of non-`*` characters starting at `i`. */
  function StarFreeEnd(e: string, i: nat): (j: nat)
    requires i <= |e|
    ensures i <= j <= |e| && (j < |e| ==> e[j] == '*')
    ensures forall k :: i <= k < j ==> e[k] != '*'
    decreases |e| - i
  {
    if i == |e| || e[i] == '*' then i else StarFreeEnd(e, i + 1)
  }

  /**
   * `CronField.getValue`: the match of `([^\*]+)[\/|#|L]?`, whose group is
   * the first maximal run of characters other than `*`.
   */
  function GetValue(e: string): (r: Option<string>)
    ensures r.None? <==> forall k :: 0 <= k < |e| ==> e[k] == '*'
    ensures r.Some? ==> |r.value| > 0 && forall k :: 0 <= k < |r.value| ==> r.value[k] != '*'
    ensures r.Some? ==> exists i :: 0 <= i < |e| && OccursAt(e, r.value, i)
                           && (forall k :: 0 <= k < i ==> e[k] == '*')
                           && (i + |r.value| == |e| || e[i + |r.value|] == '*')
  {
    var i := FirstNonStar(e);
    if i == |e| then None
    else
      var j := StarFreeEnd(e, i);
      assert OccursAt(e, e[i..j], i);
      Some(e[i..j])
  }

  /** The characters `[\/|#|L]` that follow the value in `getValue`'s pattern. */
  predicate IsValueMarker(c: char) { c == '/' || c == '|' || c == '#' || c == 'L' }

  /** The end of the run of characters that are neither `*` nor a marker, starting at `i`. */
  function ValueRunEnd(e: string, i: nat): (j: nat)
    requires i <= |e|
    ensures i <= j <= |e| && (j < |e| ==> e[j] == '*' || IsValueMarker(e[j]))
    ensures forall k :: i <= k < j ==> e[k] != '*' && !IsValueMarker(e[k])
    decreases |e| - i
  {
    if i == |e| || e[i] == '*' || IsValueMarker(e[i]) then i else ValueRunEnd(e, i + 1)
  }

  /** The first position at or after `i` that starts a value run, or `|e|`. */
  function ValueStart(e: string, i: nat): (j: nat)
    requires i <= |e|
    ensures i <= j <= |e| && (j < |e| ==> e[j] != '*' && !IsValueMarker(e[j]))
    ensures forall k :: i <= k < j ==> e[k] == '*' || IsValueMarker(e[k])
    decreases |e| - i
  {
    if i == |e| || (e[i] != '*' && !IsValueMarker(e[i])) then i else ValueStart(e, i + 1)
  }

  /**
   * The value `getValue`'s documentation describes: the first maximal run
   * of characters other than `*` and the markers `/ | # L`, so that `1/22`
   * and `1#2` give `1`.
   */
  function IntendedValue(e: string): (r: Option<string>)
    ensures r.None? <==> forall k :: 0 <= k < |e| ==> e[k] == '*' || IsValueMarker(e[k])
    ensures r.Some? ==> |r.value| > 0 && forall k :: 0 <= k < |r.value| ==> r.value[k] != '*' && !IsValueMarker(r.value[k])
  {
    var i := ValueStart(e, 0);
    if i == |e| then None else Some(e[i..ValueRunEnd(e, i)])
  }

  /** A value run at the start, ended by a star or a marker, is the intended value. */
  lemma {:induction false} IntendedValueOfLeadingRun(e: string, j: nat)
    requires 0 < j < |e| && (e[j] == '*' || IsValueMarker(e[j]))
    requires forall k :: 0 <= k < j ==> e[k] != '*' && !IsValueMarker(e[k])
    ensures IntendedValue(e) == Some(e[..j])
  {
    assert ValueStart(e, 0) == 0;
    assert ValueRunEnd(e, 0) == j;
  }

  /** The delimiters of `[\/|#]`: inside a character class `|` is literal. */
  predicate IsDelimiter(c: char) { c == '/' || c == '|' || c == '#' }

  /** The first line terminator at or after `p`, or `|e|`: how far `.*` can reach from `p`. */
  function LineEnd(e: string, p: nat): (q: nat)
    requires p <= |e|
    ensures p <= q <= |e| && (q < |e| ==> IsLineTerminator(e[q]))
    ensures forall k :: p <= k < q ==> !IsLineTerminator(e[k])
    decreases |e| - p
  {
    if p == |e| || IsLineTerminator(e[p]) then p else LineEnd(e, p + 1)
  }

  /** The last delimiter in `e[p..q]`, if any: where a greedy `.*[\/|#]` stops. */
  function LastDelimiter(e: string, p: nat, q: nat): (r: Option<nat>)
    requires p <= q <= |e|
    ensures r.Some? ==> p <= r.value < q && IsDelimiter(e[r.value])
                        && forall k :: r.value < k < q ==> !IsDelimiter(e[k])
    ensures r.None? ==> forall k :: p <= k < q ==> !IsDelimiter(e[k])
    decreases q - p
  {
    if q == p then None
    else if IsDelimiter(e[q - 1]) then Some(q - 1)
    else LastDelimiter(e, p, q - 1)
  }

  /**
   * The search of `.*[\/|#](.*)|(L)` from position `p`, with the result of
   * `matches[1] || matches[2]`: at each position the first alternative is
   * tried before the second, `.` stops at line terminators, and an empty
   * first group is falsy.
   */
  function RecurrenceFrom(e: string, p: nat): (r: Option<string>)
    requires p <= |e|
    ensures r.Some? ==> |r.value| > 0
    decreases |e| - p
  {
    var q := LineEnd(e, p);
    match LastDelimiter(e, p, q)
    case Some(k) => if k + 1 == q then None else Some(e[k + 1..q])
    case None =>
      if p == |e| then None
      else if e[p] == 'L' then Some("L")
      else RecurrenceFrom(e, p + 1)
  }

  /** `CronField.getRecurrence`; it never returns the empty string. */
  function GetRecurrence(e: string): (r: Option<string>)
    ensures r.Some? ==> |r.value| > 0
  {
    RecurrenceFrom(e, 0)
  }

  /** `isWildcard`: the expression starts with `*`. */
  predicate IsWildcard(e: string) { StartsWith(e, "*") }

  /** `isZero`: the expression starts with `0`. */
  predicate IsZero(e: string) { StartsWith(e, "0") }

  /** `isPureNumeric`: `Number` of the expression is not `NaN`. */
  predicate IsPureNumeric(e: string) { !IsNaN(e) }

  /** `toNumber`. */
  function ToNumber(e: string): Number { ParseNumber(e) }

  /** `isRange`: strict equality with the given range text, false for an undefined field. */
  predicate IsRange(f: CronField, range: string) { f.expression == Some(range) }

  /** `CronField.isValid`: an undefined field is valid, a defined one must match its mask. */
  predicate FieldIsValid(f: CronField) {
    match f.expression
    case None => true
    case Some(e) => Validate(f.mask, e)
  }

  // ---------------------------------------------------------------- parsing

  datatype CronParseError = IllegalNumberOfParts

  /** `parseParts`: the i-th position of the arrangement takes `parts[i]`, undefined when missing. */
  function ParseParts(arrangement: seq<Position>, parts: seq<string>): (c: Cron)
    ensures |c.fields| == |arrangement|
    ensures forall i :: 0 <= i < |arrangement| ==>
      c.fields[i].position == arrangement[i] && c.fields[i].mask == MaskOf(arrangement[i])
      && c.fields[i].expression == (if i < |parts| then Some(parts[i]) else None)
  {
    Cron(seq(|arrangement|, i requires 0 <= i < |arrangement| =>
      CronField(if i < |parts| then Some(parts[i]) else None, MaskOf(arrangement[i]), arrangement[i])))
  }

  /** `CronParser.parse`: five space-separated parts are Unix, six or seven are Quartz. */
  function Parse(s: string): (r: Result<Cron, CronParseError>)
    ensures var n := |Split(s, ' ')|;
      (n == 5 ==> r == Ok(ParseParts(UnixArrangement, Split(s, ' '))))
      && ((n == 6 || n == 7) ==> r == Ok(ParseParts(QuartzArrangement, Split(s, ' '))))
      && (n != 5 && n != 6 && n != 7 ==> r == Err(IllegalNumberOfParts))
  {
    var parts := Split(s, ' ');
    if |parts| == 5 then Ok(ParseParts(UnixArrangement, parts))
    else if |parts| == 6 || |parts| == 7 then Ok(ParseParts(QuartzArrangement, parts))
    else Err(IllegalNumberOfParts)
  }

  /**
   * What every parsed expression satisfies: each field's mask is its
   * position's, positions are distinct, and only the years may be undefined.
   */
  predicate WellFormed(c: Cron) {
    (forall i :: 0 <= i < |c.fields| ==>
       c.fields[i].mask == MaskOf(c.fields[i].position)
       && (c.fields[i].position != Years ==> c.fields[i].expression.Some?))
    && (forall i, j :: 0 <= i < j < |c.fields| ==> c.fields[i].position != c.fields[j].position)
  }

  /** `fields.get(position)`: the field at that position, if the arrangement has one. */
  function Get(c: Cron, p: Position): (r: Option<CronField>)
    ensures r.Some? ==> r.value in c.fields && r.value.position == p
    ensures r.None? ==> forall i :: 0 <= i < |c.fields| ==> c.fields[i].position != p
    ensures WellFormed(c) && r.Some? ==> r.value.mask == MaskOf(p) && (p != Years ==> r.value.expression.Some?)
    decreases |c.fields|
  {
    if |c.fields| == 0 then None
    else if c.fields[0].position == p then Some(c.fields[0])
    else
      assert WellFormed(c) ==> WellFormed(Cron(c.fields[1..])) by {
        if WellFormed(c) {
          forall i | 0 <= i < |c.fields| - 1 ensures c.fields[1..][i] == c.fields[i + 1] { }
        }
      }
      Get(Cron(c.fields[1..]), p)
  }

  /** The text of a field known to be defined. */
  function Expr(f: CronField): string
    requires f.expression.Some?
  {
    f.expression.value
  }

  /** The text Array `join` contributes for a field: undefined becomes the empty string. */
  function JoinText(f: CronField): string {
    match f.expression
    case None => ""
    case Some(e) => e
  }

  /** `toCronExpression`: the field texts joined by spaces, trailing white space removed. */
  function ToCronExpression(c: Cron): string {
    TrimEnd(Join(seq(|c.fields|, i requires 0 <= i < |c.fields| => JoinText(c.fields[i])), " "))
  }

  /** `Cron.isValid`: every field is valid. */
  predicate IsValid(c: Cron) {
    forall i :: 0 <= i < |c.fields| ==> FieldIsValid(c.fields[i])
  }

  /** `Cron.isUiSupported`. */
  predicate IsUiSupported(c: Cron)
    requires WellFormed(c)
  {
    IsValid(c)
    && (match Get(c, Seconds) case None => true case Some(f) => IsZero(Expr(f)))
    && (match Get(c, Minutes) case None => false case Some(f) => IsPureNumeric(Expr(f)))
    && (match Get(c, Hours)
        case None => false
        case Some(f) => IsPureNumeric(Expr(f)) || (GetRecurrence(Expr(f)).Some? && IsWildcard(Expr(f))))
    && (match Get(c, Monthdays) case None => false case Some(f) => IsWildcard(Expr(f)))
    && (match Get(c, Months) case None => false case Some(f) => IsWildcard(Expr(f)))
  }

  /** `isOnlyOnWeekdays`: the weekday field is exactly the range `1-5`. */
  predicate IsOnlyOnWeekdays(c: Cron) {
    match Get(c, Weekdays) case None => false case Some(f) => IsRange(f, "1-5")
  }

  /** `getMonthlyRecurrence`: the recurrence of the weekday field. */
  function MonthlyRecurrence(c: Cron): Option<string>
    requires WellFormed(c)
  {
    match Get(c, Weekdays) case None => None case Some(f) => GetRecurrence(Expr(f))
  }

  /** `getWeeklyRecurrence`: the value of the weekday field. */
  function WeeklyRecurrence(c: Cron): Option<string>
    requires WellFormed(c)
  {
    match Get(c, Weekdays) case None => None case Some(f) => GetValue(Expr(f))
  }

  /** `getRecurrenceMagnitude`; the recurrences it reads are never empty, so a defined one is truthy. */
  function RecurrenceMagnitude(c: Cron): Magnitude
    requires WellFormed(c)
  {
    if MonthlyRecurrence(c).Some? then Monthly
    else if (match Get(c, Hours) case None => false case Some(f) => GetRecurrence(Expr(f)).Some?) then Hourly
    else if WeeklyRecurrence(c).Some? && !IsOnlyOnWeekdays(c) then Weekly
    else Daily
  }

  /** `canHandleExpression`: the text parses and is valid; a parse error yields false. */
  predicate CanHandleExpression(s: string) {
    match Parse(s) case Err(_) => false case Ok(c) => IsValid(c)
  }

  // ---------------------------------------------------------------- generators

  function GenerateHourlyCronExpression(h: string, m: string, onlyWorkingDays: bool): string {
    if onlyWorkingDays then "0 " + m + " */" + h + " * * 1-5" else "0 " + m + " */" + h + " * * *"
  }

  function GenerateDailyCronExpression(h: string, m: string, onlyWorkingDays: bool): string {
    if onlyWorkingDays then "0 " + m + " " + h + " * * 1-5" else "0 " + m + " " + h + " * * *"
  }

  function GenerateWeeklyCronExpression(d: string, h: string, m: string): string {
    "0 " + m + " " + h + " * * " + d
  }

  function GenerateMonthlyCronExpression(w: string, d: string, h: string, m: string): string {
    if w == "5" then "0 " + m + " " + h + " * * " + d + "L" else "0 " + m + " " + h + " * * " + d + "#" + w
  }
}
