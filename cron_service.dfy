/**
 * The back end's cron synthesis: a schedule frequency, an optional step
 * and the seed's UTC clock fields become a six-part cron expression, and
 * an ISO 8601 period is first searched for its amount and unit.
 */
module CronService {
  import opened Wrappers
  import opened Text
  import Cron
  import CronGenerated
  import PeriodExpression

  datatype ScheduleFrequency = Hourly | Daily | Weekly | Monthly | OneShot

  /** The UTC minute, hour, day of month and ISO day of week (Monday 1) of the seed instant. */
  datatype SeedFields = SeedFields(minute: nat, hour: nat, dayOfMonth: nat, dayOfWeek: nat)

  /** What a calendar can produce. */
  predicate IsCalendar(t: SeedFields) {
    t.minute <= 59 && t.hour <= 23 && 1 <= t.dayOfMonth <= 31 && 1 <= t.dayOfWeek <= 7
  }

  datatype CronServiceError =
    | OutsideBounds      // the cron library rejects the synthesised expression
    | NotIso8601         // no period found in the text
    | NumberFormat       // the amount does not fit a Java `int`

  const IntMax: int := 0x7fff_ffff

  /** Java `int` arithmetic: the result taken modulo 2^32 into [-2^31, 2^31). */
  function Int32(x: int): (r: int)
    ensures -IntMax - 1 <= r <= IntMax
    ensures (r - x) % 0x1_0000_0000 == 0
    ensures -IntMax - 1 <= x <= IntMax ==> r == x
  {
    var u := x % 0x1_0000_0000;
    if u > IntMax then u - 0x1_0000_0000 else u
  }

  /** `%d`: the decimal text of an integer, signed. */
  function FormatInt(i: int): (r: string)
    ensures i >= 0 ==> r == Dec(i)
    ensures i < 0 ==> r == "-" + Dec(-i)
  {
    if i < 0 then "-" + Dec(-i) else Dec(i)
  }

  /**
   * The expression the switch builds; `None` is Java's `null` for a
   * one-shot schedule. The step is absent (`null`) or a non-negative `int`.
   */
  function Synthesise(scheduling: ScheduleFrequency, digits: Option<nat>, t: SeedFields): Option<string>
    requires digits.Some? ==> digits.value <= IntMax
  {
    var m := Dec(t.minute);
    var h := Dec(t.hour);
    match scheduling
    case Hourly =>
      if digits.Some? then Some("0 " + m + " */" + Dec(digits.value) + " * * *")
      else Some("0 " + m + " " + h + " * * *")
    case Daily =>
      if digits.Some? && digits.value > 1 then Some("0 " + m + " " + h + " * * */" + Dec(digits.value))
      else Some("0 " + m + " " + h + " * * *")
    case Weekly =>
      if digits.Some? && digits.value >= 1
      then Some("0 " + m + " " + h + " * * " + Dec(t.dayOfWeek) + "/" + FormatInt(Int32(digits.value * 7)))
      else Some("0 " + m + " " + h + " * * " + Dec(t.dayOfWeek))
    case Monthly =>
      if digits.Some? && digits.value > 1
      then Some("0 " + m + " " + h + " " + Dec(t.dayOfMonth) + " */" + Dec(digits.value) + " *")
      else Some("0 " + m + " " + h + " " + Dec(t.dayOfMonth) + " * *")
    case OneShot => None
  }

  /**
   * The private `getCronExpression`: the synthesised expression, unless the
   * cron library (`accepts`) rejects it. A `null` expression is not parsed.
   */
  function FromFrequency(scheduling: ScheduleFrequency, digits: Option<nat>, t: SeedFields,
                         accepts: string -> bool): (r: Result<Option<string>, CronServiceError>)
    requires digits.Some? ==> digits.value <= IntMax
    ensures r.Err? <==> Synthesise(scheduling, digits, t).Some? && !accepts(Synthesise(scheduling, digits, t).value)
    ensures r.Ok? ==> r.value == Synthesise(scheduling, digits, t)
    ensures r.Err? ==> r.error == OutsideBounds
  {
    var e := Synthesise(scheduling, digits, t);
    if e.Some? && !accepts(e.value) then Err(OutsideBounds) else Ok(e)
  }

  /** The public `getCronExpression(scheduling, seed)`: no step. */
  function GetCronExpression(scheduling: ScheduleFrequency, t: SeedFields, accepts: string -> bool)
    : Result<Option<string>, CronServiceError>
  {
    FromFrequency(scheduling, None, t, accepts)
  }

  // ---------------------------------------------------------------- the ISO period search

  /** The unit letters the search accepts; `M` always means months here. */
  predicate IsOrder(c: char) { c == 'H' || c == 'D' || c == 'W' || c == 'M' }

  datatype PeriodMatch = PeriodMatch(digits: string, order: char)

  /** The end of the run of digits that starts at `j`. */
  function DigitRunEnd(s: string, j: nat): (k: nat)
    requires j <= |s|
    ensures j <= k <= |s| && AllDigits(s[j..k]) && (k == |s| || !IsDigit(s[k]))
    decreases |s| - j
  {
    if j < |s| && IsDigit(s[j]) then
      var k := DigitRunEnd(s, j + 1);
      assert s[j..k] == [s[j]] + s[j + 1..k];
      k
    else j
  }

  /**
   * `PT?(\d+)([HDWM])` tried at position `i`: `P`, then `T` when present,
   * then the maximal run of digits, which must be non-empty and followed by
   * a unit letter. A shorter digit run would be followed by a digit, so
   * backtracking finds nothing more.
   */
  function MatchAt(s: string, i: nat): (r: Option<PeriodMatch>)
    ensures r.Some? ==>
      |r.value.digits| > 0 && AllDigits(r.value.digits) && IsOrder(r.value.order)
      && (OccursAt(s, "P" + r.value.digits + [r.value.order], i)
          || OccursAt(s, "PT" + r.value.digits + [r.value.order], i))
  {
    if i < |s| && s[i] == 'P' then
      var j := if i + 1 < |s| && s[i + 1] == 'T' then i + 2 else i + 1;
      var k := DigitRunEnd(s, j);
      if k > j && k < |s| && IsOrder(s[k]) then
        assert j == i + 1 ==> s[i..k + 1] == "P" + s[j..k] + [s[k]];
        assert j == i + 2 ==> s[i..k + 1] == "PT" + s[j..k] + [s[k]];
        Some(PeriodMatch(s[j..k], s[k]))
      else None
    else None
  }

  /** `Matcher.find` from position `i`: the leftmost position where the pattern matches. */
  function Find(s: string, i: nat): (r: Option<(nat, PeriodMatch)>)
    ensures r.Some? ==>
      i <= r.value.0 < |s| && MatchAt(s, r.value.0) == Some(r.value.1)
      && forall p :: i <= p < r.value.0 ==> MatchAt(s, p).None?
    ensures r.None? ==> forall p :: i <= p ==> MatchAt(s, p).None?
    decreases |s| - i
  {
    if i >= |s| then None
    else if MatchAt(s, i).Some? then Some((i, MatchAt(s, i).value))
    else Find(s, i + 1)
  }

  /** `ScheduleFrequency.fromString` on the unit letter. */
  function FrequencyOf(order: char): ScheduleFrequency {
    match order
    case 'H' => Hourly
    case 'D' => Daily
    case 'W' => Weekly
    case _ => Monthly
  }

  /**
   * `getCronExpression(iso8601PeriodExpression, seed)`: the first period in
   * the text gives the step and the frequency; no period is an error, and
   * so is an amount beyond `Integer.parseInt`.
   */
  function GetCronExpressionFromPeriod(s: string, t: SeedFields, accepts: string -> bool)
    : (r: Result<Option<string>, CronServiceError>)
    ensures Find(s, 0).None? <==> r == Err(NotIso8601)
  {
    match Find(s, 0)
    case None => Err(NotIso8601)
    case Some((_, m)) =>
      var n := DigitsValue(m.digits);
      if n > IntMax then Err(NumberFormat) else FromFrequency(FrequencyOf(m.order), Some(n), t, accepts)
  }

  // ---------------------------------------------------------------- properties

  /** A one-shot schedule has no cron expression, and nothing is checked or thrown. */
  lemma {:induction false} OneShotIsNull(digits: Option<nat>, t: SeedFields, accepts: string -> bool)
    requires digits.Some? ==> digits.value <= IntMax
    ensures FromFrequency(OneShot, digits, t, accepts) == Ok(None)
  {
  }

  /** Without a step, an hourly schedule gives the same expression as a daily one. */
  lemma {:induction false} HourlyWithoutStepIsDaily(t: SeedFields)
    ensures Synthesise(Hourly, None, t) == Synthesise(Daily, None, t)
  {
  }

  /** A daily or monthly step of at most 1, and a weekly step of 0, are the same as no step. */
  lemma {:induction false} UnitStepIgnored(n: nat, t: SeedFields)
    requires n <= 1
    ensures Synthesise(Daily, Some(n), t) == Synthesise(Daily, None, t)
    ensures Synthesise(Monthly, Some(n), t) == Synthesise(Monthly, None, t)
    ensures n == 0 ==> Synthesise(Weekly, Some(n), t) == Synthesise(Weekly, None, t)
  {
  }

  /** Six words joined by single spaces. */
  lemma {:induction false} JoinSix(a: string, b: string, c: string, d: string, e: string, f: string)
    ensures Join([a, b, c, d, e, f], " ") == a + " " + b + " " + c + " " + d + " " + e + " " + f
  {
    var w := [a, b, c, d, e, f];
    assert w[5..] == [f];
    assert w[4..][1..] == w[5..];
    assert Join(w[4..], " ") == e + " " + f;
    assert w[3..][1..] == w[4..];
    assert Join(w[3..], " ") == d + " " + e + " " + f;
    assert w[2..][1..] == w[3..];
    assert Join(w[2..], " ") == c + " " + d + " " + e + " " + f;
    assert w[1..][1..] == w[2..];
    assert Join(w[1..], " ") == b + " " + c + " " + d + " " + e + " " + f;
  }

  /** Six space-free words joined by single spaces split back into those words. */
  lemma {:induction false} SixWords(a: string, b: string, c: string, d: string, e: string, f: string)
    requires ' ' !in a && ' ' !in b && ' ' !in c && ' ' !in d && ' ' !in e && ' ' !in f
    ensures Split(a + " " + b + " " + c + " " + d + " " + e + " " + f, ' ') == [a, b, c, d, e, f]
  {
    JoinSix(a, b, c, d, e, f);
    var w := [a, b, c, d, e, f];
    assert forall k :: 0 <= k < |w| ==> ' ' !in w[k];
    SplitJoin(w, ' ');
  }

  /** The words of the hourly expression with a step: the step is on the hour field. */
  lemma {:induction false} HourlyStepFields(n: nat, t: SeedFields)
    requires n <= IntMax
    ensures Split(Synthesise(Hourly, Some(n), t).value, ' ') == ["0", Dec(t.minute), "*/" + Dec(n), "*", "*", "*"]
  {
    assert Synthesise(Hourly, Some(n), t).value
      == "0" + " " + Dec(t.minute) + " " + ("*/" + Dec(n)) + " " + "*" + " " + "*" + " " + "*";
    SixWords("0", Dec(t.minute), "*/" + Dec(n), "*", "*", "*");
  }

  /** The words of the daily expression with a step above 1: the step is on the weekday field. */
  lemma {:induction false} DailyStepFields(n: nat, t: SeedFields)
    requires 1 < n <= IntMax
    ensures Split(Synthesise(Daily, Some(n), t).value, ' ')
      == ["0", Dec(t.minute), Dec(t.hour), "*", "*", "*/" + Dec(n)]
  {
    assert Synthesise(Daily, Some(n), t).value
      == "0" + " " + Dec(t.minute) + " " + Dec(t.hour) + " " + "*" + " " + "*" + " " + ("*/" + Dec(n));
    SixWords("0", Dec(t.minute), Dec(t.hour), "*", "*", "*/" + Dec(n));
  }

  /**
   * The words of the weekly expression with a positive step: the seed's
   * weekday stepped by seven times the step, in `int` arithmetic.
   */
  lemma {:induction false} WeeklyStepFields(n: nat, t: SeedFields)
    requires 1 <= n <= IntMax
    ensures Split(Synthesise(Weekly, Some(n), t).value, ' ')
      == ["0", Dec(t.minute), Dec(t.hour), "*", "*", Dec(t.dayOfWeek) + "/" + FormatInt(Int32(n * 7))]
    ensures n * 7 <= IntMax ==>
      Split(Synthesise(Weekly, Some(n), t).value, ' ')[5] == Dec(t.dayOfWeek) + "/" + Dec(7 * n)
  {
    var k := Int32(n * 7);
    var w := Dec(t.dayOfWeek) + "/" + FormatInt(k);
    assert ' ' !in FormatInt(k);
    assert Synthesise(Weekly, Some(n), t).value
      == "0" + " " + Dec(t.minute) + " " + Dec(t.hour) + " " + "*" + " " + "*" + " " + w;
    SixWords("0", Dec(t.minute), Dec(t.hour), "*", "*", w);
  }

  /** The words of the monthly expression with a step above 1: the step is on the month field. */
  lemma {:induction false} MonthlyStepFields(n: nat, t: SeedFields)
    requires 1 < n <= IntMax
    ensures Split(Synthesise(Monthly, Some(n), t).value, ' ')
      == ["0", Dec(t.minute), Dec(t.hour), Dec(t.dayOfMonth), "*/" + Dec(n), "*"]
  {
    assert Synthesise(Monthly, Some(n), t).value
      == "0" + " " + Dec(t.minute) + " " + Dec(t.hour) + " " + Dec(t.dayOfMonth) + " " + ("*/" + Dec(n)) + " " + "*";
    SixWords("0", Dec(t.minute), Dec(t.hour), Dec(t.dayOfMonth), "*/" + Dec(n), "*");
  }

  /** The words of the expressions without a step: the seed's clock, and its weekday or day of month. */
  lemma {:induction false} DailyFields(t: SeedFields)
    ensures Split(Synthesise(Daily, None, t).value, ' ') == ["0", Dec(t.minute), Dec(t.hour), "*", "*", "*"]
  {
    var m, h := Dec(t.minute), Dec(t.hour);
    assert Synthesise(Daily, None, t).value == "0" + " " + m + " " + h + " " + "*" + " " + "*" + " " + "*";
    SixWords("0", m, h, "*", "*", "*");
  }

  lemma {:induction false} WeeklyFields(t: SeedFields)
    ensures Split(Synthesise(Weekly, None, t).value, ' ')
      == ["0", Dec(t.minute), Dec(t.hour), "*", "*", Dec(t.dayOfWeek)]
  {
    var m, h := Dec(t.minute), Dec(t.hour);
    assert Synthesise(Weekly, None, t).value
      == "0" + " " + m + " " + h + " " + "*" + " " + "*" + " " + Dec(t.dayOfWeek);
    SixWords("0", m, h, "*", "*", Dec(t.dayOfWeek));
  }

  lemma {:induction false} MonthlyFields(t: SeedFields)
    ensures Split(Synthesise(Monthly, None, t).value, ' ')
      == ["0", Dec(t.minute), Dec(t.hour), Dec(t.dayOfMonth), "*", "*"]
  {
    var m, h := Dec(t.minute), Dec(t.hour);
    assert Synthesise(Monthly, None, t).value
      == "0" + " " + m + " " + h + " " + Dec(t.dayOfMonth) + " " + "*" + " " + "*";
    SixWords("0", m, h, Dec(t.dayOfMonth), "*", "*");
  }

  /**
   * The back end and the scheduling dialog agree: a daily schedule, a
   * weekly one and an hourly step of 0 to 23 give the dialog's generated
   * expression, which the dialog can edit again.
   */
  lemma {:induction false} DailyAgreesWithDialog(t: SeedFields)
    requires IsCalendar(t)
    ensures Synthesise(Daily, None, t).value == Cron.GenerateDailyCronExpression(Dec(t.hour), Dec(t.minute), false)
    ensures CronGenerated.Promises(Synthesise(Daily, None, t).value, Dec(t.minute), Dec(t.hour), "*",
                                   PeriodExpression.Daily)
  {
    var e := Cron.GenerateDailyCronExpression(Dec(t.hour), Dec(t.minute), false);
    assert Synthesise(Daily, None, t).value == e;
    CronGenerated.DailyExpression(t.hour, t.minute, false);
  }

  lemma {:induction false} WeeklyAgreesWithDialog(t: SeedFields)
    requires IsCalendar(t)
    ensures Synthesise(Weekly, None, t).value
      == Cron.GenerateWeeklyCronExpression(Dec(t.dayOfWeek), Dec(t.hour), Dec(t.minute))
    ensures CronGenerated.Promises(Synthesise(Weekly, None, t).value, Dec(t.minute), Dec(t.hour),
                                   Dec(t.dayOfWeek), PeriodExpression.Weekly)
  {
    var e := Cron.GenerateWeeklyCronExpression(Dec(t.dayOfWeek), Dec(t.hour), Dec(t.minute));
    assert Synthesise(Weekly, None, t).value == e;
    CronGenerated.WeeklyExpression(t.dayOfWeek, t.hour, t.minute);
  }

  lemma {:induction false} HourlyAgreesWithDialog(n: nat, t: SeedFields)
    requires IsCalendar(t) && n <= 23
    ensures Synthesise(Hourly, Some(n), t).value == Cron.GenerateHourlyCronExpression(Dec(n), Dec(t.minute), false)
    ensures CronGenerated.Promises(Synthesise(Hourly, Some(n), t).value, Dec(t.minute), "*/" + Dec(n), "*",
                                   PeriodExpression.Hourly)
  {
    var e := Cron.GenerateHourlyCronExpression(Dec(n), Dec(t.minute), false);
    assert Synthesise(Hourly, Some(n), t).value == e;
    CronGenerated.HourlyExpression(n, t.minute, false);
  }

  /** The search recognises a period wherever it occurs, with or without `T`. */
  lemma {:induction false} MatchOfPeriod(s: string, i: nat, digits: string, order: char, withT: bool)
    requires |digits| > 0 && AllDigits(digits) && IsOrder(order)
    requires OccursAt(s, (if withT then "PT" else "P") + digits + [order], i)
    ensures MatchAt(s, i) == Some(PeriodMatch(digits, order))
  {
    var pre := if withT then "PT" else "P";
    var p := pre + digits + [order];
    var j := i + |pre|;
    OccursPart(s, p, i, 0, |p|);
    assert s[i] == p[0] == 'P';
    if withT {
      assert s[i + 1] == p[1] == 'T';
    } else {
      assert s[i + 1] == p[1] == digits[0];
      assert IsDigit(digits[0]);
    }
    OccursPart(s, p, i, |pre|, |digits|);
    assert p[|pre|..|pre| + |digits|] == digits;
    assert s[j + |digits|] == p[|pre| + |digits|] == order;
    DigitRunOf(s, j, |digits|);
    MatchAtRun(s, i, j, j + |digits|);
  }

  /** A `P`, an optional `T`, a run of digits from `j` to `k` and a field letter at `k` are a match. */
  lemma {:induction false} MatchAtRun(s: string, i: nat, j: nat, k: nat)
    requires i < |s| && s[i] == 'P'
    requires j == if i + 1 < |s| && s[i + 1] == 'T' then i + 2 else i + 1
    requires DigitRunEnd(s, j) == k && j < k < |s| && IsOrder(s[k])
    ensures MatchAt(s, i) == Some(PeriodMatch(s[j..k], s[k]))
  {
  }

  /** Part of an occurrence is an occurrence of the same part of the needle. */
  lemma {:induction false} OccursPart(s: string, p: string, i: nat, a: nat, n: nat)
    requires OccursAt(s, p, i) && a + n <= |p|
    ensures s[i + a..i + a + n] == p[a..a + n]
    ensures forall k :: a <= k < a + n ==> s[i + k] == p[k]
  {
    forall k | a <= k < a + n
      ensures s[i + k] == p[k]
    {
      assert s[i..i + |p|][k] == p[k];
    }
  }

  /** A run of `n` digits followed by a non-digit ends `n` places on. */
  lemma {:induction false} DigitRunOf(s: string, j: nat, n: nat)
    requires j + n < |s| && AllDigits(s[j..j + n]) && !IsDigit(s[j + n])
    ensures DigitRunEnd(s, j) == j + n
    decreases n
  {
    if n > 0 {
      assert IsDigit(s[j..j + n][0]);
      assert s[j + 1..j + n] == s[j..j + n][1..];
      DigitRunOf(s, j + 1, n - 1);
    }
  }

  /**
   * A bare period `Pnu` or `PTnu` is read with amount `n` and unit `u`: `M`
   * is months even after `T`, and an amount beyond `int` is an error.
   */
  lemma {:induction false} BarePeriod(digits: string, order: char, withT: bool, t: SeedFields, accepts: string -> bool)
    requires |digits| > 0 && AllDigits(digits) && IsOrder(order)
    ensures var s := (if withT then "PT" else "P") + digits + [order];
      GetCronExpressionFromPeriod(s, t, accepts) ==
        if DigitsValue(digits) > IntMax then Err(NumberFormat)
        else FromFrequency(FrequencyOf(order), Some(DigitsValue(digits)), t, accepts)
  {
    var s := (if withT then "PT" else "P") + digits + [order];
    MatchOfPeriod(s, 0, digits, order, withT);
  }

  /** Text without a period is an error. */
  lemma {:induction false} ExampleNoPeriod(t: SeedFields, accepts: string -> bool)
    ensures GetCronExpressionFromPeriod("every day", t, accepts) == Err(NotIso8601)
  {
    assert forall p :: 0 <= p < |"every day"| ==> "every day"[p] != 'P';
  }

  /** The search is not anchored: text without a `P` before the period is skipped. */
  lemma {:induction false} PeriodAfterText(prefix: string, digits: string, order: char, withT: bool)
    requires 'P' !in prefix
    requires |digits| > 0 && AllDigits(digits) && IsOrder(order)
    ensures var s := prefix + (if withT then "PT" else "P") + digits + [order];
      Find(s, 0) == Some((|prefix|, PeriodMatch(digits, order)))
  {
    var s := prefix + (if withT then "PT" else "P") + digits + [order];
    assert OccursAt(s, (if withT then "PT" else "P") + digits + [order], |prefix|) by {
      assert s[|prefix|..] == (if withT then "PT" else "P") + digits + [order];
    }
    MatchOfPeriod(s, |prefix|, digits, order, withT);
    SkipPrefix(s, prefix, 0);
  }

  /** No match starts inside a prefix without `P`. */
  lemma {:induction false} SkipPrefix(s: string, prefix: string, i: nat)
    requires 'P' !in prefix && i <= |prefix| < |s| && s[..|prefix|] == prefix
    requires MatchAt(s, |prefix|).Some?
    ensures Find(s, i) == Some((|prefix|, MatchAt(s, |prefix|).value))
    decreases |prefix| - i
  {
    if i < |prefix| {
      assert s[i] == prefix[i];
      SkipPrefix(s, prefix, i + 1);
    }
  }
}
