/**
 * The ISO 8601 durations the front end recognises: a single date
 * designator (`PnD`, `PnW`, `PnM`) or a single time designator (`PTnH`,
 * `PTnM`), as in the duration format with designators of section 4.4.3.2
 * of ISO 8601:2004, with no combinations and no fractions.
 */
module Iso8601Period {
  import opened Wrappers
  import opened Text
  import opened JsNumber
  import opened PeriodExpression

  /** The two alternatives of the recogniser: groups 1-2 (date) or groups 3-4 (time). */
  datatype PeriodMatch = DatePart(amount: string, unit: char) | TimePart(amount: string, unit: char)

  predicate IsDateUnit(c: char) { c == 'D' || c == 'W' || c == 'M' }

  predicate IsTimeUnit(c: char) { c == 'H' || c == 'M' }

  /** The match of `^P(?:(\d+)([DWM])|T(\d+)([HM]))$`, if any. */
  function Match(s: string): (r: Option<PeriodMatch>)
    ensures r.Some? ==> |r.value.amount| > 0 && AllDigits(r.value.amount)
    ensures r.Some? && r.value.DatePart? ==> IsDateUnit(r.value.unit) && s == "P" + r.value.amount + [r.value.unit]
    ensures r.Some? && r.value.TimePart? ==> IsTimeUnit(r.value.unit) && s == "PT" + r.value.amount + [r.value.unit]
  {
    if |s| >= 3 && s[0] == 'P' && IsDateUnit(s[|s| - 1]) && AllDigits(s[1..|s| - 1]) then
      Some(DatePart(s[1..|s| - 1], s[|s| - 1]))
    else if |s| >= 4 && s[0] == 'P' && s[1] == 'T' && IsTimeUnit(s[|s| - 1]) && AllDigits(s[2..|s| - 1]) then
      Some(TimePart(s[2..|s| - 1], s[|s| - 1]))
    else None
  }

  /** Every date designator with a digit run is recognised. */
  lemma {:induction false} DateShapeMatches(a: string, u: char)
    requires |a| > 0 && AllDigits(a) && IsDateUnit(u)
    ensures Match("P" + a + [u]) == Some(DatePart(a, u))
  {
    var s := "P" + a + [u];
    assert s[1..|s| - 1] == a;
  }

  /** Every time designator with a digit run is recognised. */
  lemma {:induction false} TimeShapeMatches(a: string, u: char)
    requires |a| > 0 && AllDigits(a) && IsTimeUnit(u)
    ensures Match("PT" + a + [u]) == Some(TimePart(a, u))
  {
    var s := "PT" + a + [u];
    assert s[2..|s| - 1] == a;
    assert !AllDigits(s[1..|s| - 1]) by { assert s[1..|s| - 1][0] == 'T'; }
  }

  /** `canHandleExpression`. */
  predicate CanHandleExpression(s: string) { Match(s).Some? }

  /** `isValid`: the same test on the raw expression. */
  predicate IsValid(s: string) { Match(s).Some? }

  /** `isUiSupported`: ISO periods are never edited through the dialog. */
  predicate IsUiSupported(s: string) { false }

  /** `toHumanReadableString`: the raw expression. */
  function ToHumanReadableString(s: string, locale: string): string { s }

  /** `getRecurrenceTime`: always midnight. */
  function RecurrenceTime(s: string): LocalHourMinute { LocalHourMinute(0, 0) }

  /** `getRecurrenceMagnitude`: `M` is months before `T` and minutes after; no match is daily. */
  function RecurrenceMagnitude(s: string): Magnitude {
    match Match(s)
    case None => Daily
    case Some(DatePart(_, u)) => if u == 'W' then Weekly else if u == 'M' then Monthly else Daily
    case Some(TimePart(_, u)) => if u == 'H' then Hourly else Minutely
  }

  /** `getRecurrenceAmount`: the matched digit run. */
  function RecurrenceAmount(s: string): Option<string> {
    match Match(s) case None => None case Some(m) => Some(m.amount)
  }

  /** The text `Number` is applied to: the amount, or `'1'` when there is none. */
  function AmountText(s: string): string {
    match RecurrenceAmount(s) case None => "1" case Some(a) => a
  }

  /** The amount as a natural number. */
  function Amount(s: string): nat {
    match RecurrenceAmount(s) case None => 1 case Some(a) => DigitsValue(a)
  }

  /** `Number(amount || '1')` is exactly `Amount`. */
  lemma {:induction false} AmountIsNumber(s: string)
    ensures ParseNumber(AmountText(s)) == Finite(Amount(s) as real)
  {
    match RecurrenceAmount(s)
    case None =>
      assert DigitsValue("1") == 1;
      ParseDigits("1");
    case Some(a) =>
      ParseDigits(a);
  }

  /** The feminine prefix goes with minutes, hours and weeks. */
  predicate IsFeminine(m: Magnitude) { m == Minutely || m == Hourly || m == Weekly }

  /** The unit word of a magnitude's suffix. */
  function UnitWord(m: Magnitude): string {
    match m
    case Minutely => "minutes"
    case Hourly => "hours"
    case Weekly => "weeks"
    case Monthly => "months"
    case Daily => "days"
  }

  /** `toTranslatableStringArray`: `[prefix, unit_singular]` for an amount of 1, else `[prefix, amount, unit_plural]`. */
  function ToTranslatableStringArray(s: string, locale: string): (r: seq<string>)
    ensures |r| == 2 <==> Amount(s) == 1
    ensures |r| == 3 <==> Amount(s) != 1
    ensures r[0] == (if IsFeminine(RecurrenceMagnitude(s)) then "every_fem_" else "every_masc_")
                    + (if Amount(s) == 1 then "singular" else "plural")
    ensures |r| == 3 ==> r[1] == Dec(Amount(s)) && r[2] == UnitWord(RecurrenceMagnitude(s)) + "_plural"
    ensures |r| == 2 ==> r[1] == UnitWord(RecurrenceMagnitude(s)) + "_singular"
  {
    var amount := Amount(s);
    var accord := if amount == 1 then "singular" else "plural";
    var magnitude := RecurrenceMagnitude(s);
    var prefix := (if IsFeminine(magnitude) then "every_fem_" else "every_masc_") + accord;
    var suffix := UnitWord(magnitude);
    if accord == "plural" then [prefix, Dec(amount), suffix + "_" + accord] else [prefix, suffix + "_" + accord]
  }

  /** The magnitude of each designator. */
  lemma {:induction false} MagnitudeOfUnits(a: string)
    requires |a| > 0 && AllDigits(a)
    ensures RecurrenceMagnitude("P" + a + "D") == Daily && RecurrenceMagnitude("P" + a + "W") == Weekly
    ensures RecurrenceMagnitude("P" + a + "M") == Monthly
    ensures RecurrenceMagnitude("PT" + a + "H") == Hourly && RecurrenceMagnitude("PT" + a + "M") == Minutely
  {
    DateShapeMatches(a, 'D');
    DateShapeMatches(a, 'W');
    DateShapeMatches(a, 'M');
    TimeShapeMatches(a, 'H');
    TimeShapeMatches(a, 'M');
  }

  /** A leading zero does not make an amount plural: `P01D` reads "every day". */
  lemma {:induction false} LeadingZeroSingular()
    ensures ToTranslatableStringArray("P01D", "en") == ["every_masc_singular", "days_singular"]
  {
    DateShapeMatches("01", 'D');
    assert "P" + "01" + ['D'] == "P01D";
    assert Amount("P01D") == 1 by { assert DigitsValue("01") == 1; }
    assert RecurrenceMagnitude("P01D") == Daily;
    assert "every_masc_" + "singular" == "every_masc_singular";
    assert "days" + "_" + "singular" == "days_singular";
  }
}
