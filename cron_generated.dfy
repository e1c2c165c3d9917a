/**
 * The expressions the scheduling dialog generates: each is a six-part
 * Quartz expression `0 m h * * wd` that is valid, UI-supported and has the
 * recurrence magnitude of the generator that built it.
 */
module CronGenerated {
  import opened Wrappers
  import opened Text
  import opened JsNumber
  import opened CronGrammar
  import opened PeriodExpression
  import opened Cron
  import opened CronProperties

  /** The words of a generated expression. */
  function Words(m: string, h: string, wd: string): seq<string> { ["0", m, h, "*", "*", wd] }

  lemma {:induction false} WordsJoin(m: string, h: string, wd: string)
    ensures Join(Words(m, h, wd), " ") == "0 " + m + " " + h + " * * " + wd
  {
    JoinSix("0", m, h, "*", "*", wd, " ");
    var sp := " ";
    assert "0" + sp == "0 ";
    assert sp + "*" + sp + "*" + sp == " * * ";
    assert "0" + sp + m + sp + h + sp + "*" + sp + "*" + sp + wd == "0 " + m + " " + h + " * * " + wd;
  }

  /** Six parts joined: each part, with the separator between neighbours. */
  lemma {:induction false} JoinSix(a: string, b: string, c: string, d: string, e: string, f: string, sep: string)
    ensures Join([a, b, c, d, e, f], sep) == a + sep + b + sep + c + sep + d + sep + e + sep + f
  {
    JoinFive(b, c, d, e, f, sep);
    JoinCons(a, [b, c, d, e, f], sep);
    assert [a, b, c, d, e, f] == [a] + [b, c, d, e, f];
  }

  lemma {:induction false} JoinFive(b: string, c: string, d: string, e: string, f: string, sep: string)
    ensures Join([b, c, d, e, f], sep) == b + sep + c + sep + d + sep + e + sep + f
  {
    JoinFour(c, d, e, f, sep);
    JoinCons(b, [c, d, e, f], sep);
    assert [b, c, d, e, f] == [b] + [c, d, e, f];
  }

  lemma {:induction false} JoinFour(c: string, d: string, e: string, f: string, sep: string)
    ensures Join([c, d, e, f], sep) == c + sep + d + sep + e + sep + f
  {
    JoinCons(e, [f], sep);
    assert [e, f] == [e] + [f];
    JoinCons(d, [e, f], sep);
    assert [d, e, f] == [d] + [e, f];
    JoinCons(c, [d, e, f], sep);
    assert [c, d, e, f] == [c] + [d, e, f];
  }

  /** Space-free minute, hour and weekday texts parse as a Quartz expression with those texts. */
  lemma {:induction false} WordsParse(m: string, h: string, wd: string)
    requires ' ' !in m && ' ' !in h && ' ' !in wd
    ensures |Split("0 " + m + " " + h + " * * " + wd, ' ')| == 6
    ensures Parse("0 " + m + " " + h + " * * " + wd) == Ok(ParseParts(QuartzArrangement, Words(m, h, wd)))
  {
    WordsJoin(m, h, wd);
    SplitJoin(Words(m, h, wd), ' ');
  }

  /** The generated expression as parsed: seconds `0`, minute, hour, two wildcards, weekday, no year. */
  function Generated(m: string, h: string, wd: string): Cron {
    Cron([CronField(Some("0"), SecondsMask, Seconds), CronField(Some(m), MinutesMask, Minutes),
          CronField(Some(h), HoursMask, Hours), CronField(Some("*"), MonthdaysMask, Monthdays),
          CronField(Some("*"), MonthsMask, Months), CronField(Some(wd), WeekdaysMask, Weekdays),
          CronField(None, YearsMask, Years)])
  }

  lemma {:induction false} GeneratedParse(m: string, h: string, wd: string)
    ensures ParseParts(QuartzArrangement, Words(m, h, wd)) == Generated(m, h, wd)
  {
  }

  lemma {:induction false} GeneratedWellFormed(m: string, h: string, wd: string)
    ensures WellFormed(Generated(m, h, wd))
  {
  }

  /** Looking the positions up in a generated expression. */
  lemma {:induction false} GeneratedFields(m: string, h: string, wd: string)
    ensures var c := Generated(m, h, wd);
      Get(c, Seconds) == Some(c.fields[0]) && Get(c, Minutes) == Some(c.fields[1])
      && Get(c, Hours) == Some(c.fields[2]) && Get(c, Monthdays) == Some(c.fields[3])
      && Get(c, Months) == Some(c.fields[4]) && Get(c, Weekdays) == Some(c.fields[5])
  {
    var c := Generated(m, h, wd);
    GeneratedWellFormed(m, h, wd);
    GetAt(c, 0); GetAt(c, 1); GetAt(c, 2); GetAt(c, 3); GetAt(c, 4); GetAt(c, 5);
  }

  /** `*` is a valid field for every mask. */
  lemma {:induction false} StarField(m: Mask)
    ensures Validate(m, "*")
  {
    SplitNoSeparator("*", ',');
    SplitNoSeparator("*", '/');
  }

  lemma {:induction false} ZeroSeconds()
    ensures Validate(SecondsMask, "0")
  {
    assert Dec(0) == "0";
    DecimalField(SecondsMask, 0);
  }

  /** `*` has neither a value nor a recurrence. */
  lemma {:induction false} StarQueries()
    ensures GetValue("*") == None && GetRecurrence("*") == None
  {
    RecurrenceWithoutDelimiter("*");
  }

  lemma {:induction false} DecimalNoMarkers(n: nat)
    ensures forall k :: 0 <= k < |Dec(n)| ==> !IsDelimiter(Dec(n)[k]) && !IsLineTerminator(Dec(n)[k])
    ensures 'L' !in Dec(n) && '*' !in Dec(n) && ' ' !in Dec(n)
  {
  }

  /** A plain number has no recurrence. */
  lemma {:induction false} DecimalRecurrence(n: nat)
    ensures GetRecurrence(Dec(n)) == None
  {
    DecimalNoMarkers(n);
    RecurrenceWithoutDelimiter(Dec(n));
  }

  /** A plain number's value is itself. */
  lemma {:induction false} DecimalValueOf(n: nat)
    ensures GetValue(Dec(n)) == Some(Dec(n))
  {
    DecimalNoMarkers(n);
    ValueWithoutStars(Dec(n));
  }

  /** `1-5`: the working days, valid, without recurrence, with itself as value. */
  lemma {:induction false} WorkingDays()
    ensures Validate(WeekdaysMask, "1-5")
    ensures GetRecurrence("1-5") == None && GetValue("1-5") == Some("1-5")
  {
    SplitNoSeparator("1-5", ',');
    SplitNoSeparator("1-5", '/');
    assert "1-5" == "1" + ['-'] + "5";
    SplitTwo("1", '-', "5");
    assert IsAtom(WeekdaysMask, "1") && IsAtom(WeekdaysMask, "5");
    RecurrenceWithoutDelimiter("1-5");
    ValueWithoutStars("1-5");
  }

  // A star stepped by an hour in range is valid and recurs every that many hours.
  lemma {:induction false} HourStep(n: nat)
    requires n <= 23
    ensures Validate(HoursMask, "*/" + Dec(n))
    ensures GetRecurrence("*/" + Dec(n)) == Some(Dec(n))
  {
    var e := "*/" + Dec(n);
    DecimalAtom(HoursMask, n);
    AtomSeparators(HoursMask, Dec(n));
    assert ',' !in e;
    SplitNoSeparator(e, ',');
    assert e == "*" + ['/'] + Dec(n);
    SplitTwo("*", '/', Dec(n));
    DecimalNoMarkers(n);
    RecurrenceAfterLastDelimiter(e, 1);
    assert e[2..] == Dec(n);
  }

  /** A plain number in range is a valid, numeric field. */
  lemma {:induction false} DecimalFieldNumeric(m: Mask, n: nat)
    requires InRange(m, n)
    ensures Validate(m, Dec(n)) && IsPureNumeric(Dec(n))
  {
    DecimalField(m, n);
    ParseDecimal(n);
  }

  /** `d#w`: the `w`-th weekday `d` of the month. */
  lemma {:induction false} NthWeekday(d: nat, w: nat)
    requires 1 <= d <= 7 && 1 <= w <= 4
    ensures Validate(WeekdaysMask, Dec(d) + "#" + Dec(w))
    ensures GetRecurrence(Dec(d) + "#" + Dec(w)) == Some(Dec(w))
    ensures ' ' !in Dec(d) + "#" + Dec(w)
  {
    var e := Dec(d) + "#" + Dec(w);
    assert |Dec(d)| == 1 && |Dec(w)| == 1;
    assert e == [Dec(d)[0], '#', Dec(w)[0]];
    SingleAtom(WeekdaysMask, e);
    DecimalNoMarkers(d);
    DecimalNoMarkers(w);
    RecurrenceAfterLastDelimiter(e, 1);
    assert e[2..] == Dec(w);
  }

  /** `dL`: the last weekday `d` of the month. */
  lemma {:induction false} LastWeekday(d: nat)
    requires 1 <= d <= 7
    ensures Validate(WeekdaysMask, Dec(d) + "L")
    ensures GetRecurrence(Dec(d) + "L") == Some("L")
    ensures ' ' !in Dec(d) + "L"
  {
    var e := Dec(d) + "L";
    assert |Dec(d)| == 1;
    assert e == [Dec(d)[0], 'L'];
    SingleAtom(WeekdaysMask, e);
    DecimalNoMarkers(d);
    RecurrenceWithoutDelimiter(e);
    assert e[1] == 'L';
  }

  /** A generated expression is valid exactly when its minute, hour and weekday are. */
  lemma {:induction false} GeneratedValid(m: string, h: string, wd: string)
    ensures IsValid(Generated(m, h, wd)) <==>
      Validate(MinutesMask, m) && Validate(HoursMask, h) && Validate(WeekdaysMask, wd)
  {
    var c := Generated(m, h, wd);
    ZeroSeconds();
    StarField(MonthdaysMask);
    StarField(MonthsMask);
    ValidOfSeven(c);
  }

  /** Validity of a seven-field expression, field by field. */
  lemma {:induction false} ValidOfSeven(c: Cron)
    requires |c.fields| == 7
    ensures IsValid(c) == (FieldIsValid(c.fields[0]) && FieldIsValid(c.fields[1]) && FieldIsValid(c.fields[2])
      && FieldIsValid(c.fields[3]) && FieldIsValid(c.fields[4]) && FieldIsValid(c.fields[5])
      && FieldIsValid(c.fields[6]))
  {
    if FieldIsValid(c.fields[0]) && FieldIsValid(c.fields[1]) && FieldIsValid(c.fields[2])
      && FieldIsValid(c.fields[3]) && FieldIsValid(c.fields[4]) && FieldIsValid(c.fields[5])
      && FieldIsValid(c.fields[6])
    {
      forall i | 0 <= i < 7 ensures FieldIsValid(c.fields[i]) {
        assert i == 0 || i == 1 || i == 2 || i == 3 || i == 4 || i == 5 || i == 6;
      }
    }
  }

  /**
   * A generated expression is UI-supported exactly when it is valid, its
   * minute is numeric, and its hour is numeric or a starred recurrence.
   */
  lemma {:induction false} GeneratedUiSupported(m: string, h: string, wd: string)
    ensures WellFormed(Generated(m, h, wd))
    ensures IsUiSupported(Generated(m, h, wd)) <==>
      IsValid(Generated(m, h, wd)) && IsPureNumeric(m) && (IsPureNumeric(h) || (GetRecurrence(h).Some? && IsWildcard(h)))
  {
    GeneratedWellFormed(m, h, wd);
    GeneratedFields(m, h, wd);
    UiSupportedFromFields(Generated(m, h, wd), m, h);
  }

  /** `isUiSupported` read off the six defined fields of a Quartz expression. */
  lemma {:induction false} UiSupportedFromFields(c: Cron, m: string, h: string)
    requires WellFormed(c)
    requires Get(c, Seconds) == Some(CronField(Some("0"), SecondsMask, Seconds))
    requires Get(c, Minutes) == Some(CronField(Some(m), MinutesMask, Minutes))
    requires Get(c, Hours) == Some(CronField(Some(h), HoursMask, Hours))
    requires Get(c, Monthdays) == Some(CronField(Some("*"), MonthdaysMask, Monthdays))
    requires Get(c, Months) == Some(CronField(Some("*"), MonthsMask, Months))
    ensures IsUiSupported(c) <==>
      IsValid(c) && IsPureNumeric(m) && (IsPureNumeric(h) || (GetRecurrence(h).Some? && IsWildcard(h)))
  {
  }

  /**
   * The magnitude of a generated expression: monthly when the weekday
   * recurs, else hourly when the hour recurs, else weekly when the weekday
   * has a value other than the working days, else daily.
   */
  lemma {:induction false} GeneratedMagnitude(m: string, h: string, wd: string)
    ensures WellFormed(Generated(m, h, wd))
    ensures IsOnlyOnWeekdays(Generated(m, h, wd)) == (wd == "1-5")
    ensures RecurrenceMagnitude(Generated(m, h, wd)) ==
      if GetRecurrence(wd).Some? then Monthly
      else if GetRecurrence(h).Some? then Hourly
      else if GetValue(wd).Some? && wd != "1-5" then Weekly
      else Daily
  {
    GeneratedWellFormed(m, h, wd);
    GeneratedFields(m, h, wd);
  }

  // ---------------------------------------------------------------- the generators

  /** What a generated expression promises: six Quartz parts, handled, UI-supported, of the given magnitude. */
  predicate Promises(s: string, m: string, h: string, wd: string, magnitude: Magnitude) {
    |Split(s, ' ')| == 6
    && Parse(s) == Ok(Generated(m, h, wd))
    && CanHandleExpression(s)
    && WellFormed(Generated(m, h, wd))
    && IsUiSupported(Generated(m, h, wd))
    && RecurrenceMagnitude(Generated(m, h, wd)) == magnitude
  }

  /** The common part of the four generator proofs. */
  lemma {:induction false} Promised(m: string, h: string, wd: string, magnitude: Magnitude)
    requires ' ' !in m && ' ' !in h && ' ' !in wd
    requires Validate(MinutesMask, m) && Validate(HoursMask, h) && Validate(WeekdaysMask, wd)
    requires IsPureNumeric(m) && (IsPureNumeric(h) || (GetRecurrence(h).Some? && IsWildcard(h)))
    requires magnitude ==
      if GetRecurrence(wd).Some? then Monthly
      else if GetRecurrence(h).Some? then Hourly
      else if GetValue(wd).Some? && wd != "1-5" then Weekly
      else Daily
    ensures Promises("0 " + m + " " + h + " * * " + wd, m, h, wd, magnitude)
  {
    WordsParse(m, h, wd);
    GeneratedParse(m, h, wd);
    GeneratedValid(m, h, wd);
    GeneratedUiSupported(m, h, wd);
    GeneratedMagnitude(m, h, wd);
  }

  /** The weekday fields of the hourly and daily generators: every day or the working days. */
  lemma {:induction false} DailyWeekdays(wd: string)
    requires wd == "1-5" || wd == "*"
    ensures ' ' !in wd && Validate(WeekdaysMask, wd) && GetRecurrence(wd) == None
    ensures (GetValue(wd).Some? && wd != "1-5") == false
  {
    WorkingDays();
    StarField(WeekdaysMask);
    StarQueries();
  }

  /** A numeric minute or hour in range. */
  lemma {:induction false} PlainField(m: Mask, n: nat)
    requires InRange(m, n)
    ensures ' ' !in Dec(n) && Validate(m, Dec(n)) && IsPureNumeric(Dec(n)) && GetRecurrence(Dec(n)) == None
  {
    DecimalFieldNumeric(m, n);
    DecimalNoMarkers(n);
    DecimalRecurrence(n);
  }

  /** A starred hour step. */
  lemma {:induction false} StepField(h: nat)
    requires h <= 23
    ensures ' ' !in "*/" + Dec(h) && Validate(HoursMask, "*/" + Dec(h))
    ensures GetRecurrence("*/" + Dec(h)) == Some(Dec(h)) && IsWildcard("*/" + Dec(h))
  {
    HourStep(h);
    DecimalNoMarkers(h);
  }

  /** The text of the hourly generator in the common shape. */
  lemma {:induction false} HourlyText(h: string, m: string, onlyWorkingDays: bool)
    ensures GenerateHourlyCronExpression(h, m, onlyWorkingDays)
      == "0 " + m + " " + ("*/" + h) + " * * " + (if onlyWorkingDays then "1-5" else "*")
  {
    if onlyWorkingDays {
      assert " */" == " " + "*/";
      assert " * * 1-5" == " * * " + "1-5";
    } else {
      assert " */" == " " + "*/";
      assert " * * *" == " * * " + "*";
    }
  }

  /** The text of the daily generator in the common shape. */
  lemma {:induction false} DailyText(h: string, m: string, onlyWorkingDays: bool)
    ensures GenerateDailyCronExpression(h, m, onlyWorkingDays)
      == "0 " + m + " " + h + " * * " + (if onlyWorkingDays then "1-5" else "*")
  {
    if onlyWorkingDays {
      assert " * * 1-5" == " * * " + "1-5";
    } else {
      assert " * * *" == " * * " + "*";
    }
  }

  /** The text of the monthly generator in the common shape. */
  lemma {:induction false} MonthlyText(w: string, d: string, h: string, m: string)
    ensures GenerateMonthlyCronExpression(w, d, h, m)
      == "0 " + m + " " + h + " * * " + (if w == "5" then d + "L" else d + "#" + w)
  {
  }

  /** Every `h` hours at minute `m`, optionally on working days only. */
  lemma {:induction false} HourlyExpression(h: nat, m: nat, onlyWorkingDays: bool)
    requires h <= 23 && m <= 59
    ensures var wd := if onlyWorkingDays then "1-5" else "*";
      Promises(GenerateHourlyCronExpression(Dec(h), Dec(m), onlyWorkingDays), Dec(m), "*/" + Dec(h), wd, Hourly)
      && IsOnlyOnWeekdays(Generated(Dec(m), "*/" + Dec(h), wd)) == onlyWorkingDays
  {
    var wd := if onlyWorkingDays then "1-5" else "*";
    PlainField(MinutesMask, m);
    StepField(h);
    DailyWeekdays(wd);
    HourlyText(Dec(h), Dec(m), onlyWorkingDays);
    Promised(Dec(m), "*/" + Dec(h), wd, Hourly);
    GeneratedMagnitude(Dec(m), "*/" + Dec(h), wd);
  }

  /** Every day at `h:m`, optionally on working days only. */
  lemma {:induction false} DailyExpression(h: nat, m: nat, onlyWorkingDays: bool)
    requires h <= 23 && m <= 59
    ensures var wd := if onlyWorkingDays then "1-5" else "*";
      Promises(GenerateDailyCronExpression(Dec(h), Dec(m), onlyWorkingDays), Dec(m), Dec(h), wd, Daily)
      && IsOnlyOnWeekdays(Generated(Dec(m), Dec(h), wd)) == onlyWorkingDays
  {
    var wd := if onlyWorkingDays then "1-5" else "*";
    PlainField(MinutesMask, m);
    PlainField(HoursMask, h);
    DailyWeekdays(wd);
    DailyText(Dec(h), Dec(m), onlyWorkingDays);
    Promised(Dec(m), Dec(h), wd, Daily);
    GeneratedMagnitude(Dec(m), Dec(h), wd);
  }

  /** The weekday field of the weekly generator: a single day with itself as value and no recurrence. */
  lemma {:induction false} WeeklyWeekday(d: nat)
    requires 1 <= d <= 7
    ensures ' ' !in Dec(d) && Validate(WeekdaysMask, Dec(d)) && GetRecurrence(Dec(d)) == None
    ensures GetValue(Dec(d)) == Some(Dec(d)) && Dec(d) != "1-5"
  {
    PlainField(WeekdaysMask, d);
    DecimalValueOf(d);
    assert |Dec(d)| == 1;
  }

  /** Every week on day `d` at `h:m`. */
  lemma {:induction false} WeeklyExpression(d: nat, h: nat, m: nat)
    requires 1 <= d <= 7 && h <= 23 && m <= 59
    ensures Promises(GenerateWeeklyCronExpression(Dec(d), Dec(h), Dec(m)), Dec(m), Dec(h), Dec(d), Weekly)
    ensures WeeklyRecurrence(Generated(Dec(m), Dec(h), Dec(d))) == Some(Dec(d))
  {
    PlainField(MinutesMask, m);
    PlainField(HoursMask, h);
    WeeklyWeekday(d);
    Promised(Dec(m), Dec(h), Dec(d), Weekly);
    GeneratedWellFormed(Dec(m), Dec(h), Dec(d));
    GeneratedFields(Dec(m), Dec(h), Dec(d));
  }

  /** The weekday field of the monthly generator: `dL` for week 5, `d#w` otherwise. */
  lemma {:induction false} MonthlyWeekday(w: nat, d: nat)
    requires 1 <= w <= 5 && 1 <= d <= 7
    ensures var wd := if Dec(w) == "5" then Dec(d) + "L" else Dec(d) + "#" + Dec(w);
      (Dec(w) == "5" <==> w == 5)
      && ' ' !in wd && Validate(WeekdaysMask, wd) && GetRecurrence(wd) == Some(if w == 5 then "L" else Dec(w))
  {
    if w == 5 {
      assert Dec(5) == "5";
      LastWeekday(d);
    } else {
      assert Dec(w) != "5" by { DigitsValueOfDec(w); assert DigitsValue("5") == 5; }
      NthWeekday(d, w);
    }
  }

  /** Every month on the `w`-th day `d` at `h:m`; week 5 stands for the last such day. */
  lemma {:induction false} MonthlyExpression(w: nat, d: nat, h: nat, m: nat)
    requires 1 <= w <= 5 && 1 <= d <= 7 && h <= 23 && m <= 59
    ensures var wd := if w == 5 then Dec(d) + "L" else Dec(d) + "#" + Dec(w);
      Promises(GenerateMonthlyCronExpression(Dec(w), Dec(d), Dec(h), Dec(m)), Dec(m), Dec(h), wd, Monthly)
      && MonthlyRecurrence(Generated(Dec(m), Dec(h), wd)) == Some(if w == 5 then "L" else Dec(w))
  {
    var wd := if w == 5 then Dec(d) + "L" else Dec(d) + "#" + Dec(w);
    PlainField(MinutesMask, m);
    PlainField(HoursMask, h);
    MonthlyWeekday(w, d);
    MonthlyText(Dec(w), Dec(d), Dec(h), Dec(m));
    Promised(Dec(m), Dec(h), wd, Monthly);
    GeneratedWellFormed(Dec(m), Dec(h), wd);
    GeneratedFields(Dec(m), Dec(h), wd);
  }
}
