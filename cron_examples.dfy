/**
 * Concrete expressions and fields from the cron test table, derived from
 * the general lemmas, and the `getValue` discrepancy.
 */
module CronExamples {
  import opened Wrappers
  import opened Text
  import opened JsNumber
  import opened CronGrammar
  import opened PeriodExpression
  import opened Cron
  import opened CronProperties
  import opened CronGenerated

  // ---------------------------------------------------------------- field grammar

  /** `a-b` is a range head when both ends are atoms. */
  lemma {:induction false} RangeHead(m: Mask, a: string, b: string)
    requires IsAtom(m, a) && IsAtom(m, b)
    ensures IsHead(m, a + "-" + b) && '/' !in a + "-" + b && ',' !in a + "-" + b
  {
    AtomSeparators(m, a);
    AtomSeparators(m, b);
    assert a + "-" + b == a + ['-'] + b;
    SplitTwo(a, '-', b);
  }

  /** `h/x` is a first term when `h` is a head and `x` an atom. */
  lemma {:induction false} SteppedFirstTerm(m: Mask, h: string, x: string)
    requires IsHead(m, h) && IsAtom(m, x)
    ensures IsFirstTerm(m, h + "/" + x)
  {
    HeadSeparators(m, h);
    AtomSeparators(m, x);
    assert h + "/" + x == h + ['/'] + x;
    SplitTwo(h, '/', x);
  }

  /** A field with no separators, no star and no exclusive form is valid only as a single atom. */
  lemma {:induction false} PlainAtomField(m: Mask, e: string)
    requires ',' !in e && '/' !in e && '-' !in e && '*' !in e
    ensures Validate(m, e) && !IsExclusive(m, e) ==> IsAtom(m, e)
  {
    SplitNoSeparator(e, ',');
    SplitNoSeparator(e, '/');
    SplitNoSeparator(e, '-');
  }

  /** `20-25`: a range head of two minute atoms. */
  lemma {:induction false} MinuteRange()
    ensures IsHead(MinutesMask, "20-25") && IsAtom(MinutesMask, "45") && IsAtom(MinutesMask, "50")
  {
    assert IsAtom(MinutesMask, "20") && IsAtom(MinutesMask, "25");
    RangeHead(MinutesMask, "20", "25");
    assert "20" + "-" + "25" == "20-25";
  }

  /** A range step is refused in the first term: `20-25/45-50`. */
  lemma {:induction false} RangeStepFirstRange()
    ensures !Validate(MinutesMask, "20-25/45-50")
  {
    MinuteRange();
    FirstTermRejectsRangeStep(MinutesMask, "20-25", "45", "50");
    assert "20-25" + "/" + "45" + "-" + "50" == "20-25/45-50";
  }

  /** A range step is refused after a leading star: `*` stepped by `30-35`. */
  lemma {:induction false} RangeStepFirstStar()
    ensures !Validate(MinutesMask, "*/30-35")
  {
    assert IsAtom(MinutesMask, "30") && IsAtom(MinutesMask, "35");
    FirstTermRejectsRangeStep(MinutesMask, "*", "30", "35");
    assert "*" + "/" + "30" + "-" + "35" == "*/30-35";
  }

  /** The same range step is accepted after a comma: `20-25/45,20-25/45-50`. */
  lemma {:induction false} RangeStepLater()
    ensures Validate(MinutesMask, "20-25/45" + "," + "20-25" + "/" + "45" + "-" + "50")
  {
    MinuteRange();
    SteppedFirstTerm(MinutesMask, "20-25", "45");
    assert "20-25" + "/" + "45" == "20-25/45";
    LaterTermAcceptsRangeStep(MinutesMask, "20-25/45", "20-25", "45", "50");
  }

  /** Out-of-range numbers: minute 60 and hour 24. */
  lemma {:induction false} OutOfRange()
    ensures !Validate(MinutesMask, "60") && !Validate(HoursMask, "24") && Validate(HoursMask, "23")
  {
    assert Dec(60) == "60" && Dec(24) == "24" && Dec(23) == "23";
    DecimalField(MinutesMask, 60);
    DecimalField(HoursMask, 24);
    DecimalField(HoursMask, 23);
  }

  /** The sixth occurrence and the eighth weekday do not exist; the third Monday and the last Monday do. */
  lemma {:induction false} WeekdayForms()
    ensures !Validate(WeekdaysMask, "3#6") && !Validate(WeekdaysMask, "8L")
    ensures Validate(WeekdaysMask, "1#3") && Validate(WeekdaysMask, "1L")
  {
    PlainAtomField(WeekdaysMask, "3#6");
    PlainAtomField(WeekdaysMask, "8L");
    SingleAtom(WeekdaysMask, "1#3");
    SingleAtom(WeekdaysMask, "1L");
  }

  /** The exclusive forms exist only for the day fields. */
  lemma {:induction false} ExclusiveForms()
    ensures Validate(WeekdaysMask, "?") && Validate(MonthdaysMask, "L")
    ensures !Validate(HoursMask, "?") && !Validate(MonthsMask, "L")
  {
    PlainAtomField(HoursMask, "?");
    PlainAtomField(MonthsMask, "L");
  }

  // ---------------------------------------------------------------- getRecurrence

  /** `1L` and `L` recur on the last day. */
  lemma {:induction false} RecurrenceLast()
    ensures GetRecurrence("1L") == Some("L") && GetRecurrence("L") == Some("L")
  {
    RecurrenceWithoutDelimiter("1L");
    assert "1L"[1] == 'L';
    RecurrenceWithoutDelimiter("L");
    assert "L"[0] == 'L';
  }

  /** `1#3` recurs on the third occurrence. */
  lemma {:induction false} RecurrenceOccurrence()
    ensures GetRecurrence("1#3") == Some("3")
  {
    RecurrenceAfterLastDelimiter("1#3", 1);
    assert "1#3"[2..] == "3";
  }

  /** A star or a number stepped by `22` or `12` recurs with that step. */
  lemma {:induction false} RecurrenceSteps()
    ensures GetRecurrence("*/22") == Some("22") && GetRecurrence("2/12") == Some("12")
  {
    RecurrenceAfterLastDelimiter("*/22", 1);
    assert "*/22"[2..] == "22";
    RecurrenceAfterLastDelimiter("2/12", 1);
    assert "2/12"[2..] == "12";
  }

  /** A range has no recurrence, and neither has a step left empty. */
  lemma {:induction false} RecurrenceAbsent()
    ensures GetRecurrence("1-5") == None && GetRecurrence("1/") == None
  {
    RecurrenceWithoutDelimiter("1-5");
    RecurrenceAfterLastDelimiter("1/", 1);
  }

  // ---------------------------------------------------------------- getValue

  // getValue as written keeps the step and the occurrence: 1/22 gives 1/22, and a starred step gives the slash and the step.
  lemma {:induction false} ValueAsWritten()
    ensures GetValue("1/22") == Some("1/22") && GetValue("*/22") == Some("/22")
    ensures GetValue("2#3") == Some("2#3") && GetValue("*") == None
  {
    ValueWithoutStars("1/22");
    ValueWithoutStars("2#3");
    assert FirstNonStar("*/22") == 1;
    assert StarFreeEnd("*/22", 1) == 4;
    assert "*/22"[1..4] == "/22";
  }

  /**
   * Editing a generated monthly expression: the weekly recurrence that the
   * dialog reads as the day of the week is `d#w` rather than `d`.
   */
  lemma {:induction false} MonthlyWeekdayValue(w: nat, d: nat)
    requires 1 <= w <= 4 && 1 <= d <= 7
    ensures WellFormed(Generated("0", "0", Dec(d) + "#" + Dec(w)))
    ensures WeeklyRecurrence(Generated("0", "0", Dec(d) + "#" + Dec(w))) == Some(Dec(d) + "#" + Dec(w))
    ensures WeeklyRecurrence(Generated("0", "0", Dec(d) + "#" + Dec(w))) != Some(Dec(d))
  {
    var wd := Dec(d) + "#" + Dec(w);
    GeneratedWellFormed("0", "0", wd);
    GeneratedFields("0", "0", wd);
    NthWeekday(d, w);
    DecimalNoMarkers(d);
    DecimalNoMarkers(w);
    ValueWithoutStars(wd);
  }

  /** With the intended value, the dialog reads back the day the monthly generator was given. */
  lemma {:induction false} MonthlyWeekdayIntended(w: nat, d: nat)
    requires 1 <= w <= 5 && 1 <= d <= 7
    ensures var wd := if w == 5 then Dec(d) + "L" else Dec(d) + "#" + Dec(w);
      IntendedValue(wd) == Some(Dec(d))
  {
    var wd := if w == 5 then Dec(d) + "L" else Dec(d) + "#" + Dec(w);
    assert |Dec(d)| == 1 && IsDigit(Dec(d)[0]);
    assert wd[0] == Dec(d)[0] && (wd[1] == 'L' || wd[1] == '#');
    IntendedValueOfLeadingRun(wd, 1);
    assert wd[..1] == Dec(d);
  }

  // ---------------------------------------------------------------- whole expressions

  /** Seconds other than zero rule out the UI, as in `3 30 16 * * *` and `* 30 16 * * *`. */
  lemma {:induction false} NonZeroSecondsNotUi(c: Cron)
    requires WellFormed(c)
    requires Get(c, Seconds).Some? && !StartsWith(Expr(Get(c, Seconds).value), "0")
    ensures !IsUiSupported(c)
  {
  }
}
