/**
 * What the cron model guarantees: the arrangement chosen by the number of
 * parts, the serialisation round trip, the meaning of `getRecurrence`, the
 * shape of a UI-supported expression and the expressions the generators
 * build.
 */
module CronProperties {
  import opened Wrappers
  import opened Text
  import opened JsNumber
  import opened CronGrammar
  import opened PeriodExpression
  import opened Cron

  // ---------------------------------------------------------------- parsing

  /** Parsing always yields a well-formed expression. */
  lemma {:induction false} ParseWellFormed(s: string)
    ensures Parse(s).Ok? ==> WellFormed(Parse(s).value)
  {
  }

  /** In a well-formed expression, looking a field's position up finds that field. */
  lemma {:induction false} GetAt(c: Cron, i: nat)
    requires WellFormed(c) && i < |c.fields|
    ensures Get(c, c.fields[i].position) == Some(c.fields[i])
    decreases i
  {
    if i > 0 {
      assert c.fields[0].position != c.fields[i].position;
      var t := Cron(c.fields[1..]);
      assert t.fields[i - 1] == c.fields[i];
      assert WellFormed(t) by {
        forall j | 0 <= j < |t.fields| ensures t.fields[j] == c.fields[j + 1] { }
      }
      GetAt(t, i - 1);
    }
  }

  /** Five parts: the Unix arrangement, with no seconds and no years. */
  lemma {:induction false} UnixParse(s: string)
    requires |Split(s, ' ')| == 5
    ensures Parse(s).Ok? && |Parse(s).value.fields| == 5
    ensures Get(Parse(s).value, Seconds).None? && Get(Parse(s).value, Years).None?
  {
    var c := Parse(s).value;
    assert forall i :: 0 <= i < |c.fields| ==> c.fields[i].position == UnixArrangement[i];
  }

  /** Six parts: the Quartz arrangement with the years present but undefined. */
  lemma {:induction false} ShortQuartzParse(s: string)
    requires |Split(s, ' ')| == 6
    ensures Parse(s).Ok? && |Parse(s).value.fields| == 7
    ensures Get(Parse(s).value, Years) == Some(CronField(None, YearsMask, Years))
  {
    var c := Parse(s).value;
    ParseWellFormed(s);
    GetAt(c, 6);
  }

  /** Seven parts: the Quartz arrangement with the years taken from the last part. */
  lemma {:induction false} FullQuartzParse(s: string)
    requires |Split(s, ' ')| == 7
    ensures Parse(s).Ok? && |Parse(s).value.fields| == 7
    ensures Get(Parse(s).value, Years) == Some(CronField(Some(Split(s, ' ')[6]), YearsMask, Years))
  {
    var c := Parse(s).value;
    ParseWellFormed(s);
    GetAt(c, 6);
  }

  /**
   * `toCronExpression` after `parse` gives back the text up to trailing
   * white space: a missing year joins as an empty part and the extra
   * space it leaves is trimmed.
   */
  lemma {:induction false} RoundTrip(s: string)
    requires 5 <= |Split(s, ' ')| <= 7
    ensures Parse(s).Ok? && ToCronExpression(Parse(s).value) == TrimEnd(s)
  {
    var parts := Split(s, ' ');
    var c := Parse(s).value;
    var texts := seq(|c.fields|, i requires 0 <= i < |c.fields| => JoinText(c.fields[i]));
    JoinSplit(s, ' ');
    if |parts| == 6 {
      assert texts == parts + [""];
      JoinAppendEmpty(parts, " ");
      TrimEndSpace(s);
    } else {
      assert texts == parts;
    }
  }

  /** Without trailing white space the round trip is exact. */
  lemma {:induction false} ExactRoundTrip(s: string)
    requires 5 <= |Split(s, ' ')| <= 7
    requires |s| == 0 || !IsJsWhitespace(s[|s| - 1])
    ensures Parse(s).Ok? && ToCronExpression(Parse(s).value) == s
  {
    RoundTrip(s);
    TrimEndKeeps(s);
  }

  // ---------------------------------------------------------------- getRecurrence

  /** Without line terminators and delimiters the recurrence is `L` exactly when the text holds one. */
  lemma {:induction false} RecurrenceFromPlain(e: string, p: nat)
    requires p <= |e|
    requires forall k :: 0 <= k < |e| ==> !IsDelimiter(e[k]) && !IsLineTerminator(e[k])
    ensures RecurrenceFrom(e, p) == if 'L' in e[p..] then Some("L") else None
    decreases |e| - p
  {
    if p < |e| {
      assert e[p..] == [e[p]] + e[p + 1..];
      RecurrenceFromPlain(e, p + 1);
    }
  }

  lemma {:induction false} RecurrenceWithoutDelimiter(e: string)
    requires forall k :: 0 <= k < |e| ==> !IsDelimiter(e[k]) && !IsLineTerminator(e[k])
    ensures GetRecurrence(e) == if 'L' in e then Some("L") else None
  {
    RecurrenceFromPlain(e, 0);
    assert e[0..] == e;
  }

  /** On one line, the recurrence is the text after the last `/`, `|` or `#`, undefined when that is empty. */
  lemma {:induction false} RecurrenceAfterLastDelimiter(e: string, k: nat)
    requires forall j :: 0 <= j < |e| ==> !IsLineTerminator(e[j])
    requires k < |e| && IsDelimiter(e[k])
    requires forall j :: k < j < |e| ==> !IsDelimiter(e[j])
    ensures GetRecurrence(e) == if k + 1 == |e| then None else Some(e[k + 1..])
  {
    var q := LineEnd(e, 0);
    assert q == |e|;
    var d := LastDelimiter(e, 0, q);
    assert d.Some? && d.value == k;
    assert e[k + 1..q] == e[k + 1..];
    assert GetRecurrence(e) == RecurrenceFrom(e, 0);
  }

  /** A text without stars is its own value. */
  lemma {:induction false} ValueWithoutStars(e: string)
    requires |e| > 0 && '*' !in e
    ensures GetValue(e) == Some(e)
  {
    assert FirstNonStar(e) == 0;
    assert StarFreeEnd(e, 0) == |e|;
    assert e[0..|e|] == e;
  }

  // ---------------------------------------------------------------- isUiSupported

  /** The characters `Number` refuses include the cron separators and the star. */
  lemma {:induction false} NumericHasNoSeparators(e: string)
    ensures !IsNaN(e) ==> ',' !in e && '/' !in e && '*' !in e
  {
    NumberChars(e);
    if !IsNaN(e) {
      forall k | 0 <= k < |e| ensures e[k] != ',' && e[k] != '/' && e[k] != '*' {
        assert !ForeignToNumbers(e[k]);
      }
    }
  }

  /** A valid field without commas, slashes or stars in a mask without exclusive forms is a base atom or range. */
  lemma {:induction false} SingleHead(m: Mask, e: string)
    requires !HasExclusive(m) && Validate(m, e)
    requires ',' !in e && '/' !in e && '*' !in e
    ensures IsAtomOrRange(m, e)
  {
    SplitNoSeparator(e, ',');
    SplitNoSeparator(e, '/');
  }

  /** The two digit runs of a minutes or hours range, with the dash between them. */
  lemma {:induction false} RangeParts(m: Mask, e: string)
    requires m == MinutesMask || m == HoursMask
    requires IsAtomOrRange(m, e) && |Split(e, '-')| == 2
    ensures var p := Split(e, '-');
      e == p[0] + "-" + p[1] && |p[0]| > 0 && AllDigits(p[0]) && |p[1]| > 0 && AllDigits(p[1])
  {
    JoinSplit(e, '-');
  }

  /** A minutes or hours range of two numbers is not a number. */
  lemma {:induction false} RangeIsNaN(m: Mask, e: string)
    requires m == MinutesMask || m == HoursMask
    ensures IsAtomOrRange(m, e) && |Split(e, '-')| == 2 ==> IsNaN(e)
  {
    if IsAtomOrRange(m, e) && |Split(e, '-')| == 2 {
      RangeParts(m, e);
      var p := Split(e, '-');
      DigitRangeIsNaN(p[0], p[1]);
    }
  }

  /** A minutes or hours atom or range that `Number` accepts is an atom. */
  lemma {:induction false} NumericAtomOrRange(m: Mask, e: string)
    requires m == MinutesMask || m == HoursMask
    requires IsAtomOrRange(m, e) && !IsNaN(e)
    ensures IsAtom(m, e)
  {
    RangeIsNaN(m, e);
    SplitCount(e, '-');
  }

  /** A valid minutes or hours field that `Number` accepts is a plain decimal number in the field's range. */
  lemma {:induction false} NumericFieldIsDecimal(m: Mask, e: string)
    requires m == MinutesMask || m == HoursMask
    requires Validate(m, e) && !IsNaN(e)
    ensures AllDigits(e) && e == Dec(DigitsValue(e)) && InRange(m, DigitsValue(e))
  {
    NumericHasNoSeparators(e);
    SingleHead(m, e);
    NumericAtomOrRange(m, e);
    AtomDigits(m, e);
    NumericAtom(m, e);
  }

  /**
   * A UI-supported expression has a plain minute in 0-59, an hour that is
   * either a plain number in 0-23 or a starred recurrence, wildcard month
   * days and months, and zero or absent seconds.
   */
  lemma {:induction false} UiSupportedShape(c: Cron)
    requires WellFormed(c) && IsUiSupported(c)
    ensures Get(c, Minutes).Some? && Get(c, Hours).Some? && Get(c, Monthdays).Some? && Get(c, Months).Some?
    ensures var e := Expr(Get(c, Minutes).value);
      AllDigits(e) && e == Dec(DigitsValue(e)) && DigitsValue(e) <= 59
    ensures var e := Expr(Get(c, Hours).value);
      (AllDigits(e) && e == Dec(DigitsValue(e)) && DigitsValue(e) <= 23)
      || (StartsWith(e, "*") && GetRecurrence(e).Some?)
    ensures StartsWith(Expr(Get(c, Monthdays).value), "*") && StartsWith(Expr(Get(c, Months).value), "*")
    ensures Get(c, Seconds).Some? ==> StartsWith(Expr(Get(c, Seconds).value), "0")
  {
    var mi := Get(c, Minutes).value;
    NumericFieldIsDecimal(MinutesMask, Expr(mi));
    var ho := Expr(Get(c, Hours).value);
    if IsPureNumeric(ho) {
      NumericFieldIsDecimal(HoursMask, ho);
    }
  }

  /** Being UI-supported includes being valid. */
  lemma {:induction false} UiSupportedIsValid(c: Cron)
    requires WellFormed(c)
    ensures IsUiSupported(c) ==> IsValid(c)
  {
  }
}
