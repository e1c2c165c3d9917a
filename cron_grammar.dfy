/**
 * The cron field grammar of `CronFieldParser.validate` with the masks of
 * `WellKnownMasks`. The validating regular expression is read structurally:
 * comma-separated terms; each term a head (`*`, `B` or `B-B`) with an
 * optional `/` step; the first term's step is a single `B`, later terms'
 * steps may be `B-B`; the exclusive mask (`?` or `L`) matches the whole
 * field only. No base atom contains `,`, `/`, `-` or `*`, so splitting at
 * those characters finds exactly the boundaries the expression matches.
 */
module CronGrammar {
  import opened Text

  /** The validation masks of `WellKnownMasks`. */
  datatype Mask = SecondsMask | MinutesMask | HoursMask | MonthdaysMask | MonthsMask | WeekdaysMask | YearsMask

  /** A string matched by the mask's `base_mask`. */
  predicate IsAtom(m: Mask, s: string) {
    match m
    case SecondsMask => (|s| == 1 && IsDigit(s[0])) || (|s| == 2 && '1' <= s[0] <= '5' && IsDigit(s[1]))
    case MinutesMask => (|s| == 1 && IsDigit(s[0])) || (|s| == 2 && '1' <= s[0] <= '5' && IsDigit(s[1]))
    case HoursMask =>
      (|s| == 1 && IsDigit(s[0]))
      || (|s| == 2 && ((s[0] == '1' && IsDigit(s[1])) || (s[0] == '2' && '0' <= s[1] <= '3')))
    case MonthdaysMask =>
      (|s| == 1 && '1' <= s[0] <= '9')
      || (|s| == 2 && (((s[0] == '1' || s[0] == '2') && IsDigit(s[1])) || (s[0] == '3' && '0' <= s[1] <= '1')))
    case MonthsMask => (|s| == 1 && '1' <= s[0] <= '9') || (|s| == 2 && s[0] == '1' && '0' <= s[1] <= '2')
    case WeekdaysMask =>
      |s| >= 1 && '1' <= s[0] <= '7'
      && (|s| == 1 || (|s| == 2 && s[1] == 'L') || (|s| == 3 && s[1] == '#' && '1' <= s[2] <= '5'))
    case YearsMask => |s| >= 1 && AllDigits(s)
  }

  /** The masks that carry the `exclusive_mask` `\?|L`. */
  predicate HasExclusive(m: Mask) { m == WeekdaysMask || m == MonthdaysMask }

  predicate IsExclusive(m: Mask, s: string) { HasExclusive(m) && (s == "?" || s == "L") }

  /** `B` or `B-B`. */
  predicate IsAtomOrRange(m: Mask, s: string) {
    var p := Split(s, '-');
    (|p| == 1 && IsAtom(m, p[0])) || (|p| == 2 && IsAtom(m, p[0]) && IsAtom(m, p[1]))
  }

  /** `\*` or `B(-B)?`. */
  predicate IsHead(m: Mask, s: string) { s == "*" || IsAtomOrRange(m, s) }

  /** The first term: a head with an optional step that is a single `B`. */
  predicate IsFirstTerm(m: Mask, t: string) {
    var p := Split(t, '/');
    (|p| == 1 && IsHead(m, p[0])) || (|p| == 2 && IsHead(m, p[0]) && IsAtom(m, p[1]))
  }

  /** A term after a comma: a head with an optional step `B` or `B-B`. */
  predicate IsLaterTerm(m: Mask, t: string) {
    var p := Split(t, '/');
    (|p| == 1 && IsHead(m, p[0])) || (|p| == 2 && IsHead(m, p[0]) && IsAtomOrRange(m, p[1]))
  }

  /** `CronFieldParser.validate`: the whole field matches the mask's expression. */
  predicate Validate(m: Mask, s: string) {
    IsExclusive(m, s)
    || (var terms := Split(s, ',');
        IsFirstTerm(m, terms[0]) && forall k :: 1 <= k < |terms| ==> IsLaterTerm(m, terms[k]))
  }

  /** The values each mask admits as a plain number. */
  predicate InRange(m: Mask, n: nat) {
    match m
    case SecondsMask => n <= 59
    case MinutesMask => n <= 59
    case HoursMask => n <= 23
    case MonthdaysMask => 1 <= n <= 31
    case MonthsMask => 1 <= n <= 12
    case WeekdaysMask => 1 <= n <= 7
    case YearsMask => true
  }

  lemma {:induction false} DecTwoDigits(n: nat)
    requires 10 <= n < 100
    ensures Dec(n) == [DigitChar(n / 10), DigitChar(n % 10)]
  {
  }

  lemma {:induction false} DecLong(n: nat)
    requires n >= 100
    ensures |Dec(n)| >= 3
  {
    assert |Dec(n / 10)| >= 2;
  }

  /** A decimal number is a base atom of a mask exactly when it lies in the mask's range. */
  lemma {:induction false} DecimalAtom(m: Mask, n: nat)
    ensures IsAtom(m, Dec(n)) <==> InRange(m, n)
  {
    if n >= 100 {
      DecLong(n);
      if m == YearsMask { assert IsAtom(m, Dec(n)); }
    } else if n >= 10 {
      DecTwoDigits(n);
    }
  }

  /** Characters that can occur in a base atom of `m`. */
  predicate AtomChar(m: Mask, c: char) { IsDigit(c) || (m == WeekdaysMask && (c == '#' || c == 'L')) }

  /** Characters that can occur in a non-exclusive valid field of `m`. */
  predicate FieldChar(m: Mask, c: char) { AtomChar(m, c) || c == '*' || c == ',' || c == '/' || c == '-' }

  /** Outside the weekdays, base atoms are digit runs. */
  lemma {:induction false} AtomDigits(m: Mask, s: string)
    requires IsAtom(m, s) && m != WeekdaysMask
    ensures |s| > 0 && AllDigits(s)
  {
  }

  lemma {:induction false} AtomChars(m: Mask, s: string)
    requires IsAtom(m, s)
    ensures forall k :: 0 <= k < |s| ==> AtomChar(m, s[k])
  {
  }

  lemma {:induction false} AtomOrRangeChars(m: Mask, s: string)
    requires IsAtomOrRange(m, s)
    ensures forall k :: 0 <= k < |s| ==> FieldChar(m, s[k]) && s[k] != ',' && s[k] != '/' && s[k] != '*'
  {
    var p := Split(s, '-');
    forall j | 0 <= j < |p| { AtomChars(m, p[j]); }
    SplitChars(s, '-', c => FieldChar(m, c) && c != ',' && c != '/' && c != '*');
  }

  lemma {:induction false} HeadChars(m: Mask, s: string)
    requires IsHead(m, s)
    ensures forall k :: 0 <= k < |s| ==> FieldChar(m, s[k]) && s[k] != ',' && s[k] != '/'
  {
    if s != "*" { AtomOrRangeChars(m, s); }
  }

  lemma {:induction false} TermChars(m: Mask, t: string)
    requires IsFirstTerm(m, t) || IsLaterTerm(m, t)
    ensures forall k :: 0 <= k < |t| ==> FieldChar(m, t[k]) && t[k] != ','
  {
    var p := Split(t, '/');
    HeadChars(m, p[0]);
    if |p| == 2 {
      if IsAtom(m, p[1]) { AtomChars(m, p[1]); } else { AtomOrRangeChars(m, p[1]); }
    }
    SplitChars(t, '/', c => FieldChar(m, c) && c != ',');
  }

  /**
   * A valid field is the exclusive `?` or `L`, or is made only of atom
   * characters and `*`, `,`, `/`, `-`. So `?` never occurs inside a longer
   * field, and `L` occurs in a longer field only as part of a weekday atom.
   */
  lemma {:induction false} ValidChars(m: Mask, s: string)
    requires Validate(m, s)
    ensures IsExclusive(m, s) || forall k :: 0 <= k < |s| ==> FieldChar(m, s[k])
  {
    if !IsExclusive(m, s) {
      var terms := Split(s, ',');
      forall j | 0 <= j < |terms| ensures forall k :: 0 <= k < |terms[j]| ==> FieldChar(m, terms[j][k]) {
        TermChars(m, terms[j]);
      }
      SplitChars(s, ',', c => FieldChar(m, c));
    }
  }

  /** `?` is accepted only as the whole field, and only by the weekday and month-day masks. */
  lemma {:induction false} QuestionMarkAlone(m: Mask, s: string, k: nat)
    requires Validate(m, s) && k < |s| && s[k] == '?'
    ensures s == "?" && HasExclusive(m)
  {
    ValidChars(m, s);
  }

  /** Outside the weekday mask, `L` is accepted only as the whole month-day field. */
  lemma {:induction false} LastAlone(m: Mask, s: string, k: nat)
    requires Validate(m, s) && k < |s| && s[k] == 'L' && m != WeekdaysMask
    ensures s == "L" && m == MonthdaysMask
  {
    ValidChars(m, s);
  }

  lemma {:induction false} SingleAtom(m: Mask, s: string)
    requires IsAtom(m, s)
    ensures Validate(m, s)
  {
    AtomChars(m, s);
    SplitNoSeparator(s, ',');
    SplitNoSeparator(s, '/');
    SplitNoSeparator(s, '-');
  }

  /** A plain decimal number is a valid field exactly when it lies in the mask's range. */
  lemma {:induction false} DecimalField(m: Mask, n: nat)
    ensures Validate(m, Dec(n)) <==> InRange(m, n)
  {
    var s := Dec(n);
    DecimalAtom(m, n);
    if InRange(m, n) {
      SingleAtom(m, s);
    } else {
      assert !IsExclusive(m, s) by { assert IsDigit(s[0]); }
      assert forall k :: 0 <= k < |s| ==> s[k] != ',' && s[k] != '/' && s[k] != '-' by {
        assert AllDigits(s);
      }
      SplitNoSeparator(s, ',');
      SplitNoSeparator(s, '/');
      SplitNoSeparator(s, '-');
    }
  }

  /** A digits-only base atom is the decimal rendering of a number in the mask's range. */
  lemma {:induction false} NumericAtom(m: Mask, s: string)
    requires IsAtom(m, s) && AllDigits(s) && m != YearsMask
    ensures s == Dec(DigitsValue(s)) && InRange(m, DigitsValue(s))
  {
    DecOfDigitsValue(s);
    DecimalAtom(m, DigitsValue(s));
  }

  lemma {:induction false} AtomSeparators(m: Mask, s: string)
    requires IsAtom(m, s)
    ensures ',' !in s && '/' !in s && '-' !in s && '*' !in s
  {
    AtomChars(m, s);
  }

  lemma {:induction false} HeadSeparators(m: Mask, s: string)
    requires IsHead(m, s)
    ensures ',' !in s && '/' !in s
  {
    HeadChars(m, s);
  }

  lemma {:induction false} NotAtomWithDash(m: Mask, s: string)
    requires '-' in s
    ensures !IsAtom(m, s)
  {
    if IsAtom(m, s) { AtomSeparators(m, s); }
  }

  lemma {:induction false} RangeStepTerm(m: Mask, s: string, h: string, step: string)
    requires Split(s, ',') == [s] && Split(s, '/') == [h, step] && !IsAtom(m, step) && '/' in s
    ensures !Validate(m, s)
  {
    assert !IsFirstTerm(m, s);
    assert s != "?" && s != "L";
  }

  /** The first term of a field rejects a range-valued step: `h/x-y` is invalid on its own. */
  lemma {:induction false} FirstTermRejectsRangeStep(m: Mask, h: string, x: string, y: string)
    requires IsHead(m, h) && IsAtom(m, x) && IsAtom(m, y)
    ensures !Validate(m, h + "/" + x + "-" + y)
  {
    var step := x + ['-'] + y;
    var s := h + ['/'] + step;
    assert h + "/" + x + "-" + y == s;
    HeadSeparators(m, h);
    AtomSeparators(m, x);
    AtomSeparators(m, y);
    assert ',' !in step && '/' !in step && '-' in step;
    assert ',' !in s && '/' in s;
    SplitNoSeparator(s, ',');
    SplitTwo(h, '/', step);
    NotAtomWithDash(m, step);
    RangeStepTerm(m, s, h, step);
  }

  /** After a comma the same range-valued step is accepted. */
  lemma {:induction false} LaterTermAcceptsRangeStep(m: Mask, first: string, h: string, x: string, y: string)
    requires IsFirstTerm(m, first) && IsHead(m, h) && IsAtom(m, x) && IsAtom(m, y)
    ensures Validate(m, first + "," + h + "/" + x + "-" + y)
  {
    var step := x + ['-'] + y;
    var later := h + ['/'] + step;
    var s := first + [','] + later;
    assert first + "," + h + "/" + x + "-" + y == s;
    TermSeparators(m, first);
    HeadSeparators(m, h);
    AtomSeparators(m, x);
    AtomSeparators(m, y);
    assert ',' !in step && '/' !in step;
    assert ',' !in later;
    SplitTwo(first, ',', later);
    SplitTwo(h, '/', step);
    SplitTwo(x, '-', y);
    assert IsAtomOrRange(m, step);
    assert IsLaterTerm(m, later);
  }

  lemma {:induction false} TermSeparators(m: Mask, t: string)
    requires IsFirstTerm(m, t) || IsLaterTerm(m, t)
    ensures ',' !in t
  {
    TermChars(m, t);
  }
}
