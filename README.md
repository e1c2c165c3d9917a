# OpenAEV recurrence engine and helpers, modelled in Dafny

OpenAEV schedules simulations with cron expressions and ISO 8601
durations. This project models the parts of the platform that read,
write and check those expressions:

- the front end's cron field grammar, parser and generators;
- the ISO 8601 period parser and the period expressions built from them;
- the back end's cron and period services;
- the scenario recurrence dates.

Around that core it models the string, colour, number and environment
helpers the screens rely on, the status and expectation helpers, the
security-coverage and kill-chain widget calculations, and the import
message and flow-handle helpers. It also models the back end's helpers
for executors, connector instance hashes and random elements, and its
domain, injector-contract and widget-configuration updates and inject
utilities.

The model is organised as follows:

- Each source file becomes one module.
- Pure code becomes datatypes, functions and lemmas.
- Code that loops over a collection becomes a `method` proved against a
  specification function.
- Services that update a repository become classes with a `modifies`
  clause.
- Shared definitions live in four modules:
  - `Wrappers` holds `Option` and `Result`;
  - `Text` holds strings, `Split`, `Join`, trimming and case mapping;
  - `JsNumber` holds JavaScript's `Number` on strings;
  - `Grouping` holds distinctness and grouping by key.

## Model

| member | source | states |
|---|---|---|
| Cron.GetValue | openaev-front/src/utils/period/Cron.ts:150-153 | undefined exactly when every character is `*`; otherwise a non-empty run free of `*` that starts after a prefix of stars and ends at a star or the end |
| Cron.IntendedValue | openaev-front/src/utils/period/Cron.ts:144-149 | the value the documentation describes: undefined exactly when only stars and the markers `/ \| # L` occur, otherwise a non-empty run free of both |
| Cron.IntendedValueOfLeadingRun | openaev-front/src/utils/period/Cron.ts:144-149 | a leading run ended by a star or marker is the intended value, so `1/22` gives `1` |
| Cron.RecurrenceFrom | openaev-front/src/utils/period/Cron.ts:183-186 | the search of `.*[\/\|#](.*)\|(L)` from a position never yields the empty string |
| Cron.GetRecurrence | openaev-front/src/utils/period/Cron.ts:183-186 | the recurrence is either undefined or non-empty |
| Cron.ParseParts | openaev-front/src/utils/period/Cron.ts:428-434 | one field per position of the arrangement, with that position's mask and the part at its index, undefined when parts run out |
| Cron.Parse | openaev-front/src/utils/period/Cron.ts:446-457 | five space-separated parts use the Unix arrangement, six or seven the Quartz arrangement, any other count is the illegal-number-of-parts error |
| Cron.Get | openaev-front/src/utils/period/Cron.ts:342-387 | the looked-up field is one of the expression's and sits at that position; none means no field has it; in a parsed expression it has the position's mask and, except for years, an expression |
| CronGrammar.DecimalAtom | openaev-front/src/utils/period/Cron.ts:83-103 | a decimal number is a base atom of a mask exactly when it is in the mask's range |
| CronGrammar.AtomDigits | openaev-front/src/utils/period/Cron.ts:83-103 | outside the weekdays every base atom is a non-empty digit run |
| CronGrammar.ValidChars | openaev-front/src/utils/period/Cron.ts:70-77 | a valid field is an exclusive form or is made only of atom characters and `* , / -` |
| CronGrammar.QuestionMarkAlone | openaev-front/src/utils/period/Cron.ts:90-98 | a `?` anywhere in a valid field means the field is exactly `?` and the mask is a day mask |
| CronGrammar.LastAlone | openaev-front/src/utils/period/Cron.ts:95-98 | outside the weekdays an `L` in a valid field means the field is `L` in the month-day mask |
| CronGrammar.SingleAtom | openaev-front/src/utils/period/Cron.ts:70-77 | a single base atom is a valid field |
| CronGrammar.DecimalField | openaev-front/src/utils/period/Cron.ts:70-103 | a plain decimal number is a valid field exactly when it is in the mask's range (minute 60 and hour 24 are refused) |
| CronGrammar.NumericAtom | openaev-front/src/utils/period/Cron.ts:84-100 | a digits-only base atom is the canonical decimal of a number in range |
| CronGrammar.AtomSeparators | openaev-front/src/utils/period/Cron.ts:83-103 | base atoms hold none of `, / - *` |
| CronGrammar.NotAtomWithDash | openaev-front/src/utils/period/Cron.ts:83-103 | a text with a dash is never a base atom |
| CronGrammar.RangeStepTerm | openaev-front/src/utils/period/Cron.ts:70-77 | a lone term whose step is not an atom is invalid |
| CronGrammar.FirstTermRejectsRangeStep | openaev-front/src/utils/period/Cron.ts:70-77 | `h/x-y` on its own is invalid for every head `h` and atoms `x`, `y` |
| CronGrammar.LaterTermAcceptsRangeStep | openaev-front/src/utils/period/Cron.ts:70-77 | the same `h/x-y` is valid after a comma |
| CronGrammar.TermSeparators | openaev-front/src/utils/period/Cron.ts:70-77 | a term of a field holds no comma |
| CronProperties.ParseWellFormed | openaev-front/src/utils/period/Cron.ts:428-457 | every successful parse is well formed: distinct positions, each with its own mask, only the year possibly undefined |
| CronProperties.GetAt | openaev-front/src/utils/period/Cron.ts:342-387 | in a well-formed expression, looking up a field's position finds that field |
| CronProperties.UnixParse | openaev-front/src/utils/period/Cron.ts:446-450 | five parts give five fields, with neither seconds nor years |
| CronProperties.ShortQuartzParse | openaev-front/src/utils/period/Cron.ts:451-453 | six parts give seven fields, and the year field is present but undefined |
| CronProperties.FullQuartzParse | openaev-front/src/utils/period/Cron.ts:451-453 | seven parts give seven fields, and the year is the seventh part |
| CronProperties.RoundTrip | openaev-front/src/__tests__/utils/Cron.test.tsx:143-145 | `toCronExpression(parse(s))` is `s` without its trailing white space, for 5 to 7 parts |
| CronProperties.ExactRoundTrip | openaev-front/src/__tests__/utils/Cron.test.tsx:143-145 | without trailing white space the round trip gives back `s` itself |
| CronProperties.RecurrenceFromPlain | openaev-front/src/utils/period/Cron.ts:183-186 | without delimiters or line ends, the search from a position gives `L` exactly when an `L` follows |
| CronProperties.RecurrenceWithoutDelimiter | openaev-front/src/utils/period/Cron.ts:183-186 | without delimiters or line ends, the recurrence is `L` exactly when the field holds an `L`, else undefined |
| CronProperties.RecurrenceAfterLastDelimiter | openaev-front/src/utils/period/Cron.ts:183-186 | on one line the recurrence is the text after the last `/ \| #`, undefined when that text is empty |
| CronProperties.ValueWithoutStars | openaev-front/src/utils/period/Cron.ts:150-153 | a non-empty field without stars is its own value |
| CronProperties.NumericHasNoSeparators | openaev-front/src/utils/period/Cron.ts:216-218 | a field `Number` accepts holds no `,`, `/` or `*` |
| CronProperties.SingleHead | openaev-front/src/utils/period/Cron.ts:70-77 | a valid field without `, / *` in a mask without exclusive forms is an atom or a range |
| CronProperties.RangeParts | openaev-front/src/utils/period/Cron.ts:70-88 | a minutes or hours range is two non-empty digit runs around a dash |
| CronProperties.RangeIsNaN | openaev-front/src/utils/period/Cron.ts:216-218 | such a range is not a number |
| CronProperties.NumericAtomOrRange | openaev-front/src/utils/period/Cron.ts:216-218 | a minutes or hours atom or range that `Number` accepts is an atom |
| CronProperties.NumericFieldIsDecimal | openaev-front/src/utils/period/Cron.ts:216-218 | a valid minutes or hours field that `Number` accepts is a canonical decimal number in range |
| CronProperties.UiSupportedShape | openaev-front/src/utils/period/Cron.ts:261-271 | a UI-supported expression has a minute in 0-59; an hour in 0-23 or a starred recurrence; starred month days and months; and zero or absent seconds |
| CronProperties.UiSupportedIsValid | openaev-front/src/utils/period/Cron.ts:261-263 | every UI-supported expression is valid |
| CronGenerated.WordsJoin | openaev-front/src/utils/period/Cron.ts:5-28 | the six generated words joined by spaces are the generators' text |
| CronGenerated.WordsParse | openaev-front/src/utils/period/Cron.ts:446-453 | a generated text has six parts and parses to the Quartz fields of its words |
| CronGenerated.GeneratedParse | openaev-front/src/utils/period/Cron.ts:428-434 | parsing the words gives seconds `0`, minutes, hours, `*`, `*`, weekdays and an undefined year |
| CronGenerated.GeneratedWellFormed | openaev-front/src/utils/period/Cron.ts:428-457 | the generated expression is well formed |
| CronGenerated.GeneratedFields | openaev-front/src/utils/period/Cron.ts:342-387 | each position of the generated expression finds its own field |
| CronGenerated.StarField | openaev-front/src/utils/period/Cron.ts:70-77 | `*` is valid in every mask |
| CronGenerated.ZeroSeconds | openaev-front/src/utils/period/Cron.ts:84 | `0` is a valid seconds field |
| CronGenerated.StarQueries | openaev-front/src/utils/period/Cron.ts:150-186 | `*` has neither value nor recurrence |
| CronGenerated.DecimalNoMarkers | openaev-front/src/utils/period/Cron.ts:183-186 | a decimal number holds no delimiter, line end, `L`, star or space |
| CronGenerated.DecimalRecurrence | openaev-front/src/utils/period/Cron.ts:183-186 | a decimal number has no recurrence |
| CronGenerated.DecimalValueOf | openaev-front/src/utils/period/Cron.ts:150-153 | a decimal number is its own value |
| CronGenerated.WorkingDays | openaev-front/src/utils/period/Cron.ts:90-109 | `1-5` is a valid weekday field, with no recurrence and value `1-5` |
| CronGenerated.HourStep | openaev-front/src/utils/period/Cron.ts:5-10 | `*/n` with n at most 23 is a valid hours field recurring every n |
| CronGenerated.DecimalFieldNumeric | openaev-front/src/utils/period/Cron.ts:216-218 | a number in range is a valid and purely numeric field |
| CronGenerated.NthWeekday | openaev-front/src/utils/period/Cron.ts:23-28 | `d#w`, for weekday 1-7 and week 1-4, is valid and recurs on `w` |
| CronGenerated.LastWeekday | openaev-front/src/utils/period/Cron.ts:23-28 | `dL` is valid and recurs on `L` |
| CronGenerated.GeneratedValid | openaev-front/src/utils/period/Cron.ts:255-259 | a generated expression is valid exactly when its minutes, hours and weekdays are |
| CronGenerated.ValidOfSeven | openaev-front/src/utils/period/Cron.ts:255-259 | a seven-field expression is valid exactly when each field is |
| CronGenerated.GeneratedUiSupported | openaev-front/src/utils/period/Cron.ts:261-271 | a generated expression is UI-supported exactly when it is valid; its minute is numeric; and its hour is numeric or a starred recurrence |
| CronGenerated.UiSupportedFromFields | openaev-front/src/utils/period/Cron.ts:261-271 | the same equivalence for any well-formed expression with seconds `0` and starred month days and months |
| CronGenerated.GeneratedMagnitude | openaev-front/src/utils/period/Cron.ts:292-338 | a generated expression is restricted to weekdays exactly when its weekdays are `1-5`. Its magnitude is: monthly with a weekday recurrence; else hourly with an hour recurrence; else weekly with a weekday value other than `1-5`; else daily |
| CronGenerated.Promised | openaev-front/src/utils/period/Cron.ts:5-28 | a generated text has six parts and parses to the generated fields. It can be handled, is well formed and UI-supported, and has the given magnitude |
| CronGenerated.DailyWeekdays | openaev-front/src/utils/period/Cron.ts:12-17 | `1-5` and `*` are valid weekday fields without recurrence that do not make the expression weekly |
| CronGenerated.PlainField | openaev-front/src/utils/period/Cron.ts:5-21 | a number in range is a valid, numeric field with no recurrence and no space |
| CronGenerated.StepField | openaev-front/src/utils/period/Cron.ts:5-10 | `*/h` is valid, starred, and recurs every `h` |
| CronGenerated.HourlyText | openaev-front/src/utils/period/Cron.ts:5-10 | the hourly text is `0 m */h * * 1-5` or `... * * *` |
| CronGenerated.DailyText | openaev-front/src/utils/period/Cron.ts:12-17 | the daily text is `0 m h * * 1-5` or `... * * *` |
| CronGenerated.MonthlyText | openaev-front/src/utils/period/Cron.ts:23-28 | the monthly text ends in `dL` for week 5 and `d#w` otherwise |
| CronGenerated.HourlyExpression | openaev-front/src/utils/period/Cron.ts:5-10 | every hourly expression, for h in 0-23 and m in 0-59, parses, is UI-supported, is hourly, and is restricted to weekdays exactly when asked |
| CronGenerated.DailyExpression | openaev-front/src/utils/period/Cron.ts:12-17 | every daily expression parses, is UI-supported, is daily, and is restricted to weekdays exactly when asked |
| CronGenerated.WeeklyWeekday | openaev-front/src/utils/period/Cron.ts:19-21 | a weekday 1-7 is valid, has no recurrence and is its own value |
| CronGenerated.WeeklyExpression | openaev-front/src/utils/period/Cron.ts:19-21 | every weekly expression parses, is UI-supported and weekly, and its weekly recurrence is the day given |
| CronGenerated.MonthlyWeekday | openaev-front/src/utils/period/Cron.ts:23-28 | the monthly weekday field is valid and recurs on `L` for week 5 and on the week otherwise |
| CronGenerated.MonthlyExpression | openaev-front/src/utils/period/Cron.ts:23-28 | every monthly expression parses, is UI-supported and monthly, and its monthly recurrence is `L` or the week given |
| CronExamples.RangeHead | openaev-front/src/utils/period/Cron.ts:70-77 | `a-b` of two atoms is a range head without `/` or `,` |
| CronExamples.SteppedFirstTerm | openaev-front/src/utils/period/Cron.ts:70-77 | `h/x` with a head and an atom is a first term |
| CronExamples.PlainAtomField | openaev-front/src/utils/period/Cron.ts:70-77 | a valid field with no separator, star or exclusive form is a single atom |
| CronExamples.MinuteRange | openaev-front/src/__tests__/utils/Cron.test.tsx:221-222 | `20-25` is a minute range head, and `45` and `50` are minute atoms |
| CronExamples.RangeStepFirstRange | openaev-front/src/__tests__/utils/Cron.test.tsx:257-258 | `20-25/45-50` is an invalid minutes field |
| CronExamples.RangeStepFirstStar | openaev-front/src/__tests__/utils/Cron.test.tsx:209-210 | `*/30-35` is an invalid minutes field |
| CronExamples.RangeStepLater | openaev-front/src/utils/period/Cron.ts:70-77 | `20-25/45,20-25/45-50` is a valid minutes field |
| CronExamples.OutOfRange | openaev-front/src/__tests__/utils/Cron.test.tsx:249-250 | minute `60` and hour `24` are refused, and hour `23` is accepted |
| CronExamples.WeekdayForms | openaev-front/src/__tests__/utils/Cron.test.tsx:525-538 | `3#6` and `8L` are refused weekdays, and `1#3` and `1L` are accepted |
| CronExamples.ExclusiveForms | openaev-front/src/utils/period/Cron.ts:90-100 | `?` is valid for weekdays and `L` for month days, and neither is valid for hours or months |
| CronExamples.RecurrenceLast | openaev-front/src/__tests__/utils/Cron.test.tsx:157-164 | `1L` and `L` recur on `L` |
| CronExamples.RecurrenceOccurrence | openaev-front/src/__tests__/utils/Cron.test.tsx:167-169 | `1#3` recurs on `3` |
| CronExamples.RecurrenceSteps | openaev-front/src/__tests__/utils/Cron.test.tsx:172-179 | `*/22` recurs on `22` and `2/12` on `12` |
| CronExamples.RecurrenceAbsent | openaev-front/src/utils/period/Cron.ts:183-186 | `1-5` and `1/` have no recurrence |
| CronExamples.ValueAsWritten | openaev-front/src/utils/period/Cron.ts:150-153 | as written, `1/22` has value `1/22`, `*/22` has `/22`, `2#3` has `2#3`, and `*` has none |
| CronExamples.MonthlyWeekdayValue | openaev-front/src/utils/period/Cron.ts:328-330 | on a generated monthly expression the weekly recurrence is `d#w`, not the day `d` |
| CronExamples.MonthlyWeekdayIntended | openaev-front/src/utils/period/Cron.ts:144-149 | with the intended value, every monthly weekday field reads back as its day `d` |
| CronExamples.NonZeroSecondsNotUi | openaev-front/src/utils/period/Cron.ts:261-263 | seconds not starting with `0` rule out UI support |
| Iso8601Period.Match | openaev-front/src/utils/period/ISO8601Period.ts:5 | a match is `P` with a digit run and `D`, `W` or `M`, or `PT` with a digit run and `H` or `M`, and the text is exactly that shape |
| Iso8601Period.DateShapeMatches | openaev-front/src/utils/period/ISO8601Period.ts:5 | every `P<digits><D\|W\|M>` is recognised as a date part |
| Iso8601Period.TimeShapeMatches | openaev-front/src/utils/period/ISO8601Period.ts:5 | every `PT<digits><H\|M>` is recognised as a time part |
| Iso8601Period.AmountIsNumber | openaev-front/src/utils/period/ISO8601Period.ts:27 | `Number(amount \|\| '1')` is the finite number of the matched digits, or 1 without a match |
| Iso8601Period.ToTranslatableStringArray | openaev-front/src/utils/period/ISO8601Period.ts:24-52 | two words exactly when the amount is 1, three otherwise. The prefix is feminine for minutes, hours and weeks and masculine otherwise, and carries the number. The optional middle word is the amount's decimal, and the unit carries the same number |
| Iso8601Period.MagnitudeOfUnits | openaev-front/src/utils/period/ISO8601Period.ts:54-65 | `D` is daily, `W` weekly, `M` before `T` monthly, `H` hourly and `M` after `T` minutely |
| Iso8601Period.LeadingZeroSingular | openaev-front/src/utils/period/ISO8601Period.ts:27-28 | `P01D` reads as the singular "every day" |
| Period.Handle | openaev-front/src/utils/period/Period.ts:5-19 | no handler exactly when the text is missing, empty, or accepted by neither recogniser; a cron handler only when the ISO recogniser refuses |
| Period.HandleIsValid | openaev-front/src/utils/period/Period.ts:5-19 | every handler returned is valid and carries the text up to trailing white space |
| Period.IsoFirst | openaev-front/src/utils/period/Period.ts:10-12 | a text the ISO recogniser accepts always gets the ISO handler |
| PeriodService.UnitSeconds | openaev-api/src/main/java/io/openaev/service/period/PeriodService.java:33 | every fixed unit has a positive length |
| PeriodService.Plus | openaev-api/src/main/java/io/openaev/service/period/PeriodService.java:33 | adding a positive increment moves strictly forward |
| PeriodService.Iterate | openaev-api/src/main/java/io/openaev/service/period/PeriodService.java:32-34 | after k steps the occurrence is at least k seconds past the seed |
| PeriodService.FirstAfter | openaev-api/src/main/java/io/openaev/service/period/PeriodService.java:32-34 | the occurrence found lies strictly after now, and a seed already after now is kept |
| PeriodService.GetNextOccurrence | openaev-api/src/main/java/io/openaev/service/period/PeriodService.java:21-36 | empty exactly when the period is blank or the seed missing; otherwise the loop's result is the first occurrence strictly after now |
| PeriodService.FirstAfterIsLeast | openaev-api/src/main/java/io/openaev/service/period/PeriodService.java:32-34 | the result is the seed advanced by the least number of steps that passes now |
| PeriodService.SeedAtNow | openaev-api/src/main/java/io/openaev/service/period/PeriodService.java:32 | a seed equal to now is advanced at least once |
| PeriodService.IterateStep | openaev-api/src/main/java/io/openaev/service/period/PeriodService.java:33 | each step starts from the previous occurrence, not from the seed |
| PeriodService.FixedIterate | openaev-api/src/main/java/io/openaev/service/period/PeriodService.java:33 | with a fixed unit the occurrence is the seed plus a whole number of periods |
| CronService.Int32 | openaev-api/src/main/java/io/openaev/service/period/CronService.java:80 | Java `int` arithmetic: the result is in the 32-bit range and congruent to the exact value modulo 2^32 |
| CronService.FormatInt | openaev-api/src/main/java/io/openaev/service/period/CronService.java:72-85 | `%d` prints a non-negative integer as its decimal and a negative one with a minus sign |
| CronService.FromFrequency | openaev-api/src/main/java/io/openaev/service/period/CronService.java:61-99 | an error exactly when an expression was synthesised and the cron library rejects it, and then the out-of-bounds error; otherwise the synthesised expression, or `null` for a one-shot schedule |
| CronService.DigitRunEnd | openaev-api/src/main/java/io/openaev/service/period/CronService.java:102 | the end of the maximal digit run from a position |
| CronService.MatchAt | openaev-api/src/main/java/io/openaev/service/period/CronService.java:102 | a match at a position is `P` or `PT`, then a non-empty digit run, then one of `H D W M` |
| CronService.Find | openaev-api/src/main/java/io/openaev/service/period/CronService.java:104 | `Matcher.find` gives the leftmost position where the pattern matches, and none when no position matches |
| CronService.GetCronExpressionFromPeriod | openaev-api/src/main/java/io/openaev/service/period/CronService.java:101-113 | the not-ISO-8601 error exactly when the text holds no period |
| CronService.OneShotIsNull | openaev-api/src/main/java/io/openaev/service/period/CronService.java:86-87 | a one-shot schedule has no expression and is never rejected |
| CronService.HourlyWithoutStepIsDaily | openaev-api/src/main/java/io/openaev/service/period/CronService.java:70-73 | without a step an hourly schedule gives the same expression as a daily one |
| CronService.UnitStepIgnored | openaev-api/src/main/java/io/openaev/service/period/CronService.java:74-85 | a daily or monthly step of at most 1, and a weekly step of 0, are the same as no step |
| CronService.SixWords | openaev-api/src/main/java/io/openaev/service/period/CronService.java:72-85 | six space-free words joined by single spaces split back into those words |
| CronService.HourlyStepFields | openaev-api/src/main/java/io/openaev/service/period/CronService.java:72 | the hourly step sits on the hour field: `0 m */n * * *` |
| CronService.DailyStepFields | openaev-api/src/main/java/io/openaev/service/period/CronService.java:76 | a daily step above 1 sits on the weekday field: `0 m h * * */n` |
| CronService.WeeklyStepFields | openaev-api/src/main/java/io/openaev/service/period/CronService.java:80 | a weekly step gives the seed's weekday stepped by seven times the step in `int` arithmetic, which is `7n` when that fits |
| CronService.MonthlyStepFields | openaev-api/src/main/java/io/openaev/service/period/CronService.java:84 | a monthly step above 1 sits on the month field: `0 m h d */n *` |
| CronService.DailyFields | openaev-api/src/main/java/io/openaev/service/period/CronService.java:77 | without a step a daily schedule is `0 m h * * *` |
| CronService.WeeklyFields | openaev-api/src/main/java/io/openaev/service/period/CronService.java:81 | without a step a weekly schedule is `0 m h * * dow` |
| CronService.MonthlyFields | openaev-api/src/main/java/io/openaev/service/period/CronService.java:85 | without a step a monthly schedule is `0 m h dom * *` |
| CronService.DailyAgreesWithDialog | openaev-api/src/main/java/io/openaev/service/period/CronService.java:77 | for a calendar seed, the back end's daily expression is the scheduling dialog's, which the dialog can parse and edit again |
| CronService.WeeklyAgreesWithDialog | openaev-api/src/main/java/io/openaev/service/period/CronService.java:81 | the same agreement for the weekly expression |
| CronService.HourlyAgreesWithDialog | openaev-api/src/main/java/io/openaev/service/period/CronService.java:72 | the same agreement for an hourly step of 0 to 23 |
| CronService.MatchOfPeriod | openaev-api/src/main/java/io/openaev/service/period/CronService.java:102-104 | `P<digits><unit>` or `PT<digits><unit>` is recognised wherever it occurs |
| CronService.MatchAtRun | openaev-api/src/main/java/io/openaev/service/period/CronService.java:102 | `P`, an optional `T`, a digit run and a unit letter form a match of that run and letter |
| CronService.DigitRunOf | openaev-api/src/main/java/io/openaev/service/period/CronService.java:102 | a run of n digits followed by a non-digit ends n places on |
| CronService.BarePeriod | openaev-api/src/main/java/io/openaev/service/period/CronService.java:101-107 | a bare period gives the frequency of its unit with its amount as step. `M` means months even after `T`. An amount beyond `int` is the number-format error |
| CronService.ExampleNoPeriod | openaev-api/src/main/java/io/openaev/service/period/CronService.java:108-111 | `every day` is refused as not ISO 8601 |
| CronService.PeriodAfterText | openaev-api/src/main/java/io/openaev/service/period/CronService.java:103-104 | the search is not anchored: a prefix without `P` is skipped |
| CronService.SkipPrefix | openaev-api/src/main/java/io/openaev/service/period/CronService.java:104 | no match starts inside a prefix without `P` |
| ScenarioRecurrence.FirstAccepting | openaev-api/src/main/java/io/openaev/service/scenario/ScenarioRecurrenceService.java:22-25 | the first handler, in list order, that accepts the recurrence, and none exactly when none accepts |
| ScenarioRecurrence.GetNextExecutionTime | openaev-api/src/main/java/io/openaev/service/scenario/ScenarioRecurrenceService.java:21-37 | empty when no handler accepts; otherwise the first accepting handler's next occurrence for the recurrence start, the current time and the recurrence |
| ScenarioRecurrence.LaterHandlersIgnored | openaev-api/src/main/java/io/openaev/service/scenario/ScenarioRecurrenceService.java:22-25 | handlers after the first accepting one are never consulted |
| Strings.SlicePrefix | openaev-front/src/utils/String.ts:13 | JavaScript `slice(0, end)`: the first `end` elements, all of them past the length, and a negative end counted from the back |
| Strings.LastIndexOf | openaev-front/src/utils/String.ts:19 | -1 exactly when the character is absent; otherwise an index holding it with no later occurrence |
| Strings.Truncate | openaev-front/src/utils/String.ts:9-21 | a missing text or one within the limit is returned as is. A longer text is cut to the limit, then back to its last space if it has one, and `...` is appended, so at most limit + 3 characters remain |
| Strings.ResolveUserName | openaev-front/src/utils/String.ts:23-28 | the first and last names joined by a space when both are non-empty, else the e-mail, else empty |
| Strings.UserEntry | openaev-front/src/utils/String.ts:32-39 | without the e-mail flag an entry of `resolveUserNames` is `resolveUserName` |
| Strings.GetVisibleItems | openaev-front/src/utils/String.ts:46-48 | undefined exactly for a missing list; otherwise a prefix of the list of length `limit`, or all of it when shorter |
| Strings.SliceSuffix | openaev-front/src/utils/String.ts:56 | JavaScript `slice(start)`: the elements from `start`, none past the length |
| Strings.GetLabelOfRemainingItems | openaev-front/src/utils/String.ts:51-59 | undefined exactly for a missing list; its content is stated by the four lemmas below |
| Strings.VisibleAndRemaining | openaev-front/src/utils/String.ts:46-48 | the visible chips and the items from the same cut on make up the whole list in order, for any limit, negative ones included |
| Strings.LabelEmpty | openaev-front/src/utils/String.ts:51-59 | the label is empty exactly when nothing remains or the one remaining item has an empty name |
| Strings.LabelOfOne | openaev-front/src/utils/String.ts:51-59 | one remaining item is labelled by its name |
| Strings.CommaJoin | openaev-front/src/utils/String.ts:58 | a `, ` join is the `,` join of the pieces with the space moved in front of every later piece |
| Strings.LabelSplitsIntoNames | openaev-front/src/utils/String.ts:51-59 | with comma-free names, cutting the label at its commas gives the remaining names in order, the later ones behind one space |
| Strings.GetRemainingItemsCount | openaev-front/src/utils/String.ts:62-67 | a count exactly when both lists are present and their lengths differ, and then it is the difference |
| Strings.ComputeLabel | openaev-front/src/utils/String.ts:72-83 | one of the four labels, each chosen exactly by its status, with a missing status pending |
| Strings.Capitalize | openaev-front/src/utils/String.ts:85-87 | same length; the first character upper case and the rest lower case |
| Strings.Pairs | openaev-front/src/utils/String.ts:91 | `match(/.{1,2}/g)` yields pieces of one or two characters, none a line terminator |
| Strings.FormatMacAddress | openaev-front/src/utils/String.ts:89-92 | never the empty text: `-` when nothing matches |
| Strings.JoinNonEmpty | openaev-front/src/utils/String.ts:91 | a join whose first piece is non-empty is non-empty |
| Strings.PairsOfLine | openaev-front/src/utils/String.ts:91 | without line terminators the pieces lay back out to the text, there are half as many (rounded up) and only the last may be short |
| Strings.JoinLength | openaev-front/src/utils/String.ts:91 | a join is as long as the pieces plus one separator between each two |
| Strings.MacAddressLength | openaev-front/src/utils/String.ts:89-92 | a twelve-character address becomes 17 characters: six pairs and five colons |
| Strings.CapitalizeIdempotent | openaev-front/src/utils/String.ts:85-87 | on ASCII text, capitalising twice is capitalising once |
| Text.TrimEnd | openaev-front/src/utils/period/Cron.ts:238 | `trimEnd` removes exactly the trailing white space: a prefix of the text, not ending in white space, followed only by white space |
| Text.JoinSplit | openaev-front/src/utils/period/Cron.ts:238 | joining the pieces of a split with the same separator gives the text back |
| Text.SplitJoin | openaev-front/src/utils/period/Cron.ts:447 | splitting a join of separator-free pieces gives the pieces back |
| Text.Dec | openaev-front/src/utils/period/ISO8601Period.ts:51 | `toString` of a natural number is a non-empty digit run without a leading zero, one digit exactly below 10 |
| Text.DecOfDigitsValue | openaev-front/src/utils/period/ISO8601Period.ts:51 | the digit runs without a leading zero are exactly the decimal renderings |
| Colors.ToInt32 | openaev-front/src/utils/Colors.ts:20 | JavaScript `ToInt32`: a signed 32-bit value congruent to the exact one modulo 2^32 |
| Colors.PolyHash | openaev-front/src/utils/Colors.ts:17-21 | the textbook hash `h = 31h + c` reduced modulo 2^32 |
| Colors.HashIsPolyHash | openaev-front/src/utils/Colors.ts:17-21 | the loop's shift-and-subtract hash in 32-bit arithmetic agrees with the textbook hash modulo 2^32 |
| Colors.Byte | openaev-front/src/utils/Colors.ts:25 | `(hash >> 8i) & 0xff` is a byte |
| Colors.Hex2 | openaev-front/src/utils/Colors.ts:26 | a byte zero-padded to two characters of hex is two lower-case hex digits |
| Colors.PaddedHex | openaev-front/src/utils/Colors.ts:26 | the last two characters of the zero-padded hex text are those two digits |
| Colors.HashColour | openaev-front/src/utils/Colors.ts:17-28 | the colour of any other text is `#` and six lower-case hex digits |
| Colors.ColourOf | openaev-front/src/utils/Colors.ts:22-28 | bytes 0, 1 and 2 of a hash written as `#` and six lower-case hex digits |
| Colors.StringToColour | openaev-front/src/utils/Colors.ts:1-29 | brown for a missing or empty text; green for `true` and red for `false`, swapped when reversed; otherwise the colour of the hash |
| Colors.ThreeBytes | openaev-front/src/utils/Colors.ts:22-27 | the loop's three channel appends make up the hash's colour |
| Colors.ColourOfHash | openaev-front/src/utils/Colors.ts:17-28 | the colour is read off the textbook 32-bit hash, lowest byte first |
| Colors.SameLowBits | openaev-front/src/utils/Colors.ts:25 | hashes equal modulo 2^32 give the same colour |
| Colors.HexPrefixLength | openaev-front/src/utils/Colors.ts:32 | `parseInt` reads the longest prefix of hex digits |
| Colors.HexPrefixAll | openaev-front/src/utils/Colors.ts:32 | on a run of hex digits that prefix is everything |
| Colors.Slice | openaev-front/src/utils/Colors.ts:32-34 | JavaScript `slice(from, to)` for ordered in-range bounds is the sub-text |
| Colors.HexDigitsBare | openaev-front/src/utils/Colors.ts:32 | a run of hex digits has no white space, sign or `0x` in front |
| Colors.ParseHexDigits | openaev-front/src/utils/Colors.ts:32 | `parseInt(s, 16)` of a run of hex digits is their value |
| Colors.HexPair | openaev-front/src/utils/Colors.ts:32-34 | two hex digits read as one channel in 0..255 |
| Colors.WellFormedChannels | openaev-front/src/utils/Colors.ts:31-35 | a well-formed `#rrggbb` gives three channels, each present and in 0..255 |
| Colors.ChannelAt | openaev-front/src/utils/Colors.ts:32-34 | the pair at positions i and i+1 reads as 16 times the first digit plus the second |
| Colors.FirstCharacterIgnored | openaev-front/src/utils/Colors.ts:31-35 | the first character is never read |
| Colors.SliceAfterFirst | openaev-front/src/utils/Colors.ts:32-34 | a slice after the first character is a slice of the rest |
| Colors.HexDigitValue | openaev-front/src/utils/Colors.ts:26 | a written hex digit reads back as its value |
| Colors.Hex2Value | openaev-front/src/utils/Colors.ts:26 | the two digits of a byte read back as the byte |
| Colors.ColourChannels | openaev-front/src/utils/Colors.ts:1-35 | `hexToRGB` reads back the three bytes `stringToColour` wrote |
| Colors.PairsRead | openaev-front/src/utils/Colors.ts:31-35 | a colour holding three written bytes reads back as those bytes |
| Colors.PairRead | openaev-front/src/utils/Colors.ts:26-32 | `parseInt` of the two written digits is the byte |
| Colors.GetSeverityAndColor | openaev-front/src/utils/Colors.ts:44-75 | the band is critical from 9, high from 7, medium from 4, low above 0, and none otherwise. Each band holds exactly its interval, and a missing score is none and gray |
| Colors.SeverityMonotone | openaev-front/src/utils/Colors.ts:47-74 | a higher score never gets a lower band |
| Colors.SeverityColours | openaev-front/src/utils/Colors.ts:47-74 | each band has its colour: red, orangered, orange, green, gray |
| Environment.AppBasePath | openaev-front/src/utils/Environment.ts:47-49 | empty exactly for a missing or empty base path. Otherwise it starts with `/`: `/` stays `/`, a path starting with `/` is kept, and any other gets a leading `/` |
| Environment.AppBasePathIdempotent | openaev-front/src/utils/Environment.ts:47-49 | normalising a normalised path changes nothing |
| Environment.Escape | openaev-front/src/utils/Environment.ts:54-56 | undefined exactly for undefined, and no escaped text holds a raw newline |
| Environment.ReplaceCharCons | openaev-front/src/utils/Environment.ts:55-56 | replacing a character works one leading character at a time |
| Environment.ReplaceCharAppend | openaev-front/src/utils/Environment.ts:55-56 | replacing a character distributes over concatenation |
| Environment.EscapeTextIsPerCharacter | openaev-front/src/utils/Environment.ts:54-56 | the two chained `replaceAll` calls escape each character on its own |
| Environment.OccurrencesAppend | openaev-front/src/utils/Environment.ts:55-56 | occurrence counts add over concatenation |
| Environment.EscapedCounts | openaev-front/src/utils/Environment.ts:55-56 | every quote is doubled; every newline becomes `\n`; the text grows by one character for each of them |
| Environment.EscapePlain | openaev-front/src/utils/Environment.ts:54-56 | text without quotes or newlines is exported as it is |
| Environment.EscapeMeaning | openaev-front/src/utils/Environment.ts:54-56 | `escape` doubles quotes, writes newlines out, and changes nothing else |
| Environment.Shown | openaev-front/src/utils/Environment.ts:54 | `value?.toString()` is undefined exactly for `undefined` and `null` |
| Environment.Pick | openaev-front/src/utils/Environment.ts:73 | `R.pick` keeps exactly the listed keys the row has, with their values |
| Environment.OrganisationName | openaev-front/src/utils/Environment.ts:112 | the organisation's name when the table names it, else the empty text |
| Environment.MarkDeleted | openaev-front/src/utils/Environment.ts:77-79 | a `null` type becomes `deleted`, and nothing else changes |
| Environment.ResolveList | openaev-front/src/utils/Environment.ts:81-106 | a set id list is replaced by the names the table knows, and nothing else changes |
| Environment.ResolveOrganisation | openaev-front/src/utils/Environment.ts:108-115 | a set organisation is replaced by its name or the empty text, and nothing else changes |
| Environment.StringifyContent | openaev-front/src/utils/Environment.ts:117-123 | a set inject content is replaced by its JSON text, and nothing else changes |
| Environment.Shape | openaev-front/src/utils/Environment.ts:74-123 | the rewrites keep the row's keys |
| Environment.EscapeRow | openaev-front/src/utils/Environment.ts:124 | every value of an exported row has gone through `escape` |
| Environment.ExportData | openaev-front/src/utils/Environment.ts:63-126 | one exported row per item, in order: the item picked, rewritten and escaped |
| Environment.ExportKeys | openaev-front/src/utils/Environment.ts:72-73 | the exported keys are exactly the listed ones the item has |
| Environment.ExportEscaped | openaev-front/src/utils/Environment.ts:124 | no exported value holds a raw newline |
| Environment.DeletedType | openaev-front/src/utils/Environment.ts:77-79 | a `null` type is exported as `deleted` |
| Environment.TagsResolved | openaev-front/src/utils/Environment.ts:81-88 | set tags are replaced by the names of the tags the table knows, and unknown ones are dropped |
| Environment.UnknownOrganisation | openaev-front/src/utils/Environment.ts:108-115 | a set organisation the table does not name is exported as the empty text |
| Environment.SuffixesDiffer | openaev-front/src/utils/Environment.ts:77-123 | the property names `exportData` rewrites are pairwise distinct, so no rewrite undoes another |
| JsNumber.FirstOf | openaev-front/src/utils/period/Cron.ts:216-218 | the first index of either character, or the length |
| JsNumber.DecimalShape | openaev-front/src/utils/period/Cron.ts:216-218 | a decimal literal splits into digit-only whole and fraction parts |
| JsNumber.ParseDigits | openaev-front/src/utils/period/Cron.ts:216-218 | `Number` of a digit run is its value, leading zeros included |
| JsNumber.ParseDecimal | openaev-front/src/utils/period/ISO8601Period.ts:27 | `Number` of a decimal rendering is that number |
| JsNumber.BlankIsZero | openaev-front/src/utils/period/Cron.ts:216-218 | blank text converts to zero, so `isNaN('')` is false |
| JsNumber.NumberChars | openaev-front/src/utils/period/Cron.ts:216-218 | every character of a text `Number` accepts is white space or can occur in a numeric literal |
| JsNumber.ForeignIsNaN | openaev-front/src/utils/period/Cron.ts:216-218 | text holding `,`, `/`, `*`, `?`, `#` or `L` is not a number |
| JsNumber.DigitLed | openaev-front/src/utils/period/Cron.ts:216-218 | text that starts and ends with a digit and has no radix prefix is read as a decimal |
| JsNumber.DigitRangeIsNaN | openaev-front/src/utils/period/Cron.ts:216-218 | a range `a-b` of digit runs is not a number |
| StatusUtils.StatusNamed | openaev-front/src/utils/statusUtils.ts:6-27 | only the four statuses of the label table are recognised |
| StatusUtils.TypeNamed | openaev-front/src/utils/statusUtils.ts:6-27 | only prevention, detection and vulnerability are recognised as technical types |
| StatusUtils.TableLabel | openaev-front/src/utils/statusUtils.ts:6-27 | every entry of the label table is a non-empty label, so finding one ends the lookup |
| StatusUtils.InjectExpectationLabel | openaev-front/src/utils/statusUtils.ts:32-48 | no label for a missing or empty status or type; otherwise the table's label for the upper-cased pair, else the status itself when the type as given is a human expectation type, else no label |
| StatusUtils.LabelIgnoresCase | openaev-front/src/utils/statusUtils.ts:37-41 | a pair found in the table gets the same label whatever the case of status and type |
| StatusUtils.PendingLabel | openaev-front/src/utils/statusUtils.ts:22-26 | a pending expectation of any technical type is labelled `Pending` |
| StatusUtils.SuccessFailureComplement | openaev-front/src/utils/statusUtils.ts:7-16 | success and failure labels differ, one being the other with `Not ` in front |
| StatusUtils.HumanFallback | openaev-front/src/utils/statusUtils.ts:43-47 | outside the table a label exists exactly when the type is listed as a human expectation type |
| StatusUtils.StyleTable | openaev-front/src/utils/statusUtils.ts:53-84 | no status of the style table maps to the fallback `blueGrey` |
| StatusUtils.ComputeStatusStyle | openaev-front/src/utils/statusUtils.ts:50-87 | the style of the upper-cased status; `blueGrey` exactly when the table has none, and for a missing status |
| StatusUtils.StyleIgnoresCase | openaev-front/src/utils/statusUtils.ts:51 | the style does not depend on the case of the status |
| StatusUtils.GetStatusColour | openaev-front/src/utils/statusUtils.ts:89-135 | the colour of the lower-cased status, the theme's error colour when the table has none or the status is missing |
| StatusUtils.ColourIgnoresCase | openaev-front/src/utils/statusUtils.ts:90 | the colour does not depend on the case of the status |
| ExpectationUtils.GroupedByAsset | openaev-front/src/admin/components/simulations/simulation/validation/expectations/ExpectationUtils.ts:5-15 | the groups are keyed by exactly the non-empty assets some expectation has; each group holds the expectations on that asset in input order; the key order lists each key once |
| ExpectationUtils.AssetBucket | openaev-front/src/admin/components/simulations/simulation/validation/expectations/ExpectationUtils.ts:5-15 | the generic bucket of an asset is the expectations on that asset |
| ExpectationUtils.AssetKeys | openaev-front/src/admin/components/simulations/simulation/validation/expectations/ExpectationUtils.ts:8-12 | the keys met are exactly the non-empty assets present |
| ExpectationUtils.GroupedSizes | openaev-front/src/admin/components/simulations/simulation/validation/expectations/ExpectationUtils.ts:5-15 | the groups together hold every expectation with an asset exactly once |
| ExpectationUtils.SingleAssetKeys | openaev-front/src/admin/components/simulations/simulation/validation/expectations/ExpectationUtils.ts:8-12 | every expectation contributes at most one key |
| ExpectationUtils.TargetKindsExclusive | openaev-front/src/admin/components/simulations/simulation/validation/expectations/ExpectationUtils.ts:17-30 | an expectation is not both an asset-group and an asset expectation, and an agent expectation is neither |
| ExpectationUtils.IsManuallyUpdatable | openaev-front/src/admin/components/simulations/simulation/validation/expectations/ExpectationUtils.ts:36-50 | a detection or prevention expectation can be updated by hand exactly when it targets neither an asset group nor an agent; any other exactly when its type is manual and it has no results |
| ExpectationUtils.AssetExpectationUpdatable | openaev-front/src/admin/components/simulations/simulation/validation/expectations/ExpectationUtils.ts:40-44 | a technical expectation on a single asset can be updated by hand |
| ExpectationUtils.SourceLabel | openaev-front/src/admin/components/simulations/simulation/validation/expectations/ExpectationUtils.ts:58-69 | `-` without a non-blank source name; the trimmed name alone without a non-blank platform; otherwise `name (platform)`; never empty |
| ExpectationUtils.SourceLabelShape | openaev-front/src/admin/components/simulations/simulation/validation/expectations/ExpectationUtils.ts:58-69 | a named source's label starts with its trimmed name and so not with a blank |
| SecurityCoverage.TopIsStable | openaev-front/src/admin/components/workspaces/custom_dashboards/widgets/viz/securityCoverageUtils.ts:12-20 | once the climb reaches a pattern without a known parent, further steps stay there |
| SecurityCoverage.RetrieveParent | openaev-front/src/admin/components/workspaces/custom_dashboards/widgets/viz/securityCoverageUtils.ts:12-20 | on an acyclic parent chain the loop stops at a pattern without a known parent, the end of the chain, and returns a top pattern unchanged |
| SecurityCoverage.LastWithId | openaev-front/src/admin/components/workspaces/custom_dashboards/widgets/viz/securityCoverageUtils.ts:24-30 | the pattern kept for an id carries that id and is present exactly when some pattern has it |
| SecurityCoverage.BuildAttackPatternIdIndex | openaev-front/src/admin/components/workspaces/custom_dashboards/widgets/viz/securityCoverageUtils.ts:24-30 | the index maps exactly the ids present, each to the last pattern with that id |
| SecurityCoverage.ResolveEntry | openaev-front/src/admin/components/workspaces/custom_dashboards/widgets/viz/securityCoverageUtils.ts:45-56 | a resolved entry keeps the data's key, value and label and carries its root pattern's external id |
| SecurityCoverage.ResolvedData | openaev-front/src/admin/components/workspaces/custom_dashboards/widgets/viz/securityCoverageUtils.ts:32-60 | the loop yields the specification: kept data resolved in input order, whenever the patterns named by kept data have finite parent chains |
| SecurityCoverage.ResolvedKeys | openaev-front/src/admin/components/workspaces/custom_dashboards/widgets/viz/securityCoverageUtils.ts:43-46 | every resolved entry has a non-empty key naming a known attack pattern |
| SecurityCoverage.KeptData | openaev-front/src/admin/components/workspaces/custom_dashboards/widgets/viz/securityCoverageUtils.ts:43-46 | the data kept are data of the input that pass the key checks |
| SecurityCoverage.ResolvedFollowsData | openaev-front/src/admin/components/workspaces/custom_dashboards/widgets/viz/securityCoverageUtils.ts:32-60 | one resolved entry per kept datum, in order, with its key, value and label |
| SecurityCoverage.NothingKeptNothingRequired | openaev-front/src/admin/components/workspaces/custom_dashboards/widgets/viz/securityCoverageUtils.ts:43-57 | data of which nothing is kept makes no demand on the parent chains, even cyclic ones, and resolves to nothing |
| SecurityCoverage.UnknownKeySkipped | openaev-front/src/admin/components/workspaces/custom_dashboards/widgets/viz/securityCoverageUtils.ts:43-46 | data without a key, or whose key is no attack pattern, add nothing |
| SecurityCoverage.BuildKillChainPhaseIndex | openaev-front/src/admin/components/workspaces/custom_dashboards/widgets/viz/securityCoverageUtils.ts:63-75 | the index has exactly the phases some entry lists; each bucket holds the entries listing the phase, once per listing, in input order |
| SecurityCoverage.FilterByKillChainPhase | openaev-front/src/admin/components/workspaces/custom_dashboards/widgets/viz/securityCoverageUtils.ts:77-79 | the filtered entries are entries whose phase list includes the phase |
| SecurityCoverage.FilterIsHaving | openaev-front/src/admin/components/workspaces/custom_dashboards/widgets/viz/securityCoverageUtils.ts:77-79 | filtering keeps exactly the entries listing the phase, in order |
| SecurityCoverage.FilterIsBucket | openaev-front/src/admin/components/workspaces/custom_dashboards/widgets/viz/securityCoverageUtils.ts:63-79 | without repeated phases in a list, filtering by a phase gives that phase's bucket of the index |
| KillChainPhaseColumn.BuildExternalIdIndex | openaev-front/src/admin/components/workspaces/custom_dashboards/widgets/viz/KillChainPhaseColumn.tsx:25-35 | the index maps exactly the non-empty external ids present, each to the entries carrying it in input order |
| KillChainPhaseColumn.SingleIds | openaev-front/src/admin/components/workspaces/custom_dashboards/widgets/viz/KillChainPhaseColumn.tsx:28-31 | an entry is filed under at most one id |
| KillChainPhaseColumn.ExternalIds | openaev-front/src/admin/components/workspaces/custom_dashboards/widgets/viz/KillChainPhaseColumn.tsx:28 | the ids met are exactly the non-empty external ids present |
| KillChainPhaseColumn.IndexSizes | openaev-front/src/admin/components/workspaces/custom_dashboards/widgets/viz/KillChainPhaseColumn.tsx:25-35 | the buckets together hold every entry with an external id exactly once |
| KillChainPhaseColumn.WithExternalIdMeaning | openaev-front/src/admin/components/workspaces/custom_dashboards/widgets/viz/KillChainPhaseColumn.tsx:29-31 | a bucket holds exactly the entries with that external id |
| KillChainPhaseColumn.PresentKeys | openaev-front/src/admin/components/workspaces/custom_dashboards/widgets/viz/KillChainPhaseColumn.tsx:99-100 | the keys kept are non-empty keys of the data |
| KillChainPhaseColumn.PatternStat | openaev-front/src/admin/components/workspaces/custom_dashboards/widgets/viz/KillChainPhaseColumn.tsx:86-101 | a pattern's statistics belong to it and their total is success plus failure |
| KillChainPhaseColumn.StatCountsData | openaev-front/src/admin/components/workspaces/custom_dashboards/widgets/viz/KillChainPhaseColumn.tsx:87-98 | read through the indexes, success and failure sum the values of the data carrying the pattern's external id; without one the total is zero |
| KillChainPhaseColumn.UnindexedIsEmpty | openaev-front/src/admin/components/workspaces/custom_dashboards/widgets/viz/KillChainPhaseColumn.tsx:88-89 | an id the index lacks is carried by no datum |
| KillChainPhaseColumn.AttackPatternStats | openaev-front/src/admin/components/workspaces/custom_dashboards/widgets/viz/KillChainPhaseColumn.tsx:85-103 | one statistic per pattern, in pattern order |
| KillChainPhaseColumn.Covered | openaev-front/src/admin/components/workspaces/custom_dashboards/widgets/viz/KillChainPhaseColumn.tsx:108 | the covered statistics are exactly those with a positive total |
| KillChainPhaseColumn.FilteredStats | openaev-front/src/admin/components/workspaces/custom_dashboards/widgets/viz/KillChainPhaseColumn.tsx:106-109 | every statistic, or with `showCoveredOnly` exactly those with a positive total |
| KillChainPhaseColumn.CoveredSplits | openaev-front/src/admin/components/workspaces/custom_dashboards/widgets/viz/KillChainPhaseColumn.tsx:108 | filtering keeps relative order |
| ImportMessages.MessageKeys | openaev-front/src/admin/components/common/injects/ImportUploaderInjectFromXlsInjects.tsx:147-154 | a message is filed under at most one key |
| ImportMessages.Group | openaev-front/src/admin/components/common/injects/ImportUploaderInjectFromXlsInjects.tsx:156-164 | a group lists the row numbers of its messages in order |
| ImportMessages.GroupSnoc | openaev-front/src/admin/components/common/injects/ImportUploaderInjectFromXlsInjects.tsx:156-164 | the first message of a key creates the group with its code and column; a later one only adds its row |
| ImportMessages.GroupMessages | openaev-front/src/admin/components/common/injects/ImportUploaderInjectFromXlsInjects.tsx:141-168 | the groups are keyed by exactly the keys of kept messages; each group is built from the messages of its key, in input order; the key order is the order keys first occur |
| ImportMessages.FileMessage | openaev-front/src/admin/components/common/injects/ImportUploaderInjectFromXlsInjects.tsx:144-166 | one step of the reduce keeps the accumulator a summary of the messages read so far |
| ImportMessages.GroupsMeaning | openaev-front/src/admin/components/common/injects/ImportUploaderInjectFromXlsInjects.tsx:141-168 | a summary of all messages has exactly the groups promised |
| ImportMessages.MessageKeysIn | openaev-front/src/admin/components/common/injects/ImportUploaderInjectFromXlsInjects.tsx:147-154 | the keys met are exactly the group keys of kept messages |
| ImportMessages.KeptMessages | openaev-front/src/admin/components/common/injects/ImportUploaderInjectFromXlsInjects.tsx:147-149 | the kept messages have a code and a row number |
| ImportMessages.RowCountsAddUp | openaev-front/src/admin/components/common/injects/ImportUploaderInjectFromXlsInjects.tsx:141-168 | every kept message lands in exactly one group: the rows add up to the kept messages |
| ImportMessages.UnmatchedPerColumn | openaev-front/src/admin/components/common/injects/ImportUploaderInjectFromXlsInjects.tsx:151-154 | unmatched-column messages share a group exactly when their columns print the same |
| ImportMessages.OtherCodesIgnoreColumn | openaev-front/src/admin/components/common/injects/ImportUploaderInjectFromXlsInjects.tsx:151-154 | any other code keys its group by the code alone |
| ImportMessages.UndefinedColumnCollides | openaev-front/src/admin/components/common/injects/ImportUploaderInjectFromXlsInjects.tsx:153 | a column given as the text `undefined` shares the group of a missing column |
| BrowserLanguage.Present | openaev-front/src/utils/BrowserLanguage.ts:24 | the present values, and every present value, in order |
| BrowserLanguage.Prefix2 | openaev-front/src/utils/BrowserLanguage.ts:25 | a tag is cut to its first two characters, or kept whole when shorter |
| BrowserLanguage.FirstSupported | openaev-front/src/utils/BrowserLanguage.ts:25-26 | a language is found exactly when some tag's prefix is supported; it is the prefix of the first such tag |
| BrowserLanguage.Locale | openaev-front/src/utils/BrowserLanguage.ts:20-29 | the first supported prefix of the navigator's properties, in their declared order, else the default language |
| BrowserLanguage.OnlyPrefixMatters | openaev-front/src/utils/BrowserLanguage.ts:25 | only the first two characters of a tag take part |
| BrowserLanguage.LanguagesFirst | openaev-front/src/utils/BrowserLanguage.ts:12-18 | a supported entry of `languages` wins over every single property |
| BrowserLanguage.NilIgnored | openaev-front/src/utils/BrowserLanguage.ts:24 | missing entries do not change the result |
| BrowserLanguage.CaseSensitive | openaev-front/src/utils/BrowserLanguage.ts:26 | `EN-US` does not match `en`: the comparison is case-sensitive |
| FlowHandles.HandlesByDirection | openaev-front/src/utils/flows/utils.ts:5-33 | the source and target sides of each of the four directions, bottom and top for any other |
| FlowHandles.SidesOpposite | openaev-front/src/utils/flows/utils.ts:5-33 | an edge enters on the side opposite to the one it leaves |
| FlowHandles.ReversedSwaps | openaev-front/src/utils/flows/utils.ts:5-33 | reversing a direction swaps the two sides |
| ExecutorHelper.LocationPath | openaev-api/src/main/java/io/openaev/executors/ExecutorHelper.java:30-36 | a working-directory expression exists exactly for Windows, Linux and macOS |
| ExecutorHelper.ReplaceArgs | openaev-api/src/main/java/io/openaev/executors/ExecutorHelper.java:23-42 | the null-argument error for any missing argument; a result exactly when all are given and the platform is supported |
| ExecutorHelper.NoPlaceholders | openaev-api/src/main/java/io/openaev/executors/ExecutorHelper.java:38-41 | a command without placeholders comes back unchanged |
| ExecutorHelper.QuotedLocationReplaced | openaev-api/src/main/java/io/openaev/executors/ExecutorHelper.java:39 | the quoted location becomes the shell's path, quotes included |
| ExecutorHelper.BareLocationKept | openaev-api/src/main/java/io/openaev/executors/ExecutorHelper.java:39 | an unquoted location placeholder is left as it is |
| ExecutorHelper.SequentialReplacement | openaev-api/src/main/java/io/openaev/executors/ExecutorHelper.java:38-41 | the replacements run one after the other: an agent placeholder brought in by the inject id is rewritten too |
| ConnectorInstanceHash.KeyLeTotal | openaev-api/src/main/java/io/openaev/helper/ConnectorInstanceHashHelper.java:37 | the key order compares any two keys |
| ConnectorInstanceHash.KeyLeTransitive | openaev-api/src/main/java/io/openaev/helper/ConnectorInstanceHashHelper.java:37 | the key order is transitive |
| ConnectorInstanceHash.KeyLeAntisymmetric | openaev-api/src/main/java/io/openaev/helper/ConnectorInstanceHashHelper.java:37 | keys each at most the other are equal |
| ConnectorInstanceHash.Complete | openaev-api/src/main/java/io/openaev/helper/ConnectorInstanceHashHelper.java:36 | the filter keeps at most every configuration |
| ConnectorInstanceHash.CompleteCounts | openaev-api/src/main/java/io/openaev/helper/ConnectorInstanceHashHelper.java:36 | an entry is kept exactly as often as a complete configuration of it occurs |
| ConnectorInstanceHash.SortByKey | openaev-api/src/main/java/io/openaev/helper/ConnectorInstanceHashHelper.java:37 | the sorted entries are a permutation of the kept ones, ordered by key |
| ConnectorInstanceHash.TransformConfigurations | openaev-api/src/main/java/io/openaev/helper/ConnectorInstanceHashHelper.java:28-40 | the empty text for absent or empty configurations, and when none is complete |
| ConnectorInstanceHash.SortedUnique | openaev-api/src/main/java/io/openaev/helper/ConnectorInstanceHashHelper.java:37 | two key-sorted orderings of the same entries with distinct keys coincide |
| ConnectorInstanceHash.IterationOrderIrrelevant | openaev-api/src/main/java/io/openaev/helper/ConnectorInstanceHashHelper.java:28-40 | with distinct keys the normalised text does not depend on the set's iteration order |
| ConnectorInstanceHash.IncompleteIgnored | openaev-api/src/main/java/io/openaev/helper/ConnectorInstanceHashHelper.java:36 | a configuration without a key or a value does not show |
| ConnectorInstanceHash.HashInput | openaev-api/src/main/java/io/openaev/helper/ConnectorInstanceHashHelper.java:23 | the hashed text is the identity, a vertical bar and `CONFIG[`, and it ends with `]` |
| ConnectorInstanceHash.ComputeInstanceHash | openaev-api/src/main/java/io/openaev/helper/ConnectorInstanceHashHelper.java:15-25 | an error exactly for a missing instance, otherwise the hash of the formatted text |
| ConnectorInstanceHash.SameInstanceSameHash | openaev-api/src/main/java/io/openaev/helper/ConnectorInstanceHashHelper.java:15-40 | the same identity and the same configurations in any order give the same hash |
| RandomUtils.AlphabetCode | openaev-api/src/main/java/io/openaev/utils/RandomUtils.java:15-22 | every alphabet code lies between `0` and `z` |
| RandomUtils.RandomAlphabet.constructor | openaev-api/src/main/java/io/openaev/utils/RandomUtils.java:14-23 | the loop fills the alphabet with `0`-`9`, `A`-`Z`, `a`-`z` in that order |
| RandomUtils.RandomAlphabet.GetRandomAlphanumeric | openaev-api/src/main/java/io/openaev/utils/RandomUtils.java:25-31 | exactly `length` characters, none for a non-positive length, each from the alphabet and so an ASCII letter or digit |
| RandomUtils.AlphabetCharacter | openaev-api/src/main/java/io/openaev/utils/RandomUtils.java:11-12 | every alphabet character is an ASCII letter or digit |
| RandomUtils.AlphabetIncreasing | openaev-api/src/main/java/io/openaev/utils/RandomUtils.java:15-22 | the codes strictly increase, so no character repeats |
| RandomUtils.AlphabetIsAlphanumerics | openaev-api/src/main/java/io/openaev/utils/RandomUtils.java:11 | the alphabet holds exactly the 62 ASCII letters and digits |
| PresetDomain.Keywords | openaev-api/src/main/java/io/openaev/rest/domain/enums/PresetDomain.java:24-31 | exactly the six keyword domains have keywords, and no keyword is empty |
| PresetDomain.RelevantDomains | openaev-api/src/main/java/io/openaev/rest/domain/enums/PresetDomain.java:33-48 | a domain is relevant exactly when one of its lower-cased keywords occurs in the lower-cased search value; endpoint, tabletop and to-classify never are |
| PresetDomain.GetRelevantDomainsFromKeywords | openaev-api/src/main/java/io/openaev/rest/domain/enums/PresetDomain.java:33-42 | the loop over the keyword table yields exactly the relevant domains |
| PresetDomain.LowerOccurs | openaev-api/src/main/java/io/openaev/rest/domain/enums/PresetDomain.java:46-47 | lower-casing both sides keeps an occurrence |
| PresetDomain.EmptySearchFindsNothing | openaev-api/src/main/java/io/openaev/rest/domain/enums/PresetDomain.java:44-48 | an empty search value finds no domain |
| PresetDomain.Monotone | openaev-api/src/main/java/io/openaev/rest/domain/enums/PresetDomain.java:44-48 | a text containing another finds at least the domains the other finds |
| PresetDomain.CaseIgnored | openaev-api/src/main/java/io/openaev/rest/domain/enums/PresetDomain.java:46-47 | upper-casing the search value finds the same domains |
| PresetDomain.FoundIn | openaev-api/src/main/java/io/openaev/rest/domain/enums/PresetDomain.java:44-48 | a keyword occurring as written puts its domain in the result |
| PresetDomain.OneKeywordEach | openaev-api/src/main/java/io/openaev/rest/domain/enums/PresetDomain.java:26-31 | a text holding a keyword of each keyword domain finds all six |
| PresetDomain.AllSixFound | openaev-api/src/main/java/io/openaev/rest/domain/enums/PresetDomain.java:26-31 | `network web email exfiltrat bitsadmin aws` finds all six keyword domains |
| DomainService.DomainService.constructor | openaev-api/src/main/java/io/openaev/rest/domain/DomainService.java:27 | the service starts from a repository keyed by name |
| DomainService.DomainService.FindByName | openaev-api/src/main/java/io/openaev/rest/domain/DomainService.java:33-41 | the domain of that name exactly when the repository has one, otherwise the not-found error naming it |
| DomainService.DomainService.FindById | openaev-api/src/main/java/io/openaev/rest/domain/DomainService.java:47-54 | a stored domain with that id exactly when there is one, otherwise the not-found error naming the id |
| DomainService.DomainService.Upsert | openaev-api/src/main/java/io/openaev/rest/domain/DomainService.java:68-79 | the stored domain of that name, or a new one saved with the given or generated colour; the repository stays keyed by name |
| DomainService.DomainService.UpsertDomain | openaev-api/src/main/java/io/openaev/rest/domain/DomainService.java:64-66 | the upsert of the domain's name and colour |
| DomainService.DomainService.Upserts | openaev-api/src/main/java/io/openaev/rest/domain/DomainService.java:81-83 | the new repository is the given domains upserted one after another; the names upserted are added, earlier entries stay, and the result holds the stored domain of every name given, one per name |
| DomainService.UpsertedAllSnoc | openaev-api/src/main/java/io/openaev/rest/domain/DomainService.java:81-83 | upserting one more domain of the sequence is one more single upsert on the repository reached so far |
| DomainService.UpsertedAllKeeps | openaev-api/src/main/java/io/openaev/rest/domain/DomainService.java:68-83 | upserting a sequence adds exactly its names and leaves every stored entry as it was |
| DomainService.UpsertsFirstWins | openaev-api/src/main/java/io/openaev/rest/domain/DomainService.java:68-83 | a name new to the repository holds the first domain upserted under it, with the id assigned then and its own colour or the one generated then; later domains of that name change nothing |
| DomainService.NamesOf | openaev-api/src/main/java/io/openaev/rest/domain/DomainService.java:81-83 | the names of the domains given |
| DomainService.UpsertExisting | openaev-api/src/main/java/io/openaev/rest/domain/DomainService.java:69-70 | upserting a stored name returns the stored domain and changes nothing, whatever colour is given |
| DomainService.UpsertNew | openaev-api/src/main/java/io/openaev/rest/domain/DomainService.java:70-78 | upserting a new name adds exactly that one domain, with the given colour or the generated one |
| DomainService.UpsertKeepsNameKeyed | openaev-api/src/main/java/io/openaev/rest/domain/DomainService.java:68-79 | the repository stays keyed by name and holds the result under its name |
| DomainService.UpsertIdempotent | openaev-api/src/main/java/io/openaev/rest/domain/DomainService.java:68-79 | upserting the same name again returns the same domain and changes nothing |
| DomainService.UpsertOthersUntouched | openaev-api/src/main/java/io/openaev/rest/domain/DomainService.java:68-79 | domains of other names are untouched |
| InjectorContractOutput.OrElse | openaev-api/src/main/java/io/openaev/rest/injector_contract/output/InjectorContractFullOutput.java:70 | the first value when present, otherwise the second |
| InjectorContractOutput.ListOrEmpty | openaev-api/src/main/java/io/openaev/rest/injector_contract/output/InjectorContractFullOutput.java:73-77 | a copy of the list, or an empty list for a missing one |
| InjectorContractOutput.NewFullOutput | openaev-api/src/main/java/io/openaev/rest/injector_contract/output/InjectorContractFullOutput.java:52-81 | the collector type, when given, stands for the payload type; missing attack-pattern and domain lists become empty; the output has its full details |
| InjectorContractOutput.NonNull | openaev-api/src/main/java/io/openaev/rest/injector_contract/output/InjectorContractFullOutput.java:118 | exactly the present values, no more of them than the list has |
| InjectorContractOutput.PresentDistinct | openaev-api/src/main/java/io/openaev/rest/injector_contract/output/InjectorContractFullOutput.java:118 | exactly the present values, each once |
| InjectorContractOutput.ResolveEffectiveDomains | openaev-api/src/main/java/io/openaev/rest/injector_contract/output/InjectorContractFullOutput.java:111-119 | without duplicates: the payload's present domains when it lists any, else the contract's own, none when that list is missing |
| InjectorContractOutput.FromInjectorContract | openaev-api/src/main/java/io/openaev/rest/injector_contract/output/InjectorContractFullOutput.java:83-109 | full details; payload type and architecture from the payload, none without one; the attack-pattern ids as given; domains present and each once |
| InjectorContractOutput.Wrapped | openaev-api/src/main/java/io/openaev/rest/injector_contract/output/InjectorContractFullOutput.java:98-104 | ids in the same order as present values |
| InjectorContractOutput.NonNullOrder | openaev-api/src/main/java/io/openaev/rest/injector_contract/output/InjectorContractFullOutput.java:118 | dropping nulls keeps the order of the present values |
| InjectorContractOutput.PresentDistinctOrder | openaev-api/src/main/java/io/openaev/rest/injector_contract/output/InjectorContractFullOutput.java:118 | the resolved domains keep the order in which ids first occur |
| InjectorContractOutput.OwnDomainsWithoutPayloadDomains | openaev-api/src/main/java/io/openaev/rest/injector_contract/output/InjectorContractFullOutput.java:98-104 | a contract without payload domains shows its own present domains |
| InjectorContractOutput.PayloadDomainsWin | openaev-api/src/main/java/io/openaev/rest/injector_contract/output/InjectorContractFullOutput.java:111-114 | a contract whose payload lists domains shows exactly the payload's present ones |
| WidgetConfiguration.RemoveFirst | openaev-model/src/main/java/io/openaev/engine/api/WidgetConfiguration.java:104 | `remove` drops the first occurrence of the value and nothing else, and leaves a list without it alone |
| WidgetConfiguration.Switch | openaev-model/src/main/java/io/openaev/engine/api/WidgetConfiguration.java:103-106 | a list holding the old value loses its first occurrence and gets the new value at the end; any other list is left alone |
| WidgetConfiguration.RemapValues | openaev-model/src/main/java/io/openaev/engine/api/WidgetConfiguration.java:102-107 | the loop over the renaming applies its entries in iteration order |
| WidgetConfiguration.WidgetConfiguration.constructor | openaev-model/src/main/java/io/openaev/engine/api/WidgetConfiguration.java:75-91 | a new configuration has the given type, the `DEFAULT` time range, `base_created_at` as date attribute and no series |
| WidgetConfiguration.WidgetConfiguration.Remap | openaev-model/src/main/java/io/openaev/engine/api/WidgetConfiguration.java:93-113 | the values of every filter of every series are renamed; nothing else changes |
| WidgetConfiguration.RemapSeriesList | openaev-model/src/main/java/io/openaev/engine/api/WidgetConfiguration.java:96-111 | one remapped series per series, in order |
| WidgetConfiguration.RemapFilters | openaev-model/src/main/java/io/openaev/engine/api/WidgetConfiguration.java:100-109 | one remapped filter per filter, in order |
| WidgetConfiguration.SwitchAllKeepsLength | openaev-model/src/main/java/io/openaev/engine/api/WidgetConfiguration.java:103-106 | a renamed list keeps its length |
| WidgetConfiguration.SwitchTrades | openaev-model/src/main/java/io/openaev/engine/api/WidgetConfiguration.java:103-106 | a hit trades one occurrence of the old value for one of the new |
| WidgetConfiguration.NoHitUnchanged | openaev-model/src/main/java/io/openaev/engine/api/WidgetConfiguration.java:103 | a list holding none of the renamed values is unchanged |
| WidgetConfiguration.ChainDependsOnOrder | openaev-model/src/main/java/io/openaev/engine/api/WidgetConfiguration.java:102 | chained entries depend on the map's iteration order |
| WidgetConfiguration.SkippedWithoutFilters | openaev-model/src/main/java/io/openaev/engine/api/WidgetConfiguration.java:95-99 | an absent or empty series list, and a series without filters, are left alone |
| WidgetConfiguration.RemapKeepsShape | openaev-model/src/main/java/io/openaev/engine/api/WidgetConfiguration.java:93-113 | series keep their names, modes, filters, keys, operators and list lengths |
| InjectUtils.Describe | openaev-api/src/main/java/io/openaev/utils/InjectUtils.java:84-193 | the description of a payload has its kind, name and description |
| InjectUtils.GetStatusPayloadFromInject | openaev-api/src/main/java/io/openaev/utils/InjectUtils.java:66-196 | nothing for no inject; the saved payload output once the inject has run; a payload only for an inject |
| InjectUtils.NoPayloadWithoutKnownKind | openaev-api/src/main/java/io/openaev/utils/InjectUtils.java:76-80 | before it runs, an inject without a contract, a payload or a known payload kind has no payload |
| InjectUtils.DescribedFromContract | openaev-api/src/main/java/io/openaev/utils/InjectUtils.java:82-193 | before it runs, an inject's payload is its contract's payload with its kind, name and description |
| InjectUtils.CommandIsOneBlock | openaev-api/src/main/java/io/openaev/utils/InjectUtils.java:84-109 | a command payload runs as one block of its executor and content, with its cleanup command when it has one; other kinds have no blocks |
| InjectUtils.TargetIds | openaev-api/src/main/java/io/openaev/utils/InjectUtils.java:209-213 | the pooled ids are exactly those of the inject's teams, assets and asset groups |
| InjectUtils.GetPrimaryExpectations | openaev-api/src/main/java/io/openaev/utils/InjectUtils.java:208-230 | exactly the inject's expectations whose team, asset or asset group id is among the pooled ids |
| InjectUtils.PrimaryOf | openaev-api/src/main/java/io/openaev/utils/InjectUtils.java:216-229 | the filter keeps exactly the primary expectations |
| InjectUtils.PrimaryOfSplits | openaev-api/src/main/java/io/openaev/utils/InjectUtils.java:216-229 | the filter keeps the order of the expectations |
| InjectUtils.PooledAcrossKinds | openaev-api/src/main/java/io/openaev/utils/InjectUtils.java:209-220 | the ids are pooled: a team expectation whose team id is one of the inject's asset ids is primary |
| InjectUtils.NoIdsNoPrimary | openaev-api/src/main/java/io/openaev/utils/InjectUtils.java:216-229 | without targets no expectation is primary |
| InjectUtils.CheckIfRowIsEmpty | openaev-api/src/main/java/io/openaev/utils/InjectUtils.java:246-262 | a missing row, or one without cells, is empty; otherwise a row is not empty exactly when some cell from the first cell number up to the last is filled |
| Lookup.KnownNames | openaev-front/src/utils/Environment.ts:85 | the names kept are non-empty names the table gives to some of the ids, no more of them than there are ids |
| Lookup.AllNamed | openaev-front/src/admin/components/workspaces/custom_dashboards/widgets/viz/securityCoverageUtils.ts:53-55 | ids that all have a name are resolved one for one, in order |
| Lookup.NoneNamed | openaev-front/src/utils/Environment.ts:85 | ids without a name contribute nothing |
| Grouping.GroupBy | openaev-front/src/admin/components/workspaces/custom_dashboards/widgets/viz/securityCoverageUtils.ts:63-75 | the index loop files every item under each of its keys: the index has exactly the keys met, each bucket lists its items in input order, once per listing, and the key order is the order keys first occur |
| Grouping.Distinct | openaev-front/src/admin/components/workspaces/custom_dashboards/widgets/viz/securityCoverageUtils.ts:63-75 | the distinct keys, each once |
| Cron.MaskOf | openaev-front/src/utils/period/Cron.ts:112-120 | the field mask of each position, as the Quartz parser set assigns it; what each mask accepts is `CronGrammar.Validate` |
| Cron.FieldIsValid | openaev-front/src/utils/period/Cron.ts:194-196 | a field is valid when its text is absent or its mask accepts it; `CronGenerated.GeneratedValid` states it of every generated field |
| Cron.IsWildcard | openaev-front/src/utils/period/Cron.ts:201-203 | `isWildcard`: the field text starts with `*`; `CronGenerated.StarQueries` states it of the generated wildcard fields |
| Cron.IsZero | openaev-front/src/utils/period/Cron.ts:208-210 | `isZero`: the field text starts with `0`, so `05` counts; `CronGenerated.ZeroSeconds` states it of the generated seconds |
| Cron.IsPureNumeric | openaev-front/src/utils/period/Cron.ts:216-218 | `Number(text)` is not `NaN`; `CronProperties.NumericHasNoSeparators` and `CronProperties.NumericFieldIsDecimal` state which valid fields those are |
| Cron.IsRange | openaev-front/src/utils/period/Cron.ts:225-227 | the field text is exactly the given range text |
| Cron.ToNumber | openaev-front/src/utils/period/Cron.ts:232-234 | JavaScript `Number` of the field text, as `JsNumber.ParseNumber` defines it |
| Cron.ToCronExpression | openaev-front/src/utils/period/Cron.ts:237-239 | the field texts joined by single spaces, trailing white space removed; `CronProperties.RoundTrip` and `CronProperties.ExactRoundTrip` state that it gives back the parsed text |
| Cron.IsValid | openaev-front/src/utils/period/Cron.ts:255-259 | every field of the expression is valid; `CronProperties.UiSupportedIsValid` and `CronGenerated.GeneratedValid` state when it holds |
| Cron.IsUiSupported | openaev-front/src/utils/period/Cron.ts:261-271 | `isUiSupported`; `CronProperties.UiSupportedShape` states its meaning field by field, `CronGenerated.GeneratedUiSupported` that every generated expression has it |
| Cron.IsOnlyOnWeekdays | openaev-front/src/utils/period/Cron.ts:319-321 | the weekday field is exactly `1-5`; `CronGenerated.WorkingDays` and `CronGenerated.DailyWeekdays` state it of the working-day expressions |
| Cron.WeeklyRecurrence | openaev-front/src/utils/period/Cron.ts:328-330 | `getValue` of the weekday field; the first row under Findings shows what it reads from `d#w` |
| Cron.MonthlyRecurrence | openaev-front/src/utils/period/Cron.ts:336-338 | `getRecurrence` of the weekday field; `CronGenerated.NthWeekday` and `CronGenerated.LastWeekday` state it of the monthly expressions |
| Cron.RecurrenceMagnitude | openaev-front/src/utils/period/Cron.ts:292-302 | monthly, hourly, weekly or daily in the order of the source's tests; `CronGenerated.GeneratedMagnitude` states that each generator's expression reads back with its own magnitude |
| Cron.CanHandleExpression | openaev-front/src/utils/period/Cron.ts:460-466 | the text parses and the result is valid, a parse error being false; `CronGenerated.Promised` states it of every generated expression |
| Cron.GenerateHourlyCronExpression | openaev-front/src/utils/period/Cron.ts:5-10 | `0 m */h * *` then `1-5` or `*`; `CronGenerated.HourlyText` and `CronGenerated.HourlyExpression` state its words and how it reads back |
| Cron.GenerateDailyCronExpression | openaev-front/src/utils/period/Cron.ts:12-17 | `0 m h * *` then `1-5` or `*`; `CronGenerated.DailyText` and `CronGenerated.DailyExpression` state its words and how it reads back |
| Cron.GenerateWeeklyCronExpression | openaev-front/src/utils/period/Cron.ts:19-21 | `0 m h * * d`; `CronGenerated.WeeklyExpression` and `CronGenerated.WeeklyWeekday` state how it reads back |
| Cron.GenerateMonthlyCronExpression | openaev-front/src/utils/period/Cron.ts:23-28 | `dL` for week 5 and `d#w` otherwise; `CronGenerated.MonthlyText` and `CronGenerated.MonthlyExpression` state its words and how it reads back |
| CronGrammar.Validate | openaev-front/src/utils/period/Cron.ts:70-77 | the field regex built from a mask: a `,`-list of terms, each `*` or an atom or range with an optional step; the `CronGrammar` lemmas state which texts it accepts and refuses |
| Iso8601Period.CanHandleExpression | openaev-front/src/utils/period/ISO8601Period.ts:80-82 | the text matches the period pattern, whose shape `Iso8601Period.Match` states |
| Iso8601Period.IsValid | openaev-front/src/utils/period/ISO8601Period.ts:16-18 | the same test on the stored expression |
| Iso8601Period.IsUiSupported | openaev-front/src/utils/period/ISO8601Period.ts:12-14 | always false: ISO periods are not edited through the dialog |
| Iso8601Period.ToHumanReadableString | openaev-front/src/utils/period/ISO8601Period.ts:20-22 | the raw expression, whatever the locale |
| Iso8601Period.RecurrenceTime | openaev-front/src/utils/period/ISO8601Period.ts:73-78 | always midnight |
| Iso8601Period.RecurrenceMagnitude | openaev-front/src/utils/period/ISO8601Period.ts:54-65 | the unit letter's magnitude, daily without a match; `Iso8601Period.MagnitudeOfUnits` states it unit by unit |
| Iso8601Period.RecurrenceAmount | openaev-front/src/utils/period/ISO8601Period.ts:67-71 | the matched digit run of the date or the time part, none without a match; `Iso8601Period.AmountIsNumber` states its value |
| Iso8601Period.AmountText | openaev-front/src/utils/period/ISO8601Period.ts:27 | the amount text, or `1` when there is none; `Iso8601Period.AmountIsNumber` states what `Number` makes of it |
| Iso8601Period.Amount | openaev-front/src/utils/period/ISO8601Period.ts:27 | the decimal value of the amount, 1 without one; `Iso8601Period.AmountIsNumber` states that it is `Number(amount \|\| '1')` |
| Iso8601Period.IsFeminine | openaev-front/src/utils/period/ISO8601Period.ts:29-51 | minutes, hours and weeks take the feminine prefix, as `Iso8601Period.ToTranslatableStringArray` states |
| Iso8601Period.UnitWord | openaev-front/src/utils/period/ISO8601Period.ts:29-51 | the unit word of each magnitude, as `Iso8601Period.ToTranslatableStringArray` uses it |
| Period.RawExpression | openaev-front/src/utils/period/Period.ts:10-15 | the stored text of an ISO handler, and the serialised fields of a cron handler; `Period.HandleIsValid` states it is the handled text up to trailing white space |
| Period.HandlerIsValid | openaev-front/src/utils/period/Period.ts:10-15 | `isValid` of the handler's kind; `Period.HandleIsValid` states that every handler `handle` returns is valid |
| CronService.IsCalendar | openaev-api/src/main/java/io/openaev/service/period/CronService.java:62-66 | the ranges of the UTC minute, hour, day of month and ISO day of week of an instant |
| CronService.Synthesise | openaev-api/src/main/java/io/openaev/service/period/CronService.java:68-88 | the expression of each frequency with and without a step, `null` for one-shot; the `*StepFields` and `*Fields` lemmas of `CronService` state its words |
| CronService.GetCronExpression | openaev-api/src/main/java/io/openaev/service/period/CronService.java:57-59 | the expression without a step; `CronService.DailyAgreesWithDialog` and `CronService.WeeklyAgreesWithDialog` state that it matches the dialog's generators |
| CronService.FrequencyOf | openaev-api/src/main/java/io/openaev/service/period/CronService.java:106 | the frequency of a unit letter: `H` hourly, `D` daily, `W` weekly and `M` monthly |
| JsNumber.ParseNumber | openaev-front/src/utils/period/Cron.ts:216-218 | JavaScript `Number` on a string; `JsNumber.ParseDigits`, `JsNumber.ParseDecimal`, `JsNumber.BlankIsZero` and `JsNumber.ForeignIsNaN` state its values |
| JsNumber.IsNaN | openaev-front/src/utils/period/Cron.ts:217 | `isNaN(Number(text))`; `JsNumber.DigitRangeIsNaN` states that a range such as `1-5` is one |
| Colors.HashStep | openaev-front/src/utils/Colors.ts:20 | one round of the hash loop with `<<` on 32 bits; `Colors.HashIsPolyHash` states what the rounds add up to |
| Colors.Hash | openaev-front/src/utils/Colors.ts:17-21 | the hash loop over the whole text; `Colors.HashIsPolyHash` states that its low 32 bits are the 31-multiplier polynomial hash |
| Colors.ToHexText | openaev-front/src/utils/Colors.ts:26 | `value.toString(16)`; `Colors.PaddedHex` states the two-digit result |
| Colors.ParseInt16 | openaev-front/src/utils/Colors.ts:32-34 | `parseInt(s, 16)` with white space, sign and `0x` skipped, `NaN` without a digit; `Colors.ParseHexDigits` and `Colors.HexPair` state its value on hex digits |
| Colors.HexChannels | openaev-front/src/utils/Colors.ts:32-34 | the three channels read from characters 1-2, 3-4 and 5-6; `Colors.ChannelAt` states each one |
| Colors.ShowInt | openaev-front/src/utils/Colors.ts:35 | a channel as a template literal prints it, `NaN` for a failed parse |
| Colors.HexToRGB | openaev-front/src/utils/Colors.ts:31-36 | `rgba(r, g, b, transp)`; `Colors.ColourChannels` states that a generated colour reads back as its three hash bytes, `Colors.WellFormedChannels` that each is in 0..255 |
| Colors.Rank | openaev-front/src/utils/Colors.ts:47-74 | the order of the severities; `Colors.SeverityMonotone` states that a higher score never has a lower rank |
| Colors.AtLeast | openaev-front/src/utils/Colors.ts:47-59 | `score >= x` on a JavaScript number, false for `NaN` |
| Colors.Above | openaev-front/src/utils/Colors.ts:65 | `score > x` on a JavaScript number, false for `NaN` |
| FlowHandles.Opposite | openaev-front/src/utils/flows/utils.ts:5-33 | the side facing a side; `FlowHandles.SidesOpposite` states that source and target handles face each other |
| FlowHandles.SourceHandlePosition | openaev-front/src/utils/flows/utils.ts:5-18 | `getSourceHandlePosition`, bottom for an unknown direction; `FlowHandles.HandlesByDirection` states it per direction |
| FlowHandles.TargetHandlePosition | openaev-front/src/utils/flows/utils.ts:20-33 | `getTargetHandlePosition`, top for an unknown direction; `FlowHandles.HandlesByDirection` states it per direction |
| PresetDomain.Name | openaev-api/src/main/java/io/openaev/rest/domain/enums/PresetDomain.java:11-22 | the name each preset domain is stored under |
| PresetDomain.Colour | openaev-api/src/main/java/io/openaev/rest/domain/enums/PresetDomain.java:11-22 | the colour each preset domain is stored with |
| PresetDomain.FoundInKeywords | openaev-api/src/main/java/io/openaev/rest/domain/enums/PresetDomain.java:44-48 | some keyword, lower-cased, occurs in the lower-cased search value; `PresetDomain.FoundIn`, `PresetDomain.Monotone` and `PresetDomain.CaseIgnored` state its properties |
| WidgetConfiguration.SwitchAll | openaev-model/src/main/java/io/openaev/engine/api/WidgetConfiguration.java:102-107 | the renaming entries applied one after the other; `WidgetConfiguration.SwitchAllKeepsLength`, `WidgetConfiguration.SwitchTrades` and `WidgetConfiguration.ChainDependsOnOrder` state its properties, `WidgetConfiguration.RemapValues` computes it by the source's loop |
| WidgetConfiguration.RemapFilter | openaev-model/src/main/java/io/openaev/engine/api/WidgetConfiguration.java:100-108 | a filter with values gets them renamed; one without values is left alone |
| WidgetConfiguration.RemapSeries | openaev-model/src/main/java/io/openaev/engine/api/WidgetConfiguration.java:96-110 | a series whose filter group has filters gets every filter remapped, any other is left alone; `WidgetConfiguration.SkippedWithoutFilters` states the second half and `WidgetConfiguration.RemapKeepsShape` that name and filter mode are kept |
| WidgetConfiguration.RemapAllSeries | openaev-model/src/main/java/io/openaev/engine/api/WidgetConfiguration.java:94-112 | every series of a non-empty list remapped in its own position; `WidgetConfiguration.SkippedWithoutFilters` states that a missing or empty list is left alone |
| Environment.IsEmptyPath | openaev-front/src/utils/Environment.ts:47 | the base path is nil or empty; `Environment.AppBasePath` states the path built from it |
| Environment.EscapeText | openaev-front/src/utils/Environment.ts:54-56 | quotes doubled first, then newlines written as `\n`; `Environment.EscapeTextIsPerCharacter` states that it equals escaping one character at a time |
| Environment.EscapedChars | openaev-front/src/utils/Environment.ts:54-56 | the independent one-character-at-a-time escaping `Environment.EscapeTextIsPerCharacter` compares the source's chained `replaceAll` with |
| Text.Trim | openaev-front/src/admin/components/simulations/simulation/validation/expectations/ExpectationUtils.ts:61-62 | `trim()`: white space removed at both ends |
| Text.Split | openaev-front/src/utils/period/Cron.ts:447 | `split` on one separator character; `Text.SplitJoin` and `Text.JoinSplit` state that it is inverse to `join` |
| Text.Join | openaev-front/src/utils/period/Cron.ts:238 | `join` with a separator; `Text.SplitJoin` and `Text.JoinSplit` state that it is inverse to `split` |
| Text.ReplaceAll | openaev-front/src/utils/Environment.ts:55-56 | `replaceAll` of a non-empty text; `Environment.ReplaceCharCons` and `Environment.ReplaceCharAppend` state how it goes through a text |
| Text.ToUpper | openaev-front/src/utils/String.ts:86 | `toUpperCase` on ASCII letters, length and every other character kept |
| Text.ToLower | openaev-front/src/utils/String.ts:86 | `toLowerCase` on ASCII letters, length and every other character kept |
| Strings.ResolveUserNames | openaev-front/src/utils/String.ts:30-41 | the entries of `Strings.UserEntry` joined by `, ` |
| Strings.RemainingNames | openaev-front/src/utils/String.ts:56-58 | the names of the items after the visible ones, one for one and in order |
| Strings.FormatIp | openaev-front/src/utils/String.ts:94-98 | the address unchanged |
| ExpectationUtils.AssetKey | openaev-front/src/admin/components/simulations/simulation/validation/expectations/ExpectationUtils.ts:7-8 | the bucket key of an expectation: its asset when set and non-empty; `ExpectationUtils.AssetKeys` states the keys met |
| ExpectationUtils.OnAsset | openaev-front/src/admin/components/simulations/simulation/validation/expectations/ExpectationUtils.ts:5-15 | the expectations on one asset, in input order; `ExpectationUtils.AssetBucket` states that each bucket is this |
| ExpectationUtils.IsAssetGroupExpectation | openaev-front/src/admin/components/simulations/simulation/validation/expectations/ExpectationUtils.ts:17-21 | an asset group is set and neither an asset nor an agent; `ExpectationUtils.TargetKindsExclusive` states that the kinds exclude each other |
| ExpectationUtils.IsAssetExpectation | openaev-front/src/admin/components/simulations/simulation/validation/expectations/ExpectationUtils.ts:23-26 | an asset is set and no agent |
| ExpectationUtils.IsAgentExpectation | openaev-front/src/admin/components/simulations/simulation/validation/expectations/ExpectationUtils.ts:28-30 | an agent is set |
| ExpectationUtils.IsPlayerExpectation | openaev-front/src/admin/components/simulations/simulation/validation/expectations/ExpectationUtils.ts:32-34 | a user is set |
| ExpectationUtils.IsTechnical | openaev-front/src/admin/components/simulations/simulation/validation/expectations/ExpectationUtils.ts:38 | the type is `DETECTION` or `PREVENTION` |
| ExpectationUtils.TrimmedField | openaev-front/src/admin/components/simulations/simulation/validation/expectations/ExpectationUtils.ts:61-62 | `x?.trim()`: absent stays absent, a text is trimmed |
| InjectUtils.IsPrimary | openaev-api/src/main/java/io/openaev/utils/InjectUtils.java:216-229 | an expectation's team, or its asset or asset group by its kind, is among the pooled ids; `InjectUtils.PrimaryOf` states that the filter keeps exactly these |
| InjectUtils.FilledAt | openaev-api/src/main/java/io/openaev/utils/InjectUtils.java:246-262 | a cell present, not blank, with text that is not blank; `InjectUtils.CheckIfRowIsEmpty` states the row test with it |
| KillChainPhaseColumn.ExternalIdKey | openaev-front/src/admin/components/workspaces/custom_dashboards/widgets/viz/KillChainPhaseColumn.tsx:28-31 | the bucket key of a resolved entry: its external id when set and non-empty |
| KillChainPhaseColumn.WithExternalId | openaev-front/src/admin/components/workspaces/custom_dashboards/widgets/viz/KillChainPhaseColumn.tsx:29-31 | the entries with one external id, in input order; `KillChainPhaseColumn.WithExternalIdMeaning` states it |
| KillChainPhaseColumn.ValueSum | openaev-front/src/admin/components/workspaces/custom_dashboards/widgets/viz/KillChainPhaseColumn.tsx:91-92 | the values added up, an absent value counting 0; `KillChainPhaseColumn.StatCountsData` states that a pattern's success and failure are these sums over its buckets |
| KillChainPhaseColumn.Entries | openaev-front/src/admin/components/workspaces/custom_dashboards/widgets/viz/KillChainPhaseColumn.tsx:88-89 | the bucket of the pattern's external id, empty without one or for an unknown one; `KillChainPhaseColumn.UnindexedIsEmpty` states it |
| ImportMessages.Kept | openaev-front/src/admin/components/common/injects/ImportUploaderInjectFromXlsInjects.tsx:147-149 | a message with a code and a row number; `ImportMessages.KeptMessages` states that the others are skipped |
| ImportMessages.ColumnText | openaev-front/src/admin/components/common/injects/ImportUploaderInjectFromXlsInjects.tsx:153 | a column as a template literal shows it, `undefined` when absent |
| ImportMessages.GroupKey | openaev-front/src/admin/components/common/injects/ImportUploaderInjectFromXlsInjects.tsx:151-154 | unmatched columns grouped per column, every other code by itself; `ImportMessages.UnmatchedPerColumn` and `ImportMessages.OtherCodesIgnoreColumn` state both halves |
| ImportMessages.RowNum | openaev-front/src/admin/components/common/injects/ImportUploaderInjectFromXlsInjects.tsx:164 | the row number a message adds to its group |
| ImportMessages.RowNums | openaev-front/src/admin/components/common/injects/ImportUploaderInjectFromXlsInjects.tsx:164 | the row numbers of messages, one for one and in order |
| StatusUtils.TableEntry | openaev-front/src/utils/statusUtils.ts:37-41 | the table label of an upper-cased status and type, none when either is unknown; `StatusUtils.LabelIgnoresCase` states that case does not matter |
| StatusUtils.ColourTable | openaev-front/src/utils/statusUtils.ts:90-135 | the `colorMap` of `getStatusColor` by lower-case name; `StatusUtils.GetStatusColour` states the lookup |
| SecurityCoverage.IsTop | openaev-front/src/admin/components/workspaces/custom_dashboards/widgets/viz/securityCoverageUtils.ts:14-16 | where the parent loop stops: no parent, or one the map does not hold; `SecurityCoverage.TopIsStable` states that the top stays put |
| SecurityCoverage.Up | openaev-front/src/admin/components/workspaces/custom_dashboards/widgets/viz/securityCoverageUtils.ts:14-17 | one step up the parent chain, staying at the top |
| SecurityCoverage.Climb | openaev-front/src/admin/components/workspaces/custom_dashboards/widgets/viz/securityCoverageUtils.ts:14-17 | a number of steps up the parent chain |
| SecurityCoverage.ReachesTop | openaev-front/src/admin/components/workspaces/custom_dashboards/widgets/viz/securityCoverageUtils.ts:14-18 | the chain reaches its top within a number of steps |
| SecurityCoverage.Acyclic | openaev-front/src/admin/components/workspaces/custom_dashboards/widgets/viz/securityCoverageUtils.ts:12-20 | the chain is finite, so `retrieveParent` returns |
| SecurityCoverage.Root | openaev-front/src/admin/components/workspaces/custom_dashboards/widgets/viz/securityCoverageUtils.ts:12-20 | the top of a finite chain, the same whatever number of steps reaches it |
| SecurityCoverage.PhaseExternalIds | openaev-front/src/admin/components/workspaces/custom_dashboards/widgets/viz/securityCoverageUtils.ts:53-55 | the known phase external ids of a pattern's phases, none without a list; `Lookup.AllNamed` and `Lookup.KnownNames` state what is kept |
| SecurityCoverage.Kept | openaev-front/src/admin/components/workspaces/custom_dashboards/widgets/viz/securityCoverageUtils.ts:43-46 | series data with a non-empty key that names an indexed pattern; `SecurityCoverage.KeptData` and `SecurityCoverage.UnknownKeySkipped` state it |
| SecurityCoverage.KeptAcyclic | openaev-front/src/admin/components/workspaces/custom_dashboards/widgets/viz/securityCoverageUtils.ts:45-47 | the parent chain is finite for every pattern a kept datum names, the only ones `retrieveParent` is called on |
| SecurityCoverage.ResolvedSpec | openaev-front/src/admin/components/workspaces/custom_dashboards/widgets/viz/securityCoverageUtils.ts:32-60 | the kept entries resolved, in input order, never more than the data; `SecurityCoverage.ResolvedData` computes it by the source's loop |
| SecurityCoverage.PhaseKeys | openaev-front/src/admin/components/workspaces/custom_dashboards/widgets/viz/securityCoverageUtils.ts:66-67 | the phase ids an entry is filed under, none without a list; `SecurityCoverage.BuildKillChainPhaseIndex` states the index |
| DomainService.NameKeyed | openaev-api/src/main/java/io/openaev/rest/domain/DomainService.java:33-41 | every stored domain sits under its own name, as `findByName` relies on; `DomainService.UpsertKeepsNameKeyed` states that upserts keep it |
| DomainService.Upserted | openaev-api/src/main/java/io/openaev/rest/domain/DomainService.java:68-79 | the stored domain of a name when there is one, else a new domain with the assigned id and its own or the generated colour; `DomainService.UpsertExisting` and `DomainService.UpsertNew` state both cases |
| DomainService.UpsertedAll | openaev-api/src/main/java/io/openaev/rest/domain/DomainService.java:81-83 | the repository after upserting the domains in turn; `DomainService.UpsertedAllKeeps` and `DomainService.UpsertsFirstWins` state its content |
| PeriodService.MonthsAdvance | openaev-api/src/main/java/io/openaev/service/period/PeriodService.java:33 | adding a positive number of months moves a time forward, all the loop needs of calendar arithmetic |
| PeriodService.IsBlank | openaev-api/src/main/java/io/openaev/service/period/PeriodService.java:22 | `StringUtils.isBlank`: null, empty or white space only |
| RandomUtils.IsAsciiAlphanumeric | openaev-api/src/main/java/io/openaev/utils/RandomUtils.java:11 | a digit or an ASCII letter; `RandomUtils.AlphabetIsAlphanumerics` states that the alphabet is these |
| BrowserLanguage.Candidates | openaev-front/src/utils/BrowserLanguage.ts:20-24 | the `languages` list, then the four single properties, nil values dropped; `BrowserLanguage.LanguagesFirst` and `BrowserLanguage.NilIgnored` state it |
| Lookup.Named | openaev-front/src/utils/Environment.ts:85 | the table gives the id a non-empty name; `Lookup.KnownNames` states what is kept |
| ConnectorInstanceHash.KeyLe | openaev-api/src/main/java/io/openaev/helper/ConnectorInstanceHashHelper.java:37 | lexicographic order on keys; `ConnectorInstanceHash.KeyLeTotal`, `ConnectorInstanceHash.KeyLeTransitive` and `ConnectorInstanceHash.KeyLeAntisymmetric` state that it is a total order |
| ConnectorInstanceHash.Insert | openaev-api/src/main/java/io/openaev/helper/ConnectorInstanceHashHelper.java:37 | inserting an entry into a sequence sorted by key keeps it sorted and adds exactly that entry |
| ConnectorInstanceHash.Pair | openaev-api/src/main/java/io/openaev/helper/ConnectorInstanceHashHelper.java:38 | `key=value` |
| ConnectorInstanceHash.Pairs | openaev-api/src/main/java/io/openaev/helper/ConnectorInstanceHashHelper.java:38 | the `key=value` text of each entry, one for one and in order |
| ConnectorInstanceHash.Shown | openaev-api/src/main/java/io/openaev/helper/ConnectorInstanceHashHelper.java:23 | `%s` of a possibly null string: the text, or `null` |

## Left out

- Time-zone-dependent cron methods: `getLocalisedTimeValue`, `toLocalisedCronExpression` and the cron `getRecurrenceTime` read the host time zone through `Date`, which a pure model cannot see.
- `Cron.toHumanReadableString`: it delegates to the `cronstrue` library, which is not part of this model.
- Cron field regex: the pattern at `Cron.ts:71` is modelled by a hand-written recogniser that splits on `,`, `/` and `-`; a general regex engine is not modelled.
- JavaScript `Number()`: the value is an exact rational; IEEE-754 rounding, overflow to `Infinity` of very long digit runs and `-0` are not modelled.
- ISO period `isUiSupported`, `getRecurrenceTime` and `toHumanReadableString`: they are constant or the identity and are modelled by their definitions alone.
- `CronService.canHandleExpression`, `getNextOccurrence` and `getNextExecutionFromInstant`: they are cron-utils library calls. Whether the library accepts a synthesised expression is the parameter `accepts`.
- `ScheduleFrequency.fromString` is not part of this model; the `H`/`D`/`W`/`M` mapping used is the one the service's tests imply.
- The seed of `CronService`: its UTC calendar fields are given directly. `Instant` arithmetic and time zones are not modelled.
- PeriodService: time is integer seconds. Hours, days and weeks add fixed amounts; calendar month arithmetic of `LocalDateTime` is an abstract strictly increasing `addMonths`. The end-of-month clamping is therefore not modelled.
- `PeriodService.canHandleExpression` and the ISO duration parser behind it are not part of this model; the parsed increment is an input.
- `PeriodService.GetNextOccurrence`: it requires a positive quantity, since the loop never ends when a zero increment meets a seed not after now.
- `ScenarioRecurrenceService`: the handlers and their `canHandleExpression` and `getNextOccurrence` are parameters; the clock is an input.
- SHA-256 in `ConnectorInstanceHashHelper` is the parameter `sha256`.
- `SecureRandom.nextInt` in `RandomUtils` is a nondeterministic choice of an index below 62.
- `JSON.stringify` of exported content is the parameter `stringify`.
- Characters: a model `string` is a sequence of Unicode code points, while JavaScript and Java strings are sequences of UTF-16 code units. A character above U+FFFF is one code point but two code units, so `length`, `slice`, `substring`, `charCodeAt`, the regex `.` and Java `compareTo` see it differently; the lines below name each member this changes. `toUpperCase` and `toLowerCase` are modelled on ASCII letters only, and Java `Character.isWhitespace` (behind `StringUtils.isBlank`) on the ASCII range only.
- Strings.Truncate: the limit counts code points, where `str.length` and `slice` count UTF-16 units. For `"😀😀"` with limit 2 the model returns the text unchanged, while the source cuts it to `"😀..."`.
- Strings.Capitalize: case mapping covers ASCII letters only. The source maps all of Unicode: `"étape"` becomes `"Étape"`, and `"ß"` upper-cases to the two letters `"SS"`, which changes the length the model's contract states.
- Strings.CapitalizeIdempotent: it is stated for ASCII text only. On other text it is false of the source: `"ßa"` capitalises to `"SSa"` and then to `"Ssa"`.
- Strings.Pairs: the pairs are pairs of code points, where `/.{1,2}/g` without the `u` flag takes pairs of UTF-16 units. For `"a😀"` the model gives one pair, while the source splits the emoji into two lone surrogates, `"a\uD83D"` and `"\uDE00"`.
- Strings.FormatMacAddress: it inherits the gap of `Strings.Pairs`, so for a text with characters above U+FFFF the colons fall at different places than in the source.
- Colors.StringToColour: the hash adds code points, where `charCodeAt` reads UTF-16 units. For `"😀"` the model hashes the single value 0x1F600 and gives `#00f601`; the source hashes the two surrogates 0xD83D and 0xDE00 and gives `#630d1b`. `Colors.Hash` has the same gap.
- ConnectorInstanceHash.SortByKey: `ConnectorInstanceHash.KeyLe` compares code points, where Java `compareTo` compares UTF-16 units. The orders differ when a character above U+FFFF meets one in U+E000..U+FFFF: Java sorts `"😀"` (0xD83D first) before `"\uFFFD"`, and the model sorts it after.
- Environment.Pick: Ramda's `pick` copies a key when `key in obj` holds, and `in` also sees members inherited from `Object.prototype`. A requested key such as `toString` or `constructor` that the row lacks is therefore copied with the inherited function, which the model omits.
- Environment.ExportData: it inherits the `Environment.Pick` gap. For a requested key such as `toString` that a row lacks, the source exports the escaped text of the inherited function (`function toString() { [native code] }`), while the model leaves the key out.
- Environment.ExportKeys: it inherits the `Environment.Pick` gap. The source also exports each requested key that names an `Object.prototype` member, such as `toString`, when the row lacks it; the lemma's key set leaves those out.
- JavaScript object and `Map` key order: maps are Dafny `map`s, and where key order is observable it is returned as a separate `order` sequence in insertion order.
- ImportMessages.GroupMessages: its `order` is the order in which groups are created. `Object.values` in `formatMessages` lists integer-like keys first, in ascending numeric order, and only then the others in insertion order. That reordering is not modelled.
- ImportMessages.GroupMessages: the accumulator is a plain object, so a key that names a member of `Object.prototype` (`constructor`, `toString`, `__proto__` and the like) already finds a value. `acc[key].rows.push` then throws a `TypeError`. The model files such a message in an ordinary new group.
- StatusUtils.GetStatusColour: the lookup in the object literal falls through to `Object.prototype`. A status that lower-cases to `constructor` yields the `Object` function, and `__proto__` yields `Object.prototype`, where the model gives the error colour. The upper-cased lookups of `computeStatusStyle` and `getInjectExpectationLabel` cannot reach such keys.
- Colors.Hash: the accumulator is an exact integer. In JavaScript it is a double: `(hash << 5) - hash` subtracts the unreduced value, so its magnitude grows by up to about 2^31 per character, and it stops being exact after about 2^22 code units. The rounding of longer strings is not modelled.
- PresetDomain.RelevantDomains: Java `toLowerCase()` covers all of Unicode and follows the default locale. The model lower-cases ASCII letters only, so `PresetDomain.CaseIgnored` matches the source only under a locale without special mappings. Under a Turkish locale `EMAIL` lower-cases to `emaıl` and finds no domain.
- `HUMAN_EXPECTATION`, the manual-expectation test `isManualExpectation`, and the supported languages with `DEFAULT_LANG` are parameters; their constant values are not part of this model.
- `InjectUtils` payload kinds: the five kinds are an enumeration, and the string constants behind them are not part of this model. `isAssetExpectation` and `isAssetGroupExpectation` are parameters.
- `InjectUtils.duplicateInject` (a JSON deep copy) and `Hibernate.unproxy`: they are foreign.
- `hexToRGB`: the transparency is given as the text a number prints as; JavaScript number formatting is not modelled.
- `getSeverityAndColor`: the score is a JavaScript number; the `parseFloat` of a string score is not modelled.
- KillChainPhaseColumn: the selection and sort of attack patterns by phase (`sortAttackPattern`), the success rate with `Math.round`, and all rendering are left out.
- `formatMessages` of the import dialog is rendering and is left out.
- `Instant.now()` timestamps of domains: they are not modelled.
- DomainService: the generated colour and the id the repository assigns are parameters; `upserts` takes the set in its iteration order.
- `PresetDomain`: the `Map.of` iteration order is not modelled; the result is a set.
- The base class `InjectorContractBaseOutput` is not part of this model; the enums `PLATFORM_TYPE` and `PAYLOAD_EXECUTION_ARCH` are kept by name.
- `WidgetConfiguration.remap`: `Filters.java` is not part of this model, so filters are records of key, operator and values. Java list aliasing is not modelled: each value list belongs to one filter.
- `String.ts` `emptyFilled`: it depends on `isNotEmptyField` from `utils.ts`, which is not part of this model.
- `Strings.ResolveUserNames` and `Strings.FormatIp`: `resolveUserNames` maps `resolveUserName` over a list and joins the results, and `formatIp` is the identity; both are modelled by their definitions alone.
- `FlowHandles.getId` reads the clock and is left out.
- Colors.WellFormedChannels: states only that the three channels are present and in 0..255; their values are stated by `Colors.ChannelAt`.
- ConnectorInstanceHash.TransformConfigurations: its contract states only the empty cases; the content of the text is stated by `ConnectorInstanceHash.SortByKey`, `ConnectorInstanceHash.CompleteCounts` and `ConnectorInstanceHash.IterationOrderIrrelevant`.
- SecurityCoverage.RetrieveParent: it requires the parent chain from the pattern to be acyclic, since on a cycle the source loops forever.
- SecurityCoverage.RetrieveParent: `attackPatternMap[parent]` is a plain-object lookup that falls through to `Object.prototype`. A parent id `constructor` yields the `Object` function, which is truthy and has no parent, so the loop stops there and returns it; `__proto__` yields `Object.prototype` likewise. The model treats such an id as missing and returns the pattern that names it.
- SecurityCoverage.ResolveEntry: it inherits the `Object.prototype` gap of `SecurityCoverage.RetrieveParent`. When the chain reaches a parent id such as `constructor`, the source's external id is `undefined`, while the model gives the external id of the pattern that names that parent.
- SecurityCoverage.ResolvedData: it inherits the same gap: an entry whose parent chain reaches an id naming an `Object.prototype` member has an `undefined` external id in the source.
- SecurityCoverage.ResolvedData: it requires a finite parent chain only for the patterns that kept data name, the ones `retrieveParent` is called on; on a cycle among those the source loops forever. Cycles elsewhere in the map are allowed.
- SecurityCoverage.ResolvedData, KillChainPhaseColumn.AttackPatternStats: series values are JavaScript numbers. The model takes them as exact reals, so fractional values are kept, but the IEEE-754 rounding of the sums in `KillChainPhaseColumn.tsx` and `NaN` values are not modelled.

## Findings

| source | as written | input that shows it | evidently intended | confidence | as-written member | corrected member |
|---|---|---|---|---|---|---|
| openaev-front/src/utils/period/Cron.ts:150-153 | `getValue` returns the first maximal run of characters other than `*`, so markers stay in the value | `1/22` gives `1/22`; the weekday field `2#3` of a generated monthly expression gives `2#3` | the run before the first marker, `1` for `1/22` as the comment at :148 says, so the weekly recurrence of `d#w` is the day `d` | not executed | CronExamples.ValueAsWritten | Cron.IntendedValue |
| openaev-front/src/utils/period/Cron.ts:328-330 | `getWeeklyRecurrence` reads the weekday field through `getValue`, so a generated monthly expression reads back `d#w` | `0 0 0 * * 2#3` gives `2#3` | the day of the week `d`, as the comment at :325 says for `1#2` | not executed | CronExamples.MonthlyWeekdayValue | CronExamples.MonthlyWeekdayIntended |
