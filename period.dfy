/**
 * `handle`: the dispatcher that turns a stored recurrence text into a
 * period handler, trying the ISO 8601 recogniser before the cron one.
 */
module Period {
  import opened Wrappers
  import opened Text
  import Iso8601Period
  import opened Cron
  import opened CronProperties

  /** The two kinds of `PeriodExpressionHandler`. */
  datatype Handler = IsoHandler(expression: string) | CronHandler(cron: Cron)

  /** `rawExpression` of a handler; a cron handler keeps its serialised fields. */
  function RawExpression(h: Handler): string {
    match h
    case IsoHandler(e) => e
    case CronHandler(c) => ToCronExpression(c)
  }

  /** `isValid` of a handler. */
  predicate HandlerIsValid(h: Handler) {
    match h
    case IsoHandler(e) => Iso8601Period.IsValid(e)
    case CronHandler(c) => IsValid(c)
  }

  /** `handle`: null for a missing or empty text, else the first recogniser that accepts it. */
  function Handle(expression: Option<string>): (r: Option<Handler>)
    ensures r.None? <==> expression.None? || expression.value == ""
                         || (!Iso8601Period.CanHandleExpression(expression.value) && !CanHandleExpression(expression.value))
    ensures r.Some? && r.value.CronHandler? ==> !Iso8601Period.CanHandleExpression(expression.value)
  {
    match expression
    case None => None
    case Some(e) =>
      if e == "" then None
      else if Iso8601Period.CanHandleExpression(e) then Some(IsoHandler(e))
      else if CanHandleExpression(e) then Some(CronHandler(Parse(e).value))
      else None
  }

  /** Every handler `handle` returns is valid, and it carries the text up to trailing white space. */
  lemma {:induction false} HandleIsValid(e: string)
    ensures Handle(Some(e)).Some? ==> HandlerIsValid(Handle(Some(e)).value)
    ensures Handle(Some(e)).Some? ==> RawExpression(Handle(Some(e)).value) == TrimEnd(e)
  {
    if Handle(Some(e)).Some? {
      match Handle(Some(e)).value
      case IsoHandler(_) =>
        TrimEndKeeps(e);
      case CronHandler(c) =>
        RoundTrip(e);
    }
  }

  /** An ISO period always wins over the cron reading. */
  lemma {:induction false} IsoFirst(e: string)
    requires Iso8601Period.CanHandleExpression(e)
    ensures Handle(Some(e)) == Some(IsoHandler(e))
  {
  }
}
