/** The shared vocabulary of the period expression handlers (cron and ISO 8601). */
module PeriodExpression {
  /** The order of magnitude `getRecurrenceMagnitude` reports. */
  datatype Magnitude = Minutely | Hourly | Daily | Weekly | Monthly

  /** An hour and a minute of the day, as `getRecurrenceTime` reports them. */
  datatype LocalHourMinute = LocalHourMinute(hour: int, minute: int)
}
