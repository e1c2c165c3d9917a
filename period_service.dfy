/**
 * The back end's next occurrence of an ISO 8601 period: starting from the
 * seed, add the period until the occurrence lies strictly after now.
 * Instants are whole seconds of UTC local time.
 */
module PeriodService {
  import opened Wrappers
  import opened Text

  datatype TemporalUnit = Hours | Days | Weeks | Months

  /** What the period parser returns: a quantity of one unit. */
  datatype TemporalIncrement = TemporalIncrement(quantity: int, unit: TemporalUnit)

  /** The length of the fixed units; a month has no fixed length. */
  function UnitSeconds(u: TemporalUnit): (r: nat)
    requires u != Months
    ensures r > 0
  {
    match u
    case Hours => 3600
    case Days => 86400
    case Weeks => 604800
  }

  /**
   * Calendar month addition, clamped to the last day of the month. It is
   * kept abstract; all the loop needs is that adding a positive number of
   * months moves forward.
   */
  ghost predicate MonthsAdvance(addMonths: (int, int) -> int) {
    forall t, q :: q > 0 ==> addMonths(t, q) > t
  }

  /** `LocalDateTime.plus(quantity, unit)`. */
  function Plus(t: int, increment: TemporalIncrement, addMonths: (int, int) -> int): (r: int)
    requires increment.quantity > 0 && MonthsAdvance(addMonths)
    ensures r > t
  {
    if increment.unit == Months then addMonths(t, increment.quantity)
    else t + increment.quantity * UnitSeconds(increment.unit)
  }

  /** The occurrence `k` steps after `t`, each step added to the previous occurrence. */
  function Iterate(t: int, increment: TemporalIncrement, addMonths: (int, int) -> int, k: nat): (r: int)
    requires increment.quantity > 0 && MonthsAdvance(addMonths)
    ensures r >= t + k
    decreases k
  {
    if k == 0 then t else Iterate(Plus(t, increment, addMonths), increment, addMonths, k - 1)
  }

  /** The first occurrence from `t` on that lies strictly after `now`. */
  function FirstAfter(t: int, now: int, increment: TemporalIncrement, addMonths: (int, int) -> int): (r: int)
    requires increment.quantity > 0 && MonthsAdvance(addMonths)
    ensures r > now
    ensures t > now ==> r == t
    decreases now - t
  {
    if t > now then t else FirstAfter(Plus(t, increment, addMonths), now, increment, addMonths)
  }

  /** `StringUtils.isBlank`: null, empty or white space only. */
  predicate IsBlank(s: Option<string>) {
    s.None? || IsJavaBlank(s.value)
  }

  /**
   * `getNextOccurrence`: empty for a blank period or a missing seed;
   * otherwise step the seed until it lies strictly after now. `increment`
   * is what the period parser makes of the text.
   */
  method GetNextOccurrence(seed: Option<int>, now: int, period: Option<string>,
                           increment: TemporalIncrement, addMonths: (int, int) -> int)
    returns (r: Option<int>)
    requires increment.quantity > 0 && MonthsAdvance(addMonths)
    ensures r.None? <==> IsBlank(period) || seed.None?
    ensures r.Some? ==> r.value == FirstAfter(seed.value, now, increment, addMonths)
  {
    if IsBlank(period) || seed.None? {
      return None;
    }
    var occurrence := seed.value;
    while occurrence < now || occurrence == now
      invariant FirstAfter(occurrence, now, increment, addMonths) == FirstAfter(seed.value, now, increment, addMonths)
      decreases now - occurrence
    {
      occurrence := Plus(occurrence, increment, addMonths);
    }
    return Some(occurrence);
  }

  /**
   * The first occurrence after now is the seed advanced by the least
   * number of steps that passes now.
   */
  lemma {:induction false} FirstAfterIsLeast(t: int, now: int, increment: TemporalIncrement,
                                             addMonths: (int, int) -> int)
    returns (k: nat)
    requires increment.quantity > 0 && MonthsAdvance(addMonths)
    ensures FirstAfter(t, now, increment, addMonths) == Iterate(t, increment, addMonths, k)
    ensures Iterate(t, increment, addMonths, k) > now
    ensures forall j: nat :: j < k ==> Iterate(t, increment, addMonths, j) <= now
    decreases now - t
  {
    if t > now {
      k := 0;
    } else {
      var next := Plus(t, increment, addMonths);
      var k' := FirstAfterIsLeast(next, now, increment, addMonths);
      k := k' + 1;
      forall j: nat | j < k ensures Iterate(t, increment, addMonths, j) <= now {
        if j > 0 {
          assert Iterate(t, increment, addMonths, j) == Iterate(next, increment, addMonths, j - 1);
        }
      }
    }
  }

  /** A seed equal to now is advanced at least once. */
  lemma {:induction false} SeedAtNow(now: int, increment: TemporalIncrement, addMonths: (int, int) -> int)
    requires increment.quantity > 0 && MonthsAdvance(addMonths)
    ensures FirstAfter(now, now, increment, addMonths) == FirstAfter(Plus(now, increment, addMonths), now, increment, addMonths)
    ensures FirstAfter(now, now, increment, addMonths) != now
  {
  }

  /**
   * Each step starts from the previous occurrence, not from the seed: the
   * occurrence after `k + 1` steps is one step after the one after `k`.
   * With months this keeps a clamp (January 30 to February 28) from then on.
   */
  lemma {:induction false} IterateStep(t: int, increment: TemporalIncrement, addMonths: (int, int) -> int, k: nat)
    requires increment.quantity > 0 && MonthsAdvance(addMonths)
    ensures Iterate(t, increment, addMonths, k + 1) == Plus(Iterate(t, increment, addMonths, k), increment, addMonths)
    decreases k
  {
    if k > 0 {
      IterateStep(Plus(t, increment, addMonths), increment, addMonths, k - 1);
    }
  }

  /** With a fixed unit the occurrence is the seed plus a whole number of periods. */
  lemma {:induction false} FixedIterate(t: int, increment: TemporalIncrement, addMonths: (int, int) -> int, k: nat)
    requires increment.quantity > 0 && MonthsAdvance(addMonths) && increment.unit != Months
    ensures Iterate(t, increment, addMonths, k) == t + k * increment.quantity * UnitSeconds(increment.unit)
    decreases k
  {
    if k > 0 {
      FixedIterate(Plus(t, increment, addMonths), increment, addMonths, k - 1);
      assert (k - 1) * increment.quantity * UnitSeconds(increment.unit) + increment.quantity * UnitSeconds(increment.unit)
        == k * increment.quantity * UnitSeconds(increment.unit);
    }
  }
}
