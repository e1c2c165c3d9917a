/**
 * The scenario scheduler asks its period handlers, in order, which one
 * understands the scenario's recurrence, and lets the first that does
 * compute the next execution time.
 */
module ScenarioRecurrence {
  import opened Wrappers

  /** The scenario fields the scheduler reads; instants are whole seconds. */
  datatype Scenario = Scenario(recurrence: Option<string>, recurrenceStart: Option<int>)

  /** `findFirst` over `filter(canHandle)`: the index of the first handler that accepts. */
  function FirstAccepting<H>(handlers: seq<H>, canHandle: (H, Option<string>) -> bool, e: Option<string>)
    : (r: Option<nat>)
    ensures r.Some? ==>
      r.value < |handlers| && canHandle(handlers[r.value], e)
      && forall j :: 0 <= j < r.value ==> !canHandle(handlers[j], e)
    ensures r.None? <==> forall j :: 0 <= j < |handlers| ==> !canHandle(handlers[j], e)
  {
    if |handlers| == 0 then None
    else if canHandle(handlers[0], e) then Some(0)
    else
      var rest := FirstAccepting(handlers[1..], canHandle, e);
      assert forall j :: 1 <= j < |handlers| ==> handlers[j] == handlers[1..][j - 1];
      if rest.Some? then Some(rest.value + 1) else None
  }

  /**
   * `getNextExecutionTime`: empty when no handler accepts the recurrence;
   * otherwise the first accepting handler's answer for the recurrence start,
   * the current time and the recurrence, unchanged.
   */
  function GetNextExecutionTime<H>(handlers: seq<H>, canHandle: (H, Option<string>) -> bool,
                                   next: (H, Option<int>, int, Option<string>) -> Option<int>,
                                   scenario: Scenario, currentTime: int): (r: Option<int>)
    ensures FirstAccepting(handlers, canHandle, scenario.recurrence).None? ==> r.None?
    ensures forall i :: 0 <= i < |handlers| && canHandle(handlers[i], scenario.recurrence)
                        && (forall j :: 0 <= j < i ==> !canHandle(handlers[j], scenario.recurrence))
                        ==> r == next(handlers[i], scenario.recurrenceStart, currentTime, scenario.recurrence)
  {
    match FirstAccepting(handlers, canHandle, scenario.recurrence)
    case None => None
    case Some(i) => next(handlers[i], scenario.recurrenceStart, currentTime, scenario.recurrence)
  }

  /**
   * Handlers after the first accepting one are never consulted: replacing
   * them changes nothing.
   */
  lemma {:induction false} LaterHandlersIgnored<H>(handlers: seq<H>, others: seq<H>, i: nat,
                                canHandle: (H, Option<string>) -> bool,
                                next: (H, Option<int>, int, Option<string>) -> Option<int>,
                                scenario: Scenario, currentTime: int)
    requires i < |handlers| && i < |others| && handlers[..i + 1] == others[..i + 1]
    requires canHandle(handlers[i], scenario.recurrence)
    ensures GetNextExecutionTime(handlers, canHandle, next, scenario, currentTime)
         == GetNextExecutionTime(others, canHandle, next, scenario, currentTime)
  {
    var k := FirstAccepting(handlers, canHandle, scenario.recurrence);
    assert k.Some? && k.value <= i;
    assert forall j :: 0 <= j <= i ==> handlers[j] == handlers[..i + 1][j] == others[j];
    var k' := FirstAccepting(others, canHandle, scenario.recurrence);
    assert k'.Some? && k'.value <= i;
    assert k == k';
  }
}
