/**
 * The front end's status tables: the label of an inject expectation's
 * status, the chip style of a status and the colour of a status. Colours
 * and styles are kept as names; the theme's actual values are not modelled.
 */
module StatusUtils {
  import opened Wrappers
  import opened Text

  // ---------------------------------------------------------------- expectation labels

  datatype ExpectationStatus = Success | Failed | Partial | Pending
  datatype TechnicalType = Prevention | Detection | Vulnerability

  /** The statuses of `injectExpectationMap`, by their upper-case name. */
  function StatusNamed(s: string): (r: Option<ExpectationStatus>)
    ensures r.Some? ==> s in {"SUCCESS", "FAILED", "PARTIAL", "PENDING"}
  {
    if s == "SUCCESS" then Some(Success)
    else if s == "FAILED" then Some(Failed)
    else if s == "PARTIAL" then Some(Partial)
    else if s == "PENDING" then Some(Pending)
    else None
  }

  /** The technical expectation types of `injectExpectationMap`, by their upper-case name. */
  function TypeNamed(t: string): (r: Option<TechnicalType>)
    ensures r.Some? ==> t in {"PREVENTION", "DETECTION", "VULNERABILITY"}
  {
    if t == "PREVENTION" then Some(Prevention)
    else if t == "DETECTION" then Some(Detection)
    else if t == "VULNERABILITY" then Some(Vulnerability)
    else None
  }

  /** `injectExpectationMap`. */
  function TableLabel(status: ExpectationStatus, kind: TechnicalType): (r: string)
    ensures r != ""
  {
    match status
    case Success => (match kind case Prevention => "Prevented" case Detection => "Detected" case Vulnerability => "Not Vulnerable")
    case Failed => (match kind case Prevention => "Not Prevented" case Detection => "Not Detected" case Vulnerability => "Vulnerable")
    case Partial => (match kind case Prevention => "Partially Prevented" case Detection => "Partially Detected" case Vulnerability => "Partially Vulnerable")
    case Pending => "Pending"
  }

  /** The table entry for an upper-cased status and type, when there is one. */
  function TableEntry(status: string, kind: string): Option<string> {
    var s, t := StatusNamed(ToUpper(status)), TypeNamed(ToUpper(kind));
    if s.Some? && t.Some? then Some(TableLabel(s.value, t.value)) else None
  }

  /**
   * `computeInjectExpectationLabel`: nothing for a missing or empty status or
   * type; the table entry for their upper-cased names; otherwise the raw
   * status when the type as given is a human expectation type.
   */
  function InjectExpectationLabel(status: Option<string>, kind: Option<string>, humanExpectation: seq<string>): (r: Option<string>)
    ensures status.None? || status.value == "" || kind.None? || kind.value == "" ==> r.None?
    ensures status.Some? && status.value != "" && kind.Some? && kind.value != "" ==>
      r == if TableEntry(status.value, kind.value).Some? then TableEntry(status.value, kind.value)
           else if kind.value in humanExpectation then status else None
  {
    if status.None? || status.value == "" || kind.None? || kind.value == "" then None
    else
      var result := TableEntry(status.value, kind.value);
      if result.Some? then result
      else if kind.value in humanExpectation then status
      else None
  }

  /** The table lookup ignores the case of both arguments. */
  lemma {:induction false} LabelIgnoresCase(status: string, kind: string, humanExpectation: seq<string>)
    requires TableEntry(status, kind).Some?
    ensures InjectExpectationLabel(Some(ToLower(status)), Some(ToLower(kind)), humanExpectation)
      == InjectExpectationLabel(Some(status), Some(kind), humanExpectation)
  {
    UpperForgetsCase(status);
    UpperForgetsCase(kind);
  }

  /** A pending expectation is labelled `Pending` whatever its technical type. */
  lemma {:induction false} PendingLabel(kind: string, humanExpectation: seq<string>)
    requires TypeNamed(ToUpper(kind)).Some?
    ensures InjectExpectationLabel(Some("PENDING"), Some(kind), humanExpectation) == Some("Pending")
  {
    assert ToUpper("PENDING") == "PENDING";
  }

  /** Success and failure get complementary labels: one is the other with `Not ` in front. */
  lemma {:induction false} SuccessFailureComplement(kind: TechnicalType)
    ensures TableLabel(Success, kind) != TableLabel(Failed, kind)
    ensures TableLabel(Failed, kind) == "Not " + TableLabel(Success, kind)
      || TableLabel(Success, kind) == "Not " + TableLabel(Failed, kind)
  {
  }

  /** Outside the table, a status is echoed only for a type listed exactly as given. */
  lemma {:induction false} HumanFallback(status: string, kind: string, humanExpectation: seq<string>)
    requires status != "" && kind != "" && TableEntry(status, kind).None?
    ensures InjectExpectationLabel(Some(status), Some(kind), humanExpectation).Some? <==> kind in humanExpectation
  {
  }

  // ---------------------------------------------------------------- status chip style

  datatype Style = Red | Purple | LightPurple | Orange | Yellow | Blue | Green | Canceled | Grey | BlueGrey

  /** The `statusMap` of `computeStatusStyle`, on upper-case names. */
  function StyleTable(n: string): (r: Option<Style>)
    ensures r != Some(BlueGrey)
  {
    if n in {"ERROR", "FAILED", "ASSET_INACTIVE", "NOT PREVENTED", "NOT DETECTED", "VULNERABLE"} then Some(Red)
    else if n == "MAYBE_PREVENTED" then Some(Purple)
    else if n == "MAYBE_PARTIAL_PREVENTED" then Some(LightPurple)
    else if n in {"PARTIAL", "PAUSED", "PARTIALLY PREVENTED", "PARTIALLY DETECTED"} then Some(Orange)
    else if n == "QUEUING" then Some(Yellow)
    else if n in {"EXECUTING", "PENDING", "SCHEDULED"} then Some(Blue)
    else if n in {"SUCCESS", "RUNNING", "PREVENTED", "DETECTED"} then Some(Green)
    else if n == "CANCELED" then Some(Canceled)
    else if n in {"FINISHED", "NOT_PLANNED"} then Some(Grey)
    else None
  }

  /** `computeStatusStyle`: the style of the upper-cased status, `blueGrey` when it has none. */
  function ComputeStatusStyle(status: Option<string>): (r: Style)
    ensures status.None? ==> r == BlueGrey
    ensures status.Some? ==> (r == BlueGrey <==> StyleTable(ToUpper(status.value)).None?)
    ensures status.Some? && StyleTable(ToUpper(status.value)).Some? ==> r == StyleTable(ToUpper(status.value)).value
  {
    var normalized := ToUpper(if status.Some? then status.value else "");
    var found := StyleTable(normalized);
    if found.Some? then found.value else BlueGrey
  }

  /** The chip style does not depend on the case of the status. */
  lemma {:induction false} StyleIgnoresCase(status: string)
    ensures ComputeStatusStyle(Some(ToLower(status))) == ComputeStatusStyle(Some(status))
    ensures ComputeStatusStyle(Some(ToUpper(status))) == ComputeStatusStyle(Some(status))
  {
    UpperForgetsCase(status);
  }

  // ---------------------------------------------------------------- status colour

  datatype Colour =
    | SuccessMain | Grey500 | OrangeColour | WarningMain | PurpleColour | LightPurpleColour
    | BlueColour | YellowColour | ErrorMain | CanceledColour

  /** The `colorMap` of `getStatusColor`, on lower-case names. */
  function ColourTable(n: string): Option<Colour> {
    if n in {"prevented", "detected", "not vulnerable", "successful", "success", "100", "ok", "on-going", "running"} then Some(SuccessMain)
    else if n in {"finished", "pending", "draft", "not_planned"} then Some(Grey500)
    else if n in {"partial", "update"} then Some(OrangeColour)
    else if n in {"partially prevented", "partially detected", "paused"} then Some(WarningMain)
    else if n == "maybe_prevented" then Some(PurpleColour)
    else if n == "maybe_partial_prevented" then Some(LightPurpleColour)
    else if n in {"scheduled", "executing"} then Some(BlueColour)
    else if n == "queuing" then Some(YellowColour)
    else if n in {"failed", "undetected", "unprevented", "vulnerable", "0", "replace", "error"} then Some(ErrorMain)
    else if n == "canceled" then Some(CanceledColour)
    else None
  }

  /** `getStatusColor`: the colour of the lower-cased status, `error.main` when it has none. */
  function GetStatusColour(status: Option<string>): (r: Colour)
    ensures status.None? ==> r == ErrorMain
    ensures status.Some? && ColourTable(ToLower(status.value)).None? ==> r == ErrorMain
    ensures status.Some? && ColourTable(ToLower(status.value)).Some? ==> r == ColourTable(ToLower(status.value)).value
  {
    var normalized := ToLower(if status.Some? then status.value else "");
    var found := ColourTable(normalized);
    if found.Some? then found.value else ErrorMain
  }

  /** The colour does not depend on the case of the status. */
  lemma {:induction false} ColourIgnoresCase(status: string)
    ensures GetStatusColour(Some(ToUpper(status))) == GetStatusColour(Some(status))
    ensures GetStatusColour(Some(ToLower(status))) == GetStatusColour(Some(status))
  {
    UpperForgetsCase(status);
    assert ToLower(ToLower(status)) == ToLower(status) by {
      assert forall i :: 0 <= i < |status| ==> ToLowerChar(ToLowerChar(status[i])) == ToLowerChar(status[i]);
    }
  }
}
