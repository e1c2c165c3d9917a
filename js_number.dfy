/**
 * JavaScript `Number(s)` applied to a string: the StringNumericLiteral
 * grammar (surrounding white space, the empty string, `Infinity`, the
 * `0x`/`0o`/`0b` prefixes, decimals with a fraction and an exponent).
 * Values are exact rationals; rounding to an IEEE double is not modelled.
 */
module JsNumber {
  import opened Text
  import opened Wrappers

  datatype Number = NaN | Finite(value: real) | Infinity(negative: bool)

  function Pow10(k: nat): (r: real)
    ensures r >= 1.0
  {
    if k == 0 then 1.0 else 10.0 * Pow10(k - 1)
  }

  /** The value of digit `c` in base `radix` (2, 8 or 16), or -1 when it is not one. */
  function RadixDigit(c: char, radix: nat): int {
    if '0' <= c <= '9' && (c as int - '0' as int) < radix then c as int - '0' as int
    else if radix == 16 && 'a' <= c <= 'f' then c as int - 'a' as int + 10
    else if radix == 16 && 'A' <= c <= 'F' then c as int - 'A' as int + 10
    else -1
  }

  predicate AllRadixDigits(s: string, radix: nat) {
    forall i :: 0 <= i < |s| ==> RadixDigit(s[i], radix) >= 0
  }

  function RadixValue(s: string, radix: nat): nat
    requires AllRadixDigits(s, radix)
    decreases |s|
  {
    if |s| == 0 then 0
    else RadixValue(s[..|s| - 1], radix) * radix + RadixDigit(s[|s| - 1], radix)
  }

  /** The first index of `c` or `d` in `s`, or `|s|` when neither occurs. */
  function FirstOf(s: string, c: char, d: char): (i: nat)
    ensures i <= |s|
    ensures forall k :: 0 <= k < i ==> s[k] != c && s[k] != d
    ensures i < |s| ==> s[i] == c || s[i] == d
  {
    if |s| == 0 then 0
    else if s[0] == c || s[0] == d then 0
    else 1 + FirstOf(s[1..], c, d)
  }

  /** SignedInteger of an exponent part: an optional sign and at least one digit. */
  function SignedInteger(s: string): Option<int> {
    if |s| > 0 && (s[0] == '+' || s[0] == '-') then
      var digits := s[1..];
      if |digits| > 0 && AllDigits(digits) then
        Some(if s[0] == '-' then -(DigitsValue(digits) as int) else DigitsValue(digits) as int)
      else None
    else if |s| > 0 && AllDigits(s) then Some(DigitsValue(s) as int)
    else None
  }

  /** The pieces of a decimal literal: digits before and after the point, and the exponent. */
  datatype DecimalParts = DecimalParts(whole: string, fraction: string, exponent: int)

  /** StrUnsignedDecimalLiteral other than `Infinity`, split into its pieces. */
  function DecimalShape(u: string): (r: Option<DecimalParts>)
    ensures r.Some? ==> AllDigits(r.value.whole) && AllDigits(r.value.fraction)
  {
    var e := FirstOf(u, 'e', 'E');
    var mantissa := u[..e];
    var exponent := if e < |u| then SignedInteger(u[e + 1..]) else Some(0);
    var d := FirstOf(mantissa, '.', '.');
    var whole := mantissa[..d];
    var fraction := if d < |mantissa| then mantissa[d + 1..] else "";
    if exponent.Some? && AllDigits(whole) && AllDigits(fraction) && |whole| + |fraction| > 0 then
      Some(DecimalParts(whole, fraction, exponent.value))
    else None
  }

  /** The exact value of a decimal literal's pieces. */
  function DecimalValue(p: DecimalParts): real
    requires AllDigits(p.whole) && AllDigits(p.fraction)
  {
    var m := DigitsValue(p.whole + p.fraction) as real / Pow10(|p.fraction|);
    if p.exponent >= 0 then m * Pow10(p.exponent) else m / Pow10(-p.exponent)
  }

  /** StrUnsignedDecimalLiteral, negated when `negative`. */
  function UnsignedDecimal(u: string, negative: bool): Number {
    if u == "Infinity" then Infinity(negative)
    else
      match DecimalShape(u)
      case None => NaN
      case Some(p) => Finite(if negative then -DecimalValue(p) else DecimalValue(p))
  }

  /** The base a `0x`, `0o` or `0b` prefix selects, if `t` starts with one. */
  function RadixPrefix(t: string): Option<nat> {
    if |t| >= 2 && t[0] == '0' then
      if t[1] == 'x' || t[1] == 'X' then Some(16)
      else if t[1] == 'o' || t[1] == 'O' then Some(8)
      else if t[1] == 'b' || t[1] == 'B' then Some(2)
      else None
    else None
  }

  /** StrNumericLiteral, for a string with no surrounding white space. */
  function Literal(t: string): Number {
    match RadixPrefix(t)
    case Some(radix) =>
      var digits := t[2..];
      if |digits| > 0 && AllRadixDigits(digits, radix) then Finite(RadixValue(digits, radix) as real) else NaN
    case None =>
      if |t| > 0 && t[0] == '+' then UnsignedDecimal(t[1..], false)
      else if |t| > 0 && t[0] == '-' then UnsignedDecimal(t[1..], true)
      else UnsignedDecimal(t, false)
  }

  /** `Number(s)`: white space around the literal is ignored and a blank string is 0. */
  function ParseNumber(s: string): Number {
    var t := Trim(s);
    if t == "" then Finite(0.0) else Literal(t)
  }

  /** `isNaN(Number(s))`. */
  predicate IsNaN(s: string) { ParseNumber(s) == NaN }

  /** Characters that occur in no StringNumericLiteral. */
  predicate ForeignToNumbers(c: char) {
    c == ',' || c == '/' || c == '*' || c == '?' || c == 'L' || c == '#' || c == '|'
  }

  lemma {:induction false} TrimKeepsDigits(s: string)
    requires |s| > 0 && AllDigits(s)
    ensures Trim(s) == s
  {
    assert !IsJsWhitespace(s[|s| - 1]);
    assert TrimEnd(s) == s;
    assert !IsJsWhitespace(s[0]);
  }

  lemma {:induction false} FirstOfAbsent(s: string, c: char, d: char)
    requires forall k :: 0 <= k < |s| ==> s[k] != c && s[k] != d
    ensures FirstOf(s, c, d) == |s|
  {
  }

  /** A run of decimal digits reads back as its value; leading zeros do not matter. */
  lemma {:induction false} ParseDigits(s: string)
    requires |s| > 0 && AllDigits(s)
    ensures ParseNumber(s) == Finite(DigitsValue(s) as real)
  {
    TrimKeepsDigits(s);
    assert RadixPrefix(s) == None by { assert |s| >= 2 ==> IsDigit(s[1]); }
    assert s != "Infinity" by { assert IsDigit(s[0]); }
    DigitsShape(s);
    WholeValue(s);
  }

  /** A whole number without fraction or exponent has its digits' value. */
  lemma {:induction false} WholeValue(s: string)
    requires AllDigits(s)
    ensures DecimalValue(DecimalParts(s, "", 0)) == DigitsValue(s) as real
  {
    assert s + "" == s;
    assert Pow10(0) == 1.0;
  }

  /** A run of decimal digits is a whole number with no fraction and no exponent. */
  lemma {:induction false} DigitsShape(s: string)
    requires |s| > 0 && AllDigits(s)
    ensures DecimalShape(s) == Some(DecimalParts(s, "", 0))
  {
    FirstOfAbsent(s, 'e', 'E');
    FirstOfAbsent(s, '.', '.');
    assert s[..|s|] == s;
  }

  /** The decimal rendering of a natural number reads back as that number. */
  lemma {:induction false} ParseDecimal(n: nat)
    ensures ParseNumber(Dec(n)) == Finite(n as real)
  {
    ParseDigits(Dec(n));
    DigitsValueOfDec(n);
  }

  /** A blank string converts to zero, so `isNaN('')` is false. */
  lemma {:induction false} BlankIsZero(s: string)
    requires forall i :: 0 <= i < |s| ==> IsJsWhitespace(s[i])
    ensures ParseNumber(s) == Finite(0.0)
  {
    assert TrimEnd(s) == "";
  }

  lemma {:induction false} DecimalShapeChars(u: string)
    ensures DecimalShape(u).Some? ==> forall k :: 0 <= k < |u| ==> !ForeignToNumbers(u[k])
  {
    if DecimalShape(u).Some? {
      var e := FirstOf(u, 'e', 'E');
      var mantissa := u[..e];
      var d := FirstOf(mantissa, '.', '.');
      forall k | 0 <= k < |u| ensures !ForeignToNumbers(u[k]) {
        if k < d {
          assert u[k] == mantissa[..d][k];
        } else if k < e && k > d {
          assert u[k] == mantissa[d + 1..][k - d - 1];
        } else if k > e {
          var x := u[e + 1..];
          assert u[k] == x[k - e - 1];
          if x[0] == '+' || x[0] == '-' {
            if k > e + 1 { assert u[k] == x[1..][k - e - 2]; }
          }
        }
      }
    }
  }

  lemma {:induction false} UnsignedDecimalChars(u: string, negative: bool)
    ensures UnsignedDecimal(u, negative) != NaN ==> forall k :: 0 <= k < |u| ==> !ForeignToNumbers(u[k])
  {
    if u == "Infinity" {
      forall k | 0 <= k < |u| ensures !ForeignToNumbers(u[k]) {
        assert u[k] == "Infinity"[k];
      }
    } else {
      DecimalShapeChars(u);
    }
  }

  /** A character that is not white space survives trimming. */
  lemma {:induction false} TrimmedIndex(s: string, i: nat) returns (k: nat)
    requires i < |s| && !IsJsWhitespace(s[i])
    ensures k < |Trim(s)| && Trim(s)[k] == s[i]
  {
    var e := TrimEnd(s);
    assert i < |e|;
    assert e[i] == s[i];
    var t := TrimStart(e);
    k := i - (|e| - |t|);
    assert e[|e| - |t|..][k] == e[i];
  }

  lemma {:induction false} LiteralChars(t: string)
    ensures Literal(t) != NaN ==> forall k :: 0 <= k < |t| ==> !ForeignToNumbers(t[k])
  {
    if Literal(t) != NaN {
      if RadixPrefix(t).Some? {
        RadixLiteralChars(t);
      } else if |t| > 0 && (t[0] == '+' || t[0] == '-') {
        SignedLiteralChars(t);
      } else {
        UnsignedDecimalChars(t, false);
      }
    }
  }

  lemma {:induction false} RadixLiteralChars(t: string)
    requires RadixPrefix(t).Some? && |t[2..]| > 0 && AllRadixDigits(t[2..], RadixPrefix(t).value)
    ensures forall k :: 0 <= k < |t| ==> !ForeignToNumbers(t[k])
  {
    forall k | 0 <= k < |t| ensures !ForeignToNumbers(t[k]) {
      if k >= 2 { assert t[k] == t[2..][k - 2]; }
    }
  }

  lemma {:induction false} SignedLiteralChars(t: string)
    requires |t| > 0 && (t[0] == '+' || t[0] == '-') && UnsignedDecimal(t[1..], t[0] == '-') != NaN
    ensures forall k :: 0 <= k < |t| ==> !ForeignToNumbers(t[k])
  {
    UnsignedDecimalChars(t[1..], t[0] == '-');
    forall k | 0 <= k < |t| ensures !ForeignToNumbers(t[k]) {
      if k >= 1 { assert t[k] == t[1..][k - 1]; }
    }
  }

  /** Every character of a number's text is white space or can occur in a literal. */
  lemma {:induction false} NumberChars(s: string)
    ensures !IsNaN(s) ==> forall k :: 0 <= k < |s| ==> !ForeignToNumbers(s[k])
  {
    if !IsNaN(s) {
      var t := Trim(s);
      LiteralChars(t);
      forall k | 0 <= k < |s| ensures !ForeignToNumbers(s[k]) {
        if !IsJsWhitespace(s[k]) {
          var j := TrimmedIndex(s, k);
          assert t[j] == s[k];
        }
      }
    }
  }

  /** A string containing a character such as `,`, `/`, `*`, `?`, `#` or `L` is not a number. */
  lemma {:induction false} ForeignIsNaN(s: string, i: nat)
    requires i < |s| && ForeignToNumbers(s[i])
    ensures IsNaN(s)
  {
    NumberChars(s);
  }

  /** Text that starts and ends with a digit and has no radix prefix is read as a decimal. */
  lemma {:induction false} DigitLed(s: string)
    requires |s| > 0 && IsDigit(s[0]) && IsDigit(s[|s| - 1]) && RadixPrefix(s) == None
    ensures ParseNumber(s) == UnsignedDecimal(s, false) && s != "Infinity"
  {
    Untrimmed(s);
    assert s[0] != '+' && s[0] != '-';
    assert s[0] != "Infinity"[0];
  }

  lemma {:induction false} Untrimmed(s: string)
    requires |s| > 0 && !IsJsWhitespace(s[0]) && !IsJsWhitespace(s[|s| - 1])
    ensures Trim(s) == s
  {
    assert TrimEnd(s) == s;
  }

  /** A range `a-b` of digit runs is not a number. */
  lemma {:induction false} DigitRangeIsNaN(a: string, b: string)
    requires |a| > 0 && AllDigits(a) && |b| > 0 && AllDigits(b)
    ensures IsNaN(a + "-" + b)
  {
    var s := a + "-" + b;
    assert s[0] == a[0] && s[|s| - 1] == b[|b| - 1];
    assert s[1] == '-' || s[1] == a[1];
    DigitLed(s);
    RangeShape(a, b);
  }

  lemma {:induction false} RangeShape(a: string, b: string)
    requires |a| > 0 && AllDigits(a) && |b| > 0 && AllDigits(b)
    ensures DecimalShape(a + "-" + b) == None
  {
    var s := a + "-" + b;
    assert forall k :: 0 <= k < |s| ==> IsDigit(s[k]) || s[k] == '-';
    FirstOfAbsent(s, 'e', 'E');
    FirstOfAbsent(s, '.', '.');
    assert s[..|s|] == s;
    assert s[|a|] == '-';
  }
}
