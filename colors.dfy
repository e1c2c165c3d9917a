/**
 * Colours of the front end: a string hashed into a `#rrggbb` colour, the
 * channels of such a colour, and the CVSS severity bands.
 */
module Colors {
  import opened Wrappers
  import opened Text
  import opened JsNumber

  const Two32: int := 0x1_0000_0000

  /** JavaScript `ToInt32`: the value modulo 2^32, read as a signed 32-bit integer. */
  function ToInt32(x: int): (r: int)
    ensures -0x8000_0000 <= r < 0x8000_0000 && (r - x) % Two32 == 0
  {
    var u := x % Two32;
    if u >= 0x8000_0000 then u - Two32 else u
  }

  /** One round of the hash loop: `charCode + ((hash << 5) - hash)`, with `<<` on 32 bits. */
  function HashStep(hash: int, c: char): int {
    c as int + (ToInt32(ToInt32(hash) * 32) - hash)
  }

  /** The hash after the whole text, character by character from the left. */
  function Hash(s: string): int
    decreases |s|
  {
    if |s| == 0 then 0 else HashStep(Hash(s[..|s| - 1]), s[|s| - 1])
  }

  /** The textbook string hash `h = 31 * h + c` in 32-bit arithmetic. */
  function PolyHash(s: string): (r: nat)
    ensures r < Two32
    decreases |s|
  {
    if |s| == 0 then 0 else (31 * PolyHash(s[..|s| - 1]) + s[|s| - 1] as int) % Two32
  }

  /** The loop's hash agrees, modulo 2^32, with the textbook one. */
  lemma {:induction false} HashIsPolyHash(s: string)
    ensures Hash(s) % Two32 == PolyHash(s)
    decreases |s|
  {
    if |s| > 0 {
      var p := s[..|s| - 1];
      HashIsPolyHash(p);
      var h := Hash(p);
      var i := ToInt32(h);
      var a := ToInt32(i * 32);
      ShiftCongruent(h, i, a);
      StepCongruent(h, a, s[|s| - 1] as int);
    }
  }

  lemma {:induction false} ShiftCongruent(h: int, i: int, a: int)
    requires (i - h) % 0x1_0000_0000 == 0 && (a - i * 32) % 0x1_0000_0000 == 0
    ensures (a - 32 * h) % 0x1_0000_0000 == 0
  {
    var q := (i - h) / 0x1_0000_0000;
    assert i - h == q * 0x1_0000_0000;
    var q' := (a - i * 32) / 0x1_0000_0000;
    assert a - i * 32 == q' * 0x1_0000_0000;
    assert a - 32 * h == (q' + 32 * q) * 0x1_0000_0000;
  }

  lemma {:induction false} StepCongruent(h: int, a: int, c: int)
    requires (a - 32 * h) % 0x1_0000_0000 == 0
    ensures (c + a - h) % 0x1_0000_0000 == (31 * (h % 0x1_0000_0000) + c) % 0x1_0000_0000
  {
    var k := (a - 32 * h) / 0x1_0000_0000;
    assert a == 32 * h + k * 0x1_0000_0000;
    var q, r := h / 0x1_0000_0000, h % 0x1_0000_0000;
    assert h == q * 0x1_0000_0000 + r;
    assert c + a - h == 31 * r + c + (31 * q + k) * 0x1_0000_0000;
  }

  /** `(hash >> (i * 8)) & 0xff`: byte `i` of the 32-bit hash, lowest first. */
  function Byte(hash: int, i: nat): (r: nat)
    requires i < 4
    ensures r < 256
  {
    var u := hash % Two32;
    (u / Pow256(i)) % 256
  }

  function Pow256(i: nat): (r: nat)
    ensures r > 0
  {
    if i == 0 then 1 else 256 * Pow256(i - 1)
  }

  predicate IsLowerHexDigit(c: char) { '0' <= c <= '9' || 'a' <= c <= 'f' }

  function HexDigit(d: nat): (c: char)
    requires d < 16
    ensures IsLowerHexDigit(c)
  {
    if d < 10 then ('0' as int + d) as char else ('a' as int + d - 10) as char
  }

  /** `` `00${value.toString(16)}`.slice(-2) ``: two lower-case hex digits. */
  function Hex2(v: nat): (r: string)
    requires v < 256
    ensures |r| == 2 && IsLowerHexDigit(r[0]) && IsLowerHexDigit(r[1])
  {
    [HexDigit(v / 16), HexDigit(v % 16)]
  }

  /** `` colour += `00${value.toString(16)}`.slice(-2) `` over the JavaScript text of `value`. */
  function ToHexText(v: nat): (r: string)
    decreases v
  {
    if v < 16 then [HexDigit(v)] else ToHexText(v / 16) + [HexDigit(v % 16)]
  }

  lemma {:induction false} PaddedHex(v: nat)
    requires v < 256
    ensures var t := "00" + ToHexText(v); t[|t| - 2..] == Hex2(v)
  {
  }

  /** The colour of a text that is not one of the fixed cases. */
  function HashColour(s: string): (r: string)
    ensures |r| == 7 && r[0] == '#' && forall k :: 1 <= k < 7 ==> IsLowerHexDigit(r[k])
  {
    ColourOf(Hash(s))
  }

  /** Bytes 0, 1 and 2 of a hash as `#rrggbb`. */
  function ColourOf(hash: int): (r: string)
    ensures |r| == 7 && r[0] == '#' && forall k :: 1 <= k < 7 ==> IsLowerHexDigit(r[k])
  {
    "#" + Hex2(Byte(hash, 0)) + Hex2(Byte(hash, 1)) + Hex2(Byte(hash, 2))
  }

  /**
   * `stringToColour`: brown for nothing, green and red for the booleans
   * (swapped when reversed), else the hash's three low bytes as a colour.
   */
  method StringToColour(str: Option<string>, reversed: bool) returns (colour: string)
    ensures str.None? || str.value == "" ==> colour == "#5d4037"
    ensures str == Some("true") ==> colour == if reversed then "#bf360c" else "#2e7d32"
    ensures str == Some("false") ==> colour == if reversed then "#2e7d32" else "#bf360c"
    ensures str.Some? && str.value != "" && str.value != "true" && str.value != "false" ==>
      colour == HashColour(str.value)
  {
    if str.None? || str.value == "" {
      return "#5d4037";
    }
    var s := str.value;
    if s == "true" {
      if reversed { return "#bf360c"; }
      return "#2e7d32";
    }
    if s == "false" {
      if reversed { return "#2e7d32"; }
      return "#bf360c";
    }
    var hash := 0;
    var i := 0;
    while i < |s|
      invariant 0 <= i <= |s| && hash == Hash(s[..i])
    {
      assert s[..i + 1][..i] == s[..i];
      hash := s[i] as int + (ToInt32(ToInt32(hash) * 32) - hash);
      i := i + 1;
    }
    assert s[..|s|] == s;
    colour := "#";
    var j := 0;
    while j < 3
      invariant 0 <= j <= 3
      invariant colour == "#" + Bytes(hash, j)
    {
      var value := Byte(hash, j);
      PaddedHex(value);
      var padded := "00" + ToHexText(value);
      colour := colour + padded[|padded| - 2..];
      j := j + 1;
    }
    ThreeBytes(hash);
  }

  lemma {:induction false} ThreeBytes(hash: int)
    ensures "#" + Bytes(hash, 3) == ColourOf(hash)
  {
    var b0, b1, b2 := Hex2(Byte(hash, 0)), Hex2(Byte(hash, 1)), Hex2(Byte(hash, 2));
    assert Bytes(hash, 1) == b0;
    assert Bytes(hash, 2) == b0 + b1;
    assert Bytes(hash, 3) == b0 + b1 + b2;
  }

  /** The first `j` bytes of the hash as hex pairs. */
  function Bytes(hash: int, j: nat): string
    requires j <= 3
  {
    if j == 0 then "" else Bytes(hash, j - 1) + Hex2(Byte(hash, j - 1))
  }

  /** The colour is read off the textbook 32-bit hash. */
  lemma {:induction false} ColourOfHash(s: string)
    ensures HashColour(s) == ColourOf(PolyHash(s))
  {
    HashIsPolyHash(s);
    SameLowBits(Hash(s), PolyHash(s));
  }

  lemma {:induction false} SameLowBits(h: int, p: nat)
    requires p < Two32 && h % Two32 == p
    ensures ColourOf(h) == ColourOf(p)
  {
    assert p % Two32 == p;
  }

  // ---------------------------------------------------------------- hexToRGB

  /** The length of the longest prefix of hex digits. */
  function HexPrefixLength(s: string): (n: nat)
    ensures n <= |s| && (n == |s| || RadixDigit(s[n], 16) < 0)
  {
    if |s| > 0 && RadixDigit(s[0], 16) >= 0 then 1 + HexPrefixLength(s[1..]) else 0
  }

  lemma {:induction false} HexPrefixDigits(s: string)
    ensures AllRadixDigits(s[..HexPrefixLength(s)], 16)
    decreases |s|
  {
    if |s| > 0 && RadixDigit(s[0], 16) >= 0 {
      HexPrefixDigits(s[1..]);
      var n := HexPrefixLength(s);
      assert s[..n] == [s[0]] + s[1..][..n - 1];
    }
  }

  /** On a run of hex digits the prefix is everything. */
  lemma {:induction false} HexPrefixAll(s: string)
    requires AllRadixDigits(s, 16)
    ensures HexPrefixLength(s) == |s|
  {
  }

  /**
   * `parseInt(s, 16)`, `None` standing for `NaN`: leading white space,
   * an optional sign, an optional `0x`, then as many hex digits as there are.
   */
  function ParseInt16(s: string): (r: Option<int>)
  {
    var t := TrimStart(s);
    var negative := |t| > 0 && t[0] == '-';
    var u := if |t| > 0 && (t[0] == '-' || t[0] == '+') then t[1..] else t;
    var v := if |u| >= 2 && u[0] == '0' && (u[1] == 'x' || u[1] == 'X') then u[2..] else u;
    var n := HexPrefixLength(v);
    HexPrefixDigits(v);
    if n == 0 then None
    else Some(if negative then -(RadixValue(v[..n], 16) as int) else RadixValue(v[..n], 16))
  }

  /** JavaScript `slice(from, to)` for non-negative bounds. */
  function Slice(s: string, from: nat, to: nat): (r: string)
    ensures from <= to <= |s| ==> r == s[from..to]
  {
    var f := if from < |s| then from else |s|;
    var t := if to < |s| then to else |s|;
    if t <= f then "" else s[f..t]
  }

  datatype Channels = Channels(r: Option<int>, g: Option<int>, b: Option<int>)

  /** The three channels `hexToRGB` reads: characters 1-2, 3-4 and 5-6. */
  function HexChannels(hex: string): Channels {
    Channels(ParseInt16(Slice(hex, 1, 3)), ParseInt16(Slice(hex, 3, 5)), ParseInt16(Slice(hex, 5, 7)))
  }

  /** A number as a template literal prints it; `NaN` for a failed parse. */
  function ShowInt(x: Option<int>): string {
    match x
    case None => "NaN"
    case Some(v) => if v < 0 then "-" + Dec(-v) else Dec(v)
  }

  /** `hexToRGB`; the transparency is given by its printed text. */
  function HexToRGB(hex: string, transp: string): string {
    var c := HexChannels(hex);
    "rgba(" + ShowInt(c.r) + ", " + ShowInt(c.g) + ", " + ShowInt(c.b) + ", " + transp + ")"
  }

  /** A run of hex digits has no white space, sign or `0x` in front. */
  lemma {:induction false} HexDigitsBare(s: string)
    requires |s| > 0 && AllRadixDigits(s, 16)
    ensures TrimStart(s) == s && s[0] != '-' && s[0] != '+'
    ensures !(|s| >= 2 && s[0] == '0' && (s[1] == 'x' || s[1] == 'X'))
  {
    var c := s[0];
    assert RadixDigit(c, 16) >= 0;
    assert '0' <= c <= '9' || 'a' <= c <= 'f' || 'A' <= c <= 'F';
    assert !IsJsWhitespace(c);
    if |s| >= 2 {
      var d := s[1];
      assert RadixDigit(d, 16) >= 0;
      assert d != 'x' && d != 'X';
    }
  }

  /** A run of hex digits alone is read whole. */
  lemma {:induction false} ParseHexDigits(s: string)
    requires |s| > 0 && AllRadixDigits(s, 16)
    ensures ParseInt16(s) == Some(RadixValue(s, 16) as int)
  {
    HexDigitsBare(s);
    HexPrefixAll(s);
    assert s[..|s|] == s;
  }

  /** Two hex digits read as one channel. */
  lemma {:induction false} HexPair(s: string)
    requires |s| == 2 && RadixDigit(s[0], 16) >= 0 && RadixDigit(s[1], 16) >= 0
    ensures ParseInt16(s) == Some(16 * RadixDigit(s[0], 16) + RadixDigit(s[1], 16))
    ensures 0 <= 16 * RadixDigit(s[0], 16) + RadixDigit(s[1], 16) <= 255
  {
    ParseHexDigits(s);
    RadixPair(s);
  }

  lemma {:induction false} RadixPair(s: string)
    requires |s| == 2 && RadixDigit(s[0], 16) >= 0 && RadixDigit(s[1], 16) >= 0
    ensures RadixValue(s, 16) == 16 * RadixDigit(s[0], 16) + RadixDigit(s[1], 16)
    ensures 0 <= 16 * RadixDigit(s[0], 16) + RadixDigit(s[1], 16) <= 255
  {
    var first := s[..1];
    assert |first| == 1 && first[0] == s[0] && first[..0] == [];
    assert RadixValue(first, 16) == RadixDigit(s[0], 16);
    assert RadixDigit(s[0], 16) <= 15 && RadixDigit(s[1], 16) <= 15;
  }

  /** A well-formed `#rrggbb` gives three channels in 0..255, each read by `ChannelAt`. */
  lemma {:induction false} WellFormedChannels(hex: string)
    requires |hex| == 7 && forall k :: 1 <= k < 7 ==> RadixDigit(hex[k], 16) >= 0
    ensures var c := HexChannels(hex);
      c.r.Some? && c.g.Some? && c.b.Some?
      && 0 <= c.r.value <= 255 && 0 <= c.g.value <= 255 && 0 <= c.b.value <= 255
  {
    ChannelAt(hex, 1);
    ChannelAt(hex, 3);
    ChannelAt(hex, 5);
  }

  /** The two hex digits starting at `i` read as one channel in 0..255. */
  lemma {:induction false} ChannelAt(hex: string, i: nat)
    requires i + 2 <= |hex| && RadixDigit(hex[i], 16) >= 0 && RadixDigit(hex[i + 1], 16) >= 0
    ensures ParseInt16(Slice(hex, i, i + 2)) == Some(16 * RadixDigit(hex[i], 16) + RadixDigit(hex[i + 1], 16))
    ensures 0 <= 16 * RadixDigit(hex[i], 16) + RadixDigit(hex[i + 1], 16) <= 255
  {
    var pair := Slice(hex, i, i + 2);
    PairOfSlice(hex, i);
    HexPair(pair);
    assert RadixDigit(pair[0], 16) == RadixDigit(hex[i], 16);
    assert RadixDigit(pair[1], 16) == RadixDigit(hex[i + 1], 16);
  }

  /** The two characters a pair slice holds. */
  lemma {:induction false} PairOfSlice(hex: string, i: nat)
    requires i + 2 <= |hex|
    ensures var pair := Slice(hex, i, i + 2); |pair| == 2 && pair[0] == hex[i] && pair[1] == hex[i + 1]
  {
  }

  /** The first character is not read. */
  lemma {:induction false} FirstCharacterIgnored(c: char, d: char, rest: string)
    ensures HexChannels([c] + rest) == HexChannels([d] + rest)
  {
    SliceAfterFirst([c] + rest, 1, 3);
    SliceAfterFirst([c] + rest, 3, 5);
    SliceAfterFirst([c] + rest, 5, 7);
    SliceAfterFirst([d] + rest, 1, 3);
    SliceAfterFirst([d] + rest, 3, 5);
    SliceAfterFirst([d] + rest, 5, 7);
  }

  /** A slice after the first character is a slice of the rest. */
  lemma {:induction false} SliceAfterFirst(x: string, from: nat, to: nat)
    requires |x| > 0 && 1 <= from
    ensures Slice(x, from, to) == Slice(x[1..], from - 1, if to == 0 then 0 else to - 1)
  {
    var f := if from < |x| then from else |x|;
    var t := if to < |x| then to else |x|;
    if f < t {
      var tail := x[1..];
      assert |x[f..t]| == |tail[f - 1..t - 1]|;
      forall k | 0 <= k < t - f
        ensures x[f..t][k] == tail[f - 1..t - 1][k]
      {
        assert tail[f - 1 + k] == x[f + k];
      }
    }
  }

  lemma {:induction false} HexDigitValue(d: nat)
    requires d < 16
    ensures RadixDigit(HexDigit(d), 16) == d
  {
  }

  /** Two hex digits of a byte read back as the byte. */
  lemma {:induction false} Hex2Value(v: nat)
    requires v < 256
    ensures RadixDigit(Hex2(v)[0], 16) >= 0 && RadixDigit(Hex2(v)[1], 16) >= 0
    ensures 16 * RadixDigit(Hex2(v)[0], 16) + RadixDigit(Hex2(v)[1], 16) == v
  {
    HexDigitValue(v / 16);
    HexDigitValue(v % 16);
  }

  /** `hexToRGB` reads back the three bytes `stringToColour` wrote. */
  lemma {:induction false} ColourChannels(hash: int)
    ensures HexChannels(ColourOf(hash)) == Channels(Some(Byte(hash, 0)), Some(Byte(hash, 1)), Some(Byte(hash, 2)))
  {
    var c := ColourOf(hash);
    var h0, h1, h2 := Hex2(Byte(hash, 0)), Hex2(Byte(hash, 1)), Hex2(Byte(hash, 2));
    assert c == "#" + h0 + h1 + h2;
    assert c[1] == h0[0] && c[2] == h0[1] && c[3] == h1[0] && c[4] == h1[1] && c[5] == h2[0] && c[6] == h2[1];
    PairsRead(c, Byte(hash, 0), Byte(hash, 1), Byte(hash, 2));
  }

  lemma {:induction false} PairsRead(c: string, v0: nat, v1: nat, v2: nat)
    requires v0 < 256 && v1 < 256 && v2 < 256 && |c| == 7
    requires c[1] == Hex2(v0)[0] && c[2] == Hex2(v0)[1] && c[3] == Hex2(v1)[0] && c[4] == Hex2(v1)[1]
    requires c[5] == Hex2(v2)[0] && c[6] == Hex2(v2)[1]
    ensures HexChannels(c) == Channels(Some(v0), Some(v1), Some(v2))
  {
    assert Slice(c, 1, 3) == Hex2(v0);
    assert Slice(c, 3, 5) == Hex2(v1);
    assert Slice(c, 5, 7) == Hex2(v2);
    PairRead(v0);
    PairRead(v1);
    PairRead(v2);
  }

  /** Two lowercase digits written by `Hex2` parse back to their value. */
  lemma {:induction false} PairRead(v: nat)
    requires v < 256
    ensures ParseInt16(Hex2(v)) == Some(v)
  {
    Hex2Value(v);
    HexPair(Hex2(v));
  }

  // ---------------------------------------------------------------- severity

  datatype Severity = Critical | High | Medium | Low | NoSeverity

  datatype SeverityAndColor = SeverityAndColor(severity: Severity, color: string)

  function Rank(s: Severity): nat {
    match s
    case NoSeverity => 0
    case Low => 1
    case Medium => 2
    case High => 3
    case Critical => 4
  }

  /** `score >= x` and `score > x` on a JavaScript number; `NaN` compares false. */
  predicate AtLeast(n: Number, x: real) {
    match n
    case NaN => false
    case Finite(v) => v >= x
    case Infinity(negative) => !negative
  }

  predicate Above(n: Number, x: real) {
    match n
    case NaN => false
    case Finite(v) => v > x
    case Infinity(negative) => !negative
  }

  /** `getSeverityAndColor` on a numeric or absent score (absent counts as 0). */
  function GetSeverityAndColor(score: Option<Number>): (r: SeverityAndColor)
    ensures var n := if score.None? then Finite(0.0) else score.value;
      (r.severity == Critical <==> AtLeast(n, 9.0))
      && (r.severity == High <==> AtLeast(n, 7.0) && !AtLeast(n, 9.0))
      && (r.severity == Medium <==> AtLeast(n, 4.0) && !AtLeast(n, 7.0))
      && (r.severity == Low <==> Above(n, 0.0) && !AtLeast(n, 4.0))
      && (r.severity == NoSeverity <==> !Above(n, 0.0))
    ensures score.None? ==> r == SeverityAndColor(NoSeverity, "gray")
  {
    var n := if score.None? then Finite(0.0) else score.value;
    if AtLeast(n, 9.0) then SeverityAndColor(Critical, "red")
    else if AtLeast(n, 7.0) then SeverityAndColor(High, "orangered")
    else if AtLeast(n, 4.0) then SeverityAndColor(Medium, "orange")
    else if Above(n, 0.0) then SeverityAndColor(Low, "green")
    else SeverityAndColor(NoSeverity, "gray")
  }

  /** A higher score never gets a lower band. */
  lemma {:induction false} SeverityMonotone(a: real, b: real)
    requires a <= b
    ensures Rank(GetSeverityAndColor(Some(Finite(a))).severity) <= Rank(GetSeverityAndColor(Some(Finite(b))).severity)
  {
  }

  /** Each band has its colour. */
  lemma {:induction false} SeverityColours(score: Option<Number>)
    ensures var r := GetSeverityAndColor(score);
      r.color == match r.severity
        case Critical => "red" case High => "orangered" case Medium => "orange"
        case Low => "green" case NoSeverity => "gray"
  {
  }
}
