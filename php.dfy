/** The part of PHP's value semantics that the plugin's core relies on:
    loosely typed values, `isset`/`empty`, the numeric conversions
    (`floatval`, `is_numeric`, `(int)`, `absint`), `round` and the
    `%.2f` conversion of `sprintf`. Numbers are exact reals; IEEE rounding
    and the 64-bit integer range are not modelled. */
module Php {
  import opened Text

  datatype Option<+T> = None | Some(value: T) {
    /** `$x ?? $default` for a value that is missing or null. */
    function GetOr(default: T): T {
      match this
      case Some(v) => v
      case None => default
    }
  }

  datatype Key = IntKey(n: int) | StrKey(name: string)

  /** A PHP value; an array is its list of key/value entries in order. */
  datatype Value =
    | Null
    | Bool(b: bool)
    | Int(i: int)
    | Float(f: real)
    | Str(s: string)
    | Arr(entries: seq<(Key, Value)>)

  /** The entry stored under `k`, if any (keys of a PHP array are distinct). */
  function Find(entries: seq<(Key, Value)>, k: Key): Option<Value>
    decreases |entries|
  {
    if entries == [] then None
    else if entries[0].0 == k then Some(entries[0].1)
    else Find(entries[1..], k)
  }

  /** `$v[k]` when reading: nothing when `v` is not an array or has no such key. */
  function Get(v: Value, k: Key): Option<Value> {
    if v.Arr? then Find(v.entries, k) else None
  }

  /** `isset($v[k1][k2]...)`: every step exists and the last value is not null. */
  predicate IssetPath(v: Value, path: seq<Key>)
    decreases |path|
  {
    if path == [] then v != Null
    else
      match Get(v, path[0])
      case None => false
      case Some(x) => IssetPath(x, path[1..])
  }

  /** `$v[k1][k2]...` read after a successful isset (null otherwise). */
  function Dig(v: Value, path: seq<Key>): Value
    decreases |path|
  {
    if path == [] then v
    else
      match Get(v, path[0])
      case None => Null
      case Some(x) => Dig(x, path[1..])
  }

  /** `isset($m[k])` on an associative array of named values. */
  predicate IssetKey(m: map<string, Value>, k: string) {
    k in m && m[k] != Null
  }

  /** `empty($v)`, i.e. `$v` is falsy. */
  predicate Empty(v: Value) {
    match v
    case Null => true
    case Bool(b) => !b
    case Int(i) => i == 0
    case Float(f) => f == 0.0
    case Str(s) => s == "" || s == "0"
    case Arr(e) => |e| == 0
  }

  // ---------------------------------------------------------------------
  // Numeric strings (PHP 8): WS* [+-]? (D+ ('.' D*)? | '.' D+) ([eE] [+-]? D+)? WS*

  predicate IsWhitespace(c: char) {
    c == ' ' || c == '\t' || c == '\n' || c == '\r' || c as int == 11 || c as int == 12
  }

  function WsEnd(s: string, i: nat): (j: nat)
    requires i <= |s|
    ensures i <= j <= |s|
    decreases |s| - i
  {
    if i < |s| && IsWhitespace(s[i]) then WsEnd(s, i + 1) else i
  }

  /** End of the run of digits starting at `i`. */
  function DigitsEnd(s: string, i: nat): (j: nat)
    requires i <= |s|
    ensures i <= j <= |s| && AllDigits(s[i..j])
    ensures j < |s| ==> !IsDigit(s[j])
    decreases |s| - i
  {
    if i < |s| && IsDigit(s[i]) then
      var j := DigitsEnd(s, i + 1);
      assert s[i..j] == [s[i]] + s[i + 1..j];
      j
    else i
  }

  function Pow10(n: nat): (p: nat)
    ensures p >= 1
  {
    if n == 0 then 1 else 10 * Pow10(n - 1)
  }

  /** A numeric prefix: where it ends and the number it denotes. */
  datatype Scan = Scan(end: nat, value: real)

  /** The exponent `[eE][+-]?D+` at `i`: its end and value, or `(i, 0)` when there is none. */
  function ScanExponent(s: string, i: nat): (r: (nat, int))
    requires i <= |s|
    ensures i <= r.0 <= |s|
  {
    if i < |s| && (s[i] == 'e' || s[i] == 'E') then
      var j := if i + 1 < |s| && (s[i + 1] == '+' || s[i + 1] == '-') then i + 2 else i + 1;
      var k := DigitsEnd(s, j);
      if k == j then (i, 0)
      else
        var e: int := DigitsValue(s[j..k]);
        (k, if j == i + 2 && s[i + 1] == '-' then -e else e)
    else (i, 0)
  }

  /** The longest numeric prefix of `s` after leading whitespace, as PHP's
      string-to-number conversion reads it; `None` when there are no digits. */
  function LeadingNumber(s: string): (r: Option<Scan>)
    ensures r.Some? ==> r.value.end <= |s|
  {
    SignedNumberAt(s, WsEnd(s, 0))
  }

  /** An optional sign, then an unsigned number, starting at `a`. */
  function SignedNumberAt(s: string, a: nat): (r: Option<Scan>)
    requires a <= |s|
    ensures r.Some? ==> r.value.end <= |s|
  {
    if a < |s| && (s[a] == '+' || s[a] == '-') then
      match UnsignedNumberAt(s, a + 1)
      case None => None
      case Some(sc) => Some(Scan(sc.end, if s[a] == '-' then -sc.value else sc.value))
    else UnsignedNumberAt(s, a)
  }

  /** `D+ ('.' D*)? | '.' D+`, then an optional exponent, starting at `b`. */
  function UnsignedNumberAt(s: string, b: nat): (r: Option<Scan>)
    requires b <= |s|
    ensures r.Some? ==> r.value.end <= |s|
  {
    var c := DigitsEnd(s, b);
    var dot := c < |s| && s[c] == '.';
    var d := if dot then DigitsEnd(s, c + 1) else c;
    var fraction := if dot then s[c + 1..d] else "";
    if c == b && fraction == "" then None
    else
      var e := ScanExponent(s, d);
      Some(Scan(e.0, Scaled(DigitsValue(s[b..c]) as real + FractionValue(fraction), e.1)))
  }

  /** The value of the digits after a decimal point. */
  function FractionValue(digits: string): real
    requires AllDigits(digits)
  {
    DigitsValue(digits) as real / Pow10(|digits|) as real
  }

  /** `m` times ten to the power `e`. */
  function Scaled(m: real, e: int): real {
    if e >= 0 then m * Pow10(e) as real else m / Pow10(-e) as real
  }

  /** A numeric string: a numeric prefix followed by whitespace only. */
  predicate NumericText(s: string) {
    var r := LeadingNumber(s);
    r.Some? && forall k | r.value.end <= k < |s| :: IsWhitespace(s[k])
  }

  /** A string's numeric reading: its leading number, or 0 when it has none. */
  function TextToReal(s: string): real {
    match LeadingNumber(s)
    case Some(sc) => sc.value
    case None => 0.0
  }

  /** `floatval` / `(float)`. */
  function FloatVal(v: Value): real {
    match v
    case Null => 0.0
    case Bool(b) => if b then 1.0 else 0.0
    case Int(i) => i as real
    case Float(f) => f
    case Str(s) => TextToReal(s)
    case Arr(e) => if |e| == 0 then 0.0 else 1.0
  }

  /** `is_numeric`: integers, floats and numeric strings (not booleans or null). */
  predicate IsNumeric(v: Value) {
    v.Int? || v.Float? || (v.Str? && NumericText(v.s))
  }

  /** Conversion of a float to int: the fractional part is dropped (toward zero). */
  function Trunc(r: real): (n: int)
    ensures r >= 0.0 ==> n as real <= r < n as real + 1.0
    ensures r < 0.0 ==> n as real - 1.0 < r <= n as real
  {
    if r >= 0.0 then r.Floor else -((-r).Floor)
  }

  /** `intval` / `(int)`. */
  function IntVal(v: Value): int {
    match v
    case Null => 0
    case Bool(b) => if b then 1 else 0
    case Int(i) => i
    case Float(f) => Trunc(f)
    case Str(s) => Trunc(TextToReal(s))
    case Arr(e) => if |e| == 0 then 0 else 1
  }

  /** WordPress `absint`: `abs((int) $v)`. */
  function AbsInt(v: Value): (n: nat)
    ensures n as int == IntVal(v) || n as int == -IntVal(v)
  {
    var i := IntVal(v);
    if i < 0 then -i else i
  }

  /** PHP `round` to an integer: nearest integer, halves away from zero. */
  function Round(r: real): (n: int)
    ensures -0.5 <= n as real - r <= 0.5
    ensures r >= 0.0 ==> n >= 0
  {
    if r >= 0.0 then (r + 0.5).Floor else -((-r + 0.5).Floor)
  }

  /** Rounding never leaves an interval whose ends are whole numbers. */
  lemma RoundWithin(r: real, lo: int, hi: int)
    requires lo as real <= r <= hi as real
    ensures lo <= Round(r) <= hi
  {
  }

  /** Nearest integer to a non-negative `x`, exact ties to the even neighbour. */
  function RoundHalfEven(x: real): (n: nat)
    requires x >= 0.0
    ensures -0.5 <= n as real - x <= 0.5
  {
    var f := x.Floor;
    var frac := x - f as real;
    if frac > 0.5 || (frac == 0.5 && f % 2 == 1) then f + 1 else f
  }

  /** `sprintf('%.2f', r)`: '-' for a negative number, then the magnitude
      rounded to hundredths. */
  function FormatFixed2(r: real): string {
    var neg := r < 0.0;
    (if neg then "-" else "") + FormatCents(RoundHalfEven(if neg then -r * 100.0 else r * 100.0))
  }

  /** A count of hundredths written as integer digits, '.', two decimals. */
  function FormatCents(cents: nat): string {
    NatToString(cents / 100) + "." + [DigitChar(cents % 100 / 10), DigitChar(cents % 10)]
  }

  /** A whole non-negative number prints with two zero decimals. */
  lemma {:induction false} FormatWholeNumber(n: nat)
    ensures FormatFixed2(n as real) == NatToString(n) + ".00"
  {
    var c := n * 100;
    assert n as real * 100.0 == c as real;
    assert RoundHalfEven(c as real) == c;
    assert c / 100 == n && c % 100 == 0;
    assert FormatCents(c) == NatToString(n) + ".00";
  }

  // ---------------------------------------------------------------------
  // Numeric strings written by the program itself

  /** At `i` a run of digits reaches the end of the string. */
  lemma {:induction false} DigitsEndAtEnd(s: string, i: nat)
    requires i <= |s| && AllDigits(s[i..])
    ensures DigitsEnd(s, i) == |s|
    decreases |s| - i
  {
    if i < |s| {
      assert s[i] in s[i..];
      assert s[i + 1..] <= s[i..][1..];
      DigitsEndAtEnd(s, i + 1);
    }
  }

  /** Digits running to the end of the string form a whole unsigned number. */
  lemma {:induction false} UnsignedNumberOfDigits(s: string)
    requires |s| >= 1 && AllDigits(s)
    ensures UnsignedNumberAt(s, 0) == Some(Scan(|s|, DigitsValue(s) as real))
  {
    var c := DigitsEnd(s, 0);
    assert s[0..] == s;
    DigitsEndAtEnd(s, 0);
    assert c == |s|;
    assert s[0..c] == s;
    var e := ScanExponent(s, c);
    assert e == (|s|, 0);
    var m := DigitsValue(s) as real + FractionValue("");
    assert m == DigitsValue(s) as real;
    assert Scaled(m, 0) == m * 1 as real;
  }

  /** A non-empty run of digits is read whole, as the number it denotes. */
  lemma {:induction false} LeadingNumberOfDigits(s: string)
    requires |s| >= 1 && AllDigits(s)
    ensures LeadingNumber(s) == Some(Scan(|s|, DigitsValue(s) as real))
  {
    assert s[0] in s;
    assert WsEnd(s, 0) == 0;
    assert SignedNumberAt(s, 0) == UnsignedNumberAt(s, 0);
    UnsignedNumberOfDigits(s);
  }

  /** The decimal text of a natural number is a numeric string whose value,
      as int and as float, is that number. */
  lemma NumericTextOfNat(n: nat)
    ensures NumericText(NatToString(n))
    ensures IntVal(Str(NatToString(n))) == n
    ensures FloatVal(Str(NatToString(n))) == n as real
  {
    LeadingNumberOfDigits(NatToString(n));
    DigitsValueOfNatToString(n);
  }
}
