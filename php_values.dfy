/**
 * The PHP values a form's options, extra data and bound model hold, with the
 * conversions Form.php relies on: truthiness (`if (!$x)`), `trim`, string
 * conversion and `array_get` with a plain key.
 */
module PhpValues {

  /** A PHP value; arrays are keyed by strings. Floats and objects are not modelled. */
  datatype Value = Null | Bool(b: bool) | Int(i: int) | Str(s: string) | Arr(entries: map<string, Value>)

  /** PHP's string truthiness: only `""` and `"0"` are falsy. */
  predicate TruthyString(s: string) {
    s != "" && s != "0"
  }

  /** PHP's truthiness: `null`, `false`, `0`, `""`, `"0"` and `[]` are falsy. */
  predicate Truthy(v: Value) {
    match v
    case Null => false
    case Bool(b) => b
    case Int(i) => i != 0
    case Str(s) => TruthyString(s)
    case Arr(m) => m != map[]
  }

  /** The characters `trim` strips by default: space, tab, newline, carriage return, NUL and vertical tab. */
  predicate Trimmed(c: char) {
    c == ' ' || c == '\t' || c == '\n' || c == '\r' || c == '\0' || c == '\U{000B}'
  }

  /** `trim($s) == ''`. */
  predicate TrimsToEmpty(s: string) {
    forall i :: 0 <= i < |s| ==> Trimmed(s[i])
  }

  /** `array_get($a, $key, $default)` with `$key` taken as one plain key; a non-array yields the default. */
  function Get(a: Value, key: string, default: Value): (r: Value)
    ensures a.Arr? && key in a.entries ==> r == a.entries[key]
    ensures !(a.Arr? && key in a.entries) ==> r == default
  {
    if a.Arr? && key in a.entries then a.entries[key] else default
  }

  /** `array_get` on an array held as a map. */
  function Lookup(m: map<string, Value>, key: string, default: Value): (r: Value)
    ensures key in m ==> r == m[key]
    ensures key !in m ==> r == default
  {
    if key in m then m[key] else default
  }

  function Digit(d: nat): (c: char)
    requires d < 10
    ensures '0' <= c <= '9' && c as int - '0' as int == d
  {
    "0123456789"[d]
  }

  /** The number a string of decimal digits denotes, read most significant digit first. */
  function DecimalValue(s: string): nat
    requires forall i :: 0 <= i < |s| ==> '0' <= s[i] <= '9'
  {
    if s == [] then 0
    else DecimalValue(s[..|s| - 1]) * 10 + (s[|s| - 1] as int - '0' as int)
  }

  /** The decimal digits of `n`, as PHP writes an integer: they read back as `n`, with no leading zero. */
  function Decimal(n: nat): (r: string)
    ensures |r| > 0
    ensures forall i :: 0 <= i < |r| ==> '0' <= r[i] <= '9'
    ensures DecimalValue(r) == n
    ensures r[0] == '0' <==> n == 0
    ensures n == 0 ==> r == "0"
    decreases n
  {
    if n < 10 then [Digit(n)]
    else
      var p := Decimal(n / 10);
      assert (p + [Digit(n % 10)])[..|p|] == p;
      p + [Digit(n % 10)]
  }

  /**
   * PHP's conversion of a value to a string, as concatenation applies it. It
   * keeps truthiness except on arrays, which all become "Array".
   */
  function ToPhpString(v: Value): (r: string)
    ensures !v.Arr? ==> (Truthy(v) <==> TruthyString(r))
    ensures v.Str? ==> r == v.s
    ensures v.Int? && v.i >= 0 ==> r == Decimal(v.i)
    ensures v.Int? && v.i < 0 ==> r == "-" + Decimal(-v.i)
    ensures v == Bool(true) ==> r == "1"
    ensures v.Null? || v == Bool(false) ==> r == ""
  {
    match v
    case Null => ""
    case Bool(b) => if b then "1" else ""
    case Int(i) =>
      if i < 0 then assert ("-" + Decimal(-i))[0] == '-'; "-" + Decimal(-i)
      else Decimal(i)
    case Str(s) => s
    case Arr(m) => "Array"
  }
}
