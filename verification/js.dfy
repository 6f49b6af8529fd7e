/** JavaScript values as the wizards, screens and stores handle them, and the JS coercions the
    source relies on: truthiness, `||` defaults, `Number()`, `String()`, `===`, and a few string
    methods. Numbers are modelled as integers plus NaN. */
module Js {
  import opened Options

  /** A JavaScript value. `Arr` and `Obj` hold arrays and plain objects by value. */
  datatype Value =
    | Undefined
    | Null
    | Bool(b: bool)
    | Num(n: int)
    | NaN
    | Str(s: string)
    | Arr(items: seq<Value>)
    | Obj(fields: map<string, Value>)

  /** A plain object, such as a Formik `values` record or a request body. */
  type Record = map<string, Value>

  /** JavaScript truthiness: `undefined`, `null`, `false`, `0`, `NaN` and `''` are falsy. */
  predicate Truthy(v: Value) {
    match v
    case Undefined => false
    case Null => false
    case Bool(b) => b
    case Num(n) => n != 0
    case NaN => false
    case Str(s) => s != ""
    case Arr(_) => true
    case Obj(_) => true
  }

  /** `v == null`: JavaScript's loose comparison with null holds for null and undefined. */
  predicate IsNullish(v: Value) {
    v.Undefined? || v.Null?
  }

  /** `a || b` */
  function Or(a: Value, b: Value): Value {
    if Truthy(a) then a else b
  }

  /** `!!v` */
  function ToBool(v: Value): Value {
    Bool(Truthy(v))
  }

  /** `r[k]` on a record; a missing key reads as `undefined`. */
  function Field(r: Record, k: string): Value {
    if k in r then r[k] else Undefined
  }

  /** `after` differs from `before` at most in the fields `keys`. */
  predicate UpdatesOnly(before: Record, after: Record, keys: set<string>) {
    after.Keys <= before.Keys + keys
    && forall k :: k in before && k !in keys ==> k in after && after[k] == before[k]
  }

  /** `setFieldValue(k, x)`: the record with field `k` set to `x` and nothing else changed. */
  function SetField(r: Record, k: string, x: Value): (s: Record)
    ensures Field(s, k) == x
    ensures UpdatesOnly(r, s, {k})
  {
    r[k := x]
  }

  /** Setting two more fields extends the fields an update may touch by those two. */
  lemma UpdatesTwoMore(v: Record, c: Record, keys: set<string>, k1: string, x: Value, k2: string, y: Value)
    requires UpdatesOnly(v, c, keys) && k1 != k2
    ensures var r := SetField(SetField(c, k1, x), k2, y);
      UpdatesOnly(v, r, keys + {k1, k2}) && Field(r, k1) == x && Field(r, k2) == y
      && forall k :: k != k1 && k != k2 ==> Field(r, k) == Field(c, k)
  {
  }

  /** `o?.k`: a property of a plain object; anything else (including null and undefined)
      reads as `undefined`. */
  function Get(o: Value, k: string): Value {
    if o.Obj? && k in o.fields then o.fields[k] else Undefined
  }

  /** The elements of an array value; a value that is not an array has none. */
  function Items(v: Value): seq<Value> {
    if v.Arr? then v.items else []
  }

  /** `(v?.length || 0)`: the length of an array or string, 0 for anything else. */
  function LengthOrZero(v: Value): nat {
    match v
    case Arr(items) => |items|
    case Str(s) => |s|
    case _ => 0
  }

  /** `a === b` on the primitive values the app compares (ids, urls, strings); NaN is unequal
      to itself. */
  predicate StrictEquals(a: Value, b: Value) {
    a == b && !a.NaN?
  }

  // ---------------------------------------------------------------- decimal text

  predicate IsDigit(c: char) {
    '0' <= c <= '9'
  }

  predicate AllDigits(s: string) {
    forall i :: 0 <= i < |s| ==> IsDigit(s[i])
  }

  function DigitValue(c: char): nat
    requires IsDigit(c)
  {
    c as int - '0' as int
  }

  function DigitChar(d: nat): (c: char)
    requires d < 10
    ensures IsDigit(c) && DigitValue(c) == d
  {
    ('0' as int + d) as char
  }

  /** The value of a string of decimal digits. */
  function DigitsValue(s: string): nat
    requires AllDigits(s)
  {
    if s == [] then 0 else DigitsValue(s[..|s| - 1]) * 10 + DigitValue(s[|s| - 1])
  }

  /** Decimal rendering of a natural number, without leading zeros. */
  function NatToString(n: nat): (r: string)
    ensures |r| > 0 && AllDigits(r)
  {
    if n < 10 then [DigitChar(n)] else NatToString(n / 10) + [DigitChar(n % 10)]
  }

  /** Reading back the rendering of `n` gives `n`. */
  lemma {:induction false} NatToStringRoundTrip(n: nat)
    ensures DigitsValue(NatToString(n)) == n
  {
    if n >= 10 {
      NatToStringRoundTrip(n / 10);
      var r := NatToString(n);
      assert r[..|r| - 1] == NatToString(n / 10);
    }
  }

  /** `String(n)` for an integer. */
  function IntToString(n: int): (r: string)
    ensures |r| > 0
    ensures r[0] != ' '
  {
    if n < 0 then "-" + NatToString(-n) else NatToString(n)
  }

  // ---------------------------------------------------------------- whitespace, case

  /** The characters `String.prototype.trim` removes: white space (tab, vertical tab, form feed,
      space, no-break space, the byte order mark and the Unicode space separators) and line
      terminators (line feed, carriage return, line and paragraph separators). */
  predicate IsSpace(c: char) {
    c == ' ' || c == '\t' || c == '\n' || c == '\r'
    || c as int == 0x0B || c as int == 0x0C || c as int == 0xA0 || c as int == 0xFEFF
    || c as int == 0x1680 || 0x2000 <= c as int <= 0x200A || c as int == 0x2028
    || c as int == 0x2029 || c as int == 0x202F || c as int == 0x205F || c as int == 0x3000
  }

  /** The number of white-space characters at the front of `s`. */
  function LeadingSpaces(s: string): (k: nat)
    ensures k <= |s| && (k == |s| || !IsSpace(s[k]))
    ensures forall i :: 0 <= i < k ==> IsSpace(s[i])
  {
    if s != [] && IsSpace(s[0]) then
      var k := LeadingSpaces(s[1..]);
      assert forall i :: 1 <= i < k + 1 ==> s[i] == s[1..][i - 1];
      k + 1
    else 0
  }

  /** `s.trimStart()` */
  function TrimStart(s: string): (r: string)
    ensures |r| <= |s| && forall i :: 0 <= i < |r| ==> r[i] == s[|s| - |r| + i]
    ensures r == [] || !IsSpace(r[0])
    ensures forall i :: 0 <= i < |s| - |r| ==> IsSpace(s[i])
  {
    s[LeadingSpaces(s)..]
  }

  /** `s.trimEnd()` */
  function TrimEnd(s: string): (r: string)
    ensures |r| <= |s| && r == s[..|r|]
    ensures r == [] || !IsSpace(r[|r| - 1])
    ensures forall i :: |r| <= i < |s| ==> IsSpace(s[i])
  {
    if s != [] && IsSpace(s[|s| - 1]) then TrimEnd(s[..|s| - 1]) else s
  }

  /** `s.trim()` */
  function Trim(s: string): string {
    TrimEnd(TrimStart(s))
  }

  /** Text that does not start with white space is its own `trimStart`. */
  lemma TrimStartFixed(s: string)
    requires s == [] || !IsSpace(s[0])
    ensures TrimStart(s) == s
  {
  }

  /** Text that does not end with white space is its own `trimEnd`. */
  lemma TrimEndFixed(s: string)
    requires s == [] || !IsSpace(s[|s| - 1])
    ensures TrimEnd(s) == s
  {
  }

  /** `trimEnd` keeps the first character. */
  lemma TrimEndKeepsFirst(s: string)
    requires TrimEnd(s) != []
    ensures TrimEnd(s)[0] == s[0]
  {
    var r := TrimEnd(s);
    assert r == s[..|r|];
  }

  /** Trimming twice is trimming once. */
  lemma TrimTwice(s: string)
    ensures Trim(Trim(s)) == Trim(s)
  {
    var t := TrimStart(s);
    var r := TrimEnd(t);
    if r != [] {
      TrimEndKeepsFirst(t);
    }
    TrimStartFixed(r);
    TrimEndFixed(r);
  }

  /** A string without white space is its own trim. */
  lemma TrimNoSpace(s: string)
    requires forall i :: 0 <= i < |s| ==> !IsSpace(s[i])
    ensures Trim(s) == s
  {
    TrimStartFixed(s);
    TrimEndFixed(s);
  }

  function LowerChar(c: char): char {
    if 'A' <= c <= 'Z' then (c as int + 32) as char else c
  }

  function UpperChar(c: char): char {
    if 'a' <= c <= 'z' then (c as int - 32) as char else c
  }

  /** `s.toLowerCase()` on ASCII letters. */
  function ToLower(s: string): (r: string)
    ensures |r| == |s|
    ensures forall i :: 0 <= i < |s| ==> r[i] == LowerChar(s[i])
  {
    if s == [] then [] else [LowerChar(s[0])] + ToLower(s[1..])
  }

  /** `s.toUpperCase()` on ASCII letters. */
  function ToUpper(s: string): (r: string)
    ensures |r| == |s|
    ensures forall i :: 0 <= i < |s| ==> r[i] == UpperChar(s[i])
  {
    if s == [] then [] else [UpperChar(s[0])] + ToUpper(s[1..])
  }

  /** The UTF-16 code units of one character: two for a character above U+FFFF. */
  function CodeUnits(c: char): nat {
    if c as int > 0xFFFF then 2 else 1
  }

  /** `s.length`, which counts UTF-16 code units, not characters. */
  function Utf16Length(s: string): (n: nat)
    ensures |s| <= n <= 2 * |s|
    ensures (forall i :: 0 <= i < |s| ==> CodeUnits(s[i]) == 1) ==> n == |s|
  {
    if s == [] then 0
    else
      assert forall i :: 1 <= i < |s| ==> s[1..][i - 1] == s[i];
      CodeUnits(s[0]) + Utf16Length(s[1..])
  }

  /** `s.startsWith(prefix)` */
  predicate StartsWith(s: string, prefix: string) {
    |prefix| <= |s| && s[..|prefix|] == prefix
  }

  // ---------------------------------------------------------------- Number() and String()

  /** `Number(s)` for a string: surrounding white space is ignored, the empty string is 0, an
      optionally signed run of decimal digits is its value, and any other text is NaN. */
  function NumberOfString(s: string): (r: Value)
    ensures r.Num? || r.NaN?
    ensures Trim(s) == "" ==> r == Num(0)
  {
    var t := Trim(s);
    if t == "" then Num(0)
    else if AllDigits(t) then Num(DigitsValue(t))
    else if |t| > 1 && (t[0] == '-' || t[0] == '+') && AllDigits(t[1..]) then
      Num(if t[0] == '-' then -(DigitsValue(t[1..]) as int) else DigitsValue(t[1..]))
    else NaN
  }

  /** `Number(String(n)) === n` for every integer `n`. */
  lemma IntStringRoundTrip(n: int)
    ensures NumberOfString(IntToString(n)) == Num(n)
  {
    if n < 0 {
      NegativeRoundTrip(n);
    } else {
      NatRoundTrip(n);
    }
  }

  lemma NegativeRoundTrip(n: int)
    requires n < 0
    ensures NumberOfString(IntToString(n)) == Num(n)
  {
    var r := IntToString(n);
    NegativeText(n);
    assert r[0] == '-' && r[1..] == NatToString(-n);
    NatToStringRoundTrip(-n);
  }

  lemma NatRoundTrip(n: nat)
    ensures NumberOfString(IntToString(n)) == Num(n)
  {
    var r := IntToString(n);
    assert r == NatToString(n);
    TrimNoSpace(r);
    NatToStringRoundTrip(n);
  }

  /** The text of an integer has no white space. */
  lemma IntTextNoSpace(n: int)
    ensures forall i :: 0 <= i < |IntToString(n)| ==> !IsSpace(IntToString(n)[i])
  {
    var r := IntToString(n);
    var d := NatToString(if n < 0 then -n else n);
    forall i | 0 <= i < |r|
      ensures !IsSpace(r[i])
    {
      if n < 0 {
        assert r == "-" + d;
        if i > 0 {
          assert r[i] == d[i - 1];
        }
      }
    }
  }

  /** The text of a negative integer: a minus sign, then the digits of its magnitude, with no
      white space to trim. */
  lemma NegativeText(n: int)
    requires n < 0
    ensures IntToString(n) == ['-'] + NatToString(-n)
    ensures Trim(IntToString(n)) == IntToString(n) && !AllDigits(IntToString(n))
  {
    var r := IntToString(n);
    var d := NatToString(-n);
    assert r == ['-'] + d;
    assert (['-'] + d)[1..] == d;
    assert !AllDigits(r) by {
      assert !IsDigit(r[0]);
    }
    assert Trim(r) == r by {
      IntTextNoSpace(n);
      TrimNoSpace(r);
    }
  }

  /** `parseFloat(s) > 0`: after leading white space, a literal with a minus sign is never
      positive; otherwise the literal is positive when it is `Infinity` or its leading decimal
      number (digits with at most one decimal point) has a non-zero digit. */
  predicate ParseFloatPositive(s: string) {
    var t := TrimStart(s);
    if t != [] && t[0] == '-' then false
    else
      var u := if t != [] && t[0] == '+' then t[1..] else t;
      StartsWith(u, "Infinity") || LeadingDecimalNonZero(u, false)
  }

  /** Whether the decimal number at the front of `s` has a non-zero digit; `seenPoint` records
      that its decimal point has already been read. */
  predicate LeadingDecimalNonZero(s: string, seenPoint: bool) {
    if s == [] then false
    else if IsDigit(s[0]) then s[0] != '0' || LeadingDecimalNonZero(s[1..], seenPoint)
    else if s[0] == '.' && !seenPoint then LeadingDecimalNonZero(s[1..], true)
    else false
  }

  predicate HasNonZeroDigit(s: string) {
    exists i :: 0 <= i < |s| && s[i] != '0'
  }

  /** A digit string denotes a positive number exactly when one of its digits is not zero. */
  lemma {:induction false} DigitsValuePositive(s: string)
    requires AllDigits(s)
    ensures DigitsValue(s) > 0 <==> HasNonZeroDigit(s)
  {
    if s != [] {
      var p := s[..|s| - 1];
      DigitsValuePositive(p);
      if HasNonZeroDigit(p) {
        var i :| 0 <= i < |p| && p[i] != '0';
        assert s[i] == p[i];
      }
      if HasNonZeroDigit(s) && !HasNonZeroDigit(p) {
        assert forall j :: 0 <= j < |p| ==> p[j] == s[j];
      }
    }
  }

  /** Scanning a digit string from the front finds a non-zero digit exactly when it has one. */
  lemma {:induction false} LeadingDigitsNonZero(s: string, seenPoint: bool)
    requires AllDigits(s)
    ensures LeadingDecimalNonZero(s, seenPoint) <==> HasNonZeroDigit(s)
  {
    if s != [] {
      LeadingDigitsNonZero(s[1..], seenPoint);
      if HasNonZeroDigit(s[1..]) {
        var i :| 0 <= i < |s[1..]| && s[1..][i] != '0';
        assert s[i + 1] != '0';
      }
      if HasNonZeroDigit(s) && s[0] == '0' {
        var i :| 0 <= i < |s| && s[i] != '0';
        assert s[1..][i - 1] == s[i];
      }
    }
  }

  /** `parseFloat(String(n)) > 0` exactly when the integer `n` is positive. */
  lemma ParseFloatPositiveOfInt(n: int)
    ensures ParseFloatPositive(IntToString(n)) <==> n > 0
  {
    var r := IntToString(n);
    if n < 0 {
      assert r[0] == '-';
      assert !IsSpace(r[0]);
    } else {
      var d := NatToString(n);
      assert r == d;
      assert IsDigit(d[0]) && !IsSpace(d[0]);
      assert TrimStart(r) == d;
      assert !StartsWith(d, "Infinity") by { assert d[0] != 'I'; }
      LeadingDigitsNonZero(d, false);
      DigitsValuePositive(d);
      NatToStringRoundTrip(n);
    }
  }

  /** `Number(v)` */
  function ToNumber(v: Value): (r: Value)
    ensures r.Num? || r.NaN?
    ensures v.Num? ==> r == v
    ensures v == Str("") ==> r == Num(0)
  {
    match v
    case Undefined => NaN
    case Null => Num(0)
    case Bool(b) => Num(if b then 1 else 0)
    case Num(_) => v
    case NaN => NaN
    case Str(s) => NumberOfString(s)
    case Arr(_) => NumberOfString(StringOf(v))
    case Obj(_) => NaN
  }

  /** `isNaN(v)`, which coerces its argument with `Number()` first. */
  predicate IsNaN(v: Value) {
    ToNumber(v).NaN?
  }

  /** `String(v)`; an array renders as its elements joined by commas, with null and undefined
      elements rendered empty. */
  function StringOf(v: Value): string
    decreases v
  {
    match v
    case Undefined => "undefined"
    case Null => "null"
    case Bool(b) => if b then "true" else "false"
    case Num(n) => IntToString(n)
    case NaN => "NaN"
    case Str(s) => s
    case Arr(items) =>
      JoinWith(seq(|items|, i requires 0 <= i < |items| =>
        if IsNullish(items[i]) then "" else StringOf(items[i])), ",")
    case Obj(_) => "[object Object]"
  }

  /** `parts.join(sep)` */
  function JoinWith(parts: seq<string>, sep: string): string {
    if parts == [] then ""
    else if |parts| == 1 then parts[0]
    else parts[0] + sep + JoinWith(parts[1..], sep)
  }

  /** `v?.toString() || ''`: the text of a value, or the empty string for null and undefined. */
  function TextOrEmpty(v: Value): Value {
    if IsNullish(v) then Str("") else Str(StringOf(v))
  }

  /** `x ? String(x) : ''`, the conversion both edit screens apply to stored ids. */
  function IdText(x: Value): (r: Value)
    ensures !Truthy(x) ==> r == Str("")
    ensures Truthy(x) ==> r == Str(StringOf(x))
  {
    if Truthy(x) then Str(StringOf(x)) else Str("")
  }

  /** `v ? Number(v) : null`, the coercion every optional numeric field of a request body gets. */
  function NumberOrNull(v: Value): (r: Value)
    ensures !Truthy(v) <==> r == Null
    ensures Truthy(v) ==> r == ToNumber(v)
  {
    if Truthy(v) then ToNumber(v) else Null
  }

  /** The text of an integer, never empty, reads back as that integer through `Number()` and
      through `NumberOrNull`. */
  lemma IntTextReadsBack(n: int)
    ensures ToNumber(Str(IntToString(n))) == Num(n)
    ensures NumberOrNull(Str(IntToString(n))) == Num(n)
  {
    IntStringRoundTrip(n);
  }
}
