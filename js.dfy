/** JavaScript values as the pipeline sees them after JSON.parse, the
    Error objects it throws, and the few language rules it relies on:
    truthiness, property reads and writes, String(), new Date(x) and
    parseInt(s, 10). */
module Js {

  /** An unsigned 8-bit value, one element of a Node Buffer. */
  type byte = x: int | 0 <= x < 256

  /** A 32-bit pattern: one float32 element, treated as opaque. */
  type word = x: int | 0 <= x < 0x1_0000_0000

  /** The instant a Date object holds; `Invalid` is the "Invalid Date". */
  datatype Instant = Valid(ms: int) | Invalid

  /** A JavaScript value. Numbers are integers here, except `NaN`;
      `Floats` is an array of numbers each held as its float32 bit pattern
      (what the embedding service returns and what the byte decoder
      produces); `Bytes` is a Buffer. */
  datatype Value =
    | Undefined
    | Null
    | Bool(b: bool)
    | Num(n: int)
    | NaN
    | Str(s: string)
    | Date(t: Instant)
    | Bytes(bytes: seq<byte>)
    | Floats(words: seq<word>)
    | Arr(items: seq<Value>)
    | Obj(fields: map<string, Value>)

  /** A thrown error: its `name` and its `message`. */
  datatype JsError = JsError(name: string, message: string)

  function Error(message: string): JsError { JsError("Error", message) }
  function TypeError(message: string): JsError { JsError("TypeError", message) }

  /** The outcome of a step that may throw. */
  datatype Result<T> = Ok(value: T) | Err(error: JsError)

  /** JavaScript truthiness: `undefined`, `null`, `false`, `0`, `NaN` and
      `""` are falsy; every object (a Date, a Buffer, an array) is truthy. */
  predicate Truthy(v: Value) {
    match v
    case Undefined => false
    case Null => false
    case NaN => false
    case Bool(b) => b
    case Num(n) => n != 0
    case Str(s) => s != ""
    case _ => true
  }

  /** `null` and `undefined` are the values whose properties cannot be read. */
  predicate Nullish(v: Value) {
    v.Undefined? || v.Null?
  }

  /** Property read `v.k`: throws on null and undefined; an absent property
      of an object, and any named property of another value, is undefined. */
  function Get(v: Value, k: string): (r: Result<Value>)
    ensures r.Err? <==> Nullish(v)
    ensures v.Obj? && k !in v.fields ==> r == Ok(Undefined)
    ensures !Nullish(v) ==> r == Ok(Prop(v, k))
  {
    match v
    case Undefined => Err(TypeError("Cannot read properties of undefined"))
    case Null => Err(TypeError("Cannot read properties of null"))
    case Obj(m) => Ok(if k in m then m[k] else Undefined)
    case _ => Ok(Undefined)
  }

  /** The property of an object, or `undefined`. */
  function Field(m: map<string, Value>, k: string): Value {
    if k in m then m[k] else Undefined
  }

  /** `v.k` for a value whose properties can be read. */
  function Prop(v: Value, k: string): Value
    requires !Nullish(v)
  {
    if v.Obj? then Field(v.fields, k) else Undefined
  }

  /** Property write `v.k = x` in strict mode (the scripts are ES modules):
      it throws on null, undefined and every other primitive; on an object
      it adds or replaces the property; on an array, a Date, a Buffer or a
      typed array the new named property exists but JSON.stringify does not
      write it, so the value as serialised is unchanged. */
  function Set(v: Value, k: string, x: Value): (r: Result<Value>)
    ensures r.Ok? <==> (v.Obj? || v.Arr? || v.Floats? || v.Date? || v.Bytes?)
    ensures v.Obj? ==> r.Ok? && r.value.Obj? && r.value.fields.Keys == v.fields.Keys + {k}
    ensures v.Obj? ==> Field(r.value.fields, k) == x
    ensures v.Obj? ==> forall j :: j != k ==> Field(r.value.fields, j) == Field(v.fields, j)
  {
    match v
    case Undefined => Err(TypeError("Cannot set properties of undefined"))
    case Null => Err(TypeError("Cannot set properties of null"))
    case Obj(m) => Ok(Obj(m[k := x]))
    case Arr(_) => Ok(v)
    case Floats(_) => Ok(v)
    case Date(_) => Ok(v)
    case Bytes(_) => Ok(v)
    case _ => Err(TypeError("Cannot create property '" + k + "' on a primitive"))
  }

  /** `delete v.k` in strict mode: removes an own property of an object,
      throws on null and undefined, and leaves other values as they are. */
  function Delete(v: Value, k: string): (r: Result<Value>)
    ensures r.Err? <==> Nullish(v)
    ensures v.Obj? ==> r == Ok(Obj(v.fields - {k}))
  {
    match v
    case Undefined => Err(TypeError("Cannot convert undefined or null to object"))
    case Null => Err(TypeError("Cannot convert undefined or null to object"))
    case Obj(m) => Ok(Obj(m - {k}))
    case _ => Ok(v)
  }

  /** The own enumerable properties `{...v}` copies: the fields of an
      object, and the elements of an array, a Buffer or a string under
      their indices; nothing from any other value. */
  function Spread(v: Value): (m: map<string, Value>)
    ensures v.Obj? ==> m == v.fields
    ensures v.Str? ==> forall i :: 0 <= i < |v.s| ==> NatToString(i) in m && m[NatToString(i)] == Str([v.s[i]])
    ensures !(v.Obj? || v.Arr? || v.Bytes? || v.Str?) ==> m == map[]
  {
    match v
    case Obj(fields) => fields
    case Arr(items) => IndexFields(items)
    case Bytes(bytes) => IndexFields(seq(|bytes|, i requires 0 <= i < |bytes| => Num(bytes[i])))
    case Str(s) =>
      var chars := seq(|s|, i requires 0 <= i < |s| => Str([s[i]]));
      IndexFieldsAt(chars);
      IndexFields(chars)
    case _ => map[]
  }

  /** The elements of a sequence keyed by their decimal indices. */
  function IndexFields(items: seq<Value>): map<string, Value>
    decreases |items|
  {
    if items == [] then map[]
    else IndexFields(items[..|items| - 1])[NatToString(|items| - 1) := items[|items| - 1]]
  }

  /** Element i sits under the numeral of i. */
  lemma {:induction false} IndexFieldsAt(items: seq<Value>)
    ensures forall i :: 0 <= i < |items| ==> NatToString(i) in IndexFields(items) && IndexFields(items)[NatToString(i)] == items[i]
    decreases |items|
  {
    if items != [] {
      var init := items[..|items| - 1];
      IndexFieldsAt(init);
      forall i | 0 <= i < |items|
        ensures NatToString(i) in IndexFields(items) && IndexFields(items)[NatToString(i)] == items[i]
      {
        if i < |items| - 1 {
          NatToStringInjective(i, |items| - 1);
          assert init[i] == items[i];
        }
      }
    }
  }

  /** The decimal digit characters. */
  predicate IsDigit(c: char) { '0' <= c <= '9' }

  function DigitChar(d: nat): (c: char)
    requires d < 10
    ensures IsDigit(c)
  {
    "0123456789"[d]
  }

  function DigitValue(c: char): (d: nat)
    requires IsDigit(c)
    ensures d < 10
  {
    (c as int) - ('0' as int)
  }

  /** The decimal numeral of a natural number, without leading zeros. */
  function NatToString(n: nat): (s: string)
    ensures |s| >= 1
    ensures forall i :: 0 <= i < |s| ==> IsDigit(s[i])
  {
    if n < 10 then [DigitChar(n)] else NatToString(n / 10) + [DigitChar(n % 10)]
  }

  /** String(n) for an integer whose magnitude stays below 10^21. */
  function IntToString(n: int): string {
    if n < 0 then "-" + NatToString(-n) else NatToString(n)
  }

  /** The value of a numeral read most significant digit first. */
  function DigitsValue(s: string): nat
    requires forall i :: 0 <= i < |s| ==> IsDigit(s[i])
  {
    if s == [] then 0 else 10 * DigitsValue(s[..|s| - 1]) + DigitValue(s[|s| - 1])
  }

  /** The longest prefix of `s` made of decimal digits. */
  function LeadingDigits(s: string): (d: string)
    ensures d <= s
    ensures forall i :: 0 <= i < |d| ==> IsDigit(d[i])
    ensures |d| < |s| ==> !IsDigit(s[|d|])
  {
    if s == [] || !IsDigit(s[0]) then [] else [s[0]] + LeadingDigits(s[1..])
  }

  /** The characters parseInt skips before the sign: the white space and
      line terminators of ECMAScript (section 7.2 and 7.3 of ECMA-262). */
  predicate IsSpace(c: char) {
    c == '\t' || c == '\n' || c == '\U{000B}' || c == '\U{000C}' || c == '\r' || c == ' '
    || c == '\U{00A0}' || c == '\U{1680}' || ('\U{2000}' <= c <= '\U{200A}') || c == '\U{2028}'
    || c == '\U{2029}' || c == '\U{202F}' || c == '\U{205F}' || c == '\U{3000}' || c == '\U{FEFF}'
  }

  /** `s` without its leading white space. */
  function TrimStart(s: string): (t: string)
    ensures |t| <= |s| && t == s[|s| - |t|..]
    ensures t != [] ==> !IsSpace(t[0])
  {
    if s != [] && IsSpace(s[0]) then TrimStart(s[1..]) else s
  }

  /** The part of `t` after an optional leading sign. */
  function Unsigned(t: string): string {
    if t != [] && (t[0] == '-' || t[0] == '+') then t[1..] else t
  }

  /** parseInt(s, 10): leading white space is skipped, then an optional
      sign, then the longest run of digits; no digit at all gives NaN
      (`None`). */
  function ParseIntString(s: string): (r: Option<int>)
    ensures r.None? <==> LeadingDigits(Unsigned(TrimStart(s))) == []
    ensures r.Some? ==> var t := TrimStart(s); var d := LeadingDigits(Unsigned(t));
      var m: int := DigitsValue(d); r.value == if t[0] == '-' then -m else m
  {
    ParseSigned(TrimStart(s))
  }

  /** What parseInt reads once the white space is skipped. */
  function ParseSigned(t: string): Option<int> {
    var digits := LeadingDigits(Unsigned(t));
    var magnitude: int := if digits == [] then 0 else DigitsValue(digits);
    if digits == [] then None
    else if t[0] == '-' then Some(-magnitude)
    else Some(magnitude)
  }

  /** White space ahead of a numeral does not change what parseInt reads. */
  lemma ParseIntSkipsSpace(c: char, s: string)
    requires IsSpace(c)
    ensures ParseIntString([c] + s) == ParseIntString(s)
  {
    assert ([c] + s)[1..] == s;
  }

  datatype Option<T> = None | Some(value: T)

  lemma {:induction false} DigitsValueAppend(s: string, c: char)
    requires forall i :: 0 <= i < |s| ==> IsDigit(s[i])
    requires IsDigit(c)
    ensures forall i :: 0 <= i < |s + [c]| ==> IsDigit((s + [c])[i])
    ensures DigitsValue(s + [c]) == 10 * DigitsValue(s) + DigitValue(c)
  {
    assert (s + [c])[..|s + [c]| - 1] == s;
  }

  /** Reading back the decimal numeral of `n` gives `n`. */
  lemma {:induction false} NatToStringValue(n: nat)
    ensures DigitsValue(NatToString(n)) == n
  {
    if n >= 10 {
      NatToStringValue(n / 10);
      DigitsValueAppend(NatToString(n / 10), DigitChar(n % 10));
    }
  }

  /** Distinct numbers have distinct numerals. */
  lemma NatToStringInjective(a: nat, b: nat)
    requires a != b
    ensures NatToString(a) != NatToString(b)
  {
    NatToStringValue(a);
    NatToStringValue(b);
  }

  lemma {:induction false} LeadingDigitsAll(s: string)
    requires forall i :: 0 <= i < |s| ==> IsDigit(s[i])
    ensures LeadingDigits(s) == s
  {
    if s != [] {
      LeadingDigitsAll(s[1..]);
    }
  }

  /** parseInt(String(n), 10) == n: a number written as a decimal string
      reads back as itself. */
  lemma ParseIntOfIntToString(n: int)
    ensures ParseIntString(IntToString(n)) == Some(n)
  {
    var m: nat := if n < 0 then -n else n;
    NatToStringValue(m);
    if n < 0 {
      ParseIntOfNegative(NatToString(m));
    } else {
      ParseIntOfDigits(NatToString(m));
    }
  }

  /** A numeral reads back as written. */
  lemma ParseIntOfDigits(d: string)
    requires d != [] && forall i :: 0 <= i < |d| ==> IsDigit(d[i])
    ensures ParseIntString(d) == Some(DigitsValue(d) as int)
  {
    TrimStartNonSpace(d);
    assert Unsigned(d) == d by { assert IsDigit(d[0]); }
    LeadingDigitsAll(d);
    assert ParseSigned(d) == Some(DigitsValue(d) as int);
  }

  /** A numeral after a minus sign reads back as its negation. */
  lemma ParseIntOfNegative(d: string)
    requires d != [] && forall i :: 0 <= i < |d| ==> IsDigit(d[i])
    ensures ParseIntString("-" + d) == Some(-(DigitsValue(d) as int))
  {
    var t := "-" + d;
    assert t[0] == '-' && t[1..] == d;
    TrimStartNonSpace(t);
    ParseSignedNegative(t, d);
  }

  lemma ParseSignedNegative(t: string, d: string)
    requires d != [] && forall i :: 0 <= i < |d| ==> IsDigit(d[i])
    requires t != [] && t[0] == '-' && t[1..] == d
    ensures ParseSigned(t) == Some(-(DigitsValue(d) as int))
  {
    LeadingDigitsAll(d);
  }

  /** Nothing is skipped before a character that is not white space. */
  lemma TrimStartNonSpace(t: string)
    requires t != [] && (IsDigit(t[0]) || t[0] == '-')
    ensures TrimStart(t) == t
  {
  }

  /** The largest magnitude of a Date's time value (ECMAScript TimeClip). */
  const MaxTime: int := 8_640_000_000_000_000

  /** The instant `new Date(n)` holds for a number `n`. */
  function TimeClip(n: int): (t: Instant)
    ensures t.Valid? <==> -MaxTime <= n <= MaxTime
    ensures t.Valid? ==> t.ms == n
  {
    if -MaxTime <= n <= MaxTime then Valid(n) else Invalid
  }

  /** `new Date(v)` for a primitive. Strings go through the date parser
      `parseDate`; `null` is 0, booleans are 0 or 1; `undefined` and `NaN`
      give an Invalid Date. */
  function PrimitiveDate(v: Value, parseDate: string -> Instant): (t: Instant)
    requires !IsObject(v)
    ensures v.Str? ==> t == parseDate(v.s)
    ensures v.Num? ==> t == TimeClip(v.n)
    ensures (v.Undefined? || v.NaN?) ==> t == Invalid
  {
    match v
    case Str(s) => parseDate(s)
    case Num(n) => TimeClip(n)
    case Null => Valid(0)
    case Bool(b) => Valid(if b then 1 else 0)
    case Undefined => Invalid
    case NaN => Invalid
  }

  /** `new Date(v)` for one argument. A Date gives its own instant; any
      other object is first turned into its string (ToPrimitive), which
      is then parsed; a primitive is read as above. */
  function NewDate(v: Value, parseDate: string -> Instant, show: Value -> string): (t: Instant)
    ensures v.Date? ==> t == v.t
    ensures IsObject(v) && !v.Date? ==> t == parseDate(ToStr(v, show))
    ensures !IsObject(v) ==> t == PrimitiveDate(v, parseDate)
  {
    if v.Date? then v.t
    else if IsObject(v) then parseDate(ToStr(v, show))
    else PrimitiveDate(v, parseDate)
  }

  /** `d.getTime()`: the time value of a Date (NaN for an Invalid Date);
      on any other value `getTime` is not a function and the call throws. */
  function GetTime(v: Value): (r: Result<Value>)
    ensures r.Ok? <==> v.Date?
    ensures v.Date? && v.t.Valid? ==> r == Ok(Num(v.t.ms))
  {
    match v
    case Date(Valid(ms)) => Ok(Num(ms))
    case Date(Invalid) => Ok(NaN)
    case Undefined => Err(TypeError("Cannot read properties of undefined (reading 'getTime')"))
    case Null => Err(TypeError("Cannot read properties of null (reading 'getTime')"))
    case _ => Err(TypeError("getTime is not a function"))
  }

  /** String(v). Arrays, Dates, Buffers and float vectors are converted by
      the `show` oracle. */
  function ToStr(v: Value, show: Value -> string): string {
    match v
    case Undefined => "undefined"
    case Null => "null"
    case Bool(b) => if b then "true" else "false"
    case NaN => "NaN"
    case Num(n) => IntToString(n)
    case Str(s) => s
    case Obj(_) => "[object Object]"
    case _ => show(v)
  }

  /** parseInt(v, 10) of a stored field: the field is read as a string. */
  function ParseInt(v: Value, show: Value -> string): Option<int> {
    ParseIntString(ToStr(v, show))
  }

  /** A number stored in a field and read back with parseInt is itself. */
  lemma ParseIntOfNumber(n: int, show: Value -> string)
    ensures ParseInt(Num(n), show) == Some(n)
  {
    ParseIntOfIntToString(n);
  }

  /** A value `+` treats as an object: it is turned into its string. */
  predicate IsObject(v: Value) {
    v.Date? || v.Bytes? || v.Floats? || v.Arr? || v.Obj?
  }

  /** ToNumber of a primitive that is not a string: `undefined` and NaN
      are NaN (`None`), `null` is 0, booleans are 0 or 1. */
  function NumberOf(v: Value): Option<int>
    requires !v.Str? && !IsObject(v)
  {
    match v
    case Null => Some(0)
    case Bool(b) => Some(if b then 1 else 0)
    case Num(n) => Some(n)
    case _ => None
  }

  /** `a + b`: the concatenation of the two strings when either operand
      is a string or an object, the sum of the two numbers otherwise. */
  function Plus(a: Value, b: Value, show: Value -> string): (r: Value)
    ensures a.Num? && b.Num? ==> r == Num(a.n + b.n)
    ensures (a.Str? || b.Str? || IsObject(a) || IsObject(b)) <==> r.Str?
    ensures r.Str? ==> r.s == ToStr(a, show) + ToStr(b, show)
  {
    if a.Str? || b.Str? || IsObject(a) || IsObject(b) then Str(ToStr(a, show) + ToStr(b, show))
    else
      var x := NumberOf(a);
      var y := NumberOf(b);
      if x.Some? && y.Some? then Num(x.value + y.value) else NaN
  }

  /** A string made only of decimal digits. */
  predicate IsNumeral(s: string) {
    s != [] && forall i :: 0 <= i < |s| ==> IsDigit(s[i])
  }

  /** The number a numeral stands for, `None` for any other string. */
  function Numeral(s: string): (r: Option<nat>)
    ensures r.Some? <==> IsNumeral(s)
  {
    if IsNumeral(s) then Some(DigitsValue(s)) else None
  }

  /** The numeral of a natural number reads back as that number. */
  lemma NumeralOfNat(n: nat)
    ensures Numeral(NatToString(n)) == Some(n)
  {
    NatToStringValue(n);
  }

  function Pow10(k: nat): (p: nat)
    ensures p >= 1
  {
    if k == 0 then 1 else 10 * Pow10(k - 1)
  }

  /** The value of two numerals written one after the other: the first is
      shifted by the length of the second. */
  lemma {:induction false} DigitsValueConcat(a: string, b: string)
    requires forall i :: 0 <= i < |a| ==> IsDigit(a[i])
    requires forall i :: 0 <= i < |b| ==> IsDigit(b[i])
    ensures forall i :: 0 <= i < |a + b| ==> IsDigit((a + b)[i])
    ensures DigitsValue(a + b) == DigitsValue(a) * Pow10(|b|) + DigitsValue(b)
    decreases |b|
  {
    if b == [] {
      assert a + b == a;
    } else {
      var init := b[..|b| - 1];
      var c := b[|b| - 1];
      assert b == init + [c];
      DigitsValueConcat(a, init);
      var x, p, y := DigitsValue(a), Pow10(|init|), DigitsValue(init);
      assert a + b == (a + init) + [c];
      DigitsValueAppend(a + init, c);
      DigitsValueAppend(init, c);
      assert DigitsValue(a + b) == 10 * (x * p + y) + DigitValue(c);
      assert Pow10(|b|) == 10 * p;
      ShiftByTen(x, p);
    }
  }

  lemma ShiftByTen(x: nat, p: nat)
    ensures 10 * (x * p) == x * (10 * p)
  {
  }

  /** Two numerals written one after the other make a numeral. */
  lemma NumeralsAppend(a: string, b: string)
    requires IsNumeral(a) && IsNumeral(b)
    ensures IsNumeral(a + b)
  {
    forall i | 0 <= i < |a + b|
      ensures IsDigit((a + b)[i])
    {
      if i >= |a| {
        assert (a + b)[i] == b[i - |a|];
      }
    }
  }

  /** Two numerals concatenated stand for at least their sum. */
  lemma NumeralConcat(a: string, b: string)
    requires IsNumeral(a) && IsNumeral(b)
    ensures IsNumeral(a + b) && Numeral(a + b).value >= Numeral(a).value + Numeral(b).value
  {
    DigitsValueConcat(a, b);
    AtLeastOnce(DigitsValue(a), Pow10(|b|));
  }

  lemma AtLeastOnce(x: nat, p: nat)
    requires p >= 1
    ensures x * p >= x
  {
  }

  /** `s` without its trailing white space. */
  function TrimEnd(s: string): (t: string)
    ensures t <= s
    ensures t != [] ==> !IsSpace(t[|t| - 1])
    decreases |s|
  {
    if s != [] && IsSpace(s[|s| - 1]) then TrimEnd(s[..|s| - 1]) else s
  }

  /** ToNumber of a string written as a decimal integer, between optional
      white space: blank is 0, an optional sign and digits are that
      integer. Any other string is `None`, as for NaN. */
  function StringToInt(s: string): Option<int> {
    var t := TrimEnd(TrimStart(s));
    if t == [] then Some(0)
    else
      var u := Unsigned(t);
      if !IsNumeral(u) then None
      else if t[0] == '-' then Some(-(DigitsValue(u) as int))
      else Some(DigitsValue(u))
  }

  /** A string of digits alone is the number it writes. */
  lemma NumeralToNumber(s: string)
    requires IsNumeral(s)
    ensures StringToInt(s) == Some(DigitsValue(s) as int)
  {
    NumeralUntrimmed(s);
  }

  /** A numeral has no white space to trim and no sign. */
  lemma NumeralUntrimmed(s: string)
    ensures IsNumeral(s) ==> TrimEnd(TrimStart(s)) == s && Unsigned(s) == s
  {
    if IsNumeral(s) {
      assert !IsSpace(s[0]) && !IsSpace(s[|s| - 1]);
    }
  }
}
