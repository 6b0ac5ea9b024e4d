/** The storage format of an embedding (src/redis.js): a vector of float32
    elements laid out as 4 little-endian bytes per element, as
    `Buffer.from(new Float32Array(ar).buffer)` writes it on a little-endian
    host, and read back with `readFloatLE` at offsets 0, 4, 8, ... Each
    element is an opaque 32-bit word. */
module Vectors {
  import opened Js

  /** The four bytes of one word, least significant first. */
  function EncodeWord(w: word): (b: seq<byte>)
    ensures |b| == 4
  {
    var q0 := w / 256;
    var q1 := q0 / 256;
    [w % 256, q0 % 256, q1 % 256, q1 / 256]
  }

  /** The word whose little-endian bytes are `b0 b1 b2 b3`. */
  function DecodeWord(b0: byte, b1: byte, b2: byte, b3: byte): word {
    b0 + 256 * (b1 + 256 * (b2 + 256 * b3))
  }

  lemma WordRoundTrip(w: word)
    ensures var b := EncodeWord(w); DecodeWord(b[0], b[1], b[2], b[3]) == w
  {
    var q0 := w / 256;
    var q1 := q0 / 256;
    assert w == w % 256 + 256 * q0;
    assert q0 == q0 % 256 + 256 * q1;
    assert q1 == q1 % 256 + 256 * (q1 / 256);
    assert q1 / 256 < 256;
  }

  lemma BytesRoundTrip(b0: byte, b1: byte, b2: byte, b3: byte)
    ensures EncodeWord(DecodeWord(b0, b1, b2, b3)) == [b0, b1, b2, b3]
  {
    var w := DecodeWord(b0, b1, b2, b3);
    var q0 := b1 + 256 * (b2 + 256 * b3);
    var q1 := b2 + 256 * b3;
    assert w / 256 == q0 && w % 256 == b0;
    assert q0 / 256 == q1 && q0 % 256 == b1;
    assert q1 / 256 == b3 && q1 % 256 == b2;
  }

  /** ar2Float32Array on a vector of float32 words. */
  function Encode(ws: seq<word>): (b: seq<byte>)
    ensures |b| == 4 * |ws|
  {
    if ws == [] then [] else EncodeWord(ws[0]) + Encode(ws[1..])
  }

  /** The words read at offsets 0, 4, 8, ... of a buffer, as long as four
      bytes remain. */
  function DecodeWords(b: seq<byte>): (ws: seq<word>)
    ensures |ws| == |b| / 4
  {
    if |b| < 4 then [] else [DecodeWord(b[0], b[1], b[2], b[3])] + DecodeWords(b[4..])
  }

  /** Decoding an encoded vector gives back the same words. */
  lemma {:induction false} DecodeEncode(ws: seq<word>)
    ensures DecodeWords(Encode(ws)) == ws
  {
    if ws != [] {
      var b := Encode(ws);
      WordRoundTrip(ws[0]);
      assert b[..4] == EncodeWord(ws[0]);
      assert b[4..] == Encode(ws[1..]);
      DecodeEncode(ws[1..]);
    }
  }

  /** Encoding the words of a buffer whose length is a multiple of 4 gives
      back the same bytes. */
  lemma {:induction false} EncodeDecode(b: seq<byte>)
    requires |b| % 4 == 0
    ensures Encode(DecodeWords(b)) == b
  {
    if |b| >= 4 {
      BytesRoundTrip(b[0], b[1], b[2], b[3]);
      EncodeDecode(b[4..]);
      assert b == [b[0], b[1], b[2], b[3]] + b[4..];
    }
  }

  /** Element `i` of an encoded vector occupies bytes 4i .. 4i+3. */
  lemma {:induction false} EncodeAt(ws: seq<word>, i: nat)
    requires i < |ws|
    ensures Encode(ws)[4 * i .. 4 * i + 4] == EncodeWord(ws[i])
  {
    if i > 0 {
      EncodeAt(ws[1..], i - 1);
      assert Encode(ws)[4 * i .. 4 * i + 4] == Encode(ws[1..])[4 * (i - 1) .. 4 * (i - 1) + 4];
    }
  }

  /** Encoding distributes over concatenation. */
  lemma {:induction false} EncodeAppend(xs: seq<word>, ys: seq<word>)
    ensures Encode(xs + ys) == Encode(xs) + Encode(ys)
  {
    if xs != [] {
      assert (xs + ys)[1..] == xs[1..] + ys;
      EncodeAppend(xs[1..], ys);
    } else {
      assert xs + ys == ys;
    }
  }

  /** The words of `b` are those read before offset `at` followed by those
      from `at` on. */
  ghost predicate ReadUpTo(b: seq<byte>, at: nat, ws: seq<word>)
  {
    at <= |b| && DecodeWords(b) == ws + DecodeWords(b[at..])
  }

  /** Reading the word at offset `at` moves the offset on by 4. */
  lemma ReadNext(b: seq<byte>, at: nat, ws: seq<word>)
    requires ReadUpTo(b, at, ws) && at + 4 <= |b|
    ensures ReadUpTo(b, at + 4, ws + [DecodeWord(b[at], b[at + 1], b[at + 2], b[at + 3])])
  {
    assert b[at..][4..] == b[at + 4..];
  }

  /** Once the offset reaches the end, every word has been read. */
  lemma ReadAll(b: seq<byte>, ws: seq<word>)
    requires ReadUpTo(b, |b|, ws)
    ensures DecodeWords(b) == ws
  {
    assert b[|b|..] == [];
    assert ws + [] == ws;
  }

  /** The error `readFloatLE` throws when fewer than 4 bytes remain. */
  const OutOfRange: JsError := JsError("RangeError", "The value of \"offset\" is out of range.")

  /** What bufferToArrayOfFloats gives for a buffer: its words when its
      length is a multiple of 4, and otherwise the error of the read past
      the end. */
  function Decoded(b: seq<byte>): (r: Result<seq<word>>)
    ensures r.Ok? <==> |b| % 4 == 0
    ensures r.Ok? ==> r.value == DecodeWords(b) && |r.value| == |b| / 4
  {
    if |b| % 4 == 0 then Ok(DecodeWords(b)) else Err(OutOfRange)
  }

  /** The read at offset `4 * i` fails exactly when fewer than 4 bytes
      remain there. */
  lemma ReadPastEnd(b: seq<byte>, i: nat)
    requires 4 * i < |b| < 4 * i + 4
    ensures Decoded(b) == Err(OutOfRange)
  {
  }

  /** A loop that ran to the end of a buffer read all of it. */
  lemma ReadToEnd(b: seq<byte>, i: nat, ws: seq<word>)
    requires |b| <= 4 * i && ReadUpTo(b, 4 * i, ws)
    ensures Decoded(b) == Ok(ws)
  {
    ReadAll(b, ws);
  }

  /** bufferToArrayOfFloats: the loop runs while i < length / 4 (a real
      division), so on a length that is not a multiple of 4 its last
      iteration reads past the end and throws. */
  method BufferToArrayOfFloats(buffer: seq<byte>) returns (r: Result<seq<word>>)
    ensures r == Decoded(buffer)
  {
    var floats: seq<word> := [];
    var i := 0;
    while 4 * i < |buffer|
      invariant ReadUpTo(buffer, 4 * i, floats)
      decreases |buffer| - 4 * i
    {
      if 4 * i + 4 > |buffer| {
        ReadPastEnd(buffer, i);
        return Err(OutOfRange);
      }
      ReadNext(buffer, 4 * i, floats);
      floats := floats + [DecodeWord(buffer[4 * i], buffer[4 * i + 1], buffer[4 * i + 2], buffer[4 * i + 3])];
      i := i + 1;
    }
    ReadToEnd(buffer, i, floats);
    return Ok(floats);
  }

  /** Number.MAX_SAFE_INTEGER, the largest length ToIndex accepts. */
  const MaxSafeInteger: int := 0x1F_FFFF_FFFF_FFFF

  /** ToNumber of a value, for the integers the model has: `None` is NaN.
      A Date is its time value; other objects are read through their
      string. */
  function NumberValue(v: Value, show: Value -> string): Option<int> {
    if v.Str? then StringToInt(v.s)
    else if v.Date? then (if v.t.Valid? then Some(v.t.ms) else None)
    else if IsObject(v) then StringToInt(ToStr(v, show))
    else NumberOf(v)
  }

  /** The length `new Float32Array(v)` allocates for a primitive whose
      number is `n` (ToIndex): NaN is 0, and a negative or unsafe length
      throws. */
  function TypedLength(n: Option<int>): (r: Result<nat>)
    ensures n.None? ==> r == Ok(0)
    ensures n.Some? ==> (r.Ok? <==> 0 <= n.value <= MaxSafeInteger) && (r.Ok? ==> r.value == n.value)
  {
    if n.None? then Ok(0)
    else if n.value < 0 || n.value > MaxSafeInteger then
      Err(JsError("RangeError", "Invalid typed array length: " + IntToString(n.value)))
    else Ok(n.value)
  }

  /** The length of an array-like object (ToLength of its `length`):
      NaN and negative lengths are 0, and it is capped at the largest safe
      integer. */
  function ArrayLikeLength(fields: map<string, Value>, show: Value -> string): (n: nat)
    ensures n <= MaxSafeInteger
  {
    var len := NumberValue(Field(fields, "length"), show);
    if len.None? || len.value < 0 then 0
    else if len.value > MaxSafeInteger then MaxSafeInteger
    else len.value
  }

  /** The elements of `new Float32Array(v)`. `float32` is ToNumber of an
      element rounded to float32. A typed array is copied, a Buffer gives
      one element per byte, an array one per element (it is iterable), a
      plain object one per index below its `length`, and a Date (neither
      iterable nor with a length) none; a primitive is a length, giving
      that many zero elements. */
  function Float32Elements(v: Value, float32: Value -> word, show: Value -> string): (r: Result<seq<word>>)
    ensures v.Floats? ==> r == Ok(v.words)
    ensures v.Arr? ==> r.Ok? && |r.value| == |v.items| && forall i :: 0 <= i < |v.items| ==> r.value[i] == float32(v.items[i])
    ensures v.Bytes? ==> r.Ok? && |r.value| == |v.bytes| && forall i :: 0 <= i < |v.bytes| ==> r.value[i] == float32(Num(v.bytes[i]))
    ensures v.Obj? ==>
      && r.Ok? && |r.value| == ArrayLikeLength(v.fields, show)
      && forall i :: 0 <= i < |r.value| ==> r.value[i] == float32(Field(v.fields, NatToString(i)))
    ensures v.Date? ==> r == Ok([])
    ensures !IsObject(v) ==>
      var n := TypedLength(NumberValue(v, show));
      (r.Err? <==> n.Err?) && (r.Ok? ==> r.value == Zeros(n.value))
  {
    match v
    case Floats(ws) => Ok(ws)
    case Arr(items) => Ok(seq(|items|, i requires 0 <= i < |items| => float32(items[i])))
    case Bytes(bytes) => Ok(seq(|bytes|, i requires 0 <= i < |bytes| => float32(Num(bytes[i]))))
    case Obj(fields) =>
      Ok(ArrayLikeElements(fields, ArrayLikeLength(fields, show), float32))
    case Date(_) => Ok([])
    case _ =>
      var n := TypedLength(NumberValue(v, show));
      if n.Err? then Err(n.error) else Ok(Zeros(n.value))
  }

  /** `n` zero elements, as a new typed array of length `n` holds. */
  function Zeros(n: nat): (ws: seq<word>)
    ensures |ws| == n && forall i :: 0 <= i < n ==> ws[i] == 0
  {
    seq(n, _ => 0)
  }

  /** Element `i` of an array-like object. */
  function ElementAt(fields: map<string, Value>, i: nat, float32: Value -> word): word {
    float32(Field(fields, NatToString(i)))
  }

  /** The elements at indices 0 to n - 1 of an array-like object. */
  function ArrayLikeElements(fields: map<string, Value>, n: nat, float32: Value -> word): (ws: seq<word>)
    ensures |ws| == n && forall i :: 0 <= i < n ==> ws[i] == float32(Field(fields, NatToString(i)))
  {
    seq(n, i requires 0 <= i < n => ElementAt(fields, i, float32))
  }

  /** The bytes of `Buffer.from(new Float32Array(v).buffer)`
      (ar2Float32Array): the elements, each as its 4 little-endian bytes. */
  function Float32Array(v: Value, float32: Value -> word, show: Value -> string): (r: Result<seq<byte>>)
    ensures r.Err? <==> Float32Elements(v, float32, show).Err?
    ensures r.Ok? ==>
      && |r.value| == 4 * |Float32Elements(v, float32, show).value|
      && DecodeWords(r.value) == Float32Elements(v, float32, show).value
  {
    var ws := Float32Elements(v, float32, show);
    if ws.Err? then Err(ws.error)
    else
      DecodeEncode(ws.value);
      Ok(Encode(ws.value))
  }

  /** A vector is encoded as it is; a number is a length of zeros. */
  lemma Float32ArrayOfVector(ws: seq<word>, float32: Value -> word, show: Value -> string)
    ensures Float32Array(Floats(ws), float32, show) == Ok(Encode(ws))
  {
  }

  /** A numeral string is a length, like the number it writes: that many
      zero elements. */
  lemma Float32ArrayOfNumeralString(d: string, float32: Value -> word, show: Value -> string)
    requires IsNumeral(d) && DigitsValue(d) <= MaxSafeInteger
    ensures Float32Array(Str(d), float32, show) == Float32Array(Num(DigitsValue(d)), float32, show)
    ensures Float32Array(Num(DigitsValue(d)), float32, show) == Ok(Encode(Zeros(DigitsValue(d))))
  {
    var n := DigitsValue(d);
    NumeralNumberValue(d, show);
    NumberNumberValue(n, show);
    ZerosOfLength(Str(d), n, float32, show);
    ZerosOfLength(Num(n), n, float32, show);
  }

  /** A numeral string is the number it writes. */
  lemma NumeralNumberValue(d: string, show: Value -> string)
    requires IsNumeral(d)
    ensures NumberValue(Str(d), show) == Some(DigitsValue(d) as int)
  {
    NumeralToNumber(d);
  }

  /** A number is itself. */
  lemma NumberNumberValue(n: int, show: Value -> string)
    ensures NumberValue(Num(n), show) == Some(n)
  {
  }

  /** A primitive whose number is a valid length is that many zeros. */
  lemma ZerosOfLength(v: Value, n: nat, float32: Value -> word, show: Value -> string)
    requires !IsObject(v) && NumberValue(v, show) == Some(n as int) && n <= MaxSafeInteger
    ensures Float32Elements(v, float32, show) == Ok(Zeros(n))
  {
    assert TypedLength(NumberValue(v, show)) == Ok(n);
  }
}
