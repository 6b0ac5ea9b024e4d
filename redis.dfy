/** The Redis store as the pipeline uses it (src/redis.js and the hash
    commands of the stages): hashes keyed by string, and search indexes
    over the hashes whose keys start with the index prefix. */
module Redis {
  import opened Js

  /** The field types of the document index schema. */
  datatype FieldType = Text | NumericSortable | Vector(algorithm: string, elementType: string, dim: nat, metric: string)

  datatype SchemaField = SchemaField(name: string, kind: FieldType)

  /** An index created with ON HASH over the keys starting with `prefix`. */
  datatype IndexDef = IndexDef(prefix: string, schema: seq<SchemaField>)

  /** DIMENSIONS of src/constants.js. */
  const Dimensions: nat := 512

  /** The index `getIndex` creates: keys `<prefix>:...`, `title` and `body`
      as text, `date` numeric and sortable, `embedding` a 512-element
      float32 vector searched by cosine distance with a flat index. */
  function DocumentIndex(prefix: string): (d: IndexDef)
    ensures d.prefix == prefix + ":"
    ensures |d.schema| == 4
    ensures d.schema[0] == SchemaField("title", Text) && d.schema[1] == SchemaField("body", Text)
    ensures d.schema[2] == SchemaField("date", NumericSortable)
    ensures d.schema[3] == SchemaField("embedding", Vector("FLAT", "FLOAT32", Dimensions, "COSINE"))
  {
    IndexDef(prefix + ":", [SchemaField("title", Text), SchemaField("body", Text),
      SchemaField("date", NumericSortable),
      SchemaField("embedding", Vector("FLAT", "FLOAT32", Dimensions, "COSINE"))])
  }

  /** getIndex on the index map: what it returns and the index map after. */
  function IndexLookup(indexes: map<string, IndexDef>, name: string, prefix: string, create: bool)
    : (r: (Option<IndexDef>, map<string, IndexDef>))
    ensures name in indexes ==> r == (Some(indexes[name]), indexes)
    ensures name !in indexes && !create ==> r == (None, indexes)
    ensures name !in indexes && create ==> r == (Some(DocumentIndex(prefix)), indexes[name := DocumentIndex(prefix)])
  {
    if name in indexes then (Some(indexes[name]), indexes)
    else if !create then (None, indexes)
    else (Some(DocumentIndex(prefix)), indexes[name := DocumentIndex(prefix)])
  }

  /** A second getIndex finds what the first left and changes nothing,
      whatever its own flag. */
  lemma IndexLookupIdempotent(indexes: map<string, IndexDef>, name: string, prefix: string, create: bool, create2: bool)
    ensures var (r1, after) := IndexLookup(indexes, name, prefix, create);
      r1.Some? ==> IndexLookup(after, name, prefix, create2) == (r1, after)
  {
  }

  /** Only the named index can appear, and an existing one is never
      replaced. */
  lemma IndexLookupFrame(indexes: map<string, IndexDef>, name: string, prefix: string, create: bool)
    ensures var (_, after) := IndexLookup(indexes, name, prefix, create);
      && after.Keys == indexes.Keys + (if create then {name} else {})
      && forall n :: n in indexes ==> after[n] == indexes[n]
  {
  }

  /** The hashes of the store: key to field to value. */
  type Hashes = map<string, map<string, Value>>

  /** A hit of a KNN search: the document key and its `vectorScore`. */
  datatype Hit = Hit(key: string, score: string)

  /** A returned document: its key as `id`, and the requested fields. */
  datatype Document = Document(id: string, value: map<string, Value>)

  /** The fields RETURN asks for. */
  const Returned: set<string> := {"title", "body", "date"}

  /** The fields of `h` that RETURN asks for, and the score. */
  function Projection(h: map<string, Value>, score: string): (m: map<string, Value>)
    ensures m.Keys == (h.Keys * Returned) + {"vectorScore"}
    ensures m["vectorScore"] == Str(score)
    ensures forall k :: k in Returned && k in h ==> m[k] == h[k]
  {
    (map k | k in h.Keys * Returned :: h[k])["vectorScore" := Str(score)]
  }

  /** Hits `lo` to `hi` of a ranking. */
  function Window(ranked: seq<Hit>, lo: nat, hi: nat): (w: seq<Hit>)
    ensures |w| == (if hi <= |ranked| then hi else |ranked|) - (if lo <= hi && lo <= |ranked| then lo else if hi <= |ranked| then hi else |ranked|)
    ensures forall i :: 0 <= i < |w| ==> w[i] == ranked[lo + i]
  {
    var h := if hi <= |ranked| then hi else |ranked|;
    var l := if lo <= h then lo else h;
    ranked[l..h]
  }

  /** Paging composes: the window of `size1` hits from `from` followed by
      the next `size2` is the window of `size1 + size2` hits. */
  lemma WindowsCompose(ranked: seq<Hit>, from: nat, size1: nat, size2: nat)
    ensures Window(ranked, from, from + size1) + Window(ranked, from + size1, from + size1 + size2)
         == Window(ranked, from, from + size1 + size2)
  {
  }

  /** The fields stored under `key`; none for a missing key. */
  function HashAt(hashes: Hashes, key: string): map<string, Value> {
    if key in hashes then hashes[key] else map[]
  }

  class Store {
    var hashes: map<string, map<string, Value>>
    var indexes: map<string, IndexDef>

    constructor (hashes: map<string, map<string, Value>>, indexes: map<string, IndexDef>)
      ensures this.hashes == hashes && this.indexes == indexes
    {
      this.hashes := hashes;
      this.indexes := indexes;
    }

    /** getIndex(name, prefix, createIfNotExists): ft.info when the index
        exists, null when it does not and creation is off, else ft.create
        and ft.info. */
    method GetIndex(name: string, prefix: string, createIfNotExists: bool) returns (r: Option<IndexDef>)
      modifies this
      ensures hashes == old(hashes)
      ensures (r, indexes) == IndexLookup(old(indexes), name, prefix, createIfNotExists)
    {
      if name in indexes {
        return Some(indexes[name]);
      }
      if !createIfNotExists {
        return None;
      }
      indexes := indexes[name := DocumentIndex(prefix)];
      return Some(indexes[name]);
    }

    /** hSet(key, value): the command's fields are set, the others of the
        hash are kept; a command node-redis or the server refuses changes
        nothing. */
    method HSet(key: Value, value: Value) returns (r: Result<()>)
      modifies this
      ensures indexes == old(indexes)
      ensures (r, hashes) == SetHash(old(hashes), key, value)
    {
      var command := HSetCommand(key, value);
      if command.Err? {
        return Err(command.error);
      }
      var (k, fields) := command.value;
      hashes := hashes[k := HashAfterSet(hashes, k, fields)];
      return Ok(());
    }

    /** hGetAll(key): all fields, none for a missing key. */
    function HGetAll(key: string): (m: map<string, Value>)
      reads this
      ensures key in hashes ==> m == hashes[key]
      ensures key !in hashes ==> m == map[]
    {
      HashAt(hashes, key)
    }

    /** keys(pattern): every key the pattern matches, once each, in the
        order the server lists them (unspecified). */
    method Keys(matches: string -> bool) returns (keys: seq<string>)
      ensures forall k :: k in keys <==> k in hashes && matches(k)
      ensures forall i, j :: 0 <= i < j < |keys| ==> keys[i] != keys[j]
    {
      var rest := set k | k in hashes && matches(k);
      keys := [];
      while rest != {}
        invariant forall k :: k in keys || k in rest <==> k in hashes && matches(k)
        invariant forall k :: k in keys ==> k !in rest
        invariant forall i, j :: 0 <= i < j < |keys| ==> keys[i] != keys[j]
        decreases |rest|
      {
        var k :| k in rest;
        keys := keys + [k];
        rest := rest - {k};
      }
    }

    /** retrieve(indexName, vector, size = 2, from = 0): a KNN search for
        the `${from + size}` nearest documents sorted by score, of which
        LIMIT keeps `size.toString()` from offset `from.toString()`.
        `ranked` is the index's ranking of its documents by distance to
        the vector. An argument the search cannot be sent with fails as
        Served says; a missing index is an error of the server. */
    function Retrieve(indexName: string, size: Value, from: Value, ranked: seq<Hit>, show: Value -> string)
      : (r: Result<seq<Document>>)
      reads this
      ensures var l := Served(Defaulted(from, 0), Defaulted(size, 2), show);
        && (l.Err? ==> r == Err(l.error))
        && (l.Ok? && indexName !in indexes ==> r == Err(SearchFailed))
        && (l.Ok? && indexName in indexes ==>
              var (o, c) := l.value;
              r == Ok(Documents(hashes, Window(ranked, o, o + c))) && |r.value| <= c)
      ensures r.Ok? ==> forall i :: 0 <= i < |r.value| ==> "id" !in r.value[i].value
    {
      var f := Defaulted(from, 0);
      var z := Defaulted(size, 2);
      var l := Served(f, z, show);
      if l.Err? then Err(l.error)
      else if indexName !in indexes then Err(SearchFailed)
      else
        var (o, c) := l.value;
        var knn := Numeral(ToStr(Plus(f, z, show), show)).value;
        KnnCoversWindow(f, z, show);
        KnnWindow(ranked, knn, o, c);
        DocumentsWithoutId(hashes, Window(ranked, o, o + c));
        Ok(Documents(hashes, Window(Window(ranked, 0, knn), o, o + c)))
    }
  }

  const SearchFailed: JsError := Error("Search failed")
  const NullToString: JsError := TypeError("Cannot read properties of null (reading 'toString')")

  /** A parameter's default: `v` unless it is undefined. */
  function Defaulted(v: Value, default: int): Value {
    if v.Undefined? then Num(default) else v
  }

  /** The LIMIT offset and count the search is sent with, for `from` and
      `size` after their defaults. `null` makes toString throw before
      anything is sent; a KNN count, offset or count that is not a
      numeral is refused by the server. `from + size` is JavaScript's
      `+`, so string arguments are concatenated. */
  function Served(f: Value, z: Value, show: Value -> string): (r: Result<(nat, nat)>)
    ensures (f.Null? || z.Null?) ==> r == Err(NullToString)
    ensures !f.Null? && !z.Null? ==>
      (r.Ok? <==> IsNumeral(ToStr(f, show)) && IsNumeral(ToStr(z, show)) && IsNumeral(ToStr(Plus(f, z, show), show)))
    ensures r.Err? && !f.Null? && !z.Null? ==> r == Err(SearchFailed)
    ensures r.Ok? ==> r.value == (Numeral(ToStr(f, show)).value, Numeral(ToStr(z, show)).value)
  {
    if f.Null? || z.Null? then Err(NullToString)
    else
      var knn := Numeral(ToStr(Plus(f, z, show), show));
      var offset := Numeral(ToStr(f, show));
      var count := Numeral(ToStr(z, show));
      if knn.None? || offset.None? || count.None? then Err(SearchFailed)
      else Ok((offset.value, count.value))
  }

  /** String(n) is a numeral exactly for a number that is not negative,
      and then it stands for the number. */
  lemma NumeralOfInt(n: int)
    ensures IsNumeral(IntToString(n)) <==> n >= 0
    ensures n >= 0 ==> Numeral(IntToString(n)) == Some(n)
  {
    if n >= 0 {
      NumeralOfNat(n);
    } else {
      assert IntToString(n)[0] == '-';
    }
  }

  /** The KNN count is at least the end of the LIMIT window: the sum of two
      numbers, or two numerals written one after the other. */
  lemma KnnCoversWindow(f: Value, z: Value, show: Value -> string)
    requires IsNumeral(ToStr(f, show)) && IsNumeral(ToStr(z, show)) && IsNumeral(ToStr(Plus(f, z, show), show))
    ensures Numeral(ToStr(Plus(f, z, show), show)).value >= Numeral(ToStr(f, show)).value + Numeral(ToStr(z, show)).value
  {
    var (a, b) := (ToStr(f, show), ToStr(z, show));
    var p := Plus(f, z, show);
    if p.Str? {
      assert ToStr(p, show) == a + b;
      NumeralConcat(a, b);
    } else {
      NumeralPrimitive(f, show);
      NumeralPrimitive(z, show);
      assert p == Num(f.n + z.n);
      assert a == IntToString(f.n) && b == IntToString(z.n);
      assert ToStr(p, show) == IntToString(f.n + z.n);
      NumeralOfInt(f.n);
      NumeralOfInt(z.n);
      NumeralOfInt(f.n + z.n);
    }
  }

  /** The only primitives other than strings whose string is a numeral
      are the numbers. */
  lemma NumeralPrimitive(v: Value, show: Value -> string)
    requires !v.Str? && !IsObject(v) && IsNumeral(ToStr(v, show))
    ensures v.Num?
  {
    var t := ToStr(v, show);
    assert IsDigit(t[0]);
  }

  /** LIMIT over the first `knn` hits is LIMIT over the ranking when the
      window ends within them. */
  lemma KnnWindow(ranked: seq<Hit>, knn: nat, o: nat, c: nat)
    requires knn >= o + c
    ensures Window(Window(ranked, 0, knn), o, o + c) == Window(ranked, o, o + c)
  {
  }

  /** Numbers not below zero are served as themselves. */
  lemma ServedNumbers(start: nat, count: nat, show: Value -> string)
    ensures Served(Num(start), Num(count), show) == Ok((start, count))
  {
    NumeralOfInt(start);
    NumeralOfInt(count);
    NumeralOfInt(start + count);
    assert Plus(Num(start), Num(count), show) == Num(start + count);
  }

  /** Numbers not below zero retrieve the window of `count` hits from
      rank `start`. */
  lemma RetrieveNumbers(store: Store, indexName: string, ranked: seq<Hit>, start: nat, count: nat, show: Value -> string)
    requires indexName in store.indexes
    ensures store.Retrieve(indexName, Num(count), Num(start), ranked, show)
         == Ok(Documents(store.hashes, Window(ranked, start, start + count)))
  {
    ServedNumbers(start, count, show);
    RetrieveServed(store, indexName, ranked, Num(count), Num(start), show, start, count);
  }

  /** What Served sends is what LIMIT keeps. */
  lemma RetrieveServed(store: Store, indexName: string, ranked: seq<Hit>, size: Value, from: Value, show: Value -> string, o: nat, c: nat)
    requires indexName in store.indexes && !size.Undefined? && !from.Undefined?
    requires Served(from, size, show) == Ok((o, c))
    ensures store.Retrieve(indexName, size, from, ranked, show) == Ok(Documents(store.hashes, Window(ranked, o, o + c)))
  {
    assert Defaulted(from, 0) == from && Defaulted(size, 2) == size;
  }

  /** Numeric strings are served as the numbers they write: "start" and
      "count" give a KNN count that is a numeral too, and LIMIT start
      count. */
  lemma ServedNumerals(a: string, b: string, show: Value -> string)
    requires IsNumeral(a) && IsNumeral(b)
    ensures Served(Str(a), Str(b), show) == Ok((DigitsValue(a), DigitsValue(b)))
  {
    NumeralsAppend(a, b);
    assert ToStr(Plus(Str(a), Str(b), show), show) == a + b;
  }

  /** A search whose arguments can be sent fails on a missing index. */
  lemma RetrieveMissingIndex(store: Store, indexName: string, ranked: seq<Hit>, size: Value, from: Value, show: Value -> string)
    requires indexName !in store.indexes && !size.Undefined? && !from.Undefined?
    requires Served(from, size, show).Ok?
    ensures store.Retrieve(indexName, size, from, ranked, show) == Err(SearchFailed)
  {
    assert Defaulted(from, 0) == from && Defaulted(size, 2) == size;
  }

  /** So a search with numeric strings answers as the numbers do. */
  lemma NumeralStringsServed(store: Store, indexName: string, ranked: seq<Hit>, start: nat, count: nat, show: Value -> string)
    ensures store.Retrieve(indexName, Str(NatToString(count)), Str(NatToString(start)), ranked, show)
         == store.Retrieve(indexName, Num(count), Num(start), ranked, show)
  {
    var (a, b) := (NatToString(start), NatToString(count));
    NumeralOfNat(start);
    NumeralOfNat(count);
    ServedNumerals(a, b, show);
    ServedNumbers(start, count, show);
    if indexName in store.indexes {
      RetrieveServed(store, indexName, ranked, Str(b), Str(a), show, start, count);
      RetrieveServed(store, indexName, ranked, Num(count), Num(start), show, start, count);
    } else {
      RetrieveMissingIndex(store, indexName, ranked, Str(b), Str(a), show);
      RetrieveMissingIndex(store, indexName, ranked, Num(count), Num(start), show);
    }
  }

  /** The error node-redis throws for an argument that is neither a
      string nor a Buffer. */
  const InvalidArgument: JsError := TypeError("Invalid argument type")
  /** Object.keys of null or undefined. */
  const NotAnObject: JsError := TypeError("Cannot convert undefined or null to object")
  /** The server's answer to HSET without a field. */
  const WrongArity: JsError := Error("ERR wrong number of arguments for 'hset' command")

  /** An argument node-redis sends: a string, a Buffer, or a number, which
      it writes in decimal (NaN included). */
  predicate Sendable(v: Value) {
    v.Str? || v.Num? || v.NaN? || v.Bytes?
  }

  /** The string the server receives for a sendable argument; a Buffer's
      bytes are read one character each. */
  function ArgString(v: Value): string
    requires Sendable(v)
  {
    match v
    case Str(s) => s
    case Num(n) => IntToString(n)
    case NaN => "NaN"
    case Bytes(bytes) => seq(|bytes|, i requires 0 <= i < |bytes| => bytes[i] as char)
  }

  /** pushTuples: the elements of a tuple list, nested lists flattened in
      order. */
  function Flatten(items: seq<Value>): (r: seq<Value>)
    ensures forall i :: 0 <= i < |r| ==> !r[i].Arr?
    decreases items
  {
    if items == [] then []
    else (if items[0].Arr? then Flatten(items[0].items) else [items[0]]) + Flatten(items[1..])
  }

  /** The fields of `field value field value ...`, a later pair replacing
      an earlier one of the same name. */
  function Pairs(args: seq<Value>): (m: map<string, Value>)
    requires |args| % 2 == 0 && forall i :: 0 <= i < |args| ==> Sendable(args[i])
    ensures forall i :: 0 <= i < |args| / 2 ==> ArgString(args[2 * i]) in m
    ensures |args| >= 2 ==> ArgString(args[|args| - 2]) in m && m[ArgString(args[|args| - 2])] == args[|args| - 1]
    decreases |args|
  {
    if args == [] then map[]
    else
      var init := args[..|args| - 2];
      var m := Pairs(init);
      var m' := m[ArgString(args[|args| - 2]) := args[|args| - 1]];
      assert forall i :: 0 <= i < |args| / 2 ==> ArgString(args[2 * i]) in m' by {
        forall i | 0 <= i < |args| / 2
          ensures ArgString(args[2 * i]) in m'
        {
          if i < |init| / 2 {
            assert init[2 * i] == args[2 * i];
          }
        }
      }
      m'
  }

  /** hSet(key, value) as node-redis builds and the server runs it: the
      hash key and the fields to set, or why the call fails. An object's
      own fields are sent; an array is a flat list of names and values; a
      single string, number or Buffer is the one-field form, whose value
      is then missing; a boolean sends no field and a Date has no own
      fields. A float vector, which node-redis sends as pairs of number
      strings, is refused here: the model has no float-to-string
      conversion to name its fields. */
  function HSetCommand(key: Value, value: Value): (r: Result<(string, map<string, Value>)>)
    ensures Nullish(value) ==> r == Err(NotAnObject)
    ensures r.Ok? ==> (key.Str? || key.Bytes?) && (value.Obj? || value.Arr?) && r.value.0 == ArgString(key)
    ensures r.Err? && !Nullish(value) ==> r.error == InvalidArgument || r.error == WrongArity
    ensures value.Obj? ==>
      (r.Ok? <==> (key.Str? || key.Bytes?) && value.fields != map[]
                  && forall k :: k in value.fields ==> Sendable(value.fields[k]))
    ensures value.Obj? && r.Ok? ==> r.value == (ArgString(key), value.fields)
    ensures value.Obj? && !(forall k :: k in value.fields ==> Sendable(value.fields[k])) ==> r == Err(InvalidArgument)
    ensures value.Arr? ==>
      var args := Flatten(value.items);
      (r.Ok? <==> (key.Str? || key.Bytes?) && args != [] && |args| % 2 == 0
                  && forall i :: 0 <= i < |args| ==> Sendable(args[i]))
    ensures Sendable(value) ==> r == Err(InvalidArgument)
    ensures (value.Bool? || value.Date? || value.Floats?) ==>
      r == Err(if key.Str? || key.Bytes? then WrongArity else InvalidArgument)
  {
    if Nullish(value) then Err(NotAnObject)
    else if !(key.Str? || key.Bytes?) then Err(InvalidArgument)
    else
      match value
      case Obj(fields) =>
        if !(forall k :: k in fields ==> Sendable(fields[k])) then Err(InvalidArgument)
        else if fields == map[] then Err(WrongArity)
        else Ok((ArgString(key), fields))
      case Arr(items) =>
        var args := Flatten(items);
        if !(forall i :: 0 <= i < |args| ==> Sendable(args[i])) then Err(InvalidArgument)
        else if args == [] || |args| % 2 != 0 then Err(WrongArity)
        else Ok((ArgString(key), Pairs(args)))
      case Bool(_) => Err(WrongArity)
      case Date(_) => Err(WrongArity)
      case Floats(_) => Err(WrongArity)
      case _ => Err(InvalidArgument)
  }

  /** The answer of hSet and the hashes after it. */
  function SetHash(hashes: map<string, map<string, Value>>, key: Value, value: Value)
    : (r: (Result<()>, map<string, map<string, Value>>))
    ensures r.0.Ok? <==> HSetCommand(key, value).Ok?
    ensures r.0.Err? ==> r == (Err(HSetCommand(key, value).error), hashes)
    ensures r.0.Ok? ==> var (name, fields) := HSetCommand(key, value).value;
      r.1 == hashes[name := HashAfterSet(hashes, name, fields)]
  {
    var command := HSetCommand(key, value);
    if command.Err? then (Err(command.error), hashes)
    else (Ok(()), hashes[command.value.0 := HashAfterSet(hashes, command.value.0, command.value.1)])
  }

  /** An object of strings and numbers under a string key is stored as
      it is, over the fields the hash had. */
  lemma SetHashOfRecord(hashes: map<string, map<string, Value>>, key: string, fields: map<string, Value>)
    requires fields != map[] && forall k :: k in fields ==> fields[k].Str? || fields[k].Num?
    ensures SetHash(hashes, Str(key), Obj(fields)) == (Ok(()), hashes[key := HashAfterSet(hashes, key, fields)])
  {
  }

  /** An array of string pairs is stored as those fields (pushTuples). */
  lemma SetHashOfPairs(hashes: map<string, map<string, Value>>, key: string, name: string, x: string)
    ensures SetHash(hashes, Str(key), Arr([Str(name), Str(x)]))
         == (Ok(()), hashes[key := HashAfterSet(hashes, key, map[name := Str(x)])])
  {
    var args := [Str(name), Str(x)];
    assert args[1..] == [Str(x)] && [Str(x)][1..] == [];
    assert Flatten([Str(x)]) == [Str(x)];
    assert Flatten(args) == args;
    assert Pairs(args) == map[name := Str(x)];
  }

  /** The hash under `key` after hSet of `fields`. */
  function HashAfterSet(hashes: map<string, map<string, Value>>, key: string, fields: map<string, Value>)
    : (h: map<string, Value>)
    ensures h.Keys == fields.Keys + (if key in hashes then hashes[key].Keys else {})
    ensures forall f :: f in fields ==> h[f] == fields[f]
    ensures forall f :: key in hashes && f in hashes[key] && f !in fields ==> h[f] == hashes[key][f]
  {
    var old_ := if key in hashes then hashes[key] else map[];
    map f | f in fields.Keys + old_.Keys :: if f in fields then fields[f] else old_[f]
  }

  /** The document a hit returns: its key, and its requested fields. */
  function Found(hashes: map<string, map<string, Value>>, hit: Hit): (d: Document)
    ensures d.id == hit.key && d.value.Keys <= Returned + {"vectorScore"}
  {
    Document(hit.key, Projection(if hit.key in hashes then hashes[hit.key] else map[], hit.score))
  }

  /** No returned document has an `id` field. */
  lemma DocumentsWithoutId(hashes: Hashes, hits: seq<Hit>)
    ensures forall i :: 0 <= i < |hits| ==> "id" !in Documents(hashes, hits)[i].value
  {
    forall i | 0 <= i < |hits|
      ensures "id" !in Documents(hashes, hits)[i].value
    {
      assert Documents(hashes, hits)[i].value.Keys <= Returned + {"vectorScore"};
    }
  }

  function Documents(hashes: map<string, map<string, Value>>, hits: seq<Hit>): (ds: seq<Document>)
    ensures |ds| == |hits| && forall i :: 0 <= i < |hits| ==> ds[i] == Found(hashes, hits[i])
  {
    seq(|hits|, i requires 0 <= i < |hits| => Found(hashes, hits[i]))
  }
}
