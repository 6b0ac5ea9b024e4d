/** The direct document import (importdoc.js): every `.json` file directly
    in one folder, in listing order, becomes the hash
    `documents:heise:<name without .json>` holding the record without its
    `id`, its date as epoch milliseconds and its embedding as float32
    bytes. Nothing is caught: the first file that fails ends the import,
    and the hashes already written stay. */
module ImportDoc {
  import opened Js
  import opened Paths
  import opened Disk
  import opened Walker
  import opened Services
  import opened Vectors
  import opened Redis
  import Query

  /** `${SEMSE_DOCUMENT_PREFIX}:heise:` */
  const KeyPrefix: string := Query.DocumentPrefix + ":heise:"

  /** The key of the file named `name`: the prefix and `basename(path, '.json')`. */
  function DocKey(name: string): (key: string)
    ensures EndsWith(name, ".json") && name != ".json" ==> key + ".json" == KeyPrefix + name
  {
    KeyPrefix + StripJson(name)
  }

  /** Two `.json` files of one folder get distinct keys, unless one of
      them is named just `.json`. */
  lemma DocKeyInjective(a: string, b: string)
    requires EndsWith(a, ".json") && a != ".json"
    requires EndsWith(b, ".json") && b != ".json"
    requires DocKey(a) == DocKey(b)
    ensures a == b
  {
    assert StripJson(a) == DocKey(a)[|KeyPrefix|..];
    assert StripJson(b) == DocKey(b)[|KeyPrefix|..];
  }

  /** basename keeps a name that is only the suffix, so `.json` and
      `.json.json` share a key. */
  lemma DocKeyCollision()
    ensures DocKey(".json") == DocKey(".json.json")
  {
    assert EndsWith(".json.json", ".json");
    assert ".json.json"[..5] == ".json";
  }

  /** `new Date(date).getTime()`: the epoch milliseconds of the date, NaN
      for an Invalid Date. */
  function StoredDate(date: Value, s: Services): (v: Value)
    ensures NewDate(date, s.parseDate, s.show).Valid? ==> v == Num(NewDate(date, s.parseDate, s.show).ms)
    ensures NewDate(date, s.parseDate, s.show).Invalid? ==> v == NaN
  {
    GetTime(Date(NewDate(date, s.parseDate, s.show))).value
  }

  /** The embedding text of a record. */
  function Text(dataset: Value, s: Services): string
    requires !Nullish(dataset)
  {
    EmbeddingText(s, Prop(dataset, "title"), Prop(dataset, "body"))
  }

  /** The fields an object record is stored with: without `id`, with the
      date as epoch milliseconds and the embedding as bytes. */
  function StoredFields(fields: map<string, Value>, s: Services, ws: seq<word>): map<string, Value> {
    Dated(fields, s)["embedding" := Bytes(Encode(ws))]
  }

  /** The fields after `delete dataset.id` and the new date. */
  function Dated(fields: map<string, Value>, s: Services): map<string, Value> {
    (fields - {"id"})["date" := StoredDate(Field(fields, "date"), s)]
  }

  /** The first two steps of importFile on an object, which keep its
      title and body. */
  lemma ObjectSteps(v: Value, s: Services)
    requires v.Obj?
    ensures Delete(v, "id") == Ok(Obj(v.fields - {"id"}))
    ensures Set(Obj(v.fields - {"id"}), "date", StoredDate(Field(v.fields - {"id"}, "date"), s)) == Ok(Obj(Dated(v.fields, s)))
    ensures Text(Obj(Dated(v.fields, s)), s) == Text(v, s)
  {
    assert Field(v.fields - {"id"}, "date") == Field(v.fields, "date");
    var d := Dated(v.fields, s);
    assert Field(d, "title") == Field(v.fields, "title") && Field(d, "body") == Field(v.fields, "body");
  }

  /** `delete` and a property set leave any other value as it is. */
  lemma OtherSteps(v: Value, k: string, x: Value)
    requires !v.Obj?
    ensures Delete(v, k).Ok? ==> Delete(v, k).value == v
    ensures Set(v, k, x).Ok? ==> Set(v, k, x).value == v
  {
  }

  /** What importFile hands to hSet for a parsed record, or why it
      throws first: `delete` throws on null and undefined; setting `date`
      throws on the other primitives; an object gets its new fields; on
      an array, a Date or a buffer the sets are lost and, once the
      embedding service has answered, the value goes to hSet as it is. */
  function StoredHash(dataset: Value, s: Services): (r: Result<Value>)
    ensures r.Ok? <==> IsObject(dataset) && s.embed(Text(dataset, s)).Ok?
    ensures r.Ok? && dataset.Obj? ==>
      r.value == Obj(StoredFields(dataset.fields, s, s.embed(Text(dataset, s)).value))
    ensures r.Ok? && !dataset.Obj? ==> r.value == dataset
    ensures IsObject(dataset) && s.embed(Text(dataset, s)).Err? ==> r == Err(s.embed(Text(dataset, s)).error)
  {
    if Nullish(dataset) then Err(Delete(dataset, "id").error)
    else if !IsObject(dataset) then Err(Set(dataset, "date", StoredDate(Prop(dataset, "date"), s)).error)
    else
      var ws := s.embed(Text(dataset, s));
      if ws.Err? then Err(ws.error)
      else if dataset.Obj? then Ok(Obj(StoredFields(dataset.fields, s, ws.value)))
      else Ok(dataset)
  }

  /** What is handed to hSet for a file's text: JSON.parse, then the
      record's. */
  function Hash(text: string, s: Services): (r: Result<Value>)
    ensures r.Ok? <==>
      (s.parseJson(text).Ok? && IsObject(s.parseJson(text).value) && s.embed(Text(s.parseJson(text).value, s)).Ok?)
    ensures r.Ok? ==> r == StoredHash(s.parseJson(text).value, s)
  {
    var json := s.parseJson(text);
    if json.Err? then Err(json.error) else StoredHash(json.value, s)
  }

  /** The hash of an object: its fields without `id`, the date as epoch
      milliseconds, the embedding as bytes, every other field as parsed. */
  lemma HashOfObject(text: string, s: Services)
    requires s.parseJson(text).Ok? && s.parseJson(text).value.Obj?
    requires s.embed(Text(s.parseJson(text).value, s)).Ok?
    ensures var fields := s.parseJson(text).value.fields;
      var ws := s.embed(Text(s.parseJson(text).value, s)).value;
      && Hash(text, s).Ok? && Hash(text, s).value.Obj?
      && Hash(text, s).value.fields.Keys == fields.Keys - {"id"} + {"date", "embedding"}
      && Hash(text, s).value.fields["date"] == StoredDate(Field(fields, "date"), s)
      && Hash(text, s).value.fields["embedding"] == Bytes(Encode(ws))
      && forall k :: k in fields && k != "id" && k != "date" && k != "embedding" ==>
           Hash(text, s).value.fields[k] == fields[k]
  {
    var fields := s.parseJson(text).value.fields;
    var ws := s.embed(Text(s.parseJson(text).value, s)).value;
    assert Hash(text, s) == StoredHash(Obj(fields), s) == Ok(Obj(StoredFields(fields, s, ws)));
  }

  /** The stored embedding decodes back to the vector the service gave. */
  lemma StoredEmbeddingDecodes(text: string, s: Services)
    requires Hash(text, s).Ok? && s.parseJson(text).value.Obj?
    ensures Hash(text, s).value.Obj? && Hash(text, s).value.fields["embedding"].Bytes?
    ensures DecodeWords(Hash(text, s).value.fields["embedding"].bytes) == s.embed(Text(s.parseJson(text).value, s)).value
  {
    HashOfObject(text, s);
    DecodeEncode(s.embed(Text(s.parseJson(text).value, s)).value);
  }

  /** What is handed to hSet for the file at `p`, readFile failing as
      it does on the snapshot. */
  function FileHash(st: Snapshot, p: Path, s: Services): (r: Result<Value>)
    ensures Read(st, p).Err? ==> r == Err(Read(st, p).error)
    ensures Read(st, p).Ok? ==> r == Hash(Read(st, p).value, s)
  {
    var text := Read(st, p);
    if text.Err? then Err(text.error) else Hash(text.value, s)
  }

  /** The steps of importFile between JSON.parse and hSet: `delete
      dataset.id`, the date and the embedding set in place, in that order. */
  method PrepareDataset(json: Value, s: Services) returns (r: Result<Value>)
    ensures r == StoredHash(json, s)
  {
    var dataset := Delete(json, "id");
    if json.Obj? {
      ObjectSteps(json, s);
    } else {
      OtherSteps(json, "id", Undefined);
    }
    if dataset.Err? {
      return Err(dataset.error);
    }
    var date := StoredDate(Prop(dataset.value, "date"), s);
    if !json.Obj? {
      OtherSteps(json, "date", date);
    }
    dataset := Set(dataset.value, "date", date);
    if dataset.Err? {
      return Err(dataset.error);
    }
    var embedding := s.embed(Text(dataset.value, s));
    if embedding.Err? {
      return Err(embedding.error);
    }
    var bytes := Bytes(Encode(embedding.value));
    if !json.Obj? {
      OtherSteps(json, "embedding", bytes);
    }
    dataset := Set(dataset.value, "embedding", bytes);
    if dataset.Err? {
      // a value that took `date` takes `embedding`
      assert false;
    }
    return Ok(dataset.value);
  }

  /** importFile's answer and the hashes after it: a failure before hSet
      leaves the hashes alone; hSet itself refuses a field value that is
      not a string, number or buffer, and an empty record. */
  function FileImport(hashes: Hashes, st: Snapshot, p: Path, s: Services): (r: (Result<()>, Hashes))
    requires |p| > 0
    ensures var h := FileHash(st, p, s);
      && (h.Err? ==> r == (Err(h.error), hashes))
      && (h.Ok? ==> r == SetHash(hashes, Str(DocKey(p[|p| - 1])), h.value))
  {
    var h := FileHash(st, p, s);
    if h.Err? then (Err(h.error), hashes) else SetHash(hashes, Str(DocKey(p[|p| - 1])), h.value)
  }

  /** A record with a field JSON can hold but hSet cannot send (null,
      a boolean, a nested object or array) fails at hSet, even after the
      embedding service has answered. */
  lemma UnsendableFieldFails(hashes: Hashes, st: Snapshot, p: Path, s: Services, k: string)
    requires |p| > 0 && Read(st, p).Ok?
    requires var json := s.parseJson(Read(st, p).value);
      json.Ok? && json.value.Obj? && s.embed(Text(json.value, s)).Ok?
      && k in json.value.fields && k != "id" && k != "date" && k != "embedding"
      && !Sendable(json.value.fields[k])
    ensures FileImport(hashes, st, p, s) == (Err(InvalidArgument), hashes)
  {
    HashOfObject(Read(st, p).value, s);
  }

  /** An array of string pairs is not lost: hSet reads it as field-value
      pairs (the date and embedding set on it are not among them). */
  lemma PairArrayStored(hashes: Hashes, st: Snapshot, p: Path, s: Services, name: string, x: string)
    requires |p| > 0 && Read(st, p).Ok?
    requires var json := s.parseJson(Read(st, p).value);
      json == Ok(Arr([Str(name), Str(x)])) && s.embed(Text(json.value, s)).Ok?
    ensures var key := DocKey(p[|p| - 1]);
      FileImport(hashes, st, p, s) == (Ok(()), hashes[key := HashAfterSet(hashes, key, map[name := Str(x)])])
  {
    SetHashOfPairs(hashes, DocKey(p[|p| - 1]), name, x);
  }

  /** importFile(path): the record is read and parsed, its `id` deleted,
      its date and embedding replaced, and it is handed to hSet under the
      key of the file's name. */
  method ImportFile(fs: FileSystem, store: Store, s: Services, p: Path) returns (r: Result<()>)
    requires |p| > 0
    modifies store
    ensures store.indexes == old(store.indexes)
    ensures (r, store.hashes) == FileImport(old(store.hashes), fs.Contents(), p, s)
  {
    var id := StripJson(p[|p| - 1]);
    var text := fs.ReadFile(p);
    if text.Err? {
      return Err(text.error);
    }
    var json := s.parseJson(text.value);
    if json.Err? {
      return Err(json.error);
    }
    var dataset := PrepareDataset(json.value, s);
    if dataset.Err? {
      return Err(dataset.error);
    }
    var key := KeyPrefix + id;
    r := store.HSet(Str(key), dataset.value);
  }

  /** One entry of the listing: a name not ending in `.json` is passed
      over; otherwise its file is imported, and a failure stops the
      import. */
  function ImportOne(hashes: Hashes, st: Snapshot, dir: Path, name: string, s: Services): (r: (Hashes, bool))
  {
    if !EndsWith(name, ".json") then (hashes, false)
    else
      var (answer, after) := FileImport(hashes, st, dir + [name], s);
      (after, answer.Err?)
  }

  /** The hashes after the entries `es` of the folder `dir`, and whether a
      file failed, which ends the import. */
  function ImportAll(hashes: Hashes, st: Snapshot, dir: Path, es: seq<Entry>, s: Services): (r: (Hashes, bool))
    decreases |es|
  {
    if es == [] then (hashes, false)
    else
      var before := ImportAll(hashes, st, dir, es[..|es| - 1], s);
      if before.1 then before else ImportOne(before.0, st, dir, es[|es| - 1].name, s)
  }

  /** The keys the `.json` entries of `es` are stored under. */
  function DocKeys(es: seq<Entry>): set<string>
    decreases |es|
  {
    if es == [] then {}
    else DocKeys(es[..|es| - 1]) + (if EndsWith(es[|es| - 1].name, ".json") then {DocKey(es[|es| - 1].name)} else {})
  }

  /** Once a file has failed, the entries after it are not looked at. */
  lemma {:induction false} StoppedStays(hashes: Hashes, st: Snapshot,
                                        dir: Path, es: seq<Entry>, more: seq<Entry>, s: Services)
    requires ImportAll(hashes, st, dir, es, s).1
    ensures ImportAll(hashes, st, dir, es + more, s) == ImportAll(hashes, st, dir, es, s)
    decreases |more|
  {
    if more != [] {
      var init := more[..|more| - 1];
      assert (es + more)[..|es + more| - 1] == es + init;
      StoppedStays(hashes, st, dir, es, init, s);
    } else {
      assert es + more == es;
    }
  }

  /** Only the hashes of the keys of `.json` entries change; no hash is
      removed. */
  lemma {:induction false} OnlyDocKeysChange(hashes: Hashes, st: Snapshot,
                                             dir: Path, es: seq<Entry>, s: Services)
    ensures var after := ImportAll(hashes, st, dir, es, s).0;
      && hashes.Keys <= after.Keys <= hashes.Keys + DocKeys(es)
      && forall k :: k in hashes && k !in DocKeys(es) ==> after[k] == hashes[k]
    decreases |es|
  {
    if es != [] {
      OnlyDocKeysChange(hashes, st, dir, es[..|es| - 1], s);
    }
  }

  /** The entries whose names end in `.json`. */
  function JsonEntries(es: seq<Entry>): (js: seq<Entry>)
    ensures forall i :: 0 <= i < |js| ==> EndsWith(js[i].name, ".json")
    decreases |es|
  {
    if es == [] then []
    else JsonEntries(es[..|es| - 1]) + (if EndsWith(es[|es| - 1].name, ".json") then [es[|es| - 1]] else [])
  }

  /** The other names change nothing: importing the listing is importing
      its `.json` entries. */
  lemma {:induction false} OnlyJsonEntries(hashes: Hashes, st: Snapshot,
                                           dir: Path, es: seq<Entry>, s: Services)
    ensures ImportAll(hashes, st, dir, es, s) == ImportAll(hashes, st, dir, JsonEntries(es), s)
    decreases |es|
  {
    if es != [] {
      var init := es[..|es| - 1];
      var last := es[|es| - 1];
      OnlyJsonEntries(hashes, st, dir, init, s);
      if EndsWith(last.name, ".json") {
        var js := JsonEntries(init) + [last];
        assert JsonEntries(es) == js;
        assert js[..|js| - 1] == JsonEntries(init);
      } else {
        assert JsonEntries(es) == JsonEntries(init);
      }
    }
  }

  /** One more entry handed to the loop. */
  lemma ImportAllStep(hashes: Hashes, st: Snapshot, dir: Path,
                      es: seq<Entry>, i: nat, s: Services)
    requires i < |es| && !ImportAll(hashes, st, dir, es[..i], s).1
    ensures ImportAll(hashes, st, dir, es[..i + 1], s) ==
      ImportOne(ImportAll(hashes, st, dir, es[..i], s).0, st, dir, es[i].name, s)
  {
    assert es[..i + 1][..i] == es[..i];
  }

  /** importAllFiles(path): readdir of the folder, whose failure is the
      import's; then importFile of every name ending in `.json`, in
      listing order, until one throws. */
  method ImportAllFiles(fs: FileSystem, store: Store, s: Services, dir: Path, listing: Dir)
    returns (r: Result<()>)
    modifies store
    ensures store.indexes == old(store.indexes)
    ensures !listing.readable ==> r.Err? && store.hashes == old(store.hashes)
    ensures listing.readable ==>
      var after := ImportAll(old(store.hashes), fs.Contents(), dir, listing.entries, s);
      store.hashes == after.0 && (r.Err? <==> after.1)
  {
    if !listing.readable {
      return Err(NotFound);
    }
    var es := listing.entries;
    var i := 0;
    while i < |es|
      invariant 0 <= i <= |es|
      invariant store.indexes == old(store.indexes)
      invariant ImportAll(old(store.hashes), fs.Contents(), dir, es[..i], s) == (store.hashes, false)
    {
      ImportAllStep(old(store.hashes), fs.Contents(), dir, es, i, s);
      var name := es[i].name;
      if !EndsWith(name, ".json") {
        i := i + 1;
        continue;
      }
      var imported := ImportFile(fs, store, s, dir + [name]);
      assert (dir + [name])[|dir + [name]| - 1] == name;
      if imported.Err? {
        StoppedStays(old(store.hashes), fs.Contents(), dir, es[..i + 1], es[i + 1..], s);
        assert es[..i + 1] + es[i + 1..] == es;
        return imported;
      }
      i := i + 1;
    }
    assert es[..i] == es;
    return Ok(());
  }
}
