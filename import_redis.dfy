/** The import stage (bin/import-redis.js): every keyed record `{key,
    value}` of the input tree is validated, its date turned into epoch
    milliseconds and its embedding into float32 bytes, and stored as the
    hash under its key. */
module ImportRedis {
  import opened Js
  import opened Paths
  import opened Disk
  import opened Tally
  import opened Walker
  import opened Services
  import opened Validation
  import opened Vectors
  import opened Redis

  const EmptyKey: JsError := Error("Empty key")

  /** The hash fields of a validated record: `date.getTime()` in place of
      the date and the bytes of `new Float32Array(embedding)` in place of
      the embedding. A date that is not a Date makes getTime throw. */
  function HashFields(parsed: map<string, Value>, s: Services): (r: Result<map<string, Value>>)
    ensures var bytes := Float32Array(Field(parsed, "embedding"), s.float32, s.show);
      && (r.Ok? <==> Field(parsed, "date").Date? && bytes.Ok?)
      && (r.Ok? ==> r.value.Keys == parsed.Keys + {"date", "embedding"})
      && (r.Ok? ==> r.value["date"] == GetTime(Field(parsed, "date")).value)
      && (r.Ok? ==> r.value["embedding"] == Bytes(bytes.value))
      && (r.Ok? ==> forall k :: k in parsed && k != "date" && k != "embedding" ==> r.value[k] == parsed[k])
  {
    var time := GetTime(Field(parsed, "date"));
    if time.Err? then Err(time.error)
    else
      var bytes := Float32Array(Field(parsed, "embedding"), s.float32, s.show);
      if bytes.Err? then Err(bytes.error)
      else Ok(parsed["date" := time.value]["embedding" := Bytes(bytes.value)])
  }

  /** The key and the hash fields a keyed file yields before hSet, or why
      it fails: a file that is not JSON or is null, a falsy key, a null
      value, a date that does not coerce, an embedding that cannot be
      encoded. The key is handed to hSet as parsed, whatever its type. */
  function Import(text: string, s: Services): (r: Result<(Value, map<string, Value>)>)
    ensures r.Ok? ==>
      && s.parseJson(text).Ok? && !Nullish(s.parseJson(text).value)
      && Prop(s.parseJson(text).value, "key") == r.value.0 && Truthy(r.value.0)
      && !Nullish(Prop(s.parseJson(text).value, "value"))
      && HashFields(Record(Prop(s.parseJson(text).value, "value"), s.parseDate).fields, s) == Ok(r.value.1)
  {
    var json := s.parseJson(text);
    if json.Err? then Err(json.error)
    else if Nullish(json.value) then Err(TypeError("Cannot destructure " + ToStr(json.value, s.show)))
    else
      var key := Prop(json.value, "key");
      var value := Prop(json.value, "value");
      if !Truthy(key) then Err(EmptyKey)
      else if Nullish(value) then Err(TypeError("Cannot read properties of " + ToStr(value, s.show)))
      else
        var fields := HashFields(Record(value, s.parseDate).fields, s);
        if fields.Err? then Err(fields.error)
        else Ok((key, fields.value))
  }

  /** A key that is missing or empty fails with 'Empty key', whatever the
      value holds. */
  lemma EmptyKeyFails(text: string, s: Services)
    requires s.parseJson(text).Ok? && s.parseJson(text).value.Obj?
    requires !Truthy(Prop(s.parseJson(text).value, "key"))
    ensures Import(text, s) == Err(EmptyKey)
  {
  }

  /** validate lets a record without a date through; the import then fails
      at getTime. */
  lemma MissingDateFailsAtGetTime(text: string, s: Services)
    requires s.parseJson(text).Ok? && s.parseJson(text).value.Obj?
    requires Truthy(Prop(s.parseJson(text).value, "key"))
    requires var value := Prop(s.parseJson(text).value, "value");
      value.Obj? && "date" !in value.fields
    ensures Import(text, s).Err?
    ensures var value := Prop(s.parseJson(text).value, "value");
      InvalidDate in Errors(value, s.parseDate)
  {
  }

  /** The stored embedding decodes back to the record's vector. */
  lemma StoredEmbeddingDecodes(parsed: map<string, Value>, ws: seq<word>, s: Services)
    requires Field(parsed, "date").Date? && Field(parsed, "embedding") == Floats(ws)
    ensures HashFields(parsed, s).Ok?
    ensures HashFields(parsed, s).value["embedding"].Bytes?
    ensures DecodeWords(HashFields(parsed, s).value["embedding"].bytes) == ws
  {
    DecodeEncode(ws);
  }

  /** readFile then the import of its text. */
  function ReadImport(st: Snapshot, src: Path, s: Services): Result<(Value, map<string, Value>)> {
    var text := Read(st, src);
    if text.Err? then Err(text.error) else Import(text.value, s)
  }

  /** What processFile does for the file at `src`: its outcome and the
      hashes after it. There is no skip. Without simulate the record goes
      to hSet, whose refusal (a key that is not a string, a field that is
      not a string, number or Buffer) fails the file; with simulate
      nothing is sent and nothing changes. */
  function Step(hashes: Hashes, st: Snapshot, s: Services, src: Path, simulate: bool): (r: (Outcome, Hashes))
    ensures !r.0.Skipped?
    ensures var imp := ReadImport(st, src, s);
      && (r.0.Succeeded? <==> imp.Ok? && (simulate || HSetCommand(imp.value.0, Obj(imp.value.1)).Ok?))
      && (imp.Err? ==> r == (Failed(imp.error), hashes))
      && (imp.Ok? && simulate ==> r == (Succeeded, hashes))
      && (imp.Ok? && !simulate ==>
            var set_ := SetHash(hashes, imp.value.0, Obj(imp.value.1));
            r == (if set_.0.Ok? then Succeeded else Failed(set_.0.error), set_.1))
  {
    var imp := ReadImport(st, src, s);
    if imp.Err? then (Failed(imp.error), hashes)
    else if simulate then (Succeeded, hashes)
    else
      var set_ := SetHash(hashes, imp.value.0, Obj(imp.value.1));
      (if set_.0.Ok? then Succeeded else Failed(set_.0.error), set_.1)
  }

  /** Only hSet looks at the key's type: a truthy number as key passes
      under simulate and fails a real run with Invalid argument type. */
  lemma NumericKeyFailsOnlyAtHSet(hashes: Hashes, st: Snapshot, s: Services, src: Path)
    requires ReadImport(st, src, s).Ok? && ReadImport(st, src, s).value.0.Num?
    ensures Step(hashes, st, s, src, true) == (Succeeded, hashes)
    ensures Step(hashes, st, s, src, false) == (Failed(InvalidArgument), hashes)
  {
  }

  /** The title the record carries reaches hSet as it was. */
  lemma TitleKept(d: Value, s: Services, h: map<string, Value>)
    requires !Nullish(d) && HashFields(Record(d, s.parseDate).fields, s) == Ok(h)
    ensures "title" in h && h["title"] == Prop(d, "title")
  {
    RecordShape(d, s.parseDate);
  }

  /** validate always copies `title` and `body`, so a record without a
      title reaches hSet with an undefined field, which is refused. */
  lemma MissingTitleRefused(text: string, s: Services)
    requires Import(text, s).Ok?
    requires Prop(Prop(s.parseJson(text).value, "value"), "title").Undefined?
    ensures HSetCommand(Import(text, s).value.0, Obj(Import(text, s).value.1)) == Err(InvalidArgument)
  {
    var h := Import(text, s).value.1;
    TitleKept(Prop(s.parseJson(text).value, "value"), s, h);
    assert !Sendable(h["title"]);
    assert !(forall k :: k in h ==> Sendable(h[k]));
  }

  /** A real run fails such a file at hSet and leaves the hashes alone. */
  lemma MissingTitleFailsAtHSet(hashes: Hashes, st: Snapshot, s: Services, src: Path)
    requires ReadImport(st, src, s).Ok?
    requires Prop(Prop(s.parseJson(Read(st, src).value).value, "value"), "title").Undefined?
    ensures Step(hashes, st, s, src, false) == (Failed(InvalidArgument), hashes)
  {
    MissingTitleRefused(Read(st, src).value, s);
  }

  /** A record of strings and numbers under a string key is stored as
      its hash. */
  lemma StoredUnderItsKey(hashes: Hashes, st: Snapshot, s: Services, src: Path)
    requires ReadImport(st, src, s).Ok?
    requires var (key, h) := ReadImport(st, src, s).value;
      key.Str? && forall k :: k in h ==> h[k].Str? || h[k].Num? || h[k].Bytes?
    ensures var (key, h) := ReadImport(st, src, s).value;
      Step(hashes, st, s, src, false) == (Succeeded, hashes[key.s := HashAfterSet(hashes, key.s, h)])
  {
    var (key, h) := ReadImport(st, src, s).value;
    assert "date" in h;
  }

  /** processFile(root, rel, context). */
  method ProcessFile(fs: FileSystem, store: Store, ctx: Context, s: Services, inRoot: Path,
                     rel: Path, simulate: bool) returns (o: Outcome)
    modifies store, ctx
    ensures ctx.Current() == old(ctx.Current()).Add(o)
    ensures store.indexes == old(store.indexes)
    ensures (o, store.hashes) == Step(old(store.hashes), fs.Contents(), s, inRoot + rel, simulate)
  {
    var text := fs.ReadFile(inRoot + rel);
    var r := if text.Err? then Err(text.error) else Import(text.value, s);
    if r.Err? {
      o := Failed(r.error);
    } else {
      if !simulate {
        var stored := store.HSet(r.value.0, Obj(r.value.1));
        o := if stored.Ok? then Succeeded else Failed(stored.error);
      } else {
        o := Succeeded;
      }
    }
    ctx.Record(o);
  }

  /** The per-file step of a run, as Fold hands it the files. */
  function Steps(st: Snapshot, s: Services, inRoot: Path, simulate: bool): (Hashes, nat, Path) -> (Outcome, Hashes) {
    (h: Hashes, i: nat, rel: Path) => Step(h, st, s, inRoot + rel, simulate)
  }

  /** main(): the index is looked up, and created only when not
      simulating; then every file of the walk is imported in visit order,
      each one's outcome and hSet following from the hashes the earlier
      ones left. */
  method Run(fs: FileSystem, store: Store, s: Services, tree: Dir, inRoot: Path,
             index: string, prefix: string, simulate: bool)
    returns (walk: Walk, outcomes: seq<Outcome>, counts: Counts)
    modifies store
    ensures store.indexes == IndexLookup(old(store.indexes), index, prefix, !simulate).1
    ensures walk == VisitDir([], tree)
    ensures (outcomes, store.hashes) == Fold(Steps(fs.Contents(), s, inRoot, simulate), old(store.hashes), walk.files)
    ensures counts == AddAll(Counts(0, 0, 0), outcomes)
  {
    var ctx := new Context();
    assert store.hashes == old(store.hashes) && store.indexes == old(store.indexes);
    var _ := store.GetIndex(index, prefix, !simulate);
    walk := RunWalker(tree);
    ghost var step := Steps(fs.Contents(), s, inRoot, simulate);
    outcomes := [];
    var i := 0;
    while i < |walk.files|
      invariant i <= |walk.files|
      invariant ctx.Current() == AddAll(Counts(0, 0, 0), outcomes)
      invariant store.indexes == IndexLookup(old(store.indexes), index, prefix, !simulate).1
      invariant Fold(step, old(store.hashes), walk.files[..i]) == (outcomes, store.hashes)
    {
      FoldStep(step, old(store.hashes), walk.files, i);
      var o := ProcessFile(fs, store, ctx, s, inRoot, walk.files[i], simulate);
      AddAllSnoc(Counts(0, 0, 0), outcomes, o);
      outcomes := outcomes + [o];
      i := i + 1;
    }
    assert walk.files[..i] == walk.files;
    counts := ctx.Current();
  }

  /** Under simulate the store's hashes are never touched, and no file is
      skipped. */
  lemma SimulateChangesNothing(st: Snapshot, s: Services, inRoot: Path, hashes: Hashes, files: seq<Path>)
    ensures Fold(Steps(st, s, inRoot, true), hashes, files).1 == hashes
    decreases |files|
  {
    if files != [] {
      SimulateChangesNothing(st, s, inRoot, hashes, files[..|files| - 1]);
    }
  }
}
