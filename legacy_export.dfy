/** The older export script (exportRedis.js): every hash whose key matches
    the pattern is written as `{key, value}` to a file named after the key.
    It keeps its counters in loop-local variables, and it decodes the
    embedding unconditionally: a hash without one yields a null buffer,
    whose `length` cannot be read. */
module LegacyExport {
  import opened Js
  import opened Paths
  import opened Disk
  import opened Tally
  import opened Services
  import opened Vectors
  import opened Redis
  import ExportRedis

  /** `null.length`, read by bufferToArrayOfFloats on a missing field. */
  const NullBuffer: JsError := TypeError("Cannot read properties of null (reading 'length')")

  /** The exported value of a hash: the decoder runs whether or not there
      is an embedding. */
  function Exported(h: map<string, Value>): (r: Result<map<string, Value>>)
    ensures "embedding" !in h ==> r == Err(NullBuffer)
    ensures "embedding" in h ==> (r.Ok? <==> |ExportRedis.FieldBytes(h["embedding"])| % 4 == 0)
    ensures r.Ok? ==>
      ("embedding" in h && r.value == h["embedding" := Floats(DecodeWords(ExportRedis.FieldBytes(h["embedding"])))])
  {
    if "embedding" !in h then Err(NullBuffer)
    else if |ExportRedis.FieldBytes(h["embedding"])| % 4 != 0 then Err(OutOfRange)
    else Ok(h["embedding" := Floats(DecodeWords(ExportRedis.FieldBytes(h["embedding"])))])
  }

  /** The two exporters agree on every hash with an embedding; on a hash
      without one the export stage writes the hash as it is, while this
      script fails. */
  lemma AgreesWithExportStage(h: map<string, Value>)
    ensures "embedding" in h ==> Exported(h) == ExportRedis.Exported(h)
    ensures "embedding" !in h ==> Exported(h).Err? && ExportRedis.Exported(h) == Ok(h)
  {
  }

  /** The body of the loop for one key; the counters are the caller's. It
      is the export stage's step with this script's decoding. */
  method ExportKey(fs: FileSystem, store: Store, s: Services, out: Path, key: string, force: bool)
    returns (o: Outcome)
    requires fs.Valid()
    modifies fs
    ensures fs.Valid()
    ensures (o, fs.Contents()) == ExportRedis.ExportStep(old(fs.Contents()), store.hashes, s, out, key, force, Exported)
  {
    var file := KeyFile(out, key);
    if fs.Exists(file) && !force {
      return Skipped;
    }
    var value := store.HGetAll(key);
    if "embedding" !in value {
      return Failed(NullBuffer);
    }
    var floats := BufferToArrayOfFloats(ExportRedis.FieldBytes(value["embedding"]));
    if floats.Err? {
      return Failed(floats.error);
    }
    value := value["embedding" := Floats(floats.value)];
    var written := fs.WriteFile(file, ExportRedis.Content(key, value, s));
    o := if written.Ok? then Succeeded else Failed(written.error);
  }

  /** The for loop over the listed keys, counting in loop-local variables:
      each key's outcome, and the files it leaves, follow from the files
      the keys before it left. */
  method ExportAll(fs: FileSystem, store: Store, s: Services, out: Path, keys: seq<string>, force: bool)
    returns (outcomes: seq<Outcome>, counts: Counts)
    requires fs.Valid()
    modifies fs
    ensures fs.Valid()
    ensures (outcomes, fs.Contents()) == Fold(ExportRedis.ExportSteps(store.hashes, s, out, force, Exported), old(fs.Contents()), keys)
    ensures counts == AddAll(Counts(0, 0, 0), outcomes)
  {
    ghost var step := ExportRedis.ExportSteps(store.hashes, s, out, force, Exported);
    outcomes := [];
    var local := Counts(0, 0, 0);
    var i := 0;
    while i < |keys|
      invariant i <= |keys|
      invariant local == AddAll(Counts(0, 0, 0), outcomes)
      invariant fs.Valid()
      invariant Fold(step, old(fs.Contents()), keys[..i]) == (outcomes, fs.Contents())
    {
      FoldStep(step, old(fs.Contents()), keys, i);
      var o := ExportKey(fs, store, s, out, keys[i], force);
      AddAllSnoc(Counts(0, 0, 0), outcomes, o);
      outcomes, local := outcomes + [o], local.Add(o);
      i := i + 1;
    }
    assert keys[..i] == keys;
    counts := local;
  }

  /** A key whose hash has no embedding fails, and its file is not
      written: the script cannot export such a hash even when forced. */
  lemma NoEmbeddingFails(st: Snapshot, hashes: Hashes, s: Services, out: Path, key: string, force: bool)
    requires "embedding" !in HashAt(hashes, key)
    requires !(st.Exists(KeyFile(out, key)) && !force)
    ensures ExportRedis.ExportStep(st, hashes, s, out, key, force, Exported) == (Failed(NullBuffer), st)
  {
  }

  /** main(): mkdir of the output folder, whose failure ends the run; the
      keys matching the pattern; nothing to do for none; otherwise every
      listed key in listing order, from the folder mkdir left. The store is
      only read. */
  method Run(fs: FileSystem, store: Store, s: Services, out: Path, force: bool, keypattern: string)
    returns (r: Result<()>, keys: seq<string>, outcomes: seq<Outcome>, counts: Counts)
    requires fs.Valid()
    modifies fs
    ensures fs.Valid()
    ensures r.Ok? <==> Ancestors(out) !! old(fs.files).Keys
    ensures r.Err? ==> fs.Contents() == old(fs.Contents()) && keys == [] && outcomes == []
    ensures forall k :: k in keys <==> r.Ok? && k in store.hashes && s.glob(keypattern)(k)
    ensures r.Ok? ==>
      (outcomes, fs.Contents()) == Fold(ExportRedis.ExportSteps(store.hashes, s, out, force, Exported), MakeDirs(old(fs.Contents()), out).1, keys)
    ensures counts == AddAll(Counts(0, 0, 0), outcomes)
  {
    keys, outcomes, counts := [], [], Counts(0, 0, 0);
    r := fs.Mkdir(out);
    if r.Err? {
      return;
    }
    var listed := store.Keys(s.glob(keypattern));
    if |listed| == 0 {
      return;
    }
    keys := listed;
    outcomes, counts := ExportAll(fs, store, s, out, keys, force);
  }
}
