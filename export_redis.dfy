/** The export stage (bin/export-redis.js): every hash whose key matches
    the pattern is written as `{key, value}` to a file named after the key,
    with its embedding decoded back into a vector. */
module ExportRedis {
  import opened Js
  import opened Paths
  import opened Disk
  import opened Tally
  import opened Services
  import opened Vectors
  import opened Redis

  /** The raw bytes of a stored field, as `hGet` with `returnBuffers`
      reads them. */
  function FieldBytes(v: Value): seq<byte> {
    if v.Bytes? then v.bytes else []
  }

  /** The exported value of a hash: its fields, with `embedding` decoded
      when the hash has one; a byte count that is not a multiple of 4
      makes the decoder throw. */
  function Exported(h: map<string, Value>): (r: Result<map<string, Value>>)
    ensures "embedding" !in h ==> r == Ok(h)
    ensures "embedding" in h ==>
      (r.Ok? <==> |FieldBytes(h["embedding"])| % 4 == 0)
    ensures "embedding" in h && r.Ok? ==>
      r.value == h["embedding" := Floats(DecodeWords(FieldBytes(h["embedding"])))]
  {
    if "embedding" !in h then Ok(h)
    else if |FieldBytes(h["embedding"])| % 4 != 0 then Err(OutOfRange)
    else Ok(h["embedding" := Floats(DecodeWords(FieldBytes(h["embedding"])))])
  }

  /** An embedding stored as the bytes of a vector is exported as that
      vector. */
  lemma ExportedEmbeddingRoundTrip(h: map<string, Value>, ws: seq<word>)
    requires "embedding" in h && h["embedding"] == Bytes(Encode(ws))
    ensures Exported(h) == Ok(h["embedding" := Floats(ws)])
  {
    DecodeEncode(ws);
  }

  /** The files of a sequence of keys, each `join(dest, ...)` of its
      flat name. */
  function ExportFiles(dest: Path, keys: seq<string>): (files: set<Path>)
    ensures forall k :: k in keys ==> KeyFile(dest, k) in files
    ensures forall f :: f in files ==> exists k :: k in keys && f == KeyFile(dest, k)
  {
    if keys == [] then {}
    else
      var init := keys[..|keys| - 1];
      assert forall k :: k in keys ==> k in init || k == keys[|keys| - 1];
      assert forall k :: k in init ==> k in keys;
      ExportFiles(dest, init) + {KeyFile(dest, keys[|keys| - 1])}
  }

  /** The file written for `key`: the key and its exported value. */
  function Content(key: string, value: map<string, Value>, s: Services): string {
    s.stringify(Obj(map["key" := Str(key), "value" := Obj(value)]))
  }

  /** What the loop does for one key, on the files as they are, with
      `decode` the decoding of a hash: its outcome and the files after it.
      An existing file is skipped unless forced, before the hash is read; a
      hash that does not decode or a failing write fails the key, and
      nothing else is touched. */
  function ExportStep(st: Snapshot, hashes: Hashes, s: Services, dest: Path, key: string, force: bool,
                      decode: map<string, Value> -> Result<map<string, Value>>): (r: (Outcome, Snapshot))
    ensures st.Valid() ==> r.1.Valid()
    ensures r.1.dirs == st.dirs
    ensures var file := KeyFile(dest, key);
      var value := decode(HashAt(hashes, key));
      && (r.0.Skipped? <==> st.Exists(file) && !force)
      && (r.0.Succeeded? <==>
            (!(st.Exists(file) && !force) && value.Ok? && file !in st.dirs && Parent(file) in st.dirs))
      && (r.0.Succeeded? ==> r.1.files == st.files[file := Content(key, value.value, s)])
      && (!r.0.Succeeded? ==> r.1.files == st.files)
  {
    var file := KeyFile(dest, key);
    if st.Exists(file) && !force then (Skipped, st)
    else
      var value := decode(HashAt(hashes, key));
      if value.Err? then (Failed(value.error), st)
      else
        var (written, st1) := Write(st, file, Content(key, value.value, s));
        (if written.Ok? then Succeeded else Failed(written.error), st1)
  }

  /** One key changes at most its own file. */
  lemma ExportStepChanges(st: Snapshot, hashes: Hashes, s: Services, dest: Path, key: string, force: bool,
                          decode: map<string, Value> -> Result<map<string, Value>>)
    ensures Changed(st.files, ExportStep(st, hashes, s, dest, key, force, decode).1.files) <= {KeyFile(dest, key)}
  {
  }

  /** The body of the loop for one key. */
  method ExportKey(fs: FileSystem, store: Store, ctx: Context, s: Services, dest: Path,
                   key: string, force: bool) returns (o: Outcome)
    requires fs.Valid()
    modifies fs, ctx
    ensures fs.Valid()
    ensures ctx.Current() == old(ctx.Current()).Add(o)
    ensures (o, fs.Contents()) == ExportStep(old(fs.Contents()), store.hashes, s, dest, key, force, Exported)
  {
    var file := KeyFile(dest, key);
    if fs.Exists(file) && !force {
      o := Skipped;
    } else {
      var value := store.HGetAll(key);
      var failed := false;
      if "embedding" in value {
        var floats := BufferToArrayOfFloats(FieldBytes(value["embedding"]));
        if floats.Err? {
          o := Failed(floats.error);
          failed := true;
        } else {
          value := value["embedding" := Floats(floats.value)];
        }
      }
      if !failed {
        var written := fs.WriteFile(file, Content(key, value, s));
        o := if written.Ok? then Succeeded else Failed(written.error);
      }
    }
    ctx.Record(o);
  }

  /** The per-key step of the loop, as Fold hands it the keys. */
  function ExportSteps(hashes: Hashes, s: Services, dest: Path, force: bool,
                       decode: map<string, Value> -> Result<map<string, Value>>): (Snapshot, nat, string) -> (Outcome, Snapshot) {
    (st: Snapshot, i: nat, key: string) => ExportStep(st, hashes, s, dest, key, force, decode)
  }

  /** The loop of main() over the listed keys, in listing order: each
      key's outcome, and the files it leaves, follow from the files the
      keys before it left. */
  method ExportAll(fs: FileSystem, store: Store, s: Services, dest: Path,
                   keys: seq<string>, force: bool) returns (outcomes: seq<Outcome>, counts: Counts)
    requires fs.Valid()
    modifies fs
    ensures fs.Valid()
    ensures (outcomes, fs.Contents()) == Fold(ExportSteps(store.hashes, s, dest, force, Exported), old(fs.Contents()), keys)
    ensures counts == AddAll(Counts(0, 0, 0), outcomes)
  {
    var ctx := new Context();
    assert fs.Contents() == old(fs.Contents());
    ghost var step := ExportSteps(store.hashes, s, dest, force, Exported);
    outcomes := [];
    var i := 0;
    while i < |keys|
      invariant i <= |keys|
      invariant fs.Valid() && ctx.Current() == AddAll(Counts(0, 0, 0), outcomes)
      invariant Fold(step, old(fs.Contents()), keys[..i]) == (outcomes, fs.Contents())
    {
      FoldStep(step, old(fs.Contents()), keys, i);
      var o := ExportKey(fs, store, ctx, s, dest, keys[i], force);
      AddAllSnoc(Counts(0, 0, 0), outcomes, o);
      outcomes := outcomes + [o];
      i := i + 1;
    }
    assert keys[..i] == keys;
    counts := ctx.Current();
  }

  /** An export writes only the files of the keys it is handed, and never
      creates a folder. */
  lemma {:induction false} OnlyExportFilesChange(hashes: Hashes, s: Services, dest: Path, force: bool,
                                                 decode: map<string, Value> -> Result<map<string, Value>>, st: Snapshot, keys: seq<string>)
    ensures var after := Fold(ExportSteps(hashes, s, dest, force, decode), st, keys).1;
      Changed(st.files, after.files) <= ExportFiles(dest, keys) && after.dirs == st.dirs
    decreases |keys|
  {
    if keys == [] {
      ChangedNone(st.files);
    } else {
      var init := keys[..|keys| - 1];
      var key := keys[|keys| - 1];
      OnlyExportFilesChange(hashes, s, dest, force, decode, st, init);
      var before := Fold(ExportSteps(hashes, s, dest, force, decode), st, init).1;
      var after := ExportStep(before, hashes, s, dest, key, force, decode).1;
      assert Fold(ExportSteps(hashes, s, dest, force, decode), st, keys).1 == after;
      ExportStepChanges(before, hashes, s, dest, key, force, decode);
      ChangedTrans(st.files, before.files, after.files);
    }
  }

  /** A key a forced export can write, given the folders: its hash
      decodes, the folder of its file exists, and the file is not itself
      a folder. */
  predicate Writable(dirs: set<Path>, hashes: Hashes, dest: Path, key: string,
                     decode: map<string, Value> -> Result<map<string, Value>>) {
    var file := KeyFile(dest, key);
    Parent(file) in dirs && file !in dirs && decode(HashAt(hashes, key)).Ok?
  }

  /** With force, every key whose embedding decodes and whose folder
      exists is exported: each one succeeds, whatever was there before,
      and no folder is created. */
  lemma {:induction false} ForcedExportSucceeds(hashes: Hashes, s: Services, dest: Path,
                                                decode: map<string, Value> -> Result<map<string, Value>>, st: Snapshot, keys: seq<string>)
    requires forall k :: k in keys ==> Writable(st.dirs, hashes, dest, k, decode)
    ensures var r := Fold(ExportSteps(hashes, s, dest, true, decode), st, keys);
      (forall i :: 0 <= i < |r.0| ==> r.0[i] == Succeeded) && r.1.dirs == st.dirs
    decreases |keys|
  {
    if keys != [] {
      var init := keys[..|keys| - 1];
      var key := keys[|keys| - 1];
      assert forall k :: k in init ==> k in keys;
      ForcedExportSucceeds(hashes, s, dest, decode, st, init);
      var r := Fold(ExportSteps(hashes, s, dest, true, decode), st, init);
      ForcedStepSucceeds(r.1, hashes, s, dest, key, decode);
      assert Fold(ExportSteps(hashes, s, dest, true, decode), st, keys).0 == r.0 + [Succeeded];
      assert forall i :: 0 <= i < |r.0| + 1 ==> (r.0 + [Succeeded])[i] == Succeeded;
    }
  }

  /** ... and every one of those keys has its file afterwards. */
  lemma {:induction false} ForcedExportWritesAll(hashes: Hashes, s: Services, dest: Path,
                                                 decode: map<string, Value> -> Result<map<string, Value>>, st: Snapshot, keys: seq<string>)
    requires forall k :: k in keys ==> Writable(st.dirs, hashes, dest, k, decode)
    ensures var after := Fold(ExportSteps(hashes, s, dest, true, decode), st, keys).1;
      forall k :: k in keys ==> KeyFile(dest, k) in after.files
    decreases |keys|
  {
    if keys != [] {
      var init := keys[..|keys| - 1];
      var key := keys[|keys| - 1];
      var before := Fold(ExportSteps(hashes, s, dest, true, decode), st, init).1;
      var after := Fold(ExportSteps(hashes, s, dest, true, decode), st, keys).1;
      assert after == ExportStep(before, hashes, s, dest, key, true, decode).1;
      assert Writable(before.dirs, hashes, dest, key, decode) by {
        assert forall k :: k in init ==> k in keys;
        ForcedExportSucceeds(hashes, s, dest, decode, st, init);
      }
      assert after.files == before.files[KeyFile(dest, key) := Content(key, decode(HashAt(hashes, key)).value, s)] by {
        ForcedStepSucceeds(before, hashes, s, dest, key, decode);
      }
      assert forall k :: k in init ==> KeyFile(dest, k) in before.files by {
        assert forall k :: k in init ==> k in keys;
        ForcedExportWritesAll(hashes, s, dest, decode, st, init);
      }
      assert keys == init + [key];
    }
  }

  /** One forced key whose folder exists is written. */
  lemma ForcedStepSucceeds(st: Snapshot, hashes: Hashes, s: Services, dest: Path, key: string,
                           decode: map<string, Value> -> Result<map<string, Value>>)
    requires Writable(st.dirs, hashes, dest, key, decode)
    ensures var (o, after) := ExportStep(st, hashes, s, dest, key, true, decode);
      o == Succeeded && after.dirs == st.dirs
      && after.files == st.files[KeyFile(dest, key) := Content(key, decode(HashAt(hashes, key)).value, s)]
  {
  }

  /** A key without '/'. */
  predicate PlainKey(key: string) {
    forall i :: 0 <= i < |key| ==> key[i] != '/'
  }

  /** Keys without '/' have their files in `dest` itself, so into an
      existing `dest` a forced export of keys that decode succeeds for
      every one of them. */
  lemma {:induction false} ForcedPlainExportSucceeds(hashes: Hashes, s: Services, dest: Path,
                                                     decode: map<string, Value> -> Result<map<string, Value>>, st: Snapshot, keys: seq<string>)
    requires dest in st.dirs
    requires forall k :: k in keys ==> PlainKey(k) && dest + [KeyFileName(k)] !in st.dirs && decode(HashAt(hashes, k)).Ok?
    ensures var r := Fold(ExportSteps(hashes, s, dest, true, decode), st, keys);
      forall i :: 0 <= i < |r.0| ==> r.0[i] == Succeeded
  {
    forall k | k in keys
      ensures Writable(st.dirs, hashes, dest, k, decode)
    {
      KeyFileOfPlainKey(dest, k);
      assert Parent(dest + [KeyFileName(k)]) == dest;
    }
    ForcedExportSucceeds(hashes, s, dest, decode, st, keys);
  }

  /** A key minted from a prefix with '/' is exported into a sub-folder of
      `dest`, which the stage never creates: without that folder the key
      fails, even when forced, and nothing changes. */
  lemma NestedKeyNeedsItsFolder(st: Snapshot, hashes: Hashes, s: Services, dest: Path, uuid: string, force: bool,
                                decode: map<string, Value> -> Result<map<string, Value>>)
    requires forall i :: 0 <= i < |uuid| ==> uuid[i] != '/' && uuid[i] != ':'
    requires dest + ["a"] !in st.dirs
    ensures var r := ExportStep(st, hashes, s, dest, MintKey("a/b", uuid), force, decode);
      !r.0.Succeeded? && r.1 == st
  {
    KeyFileNests(dest, uuid);
    assert Parent(dest + ["a", "b_" + uuid + ".json"]) == dest + ["a"];
  }

  /** main(): the destination folder is created first; with no matching
      key nothing is written; otherwise every listed key is exported in
      listing order, from the folder mkdir left, a failure being counted
      and the loop going on. The store is only read. */
  method Run(fs: FileSystem, store: Store, s: Services, dest: Path, force: bool, prefix: string)
    returns (r: Result<()>, keys: seq<string>, outcomes: seq<Outcome>, counts: Counts)
    requires fs.Valid()
    modifies fs
    ensures fs.Valid()
    ensures r.Ok? <==> Ancestors(dest) !! old(fs.files).Keys
    ensures r.Err? ==> fs.Contents() == old(fs.Contents()) && keys == [] && outcomes == []
    ensures forall k :: k in keys <==> r.Ok? && k in store.hashes && s.glob(prefix)(k)
    ensures r.Ok? ==>
      (outcomes, fs.Contents()) == Fold(ExportSteps(store.hashes, s, dest, force, Exported), MakeDirs(old(fs.Contents()), dest).1, keys)
    ensures counts == AddAll(Counts(0, 0, 0), outcomes)
  {
    keys, outcomes, counts := [], [], Counts(0, 0, 0);
    r := fs.Mkdir(dest);
    if r.Err? {
      return;
    }
    var listed := store.Keys(s.glob(prefix));
    if |listed| == 0 {
      return;
    }
    keys := listed;
    outcomes, counts := ExportAll(fs, store, s, dest, keys, force);
  }
}
