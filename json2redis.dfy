/** The keying stage (bin/json2redis.js): every record of the input tree is
    validated, given a fresh key `<prefix>:<uuid>`, and written as
    `{key, value}`, either at its own relative path or, flattened, under a
    file name derived from the key. */
module JsonToRedis {
  import opened Js
  import opened Paths
  import opened Disk
  import opened Tally
  import opened Walker
  import opened Services
  import opened Validation

  /** The file of a keyed record: the key, and the validated record. */
  function Keyed(key: string, value: Value): (v: Value)
    ensures v.Obj? && v.fields.Keys == {"key", "value"}
    ensures v.fields["key"] == Str(key) && v.fields["value"] == value
  {
    Obj(map["key" := Str(key), "value" := value])
  }

  /** Where a keyed record goes: `join(out, '<key with _ for :>.json')`
      when flattening, the input's relative path under the output root
      otherwise. `join` cuts the flat name at each '/', so a '/' in the
      prefix puts the file in a sub-folder. */
  function Output(outRoot: Path, rel: Path, key: string, flatten: bool): (p: Path)
    requires |rel| > 0
    ensures |p| > |outRoot| && p[..|outRoot|] == outRoot
    ensures flatten ==> forall i :: |outRoot| <= i < |p| ==> IsSegment(p[i])
    ensures !flatten ==> p == outRoot + rel
  {
    if flatten then
      KeyFileUnder(outRoot, key);
      KeyFile(outRoot, key)
    else outRoot + rel
  }

  /** A key without '/' is flattened to one file directly in the output
      root. */
  lemma FlatOutputOfPlainKey(outRoot: Path, rel: Path, key: string)
    requires |rel| > 0
    requires forall i :: 0 <= i < |key| ==> key[i] != '/'
    ensures Output(outRoot, rel, key, true) == outRoot + [KeyFileName(key)]
  {
    KeyFileOfPlainKey(outRoot, key);
  }

  /** A prefix with a '/' nests the flat file: `a/b` keys go to the
      folder `a` of the output root. */
  lemma FlatOutputNests(outRoot: Path, rel: Path, uuid: string)
    requires |rel| > 0
    requires forall i :: 0 <= i < |uuid| ==> uuid[i] != '/' && uuid[i] != ':'
    ensures Output(outRoot, rel, MintKey("a/b", uuid), true) == outRoot + ["a", "b_" + uuid + ".json"]
  {
    KeyFileNests(outRoot, uuid);
  }

  /** Two distinct keys never share a flattened file name when neither
      contains '_' (':' is the only character that is rewritten). */
  lemma FlatNamesDistinct(a: string, b: string)
    requires a != b
    requires forall i :: 0 <= i < |a| ==> a[i] != '_'
    requires forall i :: 0 <= i < |b| ==> b[i] != '_'
    ensures KeyFileName(a) != KeyFileName(b)
  {
    if |a| == |b| {
      var i :| 0 <= i < |a| && a[i] != b[i];
      assert KeyFileName(a)[i] != KeyFileName(b)[i];
    } else {
      assert |KeyFileName(a)| != |KeyFileName(b)|;
    }
  }

  /** The record a file holds, validated: JSON.parse of the text, which
      validate accepts unless it is null or undefined. */
  function ParseValid(text: string, s: Services): (r: Result<Value>)
    ensures r.Ok? <==> s.parseJson(text).Ok? && !Nullish(s.parseJson(text).value)
    ensures r.Ok? ==> r.value == Record(s.parseJson(text).value, s.parseDate)
  {
    var json := s.parseJson(text);
    if json.Err? then Err(json.error)
    else if Nullish(json.value) then Err(Get(json.value, "title").error)
    else Ok(Record(json.value, s.parseDate))
  }

  /** What processFile does for `rel`, with `uuid` the value randomUUID
      gives for this file and `prefix` the normalised prefix: its outcome
      and the files and folders after it. The input is read and validated
      before anything else, so even a file whose output exists fails when
      the input does not parse. */
  function Step(st: Snapshot, s: Services, inRoot: Path, outRoot: Path, rel: Path, prefix: string,
                uuid: string, flatten: bool, force: bool, simulate: bool): (r: (Outcome, Snapshot))
    requires |rel| > 0
    ensures st.Valid() ==> r.1.Valid()
    ensures var src := inRoot + rel;
      var value := if src in st.files then ParseValid(st.files[src], s) else Err(NotFound);
      var key := MintKey(prefix, uuid);
      var out := Output(outRoot, rel, key, flatten);
      var made := Ancestors(Parent(out)) !! st.files.Keys;
      && r.1.dirs == (if value.Ok? && made then st.dirs + Ancestors(Parent(out)) else st.dirs)
      && (r.0.Skipped? <==> value.Ok? && made && st.Exists(out) && !force)
      && (r.0.Succeeded? <==>
            (value.Ok? && made && !(st.Exists(out) && !force) && (simulate || out !in st.dirs)))
      && (r.0.Succeeded? && !simulate ==>
            r.1.files == st.files[out := s.stringify(Keyed(key, value.value))])
      && (!r.0.Succeeded? || simulate ==> r.1.files == st.files)
  {
    var text := Read(st, inRoot + rel);
    var value := if text.Err? then Err(text.error) else ParseValid(text.value, s);
    if value.Err? then (Failed(value.error), st)
    else
      var key := MintKey(prefix, uuid);
      var out := Output(outRoot, rel, key, flatten);
      var (made, st1) := MakeDirs(st, Parent(out));
      if made.Err? then (Failed(made.error), st1)
      else if st1.Exists(out) && !force then (Skipped, st1)
      else if simulate then (Succeeded, st1)
      else
        var (written, st2) := Write(st1, out, s.stringify(Keyed(key, value.value)));
        (if written.Ok? then Succeeded else Failed(written.error), st2)
  }

  /** processFile(root, rel, context). */
  method ProcessFile(fs: FileSystem, ctx: Context, s: Services, inRoot: Path, outRoot: Path,
                     rel: Path, prefix: string, uuid: string, flatten: bool, force: bool, simulate: bool)
    returns (o: Outcome)
    requires fs.Valid() && |rel| > 0
    modifies fs, ctx
    ensures fs.Valid()
    ensures ctx.Current() == old(ctx.Current()).Add(o)
    ensures (o, fs.Contents()) == Step(old(fs.Contents()), s, inRoot, outRoot, rel, prefix, uuid, flatten, force, simulate)
  {
    var text := fs.ReadFile(inRoot + rel);
    var json := if text.Err? then Err(text.error) else s.parseJson(text.value);
    if json.Err? {
      o := Failed(json.error);
      ctx.Record(o);
      return;
    }
    var validated := Validate(json.value, s.parseDate);
    if validated.Err? {
      o := Failed(validated.error);
      ctx.Record(o);
      return;
    }
    var value := validated.value.record;
    var key := MintKey(prefix, uuid);
    var out := Output(outRoot, rel, key, flatten);
    var made := fs.Mkdir(Parent(out));
    if made.Err? {
      o := Failed(made.error);
    } else if fs.Exists(out) && !force {
      o := Skipped;
    } else if simulate {
      o := Succeeded;
    } else {
      var written := fs.WriteFile(out, s.stringify(Keyed(key, value)));
      o := if written.Ok? then Succeeded else Failed(written.error);
    }
    ctx.Record(o);
  }

  /** The per-file step of a run, as Fold hands it the files: the file at
      position i of the walk is keyed with the uuid drawn at i. */
  function Steps(s: Services, inRoot: Path, outRoot: Path, prefix: string, flatten: bool, force: bool,
                 simulate: bool): (Snapshot, nat, Path) --> (Outcome, Snapshot) {
    (st: Snapshot, i: nat, rel: Path) requires |rel| > 0 =>
      Step(st, s, inRoot, outRoot, rel, prefix, s.uuid(i), flatten, force, simulate)
  }

  /** main(): the prefix loses one trailing ':', then every file of the
      walk is keyed in visit order. Each file's outcome, and the files and
      folders it leaves, follow from what the files before it left. */
  method Run(fs: FileSystem, s: Services, tree: Dir, inRoot: Path, outRoot: Path,
             prefix: string, flatten: bool, force: bool, simulate: bool)
    returns (walk: Walk, outcomes: seq<Outcome>, counts: Counts)
    requires fs.Valid()
    modifies fs
    ensures fs.Valid()
    ensures walk == VisitDir([], tree)
    ensures forall p :: p in walk.files ==> |p| > 0
    ensures (outcomes, fs.Contents()) ==
      Fold(Steps(s, inRoot, outRoot, NormalisePrefix(prefix), flatten, force, simulate), old(fs.Contents()), walk.files)
    ensures counts == AddAll(Counts(0, 0, 0), outcomes)
  {
    var ctx := new Context();
    assert fs.Contents() == old(fs.Contents());
    var p := NormalisePrefix(prefix);
    walk := RunWalker(tree);
    WalkPathsNonEmpty(tree);
    ghost var step := Steps(s, inRoot, outRoot, p, flatten, force, simulate);
    outcomes := [];
    var i := 0;
    while i < |walk.files|
      invariant i <= |walk.files|
      invariant fs.Valid() && ctx.Current() == AddAll(Counts(0, 0, 0), outcomes)
      invariant Fold(step, old(fs.Contents()), walk.files[..i]) == (outcomes, fs.Contents())
    {
      FoldStep(step, old(fs.Contents()), walk.files, i);
      WalkPathNonEmpty(tree, i);
      var o := ProcessFile(fs, ctx, s, inRoot, outRoot, walk.files[i], p, s.uuid(i), flatten, force, simulate);
      AddAllSnoc(Counts(0, 0, 0), outcomes, o);
      outcomes := outcomes + [o];
      i := i + 1;
    }
    assert walk.files[..i] == walk.files;
    counts := ctx.Current();
  }

  /** A file that is not JSON, or is null, fails without touching the
      output, and the run goes on with the next file. */
  lemma UnparsableFails(st: Snapshot, s: Services, inRoot: Path, outRoot: Path, rel: Path, prefix: string,
                        uuid: string, flatten: bool, force: bool, simulate: bool)
    requires |rel| > 0 && inRoot + rel in st.files
    requires s.parseJson(st.files[inRoot + rel]).Err? || Nullish(s.parseJson(st.files[inRoot + rel]).value)
    ensures Step(st, s, inRoot, outRoot, rel, prefix, uuid, flatten, force, simulate).0.Failed?
    ensures Step(st, s, inRoot, outRoot, rel, prefix, uuid, flatten, force, simulate).1 == st
  {
  }
}
