/** The embedding stage (bin/add-embeddings.js): every record of the input
    tree, bare or wrapped as `{key, value}`, gets an `embedding` computed
    from its title and body, and is written to the same relative path
    under the output root. */
module AddEmbeddings {
  import opened Js
  import opened Paths
  import opened Disk
  import opened Tally
  import opened Walker
  import opened Services

  /** The record inside a parsed file: `json.value` when that is truthy
      (a keyed record), the file's own object otherwise. */
  function Dataset(json: Value): (d: Value)
    requires !Nullish(json)
    ensures !Nullish(d)
    ensures Truthy(Prop(json, "value")) ==> d == Prop(json, "value")
    ensures !Truthy(Prop(json, "value")) ==> d == json
  {
    if Truthy(Prop(json, "value")) then Prop(json, "value") else json
  }

  /** A record that already has a truthy embedding is skipped unless
      forced. */
  predicate Skips(json: Value, force: bool)
    requires !Nullish(json)
  {
    Truthy(Prop(Dataset(json), "embedding")) && !force
  }

  /** The file object after `dataset.embedding = ws`: the record is the
      same object as `json.value` in a keyed file, so the change shows in
      `json`. Setting a property of a primitive record throws. */
  function WithEmbedding(json: Value, ws: seq<word>): (r: Result<Value>)
    requires !Nullish(json)
  {
    var d := Set(Dataset(json), "embedding", Floats(ws));
    if d.Err? then Err(d.error)
    else if Truthy(Prop(json, "value")) then Set(json, "value", d.value)
    else Ok(d.value)
  }

  /** Only `embedding` is added or replaced: in a keyed file the `value`
      object gets it and every other field, `key` included, is kept; a bare
      record gets it itself. */
  lemma WithEmbeddingChangesOnlyEmbedding(json: Value, ws: seq<word>)
    requires json.Obj?
    ensures Truthy(Prop(json, "value")) && Prop(json, "value").Obj? ==>
      WithEmbedding(json, ws) == Ok(Obj(json.fields["value" := Obj(Prop(json, "value").fields["embedding" := Floats(ws)])]))
    ensures !Truthy(Prop(json, "value")) ==>
      WithEmbedding(json, ws) == Ok(Obj(json.fields["embedding" := Floats(ws)]))
  {
  }

  /** The file object a read file holds: JSON.parse of its text, which must
      not be null or undefined (`json.value` is read). */
  function ParseRecord(text: string, s: Services): (r: Result<Value>)
    ensures r.Ok? ==> !Nullish(r.value)
    ensures r.Ok? <==> s.parseJson(text).Ok? && !Nullish(s.parseJson(text).value)
  {
    var json := s.parseJson(text);
    if json.Err? then Err(json.error)
    else
      var value := Get(json.value, "value");
      if value.Err? then Err(value.error) else Ok(json.value)
  }

  /** The file written for a record: embedding of `<h1>title</h1>\nbody`
      added to the parsed file object. */
  function Embedded(json: Value, s: Services): (r: Result<Value>)
    requires !Nullish(json)
    ensures s.embed(EmbeddingText(s, Prop(Dataset(json), "title"), Prop(Dataset(json), "body"))).Err? ==> r.Err?
    ensures r.Ok? ==> r == WithEmbedding(json,
      s.embed(EmbeddingText(s, Prop(Dataset(json), "title"), Prop(Dataset(json), "body"))).value)
  {
    var d := Dataset(json);
    var ws := s.embed(EmbeddingText(s, Prop(d, "title"), Prop(d, "body")));
    if ws.Err? then Err(ws.error) else WithEmbedding(json, ws.value)
  }

  /** What processFile does for `rel`, on the files and folders as they
      are: its outcome and the files and folders after it. The output is
      the input's relative path under the output root; its folder is
      created first, even under simulate. */
  function Step(st: Snapshot, s: Services, inRoot: Path, outRoot: Path, rel: Path,
                force: bool, simulate: bool): (r: (Outcome, Snapshot))
    requires |rel| > 0
    ensures st.Valid() ==> r.1.Valid()
    ensures var dst := outRoot + rel;
      var made := Ancestors(Parent(dst)) !! st.files.Keys;
      var src := inRoot + rel;
      var json := if src in st.files then ParseRecord(st.files[src], s) else Err(NotFound);
      && r.1.dirs == (if made then st.dirs + Ancestors(Parent(dst)) else st.dirs)
      && (r.0.Skipped? <==> made && json.Ok? && Skips(json.value, force))
      && (r.0.Succeeded? <==>
            (made && json.Ok? && !Skips(json.value, force)
             && (simulate || (Embedded(json.value, s).Ok? && dst !in st.dirs))))
      && (r.0.Succeeded? && !simulate ==>
            r.1.files == st.files[dst := s.stringify(Embedded(json.value, s).value)])
      && (!r.0.Succeeded? || simulate ==> r.1.files == st.files)
  {
    var dst := outRoot + rel;
    var (made, st1) := MakeDirs(st, Parent(dst));
    if made.Err? then (Failed(made.error), st1)
    else
      var text := Read(st1, inRoot + rel);
      var json := if text.Err? then Err(text.error) else ParseRecord(text.value, s);
      if json.Err? then (Failed(json.error), st1)
      else if Skips(json.value, force) then (Skipped, st1)
      else if simulate then (Succeeded, st1)
      else
        var embedded := Embedded(json.value, s);
        if embedded.Err? then (Failed(embedded.error), st1)
        else
          var (written, st2) := Write(st1, dst, s.stringify(embedded.value));
          (if written.Ok? then Succeeded else Failed(written.error), st2)
  }

  /** processFile(root, rel, context). */
  method ProcessFile(fs: FileSystem, ctx: Context, s: Services, inRoot: Path, outRoot: Path,
                     rel: Path, force: bool, simulate: bool) returns (o: Outcome)
    requires fs.Valid() && |rel| > 0
    modifies fs, ctx
    ensures fs.Valid()
    ensures ctx.Current() == old(ctx.Current()).Add(o)
    ensures (o, fs.Contents()) == Step(old(fs.Contents()), s, inRoot, outRoot, rel, force, simulate)
  {
    var dst := outRoot + rel;
    var made := fs.Mkdir(Parent(dst));
    if made.Err? {
      o := Failed(made.error);
    } else {
      var text := fs.ReadFile(inRoot + rel);
      var json := if text.Err? then Err(text.error) else ParseRecord(text.value, s);
      if json.Err? {
        o := Failed(json.error);
      } else if Skips(json.value, force) {
        o := Skipped;
      } else if simulate {
        o := Succeeded;
      } else {
        var embedded := Embedded(json.value, s);
        if embedded.Err? {
          o := Failed(embedded.error);
        } else {
          var written := fs.WriteFile(dst, s.stringify(embedded.value));
          o := if written.Ok? then Succeeded else Failed(written.error);
        }
      }
    }
    ctx.Record(o);
  }

  /** The per-file step of a run, as Fold hands it the files. */
  function Steps(s: Services, inRoot: Path, outRoot: Path, force: bool, simulate: bool): (Snapshot, nat, Path) --> (Outcome, Snapshot) {
    (st: Snapshot, i: nat, rel: Path) requires |rel| > 0 => Step(st, s, inRoot, outRoot, rel, force, simulate)
  }

  /** main(): the walk of the input tree, processFile on each file. Each
      file's outcome, and the files and folders it leaves, follow from what
      the files before it left. */
  method Run(fs: FileSystem, s: Services, tree: Dir, inRoot: Path, outRoot: Path,
             force: bool, simulate: bool)
    returns (walk: Walk, outcomes: seq<Outcome>, counts: Counts)
    requires fs.Valid()
    modifies fs
    ensures fs.Valid()
    ensures walk == VisitDir([], tree)
    ensures forall p :: p in walk.files ==> |p| > 0
    ensures (outcomes, fs.Contents()) == Fold(Steps(s, inRoot, outRoot, force, simulate), old(fs.Contents()), walk.files)
    ensures counts == AddAll(Counts(0, 0, 0), outcomes)
  {
    var ctx := new Context();
    assert fs.Contents() == old(fs.Contents());
    walk := RunWalker(tree);
    WalkPathsNonEmpty(tree);
    ghost var step := Steps(s, inRoot, outRoot, force, simulate);
    outcomes := [];
    var i := 0;
    while i < |walk.files|
      invariant i <= |walk.files|
      invariant fs.Valid() && ctx.Current() == AddAll(Counts(0, 0, 0), outcomes)
      invariant Fold(step, old(fs.Contents()), walk.files[..i]) == (outcomes, fs.Contents())
    {
      FoldStep(step, old(fs.Contents()), walk.files, i);
      WalkPathNonEmpty(tree, i);
      var o := ProcessFile(fs, ctx, s, inRoot, outRoot, walk.files[i], force, simulate);
      AddAllSnoc(Counts(0, 0, 0), outcomes, o);
      outcomes := outcomes + [o];
      i := i + 1;
    }
    assert walk.files[..i] == walk.files;
    counts := ctx.Current();
  }

  /** One file changes at most its own output. */
  lemma StepChangesOnlyOutput(st: Snapshot, s: Services, inRoot: Path, outRoot: Path, rel: Path,
                              force: bool, simulate: bool)
    requires |rel| > 0
    ensures var after := Step(st, s, inRoot, outRoot, rel, force, simulate).1;
      forall q :: q in after.files && q != outRoot + rel ==> q in st.files && after.files[q] == st.files[q]
    ensures simulate ==> Step(st, s, inRoot, outRoot, rel, force, simulate).1.files == st.files
  {
  }

  /** A file is written only where it is embedded: every path whose
      content a run changes is the output of one of the files handed on. */
  lemma {:induction false} OnlyOutputsChange(s: Services, inRoot: Path, outRoot: Path, force: bool,
                                             simulate: bool, st: Snapshot, files: seq<Path>)
    requires forall p :: p in files ==> |p| > 0
    ensures var after := Fold(Steps(s, inRoot, outRoot, force, simulate), st, files).1;
      forall q :: q in after.files && (q !in st.files || after.files[q] != st.files[q]) ==>
        exists rel :: rel in files && q == outRoot + rel
    ensures simulate ==> Fold(Steps(s, inRoot, outRoot, force, simulate), st, files).1.files == st.files
    decreases |files|
  {
    if files != [] {
      var init := files[..|files| - 1];
      var n := |files| - 1;
      assert forall p :: p in init ==> p in files;
      OnlyOutputsChange(s, inRoot, outRoot, force, simulate, st, init);
      var before := Fold(Steps(s, inRoot, outRoot, force, simulate), st, init).1;
      var after := Step(before, s, inRoot, outRoot, files[n], force, simulate).1;
      assert Fold(Steps(s, inRoot, outRoot, force, simulate), st, files).1 == after;
      StepChangesOnlyOutput(before, s, inRoot, outRoot, files[n], force, simulate);
      forall q | q in after.files && (q !in st.files || after.files[q] != st.files[q])
        ensures exists rel :: rel in files && q == outRoot + rel
      {
        if q == outRoot + files[n] {
          assert files[n] in files;
        } else {
          var rel :| rel in init && q == outRoot + rel;
          assert rel in files;
        }
      }
    }
  }
}
