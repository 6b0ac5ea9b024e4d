/** The older embedding script (011-add-embeddings.js): every record of
    `<folder>/010-json` gets an `embedding` and is written back to the file
    it was read from. The record is the file's top-level object (keyed
    files are not unwrapped), and its folder recursion lists folders
    without creating any, as the shared walker does. */
module LegacyEmbed {
  import opened Js
  import opened Paths
  import opened Disk
  import opened Tally
  import opened Walker
  import opened Services

  /** `join(rootFolder, '010-json')`, read and written in place. */
  function Root(folder: Path): Path
  {
    folder + ["010-json"]
  }

  /** The record a file holds: JSON.parse of its text, which must not be
      null or undefined (`dataset.embedding` is read). */
  function ParseDataset(text: string, s: Services): (r: Result<Value>)
    ensures r.Ok? <==> s.parseJson(text).Ok? && !Nullish(s.parseJson(text).value)
    ensures r.Ok? ==> r.value == s.parseJson(text).value
  {
    var json := s.parseJson(text);
    if json.Err? then Err(json.error)
    else
      var embedding := Get(json.value, "embedding");
      if embedding.Err? then Err(embedding.error) else Ok(json.value)
  }

  /** The record after `dataset.embedding = await createEmbedding(...)`:
      the float array of `<h1>title</h1>\nbody`. */
  function Embedded(dataset: Value, s: Services): (r: Result<Value>)
    requires !Nullish(dataset)
    ensures var ws := s.embed(EmbeddingText(s, Prop(dataset, "title"), Prop(dataset, "body")));
      r.Ok? <==> ws.Ok? && Set(dataset, "embedding", Floats(ws.value)).Ok?
  {
    var ws := s.embed(EmbeddingText(s, Prop(dataset, "title"), Prop(dataset, "body")));
    if ws.Err? then Err(ws.error) else Set(dataset, "embedding", Floats(ws.value))
  }

  /** On an object record, only `embedding` changes, and it becomes truthy. */
  lemma EmbeddedChangesOnlyEmbedding(dataset: Value, s: Services)
    requires dataset.Obj?
    requires s.embed(EmbeddingText(s, Prop(dataset, "title"), Prop(dataset, "body"))).Ok?
    ensures var r := Embedded(dataset, s);
      && r.Ok? && r.value.Obj? && r.value.fields.Keys == dataset.fields.Keys + {"embedding"}
      && Truthy(Prop(r.value, "embedding"))
      && forall k :: k in dataset.fields && k != "embedding" ==> r.value.fields[k] == dataset.fields[k]
  {
  }

  /** What processFile does for `rel`, on the files as they are: its
      outcome and the files after it. The file is read, skipped when it
      has a truthy embedding and force is off, and otherwise rewritten in
      place with its embedding. */
  function Step(st: Snapshot, s: Services, root: Path, rel: Path, force: bool): (r: (Outcome, Snapshot))
    ensures st.Valid() ==> r.1.Valid()
    ensures r.1.dirs == st.dirs
    ensures var path := root + rel;
      var dataset := if path in st.files then ParseDataset(st.files[path], s) else Err(NotFound);
      && (r.0.Skipped? <==> dataset.Ok? && Truthy(Prop(dataset.value, "embedding")) && !force)
      && (r.0.Succeeded? <==>
            (dataset.Ok? && !(Truthy(Prop(dataset.value, "embedding")) && !force)
             && Embedded(dataset.value, s).Ok? && |path| > 0 && path !in st.dirs && Parent(path) in st.dirs))
      && (r.0.Succeeded? ==> r.1.files == st.files[path := s.stringify(Embedded(dataset.value, s).value)])
      && (!r.0.Succeeded? ==> r.1.files == st.files)
  {
    var path := root + rel;
    var text := Read(st, path);
    var dataset := if text.Err? then Err(text.error) else ParseDataset(text.value, s);
    if dataset.Err? then (Failed(dataset.error), st)
    else if Truthy(Prop(dataset.value, "embedding")) && !force then (Skipped, st)
    else
      var embedded := Embedded(dataset.value, s);
      if embedded.Err? then (Failed(embedded.error), st)
      else
        var (written, st1) := Write(st, path, s.stringify(embedded.value));
        (if written.Ok? then Succeeded else Failed(written.error), st1)
  }

  /** processFile(rootFolderInOut, relativePath, context). */
  method ProcessFile(fs: FileSystem, ctx: Context, s: Services, root: Path, rel: Path, force: bool)
    returns (o: Outcome)
    requires fs.Valid()
    modifies fs, ctx
    ensures fs.Valid()
    ensures ctx.Current() == old(ctx.Current()).Add(o)
    ensures (o, fs.Contents()) == Step(old(fs.Contents()), s, root, rel, force)
  {
    var path := root + rel;
    var text := fs.ReadFile(path);
    var dataset := if text.Err? then Err(text.error) else ParseDataset(text.value, s);
    if dataset.Err? {
      o := Failed(dataset.error);
    } else if Truthy(Prop(dataset.value, "embedding")) && !force {
      o := Skipped;
    } else {
      var embedded := Embedded(dataset.value, s);
      if embedded.Err? {
        o := Failed(embedded.error);
      } else {
        var written := fs.WriteFile(path, s.stringify(embedded.value));
        o := if written.Ok? then Succeeded else Failed(written.error);
      }
    }
    ctx.Record(o);
  }

  /** A record this script wrote is skipped by the next run without
      `force`, provided JSON.parse reads back what JSON.stringify wrote. */
  lemma RerunSkips(dataset: Value, s: Services)
    requires dataset.Obj?
    requires Embedded(dataset, s).Ok?
    requires s.parseJson(s.stringify(Embedded(dataset, s).value)) == Ok(Embedded(dataset, s).value)
    ensures var again := ParseDataset(s.stringify(Embedded(dataset, s).value), s);
      again.Ok? && Truthy(Prop(again.value, "embedding"))
  {
    EmbeddedChangesOnlyEmbedding(dataset, s);
  }

  /** The files the run may rewrite: those it was handed. */
  function InPlace(root: Path, ps: seq<Path>): set<Path>
  {
    if ps == [] then {} else InPlace(root, ps[..|ps| - 1]) + {root + ps[|ps| - 1]}
  }

  /** The per-file step of a run, as Fold hands it the files. */
  function Steps(s: Services, root: Path, force: bool): (Snapshot, nat, Path) -> (Outcome, Snapshot) {
    (st: Snapshot, i: nat, rel: Path) => Step(st, s, root, rel, force)
  }

  /** main(): processFolder of the whole of `<folder>/010-json`, as the
      walk of that tree followed by processFile on each file. Rewriting a
      file in place adds nothing to the tree, so the listing the walk reads
      is the one the script reads. Each file's outcome, and the files it
      leaves, follow from the files the ones before it left. */
  method Run(fs: FileSystem, s: Services, tree: Dir, folder: Path, force: bool)
    returns (walk: Walk, outcomes: seq<Outcome>, counts: Counts)
    requires fs.Valid()
    modifies fs
    ensures fs.Valid()
    ensures walk == VisitDir([], tree)
    ensures (outcomes, fs.Contents()) == Fold(Steps(s, Root(folder), force), old(fs.Contents()), walk.files)
    ensures counts == AddAll(Counts(0, 0, 0), outcomes)
  {
    var ctx := new Context();
    assert fs.Contents() == old(fs.Contents());
    walk := RunWalker(tree);
    ghost var step := Steps(s, Root(folder), force);
    outcomes := [];
    var i := 0;
    while i < |walk.files|
      invariant i <= |walk.files|
      invariant fs.Valid() && ctx.Current() == AddAll(Counts(0, 0, 0), outcomes)
      invariant Fold(step, old(fs.Contents()), walk.files[..i]) == (outcomes, fs.Contents())
    {
      FoldStep(step, old(fs.Contents()), walk.files, i);
      var o := ProcessFile(fs, ctx, s, Root(folder), walk.files[i], force);
      AddAllSnoc(Counts(0, 0, 0), outcomes, o);
      outcomes := outcomes + [o];
      i := i + 1;
    }
    assert walk.files[..i] == walk.files;
    counts := ctx.Current();
  }

  /** Only the files handed on are rewritten, and no folder is made. */
  lemma {:induction false} OnlyHandedOnChange(s: Services, root: Path, force: bool, st: Snapshot, files: seq<Path>)
    ensures var after := Fold(Steps(s, root, force), st, files).1;
      Changed(st.files, after.files) <= InPlace(root, files) && after.dirs == st.dirs
    decreases |files|
  {
    if files == [] {
      ChangedNone(st.files);
    } else {
      var init := files[..|files| - 1];
      OnlyHandedOnChange(s, root, force, st, init);
      var before := Fold(Steps(s, root, force), st, init).1;
      var after := Step(before, s, root, files[|files| - 1], force).1;
      assert Fold(Steps(s, root, force), st, files).1 == after;
      assert Changed(before.files, after.files) <= {root + files[|files| - 1]};
      ChangedTrans(st.files, before.files, after.files);
    }
  }
}
