/** The structuring stage (bin/txt2json.js): every text file of the input
    tree becomes a JSON record at the same relative path, renamed to
    `.json`, built from a chat completion that extracts a title and a date,
    with the original text as `body`. */
module TxtToJson {
  import opened Js
  import opened Paths
  import opened Disk
  import opened Tally
  import opened Walker
  import opened Services

  /** The instruction sent ahead of the article. */
  const Prompt: string :=
    "Below is an article. Parse the article into a json object containing:\n\n"
    + "1) REQUIRED! A title. Find a title in the article, or generate one based on the article.\n"
    + "2) A date, if you can find anything looking like a date in the article. Can be empty Output as ISO 8601.\n\n"
    + "Here is an example:\n\n"
    + "{\n  \"title\": \"Meaningful title\",\n  \"date\": \"2024-02-28T08:57:26.009Z\"\n}\n\n"
    + "Return ONLY the json, nothing else, no explanations!\n\n"
    + "Here is the article:"

  /** The date the record gets: `new Date(date)` of a truthy reply date,
      the current time otherwise. */
  function RecordDate(date: Value, s: Services, now: int): Value {
    if Truthy(date) then Date(NewDate(date, s.parseDate, s.show)) else Date(Valid(now))
  }

  /** txt2json(text): the completion is parsed as JSON, its `date` is
      replaced, and the record is the reply's properties with `body` set to
      the text. A failing completion, a reply that is not JSON, a reply
      `null` and a reply that is another primitive (setting its `date`
      throws) make it fail. */
  function Txt2Json(text: string, s: Services, now: int): (r: Result<Value>)
  {
    var reply := s.complete(Prompt + "\n\n" + text);
    if reply.Err? then Err(reply.error)
    else
      var parsed := s.parseJson(reply.value);
      if parsed.Err? then Err(parsed.error)
      else
        var date := Get(parsed.value, "date");
        if date.Err? then Err(date.error)
        else
          var dated := Set(parsed.value, "date", RecordDate(date.value, s, now));
          if dated.Err? then Err(dated.error)
          else Ok(Obj(Spread(parsed.value)["date" := RecordDate(date.value, s, now)]["body" := Str(text)]))
  }

  /** For a reply that parses to an object: the record keeps every reply
      field but `date` and `body`, its `body` is the original text whatever
      the reply said, and its date is the reply's truthy date or now. */
  lemma Txt2JsonOfObject(text: string, s: Services, now: int, fields: map<string, Value>)
    requires s.complete(Prompt + "\n\n" + text).Ok?
    requires s.parseJson(s.complete(Prompt + "\n\n" + text).value) == Ok(Obj(fields))
    ensures var r := Txt2Json(text, s, now);
      && r.Ok? && r.value.Obj?
      && r.value.fields.Keys == fields.Keys + {"date", "body"}
      && r.value.fields["body"] == Str(text)
      && (Truthy(Field(fields, "date")) ==> r.value.fields["date"] == Date(NewDate(Field(fields, "date"), s.parseDate, s.show)))
      && (!Truthy(Field(fields, "date")) ==> r.value.fields["date"] == Date(Valid(now)))
      && forall k :: k in fields && k != "date" && k != "body" ==> r.value.fields[k] == fields[k]
  {
  }

  /** The record fails exactly when the completion fails, the reply is not
      JSON, or the reply is a primitive; it succeeds on every object and
      array reply. */
  lemma Txt2JsonFails(text: string, s: Services, now: int)
    ensures var reply := s.complete(Prompt + "\n\n" + text);
      Txt2Json(text, s, now).Err? <==>
        reply.Err? || s.parseJson(reply.value).Err?
        || !(s.parseJson(reply.value).value.Obj? || s.parseJson(reply.value).value.Arr?
             || s.parseJson(reply.value).value.Floats? || s.parseJson(reply.value).value.Date?
             || s.parseJson(reply.value).value.Bytes?)
  {
  }

  /** Where the record of `rel` goes: the same relative folder under the
      output root, with the name's last extension replaced by `.json`. */
  function Destination(outRoot: Path, rel: Path): (dst: Path)
    requires |rel| > 0
    ensures |dst| == |outRoot| + |rel| && dst[..|outRoot|] == outRoot
    ensures dst[|outRoot|..|dst| - 1] == rel[..|rel| - 1]
    ensures dst[|dst| - 1] == JsonName(rel[|rel| - 1])
  {
    outRoot + JsonPath(rel)
  }

  /** What processFile does for `rel`, on the files and folders as they
      are: its outcome and the files and folders after it. The output
      folder is created first, even under simulate; an existing destination
      is skipped unless forced; otherwise the text is read and, except
      under simulate, its record is written to the destination. */
  function Step(st: Snapshot, s: Services, inRoot: Path, outRoot: Path, rel: Path,
                force: bool, simulate: bool, now: int): (r: (Outcome, Snapshot))
    requires |rel| > 0
    ensures st.Valid() ==> r.1.Valid()
    ensures var dst := Destination(outRoot, rel);
      var made := Ancestors(Parent(dst)) !! st.files.Keys;
      var text := inRoot + rel;
      && r.1.dirs == (if made then st.dirs + Ancestors(Parent(dst)) else st.dirs)
      && (r.0.Skipped? <==> made && st.Exists(dst) && !force)
      && (r.0.Succeeded? <==>
            (made && !(st.Exists(dst) && !force) && text in st.files
             && (simulate || (Txt2Json(st.files[text], s, now).Ok? && dst !in st.dirs))))
      && (r.0.Succeeded? && !simulate ==>
            r.1.files == st.files[dst := s.stringify(Txt2Json(st.files[text], s, now).value)])
      && (!r.0.Succeeded? || simulate ==> r.1.files == st.files)
  {
    var dst := Destination(outRoot, rel);
    var (made, st1) := MakeDirs(st, Parent(dst));
    if made.Err? then (Failed(made.error), st1)
    else if st1.Exists(dst) && !force then (Skipped, st1)
    else
      var text := Read(st1, inRoot + rel);
      if text.Err? then (Failed(text.error), st1)
      else if simulate then (Succeeded, st1)
      else
        var json := Txt2Json(text.value, s, now);
        if json.Err? then (Failed(json.error), st1)
        else
          var (written, st2) := Write(st1, dst, s.stringify(json.value));
          (if written.Ok? then Succeeded else Failed(written.error), st2)
  }

  /** processFile(root, rel, context). */
  method ProcessFile(fs: FileSystem, ctx: Context, s: Services, inRoot: Path, outRoot: Path,
                     rel: Path, force: bool, simulate: bool, now: int) returns (o: Outcome)
    requires fs.Valid() && |rel| > 0
    modifies fs, ctx
    ensures fs.Valid()
    ensures ctx.Current() == old(ctx.Current()).Add(o)
    ensures (o, fs.Contents()) == Step(old(fs.Contents()), s, inRoot, outRoot, rel, force, simulate, now)
  {
    var dst := Destination(outRoot, rel);
    var made := fs.Mkdir(Parent(dst));
    if made.Err? {
      o := Failed(made.error);
    } else if fs.Exists(dst) && !force {
      o := Skipped;
    } else {
      var text := fs.ReadFile(inRoot + rel);
      if text.Err? {
        o := Failed(text.error);
      } else if simulate {
        o := Succeeded;
      } else {
        var json := Txt2Json(text.value, s, now);
        if json.Err? {
          o := Failed(json.error);
        } else {
          var written := fs.WriteFile(dst, s.stringify(json.value));
          o := if written.Ok? then Succeeded else Failed(written.error);
        }
      }
    }
    ctx.Record(o);
  }

  /** The per-file step of a run, as Fold hands it the files: the file at
      position i of the walk sees the clock at i. */
  function Steps(s: Services, inRoot: Path, outRoot: Path, force: bool, simulate: bool): (Snapshot, nat, Path) --> (Outcome, Snapshot) {
    (st: Snapshot, i: nat, rel: Path) requires |rel| > 0 => Step(st, s, inRoot, outRoot, rel, force, simulate, s.now(i))
  }

  /** main(): walks the input tree and runs processFile on each file, with
      one context. Each file's outcome, and the files and folders it
      leaves, follow from what the files before it left; the counters
      account for every file handed on, and the walk itself is the visit
      order of the tree. */
  method Run(fs: FileSystem, s: Services, tree: Dir, inRoot: Path, outRoot: Path,
              force: bool, simulate: bool)
    returns (walk: Walk, outcomes: seq<Outcome>, counts: Counts)
    requires fs.Valid()
    modifies fs
    ensures fs.Valid()
    ensures walk == VisitDir([], tree)
    ensures forall p :: p in walk.files ==> |p| > 0
    ensures (outcomes, fs.Contents()) == Fold(Steps(s, inRoot, outRoot, force, simulate), old(fs.Contents()), walk.files)
    ensures counts == AddAll(Counts(0, 0, 0), outcomes)
  {
    var ctx := new Context();
    assert fs.Contents() == old(fs.Contents());
    walk := RunWalker(tree);
    WalkPathsNonEmpty(tree);
    ghost var step := Steps(s, inRoot, outRoot, force, simulate);
    outcomes := [];
    var i := 0;
    while i < |walk.files|
      invariant i <= |walk.files|
      invariant fs.Valid() && ctx.Current() == AddAll(Counts(0, 0, 0), outcomes)
      invariant Fold(step, old(fs.Contents()), walk.files[..i]) == (outcomes, fs.Contents())
    {
      FoldStep(step, old(fs.Contents()), walk.files, i);
      WalkPathNonEmpty(tree, i);
      var o := ProcessFile(fs, ctx, s, inRoot, outRoot, walk.files[i], force, simulate, s.now(i));
      AddAllSnoc(Counts(0, 0, 0), outcomes, o);
      outcomes := outcomes + [o];
      i := i + 1;
    }
    assert walk.files[..i] == walk.files;
    counts := ctx.Current();
  }

  /** Under simulate no file is written: only output folders appear. */
  lemma {:induction false} SimulateWritesNothing(s: Services, inRoot: Path, outRoot: Path, force: bool,
                                                 st: Snapshot, files: seq<Path>)
    requires forall p :: p in files ==> |p| > 0
    ensures Fold(Steps(s, inRoot, outRoot, force, true), st, files).1.files == st.files
    ensures Fold(Steps(s, inRoot, outRoot, force, true), st, files).1.dirs >= st.dirs
    decreases |files|
  {
    if files != [] {
      var init := files[..|files| - 1];
      assert forall p :: p in init ==> p in files;
      SimulateWritesNothing(s, inRoot, outRoot, force, st, init);
      var before := Fold(Steps(s, inRoot, outRoot, force, true), st, init).1;
      var n := |files| - 1;
      assert Fold(Steps(s, inRoot, outRoot, force, true), st, files).1
        == Step(before, s, inRoot, outRoot, files[n], force, true, s.now(n)).1;
    }
  }
}
