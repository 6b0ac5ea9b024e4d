/** The older keying script (011-json-020-redis.js): every record of
    `<folder>/010-json` is validated, given the key `<prefix>:<uuid>` and
    written as `{key, value}` at the same relative path under
    `<folder>/020-redis`. Its per-file step checks for an existing output
    before reading the input and does not create folders; its folder
    recursion is modelled in MirroredFolders. */
module LegacyKeying {
  import opened Js
  import opened Paths
  import opened Disk
  import opened Tally
  import opened Services
  import opened Validation
  import opened JsonToRedis

  /** `join(rootFolder, '010-json')` and `join(rootFolder, '020-redis')`. */
  function InputRoot(folder: Path): Path
  {
    folder + ["010-json"]
  }

  function OutputRoot(folder: Path): Path
  {
    folder + ["020-redis"]
  }

  /** What processFile does for `rel`, on the files and folders as they
      are: an existing output is skipped unless forced, before the input is
      read; otherwise the validated record, keyed `<prefix>:<uuid>`, is
      written at the same relative path. No folder is created. */
  function Step(st: Snapshot, s: Services, inRoot: Path, outRoot: Path, rel: Path,
                prefix: string, uuid: string, force: bool): (r: (Outcome, Snapshot))
    requires |rel| > 0
    ensures st.Valid() ==> r.1.Valid()
    ensures r.1.dirs == st.dirs
    ensures var src := inRoot + rel;
      var out := outRoot + rel;
      var value := if src in st.files then ParseValid(st.files[src], s) else Err(NotFound);
      && (r.0.Skipped? <==> st.Exists(out) && !force)
      && (r.0.Succeeded? <==>
            (!(st.Exists(out) && !force) && value.Ok?
             && out !in st.dirs && Parent(out) in st.dirs))
      && (r.0.Succeeded? ==>
            r.1.files == st.files[out := s.stringify(Keyed(MintKey(prefix, uuid), value.value))])
      && (!r.0.Succeeded? ==> r.1.files == st.files)
  {
    var out := outRoot + rel;
    if st.Exists(out) && !force then (Skipped, st)
    else
      var text := Read(st, inRoot + rel);
      var value := if text.Err? then Err(text.error) else ParseValid(text.value, s);
      if value.Err? then (Failed(value.error), st)
      else
        var written := Write(st, out, s.stringify(Keyed(MintKey(prefix, uuid), value.value)));
        (if written.0.Ok? then Succeeded else Failed(written.0.error), written.1)
  }

  /** processFile(rootFolderIn, rootFolderOut, relativePath, context), with
      `prefix` the normalised prefix and `uuid` the value randomUUID gives
      for this file. */
  method ProcessFile(fs: FileSystem, ctx: Context, s: Services, inRoot: Path, outRoot: Path,
                     rel: Path, prefix: string, uuid: string, force: bool) returns (o: Outcome)
    requires fs.Valid() && |rel| > 0
    modifies fs, ctx
    ensures fs.Valid() && fs.dirs == old(fs.dirs)
    ensures ctx.Current() == old(ctx.Current()).Add(o)
    ensures (o, fs.Contents()) == Step(old(fs.Contents()), s, inRoot, outRoot, rel, prefix, uuid, force)
    ensures var src := inRoot + rel;
      var out := outRoot + rel;
      var value := if src in old(fs.files) then ParseValid(old(fs.files)[src], s) else Err(NotFound);
      && (o.Skipped? <==> old(fs.Exists(out)) && !force)
      && (o.Succeeded? <==>
            (!(old(fs.Exists(out)) && !force) && value.Ok?
             && out !in old(fs.dirs) && Parent(out) in old(fs.dirs)))
      && (o.Succeeded? ==>
            fs.files == old(fs.files)[out := s.stringify(Keyed(MintKey(prefix, uuid), value.value))])
      && (!o.Succeeded? ==> fs.files == old(fs.files))
  {
    var out := outRoot + rel;
    if fs.Exists(out) && !force {
      o := Skipped;
    } else {
      var text := fs.ReadFile(inRoot + rel);
      var json := if text.Err? then Err(text.error) else s.parseJson(text.value);
      if json.Err? {
        o := Failed(json.error);
      } else {
        var validated := Validate(json.value, s.parseDate);
        if validated.Err? {
          o := Failed(validated.error);
        } else {
          var key := MintKey(prefix, uuid);
          var written := fs.WriteFile(out, s.stringify(Keyed(key, validated.value.record)));
          o := if written.Ok? then Succeeded else Failed(written.error);
        }
      }
    }
    ctx.Record(o);
  }
}
