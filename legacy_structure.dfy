/** The older structuring script (000-md-010-json.js): the same conversion
    as the structuring stage, from `<folder>/000-md` to `<folder>/010-json`,
    but with a per-file step that checks for an existing record before
    anything else and does not create folders. Its folder recursion is
    modelled in MirroredFolders. */
module LegacyStructure {
  import opened Js
  import opened Paths
  import opened Disk
  import opened Tally
  import opened Services
  import opened TxtToJson

  /** `join(rootFolder, '000-md')` and `join(rootFolder, '010-json')`. */
  function InputRoot(folder: Path): Path
  {
    folder + ["000-md"]
  }

  function OutputRoot(folder: Path): Path
  {
    folder + ["010-json"]
  }

  /** What processFile does for `rel`, on the files and folders as they
      are: an existing record is skipped unless forced, before the text is
      read; otherwise the record of the text is written to the destination.
      No folder is created. */
  function Step(st: Snapshot, s: Services, inRoot: Path, outRoot: Path, rel: Path,
                force: bool, now: int): (r: (Outcome, Snapshot))
    requires |rel| > 0
    ensures st.Valid() ==> r.1.Valid()
    ensures r.1.dirs == st.dirs
    ensures var dst := Destination(outRoot, rel);
      var text := inRoot + rel;
      && (r.0.Skipped? <==> st.Exists(dst) && !force)
      && (r.0.Succeeded? <==>
            (!(st.Exists(dst) && !force) && text in st.files
             && Txt2Json(st.files[text], s, now).Ok?
             && dst !in st.dirs && Parent(dst) in st.dirs))
      && (r.0.Succeeded? ==>
            r.1.files == st.files[dst := s.stringify(Txt2Json(st.files[text], s, now).value)])
      && (!r.0.Succeeded? ==> r.1.files == st.files)
  {
    var dst := Destination(outRoot, rel);
    if st.Exists(dst) && !force then (Skipped, st)
    else
      var text := Read(st, inRoot + rel);
      if text.Err? then (Failed(text.error), st)
      else
        var json := Txt2Json(text.value, s, now);
        if json.Err? then (Failed(json.error), st)
        else
          var written := Write(st, dst, s.stringify(json.value));
          (if written.0.Ok? then Succeeded else Failed(written.0.error), written.1)
  }

  /** processFile(rootFolderIn, rootFolderOut, relativePath, context): no
      mkdir and no simulation; an existing record is skipped before the
      text is read. */
  method ProcessFile(fs: FileSystem, ctx: Context, s: Services, inRoot: Path, outRoot: Path,
                     rel: Path, force: bool, now: int) returns (o: Outcome)
    requires fs.Valid() && |rel| > 0
    modifies fs, ctx
    ensures fs.Valid() && fs.dirs == old(fs.dirs)
    ensures ctx.Current() == old(ctx.Current()).Add(o)
    ensures (o, fs.Contents()) == Step(old(fs.Contents()), s, inRoot, outRoot, rel, force, now)
    ensures var dst := Destination(outRoot, rel);
      var text := inRoot + rel;
      && (o.Skipped? <==> old(fs.Exists(dst)) && !force)
      && (o.Succeeded? <==>
            (!(old(fs.Exists(dst)) && !force) && text in old(fs.files)
             && Txt2Json(old(fs.files)[text], s, now).Ok?
             && dst !in old(fs.dirs) && Parent(dst) in old(fs.dirs)))
      && (o.Succeeded? ==>
            fs.files == old(fs.files)[dst := s.stringify(Txt2Json(old(fs.files)[text], s, now).value)])
      && (!o.Succeeded? ==> fs.files == old(fs.files))
  {
    var dst := Destination(outRoot, rel);
    if fs.Exists(dst) && !force {
      o := Skipped;
    } else {
      var text := fs.ReadFile(inRoot + rel);
      if text.Err? {
        o := Failed(text.error);
      } else {
        var json := Txt2Json(text.value, s, now);
        if json.Err? {
          o := Failed(json.error);
        } else {
          var written := fs.WriteFile(dst, s.stringify(json.value));
          o := if written.Ok? then Succeeded else Failed(written.error);
        }
      }
    }
    ctx.Record(o);
  }
}
