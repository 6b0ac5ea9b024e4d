/** The older import script (importRedis.js): a debugging variant of the
    import stage whose processFolder returns after the first file it hands
    on, so each folder contributes at most its first file (and whatever
    its folders before that file contribute), and whose index lookup
    `getIndex(true)` passes `true` as the index name and no creation flag,
    so it never creates an index. */
module LegacyImport {
  import opened Js
  import opened Paths
  import opened Disk
  import opened Tally
  import opened Walker
  import opened Services
  import opened Redis
  import ImportRedis

  /** The files processFolder(rel) hands on, with its early return. */
  function FirstDir(rel: Path, d: Dir): Walk
    decreases d
  {
    if !d.readable then Walk([], true) else FirstEntries(rel, d.entries)
  }

  /** The for..of loop with `return` after the first file: a file ends the
      folder; a folder is walked and the loop goes on. */
  function FirstEntries(rel: Path, es: seq<Entry>): Walk
    decreases es
  {
    if es == [] then Walk([], false)
    else if es[0].File? then Walk([rel + [es[0].name]], false)
    else Then(FirstDir(rel + [es[0].name], es[0].dir), FirstEntries(rel, es[1..]))
  }

  /** The same loop, from entry `i` on. */
  lemma FirstEntriesUnfold(rel: Path, es: seq<Entry>, i: nat)
    requires i < |es|
    ensures es[i].File? ==> FirstEntries(rel, es[i..]) == Walk([rel + [es[i].name]], false)
    ensures es[i].Folder? ==>
      FirstEntries(rel, es[i..]) == Then(FirstDir(rel + [es[i].name], es[i].dir), FirstEntries(rel, es[i + 1..]))
  {
    assert es[i..][0] == es[i] && es[i..][1..] == es[i + 1..];
  }

  /** processFolder(rootFolder, relativePath, context), listing only. */
  method FirstFolder(rel: Path, d: Dir) returns (w: Walk)
    ensures w == FirstDir(rel, d)
    decreases d
  {
    if !d.readable {
      return Walk([], true);
    }
    var es := d.entries;
    var files: seq<Path> := [];
    var i := 0;
    while i < |es|
      invariant 0 <= i <= |es|
      invariant FirstEntries(rel, es) == Then(Walk(files, false), FirstEntries(rel, es[i..]))
    {
      FirstEntriesUnfold(rel, es, i);
      match es[i] {
        case File(n) =>
          return Walk(files + [rel + [n]], false);
        case Folder(n, sub) =>
          var inner := FirstFolder(rel + [n], sub);
          if inner.aborted {
            return Walk(files + inner.files, true);
          }
          files := files + inner.files;
      }
      i := i + 1;
    }
    assert es[i..] == [];
    assert files + [] == files;
    return Walk(files, false);
  }

  /** Nothing after a folder's first file is looked at: entries appended
      to a listing that already holds a file change nothing. */
  lemma {:induction false} LaterEntriesIgnored(rel: Path, es: seq<Entry>, more: seq<Entry>)
    requires exists i :: 0 <= i < |es| && es[i].File?
    ensures FirstEntries(rel, es + more) == FirstEntries(rel, es)
    decreases es
  {
    assert (es + more)[0] == es[0];
    if es[0].Folder? {
      var i :| 0 <= i < |es| && es[i].File?;
      assert es[1..][i - 1].File?;
      assert (es + more)[1..] == es[1..] + more;
      LaterEntriesIgnored(rel, es[1..], more);
    }
  }

  /** The script hands on files of the tree only, each below its folder. */
  lemma {:induction false} FirstFilesInTree(rel: Path, es: seq<Entry>)
    ensures forall p :: p in FirstEntries(rel, es).files ==> p in FileSet(rel, es)
    decreases es
  {
    if es != [] {
      FirstFilesInTree(rel, es[1..]);
      assert FileSet(rel, es) == EntryFiles(rel, es[0]) + FileSet(rel, es[1..]);
      if es[0].Folder? && es[0].dir.readable {
        FirstFilesInTree(rel + [es[0].name], es[0].dir.entries);
        assert EntryFiles(rel, es[0]) == FileSet(rel + [es[0].name], es[0].dir.entries);
      }
    }
  }

  /** Of the files directly in a folder, at most one is handed on. */
  lemma {:induction false} OneDirectFile(rel: Path, es: seq<Entry>)
    ensures forall i, j :: 0 <= i < j < |FirstEntries(rel, es).files| ==>
      !(|FirstEntries(rel, es).files[i]| == |rel| + 1 && |FirstEntries(rel, es).files[j]| == |rel| + 1)
    decreases es
  {
    if es != [] && es[0].Folder? {
      var first := FirstDir(rel + [es[0].name], es[0].dir);
      var rest := FirstEntries(rel, es[1..]);
      OneDirectFile(rel, es[1..]);
      if first.aborted {
        DeeperFiles(rel, es[0].name, es[0].dir, first.files);
      } else {
        DeeperFiles(rel, es[0].name, es[0].dir, first.files);
        var all := first.files + rest.files;
        assert FirstEntries(rel, es).files == all;
        forall i, j | 0 <= i < j < |all|
          ensures !(|all[i]| == |rel| + 1 && |all[j]| == |rel| + 1)
        {
          if i < |first.files| {
            assert all[i] == first.files[i];
          } else {
            assert all[i] == rest.files[i - |first.files|] && all[j] == rest.files[j - |first.files|];
          }
        }
      }
    }
  }

  /** A folder's files lie at least two levels below its parent. */
  lemma DeeperFiles(rel: Path, n: string, d: Dir, files: seq<Path>)
    requires files == FirstDir(rel + [n], d).files
    ensures forall k :: 0 <= k < |files| ==> |files[k]| > |rel| + 1
  {
    if d.readable {
      FirstFilesInTree(rel + [n], d.entries);
      forall k | 0 <= k < |files|
        ensures |files[k]| > |rel| + 1
      {
        FileSetUnder(rel + [n], d.entries, files[k]);
      }
    }
  }

  /** main(): `getIndex(true)` looks up an index named "true" and, with no
      creation flag, creates nothing; then processFolder of the root, with
      the import stage's processFile, which has no skip. Each file's
      outcome, and the hashes its hSet leaves, follow from the hashes the
      files before it left. */
  method Run(fs: FileSystem, store: Store, s: Services, tree: Dir, root: Path)
    returns (walk: Walk, outcomes: seq<Outcome>, counts: Counts)
    modifies store
    ensures store.indexes == old(store.indexes)
    ensures walk == FirstDir([], tree)
    ensures (outcomes, store.hashes) == Fold(ImportRedis.Steps(fs.Contents(), s, root, false), old(store.hashes), walk.files)
    ensures counts == AddAll(Counts(0, 0, 0), outcomes) && counts.skipped == 0
  {
    var ctx := new Context();
    assert store.hashes == old(store.hashes) && store.indexes == old(store.indexes);
    var _ := store.GetIndex("true", "undefined", false);
    walk := FirstFolder([], tree);
    ghost var step := ImportRedis.Steps(fs.Contents(), s, root, false);
    outcomes := [];
    var i := 0;
    while i < |walk.files|
      invariant i <= |walk.files|
      invariant ctx.Current() == AddAll(Counts(0, 0, 0), outcomes) && ctx.Current().skipped == 0
      invariant store.indexes == old(store.indexes)
      invariant Fold(step, old(store.hashes), walk.files[..i]) == (outcomes, store.hashes)
    {
      FoldStep(step, old(store.hashes), walk.files, i);
      var o := ImportRedis.ProcessFile(fs, store, ctx, s, root, walk.files[i], false);
      AddAllSnoc(Counts(0, 0, 0), outcomes, o);
      outcomes := outcomes + [o];
      i := i + 1;
    }
    assert walk.files[..i] == walk.files;
    counts := ctx.Current();
  }
}
