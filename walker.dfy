/** The directory walker (src/createWalker.js): a depth-first traversal of
    a directory tree that hands every non-directory entry, by its
    root-relative path, to the per-file step. A listing (readdir) that
    fails aborts the rest of the walk. */
module Walker {
  import opened Paths

  /** A directory as readdir sees it: whether it can be listed, and its
      entries in listing order. */
  datatype Dir = Dir(readable: bool, entries: seq<Entry>)
  datatype Entry = File(name: string) | Folder(name: string, dir: Dir)

  /** The relative paths handed to the per-file step, in call order, and
      whether the walk stopped at a failed listing. */
  datatype Walk = Walk(files: seq<Path>, aborted: bool)

  /** `a` followed by `b`, unless `a` already stopped the walk. */
  function Then(a: Walk, b: Walk): Walk {
    if a.aborted then a else Walk(a.files + b.files, b.aborted)
  }

  /** The visit order of runFolder(rel) on a directory. */
  function VisitDir(rel: Path, d: Dir): Walk
    decreases d
  {
    if !d.readable then Walk([], true) else VisitEntries(rel, d.entries)
  }

  /** The visit of one entry of the folder at `rel`: a file is handed on
      by `rel + [name]`, a folder is walked. */
  function VisitEntry(rel: Path, e: Entry): Walk
    decreases e
  {
    match e
    case File(n) => Walk([rel + [n]], false)
    case Folder(n, d) => VisitDir(rel + [n], d)
  }

  /** The visit order of the for..of loop of runFolder over `es`: a
      folder's whole subtree comes before the next sibling. */
  function VisitEntries(rel: Path, es: seq<Entry>): Walk
    decreases es
  {
    if es == [] then Walk([], false)
    else Then(VisitEntry(rel, es[0]), VisitEntries(rel, es[1..]))
  }

  /** The same visit order, of the suffix of `es` from index `i`. */
  lemma VisitEntriesUnfold(rel: Path, es: seq<Entry>, i: nat)
    requires i < |es|
    ensures VisitEntries(rel, es[i..]) == Then(VisitEntry(rel, es[i]), VisitEntries(rel, es[i + 1..]))
  {
    assert es[i..][0] == es[i] && es[i..][1..] == es[i + 1..];
  }

  /** runFolder(rel) on directory `d`. */
  method RunFolder(rel: Path, d: Dir) returns (w: Walk)
    ensures w == VisitDir(rel, d)
    decreases d
  {
    if !d.readable {
      return Walk([], true);
    }
    var es := d.entries;
    var files: seq<Path> := [];
    var i := 0;
    while i < |es|
      invariant 0 <= i <= |es|
      invariant VisitEntries(rel, es) == Then(Walk(files, false), VisitEntries(rel, es[i..]))
    {
      VisitEntriesUnfold(rel, es, i);
      match es[i] {
        case File(n) =>
          files := files + [rel + [n]];
        case Folder(n, sub) =>
          var inner := RunFolder(rel + [n], sub);
          if inner.aborted {
            return Walk(files + inner.files, true);
          }
          files := files + inner.files;
      }
      i := i + 1;
    }
    assert es[i..] == [];
    assert files + [] == files;
    return Walk(files, false);
  }

  /** createWalker(root, ...)(): the walk starts at the root itself, whose
      entries are named relative to it. */
  method RunWalker(root: Dir) returns (w: Walk)
    ensures w == VisitDir([], root)
  {
    w := RunFolder([], root);
  }

  /** The files of a tree, as a set: an independent account of what the
      walk should find. */
  function FileSet(rel: Path, es: seq<Entry>): set<Path>
    decreases es
  {
    if es == [] then {} else EntryFiles(rel, es[0]) + FileSet(rel, es[1..])
  }

  function EntryFiles(rel: Path, e: Entry): set<Path>
    decreases e
  {
    match e
    case File(n) => {rel + [n]}
    case Folder(n, d) => FileSet(rel + [n], d.entries)
  }

  /** The names of a folder's entries. */
  function Names(es: seq<Entry>): set<string> {
    if es == [] then {} else {es[0].name} + Names(es[1..])
  }

  /** Every folder of the tree can be listed. */
  predicate Readable(es: seq<Entry>)
    decreases es
  {
    es == [] || (ReadableEntry(es[0]) && Readable(es[1..]))
  }

  predicate ReadableEntry(e: Entry)
    decreases e
  {
    e.Folder? ==> e.dir.readable && Readable(e.dir.entries)
  }

  /** No folder of the tree lists the same name twice, as on a real
      filesystem. */
  predicate NamesUnique(es: seq<Entry>)
    decreases es
  {
    es == [] || (es[0].name !in Names(es[1..]) && UniqueEntry(es[0]) && NamesUnique(es[1..]))
  }

  predicate UniqueEntry(e: Entry)
    decreases e
  {
    e.Folder? ==> NamesUnique(e.dir.entries)
  }

  predicate Distinct(ps: seq<Path>) {
    forall i, j :: 0 <= i < j < |ps| ==> ps[i] != ps[j]
  }

  /** Every file of the tree lies below `rel`, in the entry it is named by. */
  lemma {:induction false} FileSetUnder(rel: Path, es: seq<Entry>, p: Path)
    requires p in FileSet(rel, es)
    ensures |p| > |rel| && p[..|rel|] == rel && p[|rel|] in Names(es)
    decreases es
  {
    if p in FileSet(rel, es[1..]) {
      FileSetUnder(rel, es[1..], p);
    } else {
      EntryFilesUnder(rel, es[0], p);
    }
  }

  lemma {:induction false} EntryFilesUnder(rel: Path, e: Entry, p: Path)
    requires p in EntryFiles(rel, e)
    ensures |p| > |rel| && p[..|rel|] == rel && p[|rel|] == e.name
    decreases e
  {
    match e {
      case File(n) =>
      case Folder(n, d) =>
        FileSetUnder(rel + [n], d.entries, p);
        assert p[..|rel|] == p[..|rel| + 1][..|rel|];
    }
  }

  /** The walk hands on only files of the tree; on a fully readable tree
      it does not abort and hands on every one of them. */
  lemma {:induction false} VisitFindsFiles(rel: Path, es: seq<Entry>)
    ensures forall p :: p in VisitEntries(rel, es).files ==> p in FileSet(rel, es)
    ensures Readable(es) ==>
      (!VisitEntries(rel, es).aborted
       && forall p :: p in FileSet(rel, es) ==> p in VisitEntries(rel, es).files)
    decreases es
  {
    if es != [] {
      VisitFindsFiles(rel, es[1..]);
      EntryFindsFiles(rel, es[0]);
    }
  }

  lemma {:induction false} EntryFindsFiles(rel: Path, e: Entry)
    ensures forall p :: p in VisitEntry(rel, e).files ==> p in EntryFiles(rel, e)
    ensures ReadableEntry(e) ==>
      (!VisitEntry(rel, e).aborted
       && forall p :: p in EntryFiles(rel, e) ==> p in VisitEntry(rel, e).files)
    decreases e
  {
    if e.Folder? {
      VisitFindsFiles(rel + [e.name], e.dir.entries);
    }
  }

  /** With unique names, each file is handed on exactly once. */
  lemma {:induction false} VisitOnce(rel: Path, es: seq<Entry>)
    requires NamesUnique(es)
    ensures Distinct(VisitEntries(rel, es).files)
    decreases es
  {
    if es != [] {
      var first := VisitEntry(rel, es[0]);
      var rest := VisitEntries(rel, es[1..]);
      VisitOnce(rel, es[1..]);
      EntryOnce(rel, es[0]);
      if !first.aborted {
        var all := first.files + rest.files;
        forall i, j | 0 <= i < j < |all|
          ensures all[i] != all[j]
        {
          if i < |first.files| <= j {
            assert all[i] in first.files && all[j] in rest.files;
            EntryFindsFiles(rel, es[0]);
            EntryFilesUnder(rel, es[0], all[i]);
            VisitFindsFiles(rel, es[1..]);
            FileSetUnder(rel, es[1..], all[j]);
          } else if j < |first.files| {
            assert all[i] == first.files[i] && all[j] == first.files[j];
          } else {
            assert all[i] == rest.files[i - |first.files|] && all[j] == rest.files[j - |first.files|];
          }
        }
        assert VisitEntries(rel, es).files == all;
      }
    }
  }

  lemma {:induction false} EntryOnce(rel: Path, e: Entry)
    requires UniqueEntry(e)
    ensures Distinct(VisitEntry(rel, e).files)
    decreases e
  {
    if e.Folder? && e.dir.readable {
      VisitOnce(rel + [e.name], e.dir.entries);
    }
  }

  /** Siblings are walked in listing order, one after the other: the walk
      of `a + b` is the walk of `a` followed by the walk of `b`. */
  lemma {:induction false} VisitAppend(rel: Path, a: seq<Entry>, b: seq<Entry>)
    ensures VisitEntries(rel, a + b) == Then(VisitEntries(rel, a), VisitEntries(rel, b))
    decreases a
  {
    if a == [] {
      assert a + b == b;
    } else {
      assert (a + b)[0] == a[0] && (a + b)[1..] == a[1..] + b;
      VisitAppend(rel, a[1..], b);
      var x := VisitEntry(rel, a[0]);
      var y := VisitEntries(rel, a[1..]);
      var z := VisitEntries(rel, b);
      if !x.aborted && !y.aborted {
        assert x.files + (y.files + z.files) == (x.files + y.files) + z.files;
      }
    }
  }

  /** Every path handed on lies strictly below `rel`, in one of the entries
      of the folder being walked. */
  lemma VisitUnder(rel: Path, es: seq<Entry>, p: Path)
    requires p in VisitEntries(rel, es).files
    ensures |p| > |rel| && p[..|rel|] == rel && p[|rel|] in Names(es)
  {
    VisitFindsFiles(rel, es);
    FileSetUnder(rel, es, p);
  }

  /** The walk from the root hands on non-empty paths only. */
  lemma WalkPathNonEmpty(root: Dir, i: nat)
    requires i < |VisitDir([], root).files|
    ensures |VisitDir([], root).files[i]| > 0
  {
    VisitUnder([], root.entries, VisitDir([], root).files[i]);
  }

  /** No path a walk hands on is empty. */
  lemma WalkPathsNonEmpty(root: Dir)
    ensures forall p :: p in VisitDir([], root).files ==> |p| > 0
  {
    forall p | p in VisitDir([], root).files
      ensures |p| > 0
    {
      var i :| 0 <= i < |VisitDir([], root).files| && VisitDir([], root).files[i] == p;
      WalkPathNonEmpty(root, i);
    }
  }

  /** The folders a walk of `d` at `rel` lists: `rel` itself, and when it
      can be listed, the folders below it. */
  function Folders(rel: Path, d: Dir): set<Path>
    decreases d
  {
    {rel} + (if d.readable then SubFolders(rel, d.entries) else {})
  }

  function SubFolders(rel: Path, es: seq<Entry>): set<Path>
    decreases es
  {
    if es == [] then {} else EntryFolders(rel, es[0]) + SubFolders(rel, es[1..])
  }

  function EntryFolders(rel: Path, e: Entry): set<Path>
    decreases e
  {
    if e.Folder? then Folders(rel + [e.name], e.dir) else {}
  }

  lemma {:induction false} SubFoldersAppend(rel: Path, a: seq<Entry>, b: seq<Entry>)
    ensures SubFolders(rel, a + b) == SubFolders(rel, a) + SubFolders(rel, b)
    decreases a
  {
    if a == [] {
      assert a + b == b;
    } else {
      assert (a + b)[0] == a[0] && (a + b)[1..] == a[1..] + b;
      SubFoldersAppend(rel, a[1..], b);
    }
  }
}
