/** The filesystem the stages read and write, as an object whose files map
    and directory set the fs calls (readFile, writeFile, mkdir with
    `recursive`, existsSync) update in place. Paths are absolute name
    sequences; `[]` is the filesystem root. */
module Disk {
  import opened Js
  import opened Paths

  const NotFound: JsError := Error("ENOENT: no such file or directory")
  const IsDirectory: JsError := Error("EISDIR: illegal operation on a directory")
  const NotDirectory: JsError := Error("ENOTDIR: not a directory")

  /** Every prefix of `p`, `p` itself included. */
  function Ancestors(p: Path): (r: set<Path>)
    ensures p in r && [] in r
  {
    assert p[..|p|] == p && p[..0] == [];
    set i | 0 <= i <= |p| :: p[..i]
  }

  /** The directory that holds `p` (dirname). */
  function Parent(p: Path): Path
    requires |p| > 0
  {
    p[..|p| - 1]
  }

  /** The paths whose content differs between two states of the files. */
  function Changed(before: map<Path, string>, after: map<Path, string>): set<Path> {
    set p | p in before.Keys + after.Keys && (p !in before || p !in after || after[p] != before[p])
  }

  /** Nothing changed between a state and itself. */
  lemma ChangedNone(a: map<Path, string>)
    ensures Changed(a, a) == {}
  {
  }

  /** A path changed between the first and the last of three states
      changed in one of the two steps. */
  lemma ChangedTrans(a: map<Path, string>, b: map<Path, string>, c: map<Path, string>)
    ensures Changed(a, c) <= Changed(a, b) + Changed(b, c)
  {
  }

  /** The files and directories at one moment, as values. */
  datatype Snapshot = Snapshot(files: map<Path, string>, dirs: set<Path>) {
    /** The root is a directory and no path is both a file and a directory. */
    predicate Valid() {
      [] in dirs && files.Keys !! dirs
    }

    /** existsSync(p): a file or a directory is there. */
    predicate Exists(p: Path) {
      p in files || p in dirs
    }
  }

  /** readFile(p, 'utf8') on a snapshot: the content of a file; reading a
      directory fails with EISDIR, a missing path with ENOENT. */
  function Read(st: Snapshot, p: Path): (r: Result<string>)
    ensures r.Ok? <==> p in st.files
    ensures r.Ok? ==> r.value == st.files[p]
    ensures r.Err? ==> r.error == (if p in st.dirs then IsDirectory else NotFound)
  {
    if p in st.files then Ok(st.files[p]) else Err(if p in st.dirs then IsDirectory else NotFound)
  }

  /** mkdir(p, { recursive: true }) on a snapshot: `p` and its missing
      ancestors are created; when one of them is a file, nothing is created
      and the call fails. */
  function MakeDirs(st: Snapshot, p: Path): (r: (Result<()>, Snapshot))
    ensures st.Valid() ==> r.1.Valid()
    ensures r.1.files == st.files
    ensures r.0.Ok? <==> Ancestors(p) !! st.files.Keys
    ensures r.0.Ok? ==> r.1.dirs == st.dirs + Ancestors(p)
    ensures r.0.Err? ==> r.1 == st
  {
    if !(Ancestors(p) !! st.files.Keys) then (Err(NotDirectory), st)
    else (Ok(()), Snapshot(st.files, st.dirs + Ancestors(p)))
  }

  /** writeFile(p, content) on a snapshot: the file `p` is replaced or
      created; writing a directory fails, and so does writing into a parent
      that is not a directory. */
  function Write(st: Snapshot, p: Path, content: string): (r: (Result<()>, Snapshot))
    ensures st.Valid() ==> r.1.Valid()
    ensures r.1.dirs == st.dirs
    ensures r.0.Ok? <==> |p| > 0 && p !in st.dirs && Parent(p) in st.dirs
    ensures r.0.Ok? ==> r.1.files == st.files[p := content]
    ensures r.0.Err? ==> r.1 == st
  {
    if p == [] || p in st.dirs then (Err(IsDirectory), st)
    else if Parent(p) !in st.dirs then (Err(if Parent(p) in st.files then NotDirectory else NotFound), st)
    else (Ok(()), Snapshot(st.files[p := content], st.dirs))
  }

  /** Creating folders twice is creating them once. */
  lemma MakeDirsIdempotent(st: Snapshot, p: Path)
    requires MakeDirs(st, p).0.Ok?
    ensures MakeDirs(MakeDirs(st, p).1, p) == MakeDirs(st, p)
  {
  }

  /** Writing a file and reading it back gives the content. */
  lemma ReadAfterWrite(st: Snapshot, p: Path, content: string, q: Path)
    requires Write(st, p, content).0.Ok?
    ensures Read(Write(st, p, content).1, q) == if q == p then Ok(content) else Read(st, q)
  {
  }

  class FileSystem {
    var files: map<Path, string>
    var dirs: set<Path>

    /** The current files and directories. */
    function Contents(): Snapshot
      reads this
    {
      Snapshot(files, dirs)
    }

    predicate Valid()
      reads this
    {
      Contents().Valid()
    }

    constructor (files: map<Path, string>, dirs: set<Path>)
      requires files.Keys !! (dirs + {[]})
      ensures Valid() && this.files == files && this.dirs == dirs + {[]}
    {
      this.files := files;
      this.dirs := dirs + {[]};
    }

    /** existsSync(p) */
    predicate Exists(p: Path)
      reads this
    {
      Contents().Exists(p)
    }

    /** readFile(p, 'utf8') */
    method ReadFile(p: Path) returns (r: Result<string>)
      ensures r == Read(Contents(), p)
    {
      if p in files {
        return Ok(files[p]);
      }
      return Err(if p in dirs then IsDirectory else NotFound);
    }

    /** mkdir(p, { recursive: true }) */
    method Mkdir(p: Path) returns (r: Result<()>)
      requires Valid()
      modifies this
      ensures Valid()
      ensures (r, Contents()) == MakeDirs(old(Contents()), p)
    {
      if !(Ancestors(p) !! files.Keys) {
        return Err(NotDirectory);
      }
      dirs := dirs + Ancestors(p);
      return Ok(());
    }

    /** writeFile(p, content) */
    method WriteFile(p: Path, content: string) returns (r: Result<()>)
      requires Valid()
      modifies this
      ensures Valid()
      ensures (r, Contents()) == Write(old(Contents()), p, content)
    {
      if p in dirs {
        return Err(IsDirectory);
      }
      if Parent(p) !in dirs {
        return Err(if Parent(p) in files then NotDirectory else NotFound);
      }
      files := files[p := content];
      return Ok(());
    }
  }
}
