/** The folder recursion of the two older scripts that mirror their input
    tree (000-md-010-json.js and 011-json-020-redis.js): processFolder makes
    the output folder of `relativePath` before listing the input folder,
    then hands each file to the script's processFile and recurses into each
    folder, in listing order. A failing mkdir or readdir is not caught and
    ends the whole run. */
module MirroredFolders {
  import opened Js
  import opened Paths
  import opened Disk
  import opened Tally
  import opened Walker
  import opened Services
  import TxtToJson
  import LegacyStructure
  import LegacyKeying

  /** Which script runs: the structuring one, or the keying one with its
      normalised key prefix. */
  datatype Script = Structure | Keying(prefix: string)

  /** The one output the script's processFile may write for `rel`. */
  function Target(script: Script, outRoot: Path, rel: Path): (p: Path)
    requires |rel| > 0
    ensures script.Structure? ==> p == TxtToJson.Destination(outRoot, rel)
    ensures script.Keying? ==> p == outRoot + rel
  {
    match script
    case Structure => TxtToJson.Destination(outRoot, rel)
    case Keying(_) => outRoot + rel
  }

  /** What the script's processFile does for the k-th file of the run, on
      the files and folders as they are: it reads the clock (structuring)
      or draws a uuid (keying) for that file. */
  function Step(script: Script, st: Snapshot, s: Services, inRoot: Path, outRoot: Path,
                rel: Path, force: bool, k: nat): (r: (Outcome, Snapshot))
    requires |rel| > 0
    ensures st.Valid() ==> r.1.Valid()
    ensures r.1.dirs == st.dirs
    ensures Changed(st.files, r.1.files) <= {Target(script, outRoot, rel)}
  {
    match script
    case Structure => LegacyStructure.Step(st, s, inRoot, outRoot, rel, force, s.now(k))
    case Keying(prefix) => LegacyKeying.Step(st, s, inRoot, outRoot, rel, prefix, s.uuid(k), force)
  }

  /** The script's processFile for the k-th file of the run. */
  method ProcessFile(script: Script, fs: FileSystem, ctx: Context, s: Services, inRoot: Path, outRoot: Path,
                     rel: Path, force: bool, k: nat) returns (o: Outcome)
    requires fs.Valid() && |rel| > 0
    modifies fs, ctx
    ensures fs.Valid() && fs.dirs == old(fs.dirs)
    ensures ctx.Current() == old(ctx.Current()).Add(o)
    ensures (o, fs.Contents()) == Step(script, old(fs.Contents()), s, inRoot, outRoot, rel, force, k)
    ensures Changed(old(fs.files), fs.files) <= {Target(script, outRoot, rel)}
  {
    match script {
      case Structure =>
        o := LegacyStructure.ProcessFile(fs, ctx, s, inRoot, outRoot, rel, force, s.now(k));
      case Keying(prefix) =>
        o := LegacyKeying.ProcessFile(fs, ctx, s, inRoot, outRoot, rel, prefix, s.uuid(k), force);
    }
  }

  /** A per-file step of a run: from the files and folders, the position of
      the file in the run and its relative path, its outcome and the files
      and folders after it. */
  type FileStep = (Snapshot, nat, FilePath) -> (Outcome, Snapshot)

  /** The relative path of a file: never the root itself. */
  type FilePath = p: Path | |p| > 0 witness [""]

  /** The script's processFile as the run's per-file step. */
  function Steps(script: Script, s: Services, inRoot: Path, outRoot: Path, force: bool): FileStep {
    (st: Snapshot, k: nat, rel: FilePath) => Step(script, st, s, inRoot, outRoot, rel, force, k)
  }

  /** `step` keeps the state valid, creates no
      folder and changes at most the one output of its file. */
  ghost predicate Local(script: Script, outRoot: Path, step: FileStep) {
    forall st: Snapshot, k: nat, rel: FilePath ::
      && (st.Valid() ==> step(st, k, rel).1.Valid())
      && step(st, k, rel).1.dirs == st.dirs
      && Changed(st.files, step(st, k, rel).1.files) <= {Target(script, outRoot, rel)}
  }

  /** `step` is the script's processFile, file by file. */
  ghost predicate Realises(step: FileStep, script: Script, s: Services, inRoot: Path, outRoot: Path, force: bool) {
    forall st: Snapshot, k: nat, rel: FilePath {:trigger Step(script, st, s, inRoot, outRoot, rel, force, k)} ::
      step(st, k, rel) == Step(script, st, s, inRoot, outRoot, rel, force, k)
  }

  /** Steps is the script's processFile. */
  lemma StepsRealise(script: Script, s: Services, inRoot: Path, outRoot: Path, force: bool)
    ensures Realises(Steps(script, s, inRoot, outRoot, force), script, s, inRoot, outRoot, force)
  {
    var step := Steps(script, s, inRoot, outRoot, force);
    forall st: Snapshot, k: nat, rel: FilePath
      ensures step(st, k, rel) == Step(script, st, s, inRoot, outRoot, rel, force, k)
    {
    }
  }

  /** The script's processFile is such a step. */
  lemma RealisesLocal(step: FileStep, script: Script, s: Services, inRoot: Path, outRoot: Path, force: bool)
    requires Realises(step, script, s, inRoot, outRoot, force)
    ensures Local(script, outRoot, step)
  {
    forall st: Snapshot, k: nat, rel: FilePath
      ensures && (st.Valid() ==> step(st, k, rel).1.Valid())
              && step(st, k, rel).1.dirs == st.dirs
              && Changed(st.files, step(st, k, rel).1.files) <= {Target(script, outRoot, rel)}
    {
      assert step(st, k, rel) == Step(script, st, s, inRoot, outRoot, rel, force, k);
    }
  }

  /** The outputs that may be written for the files `ps`. */
  function Destinations(script: Script, outRoot: Path, ps: seq<Path>): set<Path>
  {
    set i | 0 <= i < |ps| && |ps[i]| > 0 :: Target(script, outRoot, ps[i])
  }

  lemma DestinationsAppend(script: Script, outRoot: Path, a: seq<Path>, b: seq<Path>)
    ensures Destinations(script, outRoot, a + b) == Destinations(script, outRoot, a) + Destinations(script, outRoot, b)
  {
    var ab := a + b;
    forall i | 0 <= i < |a| && |a[i]| > 0
      ensures Target(script, outRoot, a[i]) in Destinations(script, outRoot, ab)
    {
      assert ab[i] == a[i];
    }
    forall i | 0 <= i < |b| && |b[i]| > 0
      ensures Target(script, outRoot, b[i]) in Destinations(script, outRoot, ab)
    {
      assert ab[|a| + i] == b[i];
    }
    forall i | 0 <= i < |ab| && |ab[i]| > 0
      ensures Target(script, outRoot, ab[i]) in Destinations(script, outRoot, a) + Destinations(script, outRoot, b)
    {
      if i < |a| {
        assert ab[i] == a[i];
      } else {
        assert ab[i] == b[i - |a|];
      }
    }
  }

  /** Every path of `ps` has its counterpart under `outRoot` in `dirs`. */
  ghost predicate Covered(dirs: set<Path>, outRoot: Path, ps: set<Path>) {
    forall p :: p in ps ==> outRoot + p in dirs
  }

  /** Every folder a walk of `d` at `rel` lists has its counterpart under
      `outRoot`. */
  ghost predicate Mirrored(dirs: set<Path>, outRoot: Path, rel: Path, d: Dir) {
    Covered(dirs, outRoot, Folders(rel, d))
  }

  /** `a` is a prefix of `b`. */
  ghost predicate Prefix(a: seq<Path>, b: seq<Path>) {
    |a| <= |b| && a == b[..|a|]
  }

  /** What a run of processFolder(rel) over the listing `d` leaves: the
      files it handed on are the start of the walk of `d`, and all of it
      unless it stopped at a failed mkdir or listing; the output folders
      only grow, and without a stop every folder of the walk has its
      counterpart under `outRoot`; only the outputs of the files handed
      on may change. */
  ghost predicate Mirrors(script: Script, outRoot: Path, rel: Path, d: Dir, dirs0: set<Path>, dirs: set<Path>,
                          files0: map<Path, string>, files: map<Path, string>, visited: seq<Path>, aborted: bool)
  {
    && dirs0 <= dirs
    && Prefix(visited, VisitDir(rel, d).files)
    && (!aborted ==> Walk(visited, false) == VisitDir(rel, d))
    && (!aborted ==> Mirrored(dirs, outRoot, rel, d))
    && Changed(files0, files) <= Destinations(script, outRoot, visited)
  }

  /** What a stretch of a run hands on, the outcomes the files get, whether
      it stopped the run, and the files and folders it leaves. */
  datatype Run = Run(visited: seq<Path>, outcomes: seq<Outcome>, aborted: bool, after: Snapshot)

  /** A stretch that ran to its end, followed by the next one. */
  function Join(a: Run, b: Run): Run {
    Run(a.visited + b.visited, a.outcomes + b.outcomes, b.aborted, b.after)
  }

  /** processFolder(relativePath) on the listing `d`, from the files and
      folders `st`, with `start` files handed on before it: the mirror
      folder is made first; a failing mkdir or a listing that fails stops
      the run; otherwise the entries are processed in listing order. */
  function FolderRun(step: FileStep, outRoot: Path, rel: Path, d: Dir, start: nat, st: Snapshot): Run
    decreases d
  {
    var made := MakeDirs(st, outRoot + rel);
    if made.0.Err? || !d.readable then Run([], [], true, made.1)
    else EntriesRun(step, outRoot, rel, d.entries, start, made.1)
  }

  /** One entry of the for..of loop: a file goes to processFile as the
      `start`-th file of the run, a folder is processed in turn. */
  function EntryRun(step: FileStep, outRoot: Path, rel: Path, e: Entry, start: nat, st: Snapshot): Run
    decreases e
  {
    match e
    case File(n) =>
      var r := step(st, start, rel + [n]);
      Run([rel + [n]], [r.0], false, r.1)
    case Folder(n, sub) => FolderRun(step, outRoot, rel + [n], sub, start, st)
  }

  /** The for..of loop over `es`: each entry from the state the one before
      it left, until one stops the run. */
  function EntriesRun(step: FileStep, outRoot: Path, rel: Path, es: seq<Entry>, start: nat, st: Snapshot): Run
    decreases es
  {
    if es == [] then Run([], [], false, st)
    else
      var a := EntryRun(step, outRoot, rel, es[0], start, st);
      if a.aborted then a
      else Join(a, EntriesRun(step, outRoot, rel, es[1..], start + |a.outcomes|, a.after))
  }

  /** What a stretch `r` of a run from `st` promises about the walk `w` it
      follows and the folders it must mirror: a valid state whose folders
      only grew, one outcome per file handed on, the files handed on a
      prefix of the walk and all of it unless the run stopped, every folder
      mirrored unless the run stopped, and only the outputs of the files
      handed on changed. */
  ghost predicate Follows(script: Script, outRoot: Path, w: Walk, folders: set<Path>, st: Snapshot, r: Run) {
    && r.after.Valid() && st.dirs <= r.after.dirs
    && |r.outcomes| == |r.visited|
    && Prefix(r.visited, w.files)
    && (!r.aborted ==> Walk(r.visited, false) == w)
    && (!r.aborted ==> Covered(r.after.dirs, outRoot, folders))
    && Changed(st.files, r.after.files) <= Destinations(script, outRoot, r.visited)
  }

  /** What `ps` hands on followed by what `qs` hands on is a prefix of the
      walk `x` then `y`, when `ps` ran all of `x`. */
  lemma PrefixJoin(ps: seq<Path>, qs: seq<Path>, x: Walk, y: Walk)
    requires Walk(ps, false) == x && Prefix(qs, y.files)
    ensures Prefix(ps + qs, Then(x, y).files)
  {
    assert Then(x, y).files == ps + y.files;
    assert (ps + y.files)[..|ps + qs|] == ps + y.files[..|qs|];
  }

  /** A run of processFolder follows the walk of its folder and mirrors it
      unless it stops. */
  lemma {:induction false} FolderRunFollows(script: Script, step: FileStep, outRoot: Path, rel: Path,
                                            d: Dir, start: nat, st: Snapshot)
    requires Local(script, outRoot, step) && st.Valid()
    ensures Follows(script, outRoot, VisitDir(rel, d), Folders(rel, d), st, FolderRun(step, outRoot, rel, d, start, st))
    decreases d
  {
    var made := MakeDirs(st, outRoot + rel);
    if made.0.Err? || !d.readable {
      ChangedNone(st.files);
    } else {
      var r := EntriesRun(step, outRoot, rel, d.entries, start, made.1);
      EntriesRunFollows(script, step, outRoot, rel, d.entries, start, made.1);
      assert outRoot + rel in r.after.dirs;
    }
  }

  lemma {:induction false} EntryRunFollows(script: Script, step: FileStep, outRoot: Path, rel: Path,
                                           e: Entry, start: nat, st: Snapshot)
    requires Local(script, outRoot, step) && st.Valid()
    ensures Follows(script, outRoot, VisitEntry(rel, e), EntryFolders(rel, e), st, EntryRun(step, outRoot, rel, e, start, st))
    decreases e
  {
    match e {
      case File(n) =>
        assert [rel + [n]][0] == rel + [n];
      case Folder(n, sub) =>
        FolderRunFollows(script, step, outRoot, rel + [n], sub, start, st);
    }
  }

  lemma {:induction false} EntriesRunFollows(script: Script, step: FileStep, outRoot: Path, rel: Path,
                                             es: seq<Entry>, start: nat, st: Snapshot)
    requires Local(script, outRoot, step) && st.Valid()
    ensures Follows(script, outRoot, VisitEntries(rel, es), SubFolders(rel, es), st, EntriesRun(step, outRoot, rel, es, start, st))
    decreases es
  {
    if es == [] {
      ChangedNone(st.files);
    } else {
      var a := EntryRun(step, outRoot, rel, es[0], start, st);
      EntryRunFollows(script, step, outRoot, rel, es[0], start, st);
      var x, y := VisitEntry(rel, es[0]), VisitEntries(rel, es[1..]);
      assert VisitEntries(rel, es) == Then(x, y);
      if a.aborted {
        assert EntriesRun(step, outRoot, rel, es, start, st) == a;
        FollowsStop(script, outRoot, x, y, EntryFolders(rel, es[0]), SubFolders(rel, es), st, a);
      } else {
        var b := EntriesRun(step, outRoot, rel, es[1..], start + |a.outcomes|, a.after);
        EntriesRunFollows(script, step, outRoot, rel, es[1..], start + |a.outcomes|, a.after);
        assert EntriesRun(step, outRoot, rel, es, start, st) == Join(a, b);
        assert SubFolders(rel, es) == EntryFolders(rel, es[0]) + SubFolders(rel, es[1..]);
        FollowsJoin(script, outRoot, x, y, EntryFolders(rel, es[0]), SubFolders(rel, es[1..]), st, a, b);
      }
    }
  }

  /** A stretch that stopped the run inside `x` follows `x` then `y`. */
  lemma FollowsStop(script: Script, outRoot: Path, x: Walk, y: Walk, fx: set<Path>, fxy: set<Path>,
                    st: Snapshot, a: Run)
    requires Follows(script, outRoot, x, fx, st, a) && a.aborted
    ensures Follows(script, outRoot, Then(x, y), fxy, st, a)
  {
    PrefixThen([], a.visited, x, y);
    assert [] + a.visited == a.visited && [] + Then(x, y).files == Then(x, y).files;
  }

  /** A stretch that ran all of `x`, then one that follows `y` from the
      state it left, together follow `x` then `y`. */
  lemma FollowsJoin(script: Script, outRoot: Path, x: Walk, y: Walk, fx: set<Path>, fy: set<Path>,
                    st: Snapshot, a: Run, b: Run)
    requires Follows(script, outRoot, x, fx, st, a) && !a.aborted
    requires Follows(script, outRoot, y, fy, a.after, b)
    ensures Follows(script, outRoot, Then(x, y), fx + fy, st, Join(a, b))
  {
    PrefixJoin(a.visited, b.visited, x, y);
    ChangedTrans(st.files, a.after.files, b.after.files);
    DestinationsAppend(script, outRoot, a.visited, b.visited);
  }


  /** The loop over `xs` and then one more entry `e`: the entry runs from
      where the loop over `xs` left off, unless that loop stopped. */
  lemma {:induction false} EntriesRunSnoc(step: FileStep, outRoot: Path, rel: Path, xs: seq<Entry>, e: Entry,
                                          start: nat, st: Snapshot)
    ensures var p := EntriesRun(step, outRoot, rel, xs, start, st);
      EntriesRun(step, outRoot, rel, xs + [e], start, st)
      == if p.aborted then p else Join(p, EntryRun(step, outRoot, rel, e, start + |p.outcomes|, p.after))
    decreases xs
  {
    if xs == [] {
      var a := EntryRun(step, outRoot, rel, e, start, st);
      assert [] + [e] == [e] && [e][0] == e && [e][1..] == [];
      assert [] + a.visited == a.visited && [] + a.outcomes == a.outcomes;
      assert a.visited + [] == a.visited && a.outcomes + [] == a.outcomes;
    } else {
      var a := EntryRun(step, outRoot, rel, xs[0], start, st);
      assert (xs + [e])[0] == xs[0] && (xs + [e])[1..] == xs[1..] + [e];
      if !a.aborted {
        var k := start + |a.outcomes|;
        EntriesRunSnoc(step, outRoot, rel, xs[1..], e, k, a.after);
        var q := EntriesRun(step, outRoot, rel, xs[1..], k, a.after);
        if !q.aborted {
          JoinAssoc(a, q, EntryRun(step, outRoot, rel, e, k + |q.outcomes|, q.after));
          assert start + |Join(a, q).outcomes| == k + |q.outcomes|;
        }
      }
    }
  }

  /** Once the loop over `xs` has stopped, the entries after it are never
      looked at. */
  lemma {:induction false} EntriesRunStopped(step: FileStep, outRoot: Path, rel: Path, xs: seq<Entry>, ys: seq<Entry>,
                                             start: nat, st: Snapshot)
    requires EntriesRun(step, outRoot, rel, xs, start, st).aborted
    ensures EntriesRun(step, outRoot, rel, xs + ys, start, st) == EntriesRun(step, outRoot, rel, xs, start, st)
    decreases xs
  {
    var a := EntryRun(step, outRoot, rel, xs[0], start, st);
    assert (xs + ys)[0] == xs[0] && (xs + ys)[1..] == xs[1..] + ys;
    if !a.aborted {
      EntriesRunStopped(step, outRoot, rel, xs[1..], ys, start + |a.outcomes|, a.after);
    }
  }

  /** The loop over the first `n` entries of `es`, by position. */
  function EntriesUpTo(step: FileStep, outRoot: Path, rel: Path, es: seq<Entry>, n: nat, start: nat, st: Snapshot): (r: Run)
    requires n <= |es|
    ensures r == EntriesRun(step, outRoot, rel, es[..n], start, st)
  {
    if n == 0 then
      assert es[..0] == [];
      Run([], [], false, st)
    else
      var p := EntriesUpTo(step, outRoot, rel, es, n - 1, start, st);
      EntriesRunSnoc(step, outRoot, rel, es[..n - 1], es[n - 1], start, st);
      assert es[..n - 1] + [es[n - 1]] == es[..n];
      if p.aborted then p else Join(p, EntryRun(step, outRoot, rel, es[n - 1], start + |p.outcomes|, p.after))
  }

  /** A loop that stopped after the first `n` entries of `es` is the loop
      over all of `es`. */
  lemma EntriesUpToStopped(step: FileStep, outRoot: Path, rel: Path, es: seq<Entry>, n: nat, start: nat, st: Snapshot)
    requires n <= |es| && EntriesUpTo(step, outRoot, rel, es, n, start, st).aborted
    ensures EntriesRun(step, outRoot, rel, es, start, st) == EntriesUpTo(step, outRoot, rel, es, n, start, st)
  {
    EntriesRunStopped(step, outRoot, rel, es[..n], es[n..], start, st);
    assert es[..n] + es[n..] == es;
  }

  /** What was handed on before a stop inside `x` is a prefix of the walk
      of `x` followed by anything. */
  lemma PrefixThen(done: seq<Path>, vs: seq<Path>, x: Walk, y: Walk)
    requires Prefix(vs, x.files)
    ensures Prefix(done + vs, done + Then(x, y).files)
  {
    var all := done + Then(x, y).files;
    assert all[..|done + vs|] == done + Then(x, y).files[..|vs|];
  }

  /** Two stretches joined after a first one are the first two joined. */
  lemma JoinAssoc(a: Run, b: Run, c: Run)
    ensures Join(a, Join(b, c)) == Join(Join(a, b), c)
  {
    assert a.visited + (b.visited + c.visited) == (a.visited + b.visited) + c.visited;
    assert a.outcomes + (b.outcomes + c.outcomes) == (a.outcomes + b.outcomes) + c.outcomes;
  }

  /** One entry of the for..of loop of processFolder. */
  method ProcessEntry(script: Script, fs: FileSystem, ctx: Context, s: Services, inRoot: Path, outRoot: Path,
                      rel: Path, e: Entry, force: bool, start: nat, ghost step: FileStep)
    returns (visited: seq<Path>, outcomes: seq<Outcome>, aborted: bool)
    requires fs.Valid() && Realises(step, script, s, inRoot, outRoot, force)
    modifies fs, ctx
    decreases e
    ensures Run(visited, outcomes, aborted, fs.Contents())
            == EntryRun(step, outRoot, rel, e, start, old(fs.Contents()))
    ensures fs.Valid() && old(fs.dirs) <= fs.dirs
    ensures |outcomes| == |visited| && ctx.Current() == AddAll(old(ctx.Current()), outcomes)
  {
    RealisesLocal(step, script, s, inRoot, outRoot, force);
    EntryRunFollows(script, step, outRoot, rel, e, start, fs.Contents());
    match e {
      case File(n) =>
        var o := ProcessFile(script, fs, ctx, s, inRoot, outRoot, rel + [n], force, start);
        visited, outcomes, aborted := [rel + [n]], [o], false;
        assert [o][1..] == [];
      case Folder(n, sub) =>
        visited, outcomes, aborted := ProcessFolder(script, fs, ctx, s, inRoot, outRoot, rel + [n], sub, force, start, step);
    }
  }

  /** processFolder(rootFolderIn, rootFolderOut, relativePath, context):
      mkdir of the mirrored folder, then readdir, then each entry in
      listing order; the file handed on at position k of the run is
      processed as the k-th file (its clock reading or uuid). `visited` is
      what was handed to processFile, a prefix of the walk of the folder,
      and all of it unless the run was aborted; a run that is not aborted
      has mirrored every folder it walked, and only the records of visited
      files are written. */
  method ProcessFolder(script: Script, fs: FileSystem, ctx: Context, s: Services, inRoot: Path, outRoot: Path,
                       rel: Path, d: Dir, force: bool, start: nat, ghost step: FileStep)
    returns (visited: seq<Path>, outcomes: seq<Outcome>, aborted: bool)
    requires fs.Valid() && Realises(step, script, s, inRoot, outRoot, force)
    modifies fs, ctx
    decreases d
    ensures Run(visited, outcomes, aborted, fs.Contents())
            == FolderRun(step, outRoot, rel, d, start, old(fs.Contents()))
    ensures fs.Valid() && old(fs.dirs) <= fs.dirs
    ensures |outcomes| == |visited| && ctx.Current() == AddAll(old(ctx.Current()), outcomes)
    ensures Prefix(visited, VisitDir(rel, d).files)
    ensures !aborted ==> Walk(visited, false) == VisitDir(rel, d)
    ensures !aborted ==> Mirrored(fs.dirs, outRoot, rel, d)
    ensures Changed(old(fs.files), fs.files) <= Destinations(script, outRoot, visited)
    ensures Mirrors(script, outRoot, rel, d, old(fs.dirs), fs.dirs, old(fs.files), fs.files, visited, aborted)
  {
    RealisesLocal(step, script, s, inRoot, outRoot, force);
    FolderRunFollows(script, step, outRoot, rel, d, start, fs.Contents());
    visited, outcomes, aborted := [], [], true;
    var made := fs.Mkdir(outRoot + rel);
    if made.Err? || !d.readable {
      return;
    }
    visited, outcomes, aborted := ProcessEntries(script, fs, ctx, s, inRoot, outRoot, rel, d.entries, force, start, step);
  }

  /** The for..of loop of processFolder over the listing `es`. */
  method ProcessEntries(script: Script, fs: FileSystem, ctx: Context, s: Services, inRoot: Path, outRoot: Path,
                        rel: Path, es: seq<Entry>, force: bool, start: nat, ghost step: FileStep)
    returns (visited: seq<Path>, outcomes: seq<Outcome>, aborted: bool)
    requires fs.Valid() && Realises(step, script, s, inRoot, outRoot, force)
    modifies fs, ctx
    decreases es, 1
    ensures Run(visited, outcomes, aborted, fs.Contents())
            == EntriesRun(step, outRoot, rel, es, start, old(fs.Contents()))
    ensures fs.Valid() && old(fs.dirs) <= fs.dirs
    ensures |outcomes| == |visited| && ctx.Current() == AddAll(old(ctx.Current()), outcomes)
    ensures Prefix(visited, VisitEntries(rel, es).files)
    ensures !aborted ==> Walk(visited, false) == VisitEntries(rel, es)
    ensures !aborted ==> Covered(fs.dirs, outRoot, SubFolders(rel, es))
    ensures Changed(old(fs.files), fs.files) <= Destinations(script, outRoot, visited)
  {
    ghost var st := fs.Contents();
    visited, outcomes, aborted := [], [], false;
    var i := 0;
    while i < |es| && !aborted
      invariant 0 <= i <= |es|
      invariant fs.Valid()
      invariant Run(visited, outcomes, aborted, fs.Contents()) == EntriesUpTo(step, outRoot, rel, es, i, start, st)
      invariant ctx.Current() == AddAll(old(ctx.Current()), outcomes)
    {
      var vs, os;
      vs, os, aborted := ProcessNext(script, fs, ctx, s, inRoot, outRoot, rel, es, i, force, start, step, st, visited, outcomes);
      AddAllAppend(old(ctx.Current()), outcomes, os);
      visited, outcomes := visited + vs, outcomes + os;
      i := i + 1;
    }
    if aborted {
      EntriesUpToStopped(step, outRoot, rel, es, i, start, st);
    } else {
      assert es[..i] == es;
    }
    RealisesLocal(step, script, s, inRoot, outRoot, force);
    EntriesRunFollows(script, step, outRoot, rel, es, start, st);
  }

  /** One pass of the for..of loop: the entry `es[i]`, after the loop over
      the entries before it handed on `visited` with `outcomes`. */
  method ProcessNext(script: Script, fs: FileSystem, ctx: Context, s: Services, inRoot: Path, outRoot: Path,
                     rel: Path, es: seq<Entry>, i: nat, force: bool, start: nat, ghost step: FileStep,
                     ghost st: Snapshot, visited: seq<Path>, outcomes: seq<Outcome>)
    returns (vs: seq<Path>, os: seq<Outcome>, stopped: bool)
    requires i < |es| && fs.Valid() && Realises(step, script, s, inRoot, outRoot, force)
    requires Run(visited, outcomes, false, fs.Contents()) == EntriesUpTo(step, outRoot, rel, es, i, start, st)
    modifies fs, ctx
    decreases es, 0
    ensures fs.Valid()
    ensures Run(visited + vs, outcomes + os, stopped, fs.Contents()) == EntriesUpTo(step, outRoot, rel, es, i + 1, start, st)
    ensures ctx.Current() == AddAll(old(ctx.Current()), os)
  {
    vs, os, stopped := ProcessEntry(script, fs, ctx, s, inRoot, outRoot, rel, es[i], force, start + |outcomes|, step);
  }

  /** main() of 000-md-010-json.js: processFolder of the whole of
      `<folder>/000-md`, with one context. */
  method RunStructure(fs: FileSystem, s: Services, tree: Dir, folder: Path, force: bool)
    returns (visited: seq<Path>, outcomes: seq<Outcome>, aborted: bool, counts: Counts)
    requires fs.Valid()
    modifies fs
    ensures fs.Valid()
    ensures Run(visited, outcomes, aborted, fs.Contents())
            == FolderRun(Steps(Structure, s, LegacyStructure.InputRoot(folder), LegacyStructure.OutputRoot(folder), force),
                         LegacyStructure.OutputRoot(folder), [], tree, 0, old(fs.Contents()))
    ensures |outcomes| == |visited| && counts == AddAll(Counts(0, 0, 0), outcomes)
    ensures Mirrors(Structure, LegacyStructure.OutputRoot(folder), [], tree,
                    old(fs.dirs), fs.dirs, old(fs.files), fs.files, visited, aborted)
  {
    var ctx := new Context();
    assert fs.files == old(fs.files) && fs.dirs == old(fs.dirs);
    StepsRealise(Structure, s, LegacyStructure.InputRoot(folder), LegacyStructure.OutputRoot(folder), force);
    visited, outcomes, aborted := ProcessFolder(Structure, fs, ctx, s, LegacyStructure.InputRoot(folder),
      LegacyStructure.OutputRoot(folder), [], tree, force, 0,
      Steps(Structure, s, LegacyStructure.InputRoot(folder), LegacyStructure.OutputRoot(folder), force));
    counts := ctx.Current();
  }

  /** main() of 011-json-020-redis.js: the prefix loses one trailing ':',
      then processFolder of the whole of `<folder>/010-json`. */
  method RunKeying(fs: FileSystem, s: Services, tree: Dir, folder: Path, prefix: string, force: bool)
    returns (visited: seq<Path>, outcomes: seq<Outcome>, aborted: bool, counts: Counts)
    requires fs.Valid()
    modifies fs
    ensures fs.Valid()
    ensures Run(visited, outcomes, aborted, fs.Contents())
            == FolderRun(Steps(Keying(NormalisePrefix(prefix)), s, LegacyKeying.InputRoot(folder), LegacyKeying.OutputRoot(folder), force),
                         LegacyKeying.OutputRoot(folder), [], tree, 0, old(fs.Contents()))
    ensures |outcomes| == |visited| && counts == AddAll(Counts(0, 0, 0), outcomes)
    ensures Mirrors(Keying(NormalisePrefix(prefix)), LegacyKeying.OutputRoot(folder), [], tree,
                    old(fs.dirs), fs.dirs, old(fs.files), fs.files, visited, aborted)
  {
    var ctx := new Context();
    assert fs.files == old(fs.files) && fs.dirs == old(fs.dirs);
    var script := Keying(NormalisePrefix(prefix));
    StepsRealise(script, s, LegacyKeying.InputRoot(folder), LegacyKeying.OutputRoot(folder), force);
    visited, outcomes, aborted := ProcessFolder(script, fs, ctx, s,
      LegacyKeying.InputRoot(folder), LegacyKeying.OutputRoot(folder), [], tree, force, 0,
      Steps(script, s, LegacyKeying.InputRoot(folder), LegacyKeying.OutputRoot(folder), force));
    counts := ctx.Current();
  }
}
