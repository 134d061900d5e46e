/**
  The two-level cache of interpreter details: a memory copy and a JSON file per executable
  (crates/pet-python-utils/src/cache.rs and fs_cache.rs), invalidated by the modification time
  and, where known, the creation time of every tracked file. File names are hashes that may
  collide, so a file may hold another executable's details.
 */
module InterpreterCache {
  import opened Prelude
  import opened Ordering

  /** `fs::metadata`; either time may be unavailable. */
  datatype Metadata = Metadata(mtime: Option<int>, ctime: Option<int>)

  /** What the disk says about the interpreters' own files; `None` for a missing file. */
  type Files<!P> = P -> Option<Metadata>

  /** A tracked file with the times recorded for it. */
  datatype Tracked<+P> = Tracked(path: P, mtime: int, ctime: Option<int>)

  /** `ResolvedPythonEnv`; `rest` stands for the fields the cache does not look at. */
  datatype Resolved<+P, +R> = Resolved(symlinks: Option<seq<P>>, rest: R)

  /** The cache file: missing, unreadable, or a stored pair. */
  datatype FileContent<+P, +R> = Absent | Corrupt | Stored(env: Resolved<P, R>, tracked: seq<Tracked<P>>)

  /** How a write of the cache file ends: not opened, opened but not completed, or written. */
  datatype Write = OpenFailed | WriteFailed | Written

  /** `CacheEntryImpl` together with its file; `hasFile` when a cache directory is set. */
  datatype Entry<P, R> = Entry(
    executable: P, hasFile: bool, memory: Option<Resolved<P, R>>, tracked: seq<Tracked<P>>, file: FileContent<P, R>)

  function Paths<P, R>(env: Resolved<P, R>): seq<P> {
    if env.symlinks.Some? then env.symlinks.value else []
  }

  // ----- validation -----

  /** The times differ from the recorded ones; an unrecorded creation time is not compared. */
  predicate TimesDiffer<P>(x: Tracked<P>, m: Metadata) {
    m.mtime != Some(x.mtime) || (x.ctime.Some? && m.ctime != x.ctime)
  }

  /** Memory is invalidated by a file that exists with other times. */
  predicate Changed<P>(x: Tracked<P>, files: Files<P>) {
    files(x.path).Some? && TimesDiffer(x, files(x.path).value)
  }

  /** The cache file is valid only for files that exist with the recorded times. */
  predicate Unchanged<P>(x: Tracked<P>, files: Files<P>) {
    files(x.path).Some? && !TimesDiffer(x, files(x.path).value)
  }

  predicate AnyChanged<P>(tracked: seq<Tracked<P>>, files: Files<P>) {
    exists i :: 0 <= i < |tracked| && Changed(tracked[i], files)
  }

  predicate AllUnchanged<P>(tracked: seq<Tracked<P>>, files: Files<P>) {
    forall i :: 0 <= i < |tracked| ==> Unchanged(tracked[i], files)
  }

  // ----- the operations on values -----

  function Deleted<P, R>(file: FileContent<P, R>, deletes: bool): FileContent<P, R> {
    if deletes then Absent else file
  }

  /** `verify_in_memory_cache`; `deletes` says whether removing the file succeeds. */
  function Verified<P, R>(e: Entry<P, R>, files: Files<P>, deletes: bool): Entry<P, R> {
    if !AnyChanged(e.tracked, files) then e
    else e.(memory := None, file := if e.hasFile then Deleted(e.file, deletes) else e.file)
  }

  /** `get_cache_from_file`: the stored pair if it is this executable's and still valid. */
  predicate FileHit<P(==), R>(executable: P, file: FileContent<P, R>, files: Files<P>) {
    file.Stored? && executable in Paths(file.env) && AllUnchanged(file.tracked, files)
  }

  function FileAfterRead<P(==), R>(
      executable: P, file: FileContent<P, R>, files: Files<P>, deletes: bool): FileContent<P, R>
  {
    if file.Stored? && executable in Paths(file.env) && !AllUnchanged(file.tracked, files)
    then Deleted(file, deletes) else file
  }

  /** `get`. */
  function AfterGet<P(==), R>(e: Entry<P, R>, files: Files<P>, deletes: bool): (Entry<P, R>, Option<Resolved<P, R>>) {
    var v := Verified(e, files, deletes);
    if v.memory.Some? then (v, v.memory)
    else if !v.hasFile then (v, None)
    else if FileHit(v.executable, v.file, files)
    then (v.(memory := Some(v.file.env), tracked := v.file.tracked), Some(v.file.env))
    else (v.(file := FileAfterRead(v.executable, v.file, files, deletes)), None)
  }

  /** The times to record: files without metadata or modification time are not tracked. */
  function Recorded<P>(paths: seq<P>, files: Files<P>): seq<Tracked<P>> {
    if paths == [] then []
    else
      var n := |paths| - 1;
      var m := files(paths[n]);
      Recorded(paths[..n], files) +
      (if m.Some? && m.value.mtime.Some? then [Tracked(paths[n], m.value.mtime.value, m.value.ctime)] else [])
  }

  function FileAfterWrite<P, R>(file: FileContent<P, R>, stored: FileContent<P, R>, write: Write): FileContent<P, R> {
    match write
    case OpenFailed => file
    case WriteFailed => Corrupt
    case Written => stored
  }

  /** `store`. */
  function AfterStore<P(==), R>(
      le: (Tracked<P>, Tracked<P>) -> bool, e: Entry<P, R>, env: Resolved<P, R>, files: Files<P>, write: Write)
    : Entry<P, R>
  {
    var tracked := SortDedup(le, Recorded(Paths(env), files));
    e.(memory := Some(env), tracked := tracked,
       file := if e.hasFile then FileAfterWrite(e.file, Stored(env, tracked), write) else e.file)
  }

  predicate Knows<P(==)>(tracked: seq<Tracked<P>>, p: P) {
    exists j :: 0 <= j < |tracked| && tracked[j].path == p
  }

  predicate KnowsAll<P(==)>(tracked: seq<Tracked<P>>, paths: seq<P>) {
    forall i :: 0 <= i < |paths| ==> Knows(tracked, paths[i])
  }

  /** How `track_symlinks` orders paths and records. */
  datatype Orders<!P> = Orders(pathLe: (P, P) -> bool, trackedLe: (Tracked<P>, Tracked<P>) -> bool)

  /** What the file holds with more symlinks. */
  function Extended<P(==), R>(o: Orders<P>, env: Resolved<P, R>, paths: seq<P>): Resolved<P, R> {
    env.(symlinks := Some(SortDedup(o.pathLe, Paths(env) + paths)))
  }

  /** `track_symlinks`: new paths extend what the file holds, and the result is stored again. */
  function AfterTrack<P(==), R>(
      o: Orders<P>, e: Entry<P, R>, paths: seq<P>, files: Files<P>, deletes: bool, write: Write): Entry<P, R>
  {
    var v := Verified(e, files, deletes);
    if KnowsAll(v.tracked, paths) || !v.hasFile then v
    else if FileHit(v.executable, v.file, files)
    then
      AfterStore(o.trackedLe, v, Extended(o, v.file.env, paths), files, write)
    else v.(file := FileAfterRead(v.executable, v.file, files, deletes))
  }

  // ----- exactly what the operations do, by the files' times -----

  /** The file has the recorded modification time and, where one was recorded, creation time. */
  ghost predicate AsRecorded<P>(x: Tracked<P>, m: Metadata) {
    m.mtime == Some(x.mtime) && (x.ctime.Some? ==> m.ctime == x.ctime)
  }

  ghost predicate ExistingAsRecorded<P>(tracked: seq<Tracked<P>>, files: Files<P>) {
    forall i :: 0 <= i < |tracked| && files(tracked[i].path).Some? ==>
      AsRecorded(tracked[i], files(tracked[i].path).value)
  }

  ghost predicate AllAsRecorded<P>(tracked: seq<Tracked<P>>, files: Files<P>) {
    forall i :: 0 <= i < |tracked| ==>
      files(tracked[i].path).Some? && AsRecorded(tracked[i], files(tracked[i].path).value)
  }

  lemma ValidityIs<P>(tracked: seq<Tracked<P>>, files: Files<P>)
    ensures AnyChanged(tracked, files) <==> !ExistingAsRecorded(tracked, files)
    ensures AllUnchanged(tracked, files) <==> AllAsRecorded(tracked, files)
  {
    if !ExistingAsRecorded(tracked, files) {
      var i :| 0 <= i < |tracked| && files(tracked[i].path).Some?
               && !AsRecorded(tracked[i], files(tracked[i].path).value);
      assert Changed(tracked[i], files);
    }
    if AllUnchanged(tracked, files) {
      forall i | 0 <= i < |tracked|
        ensures files(tracked[i].path).Some? && AsRecorded(tracked[i], files(tracked[i].path).value)
      {
        assert Unchanged(tracked[i], files);
      }
    }
  }

  /** Validation finds an existing file with other times, and removing the cache file succeeds. */
  ghost predicate FileRemoved<P, R>(e: Entry<P, R>, files: Files<P>, deletes: bool) {
    e.hasFile && deletes && !ExistingAsRecorded(e.tracked, files)
  }

  /** The cache file survives validation, is this executable's, and all its files are as recorded. */
  ghost predicate FileUsable<P, R>(e: Entry<P, R>, files: Files<P>, deletes: bool) {
    && e.hasFile && !FileRemoved(e, files, deletes) && e.file.Stored?
    && e.file.env.symlinks.Some? && e.executable in e.file.env.symlinks.value
    && AllAsRecorded(e.file.tracked, files)
  }

  /** The cache file as a failed lookup leaves it: only an outdated one of its own is removed. */
  ghost function FileLeft<P, R>(e: Entry<P, R>, files: Files<P>, deletes: bool): FileContent<P, R> {
    if FileRemoved(e, files, deletes) then Absent
    else if e.hasFile && deletes && e.file.Stored? && e.file.env.symlinks.Some?
            && e.executable in e.file.env.symlinks.value && !AllAsRecorded(e.file.tracked, files) then Absent
    else e.file
  }

  /** Memory answers while every tracked file that exists is as recorded; a missing one does not matter. */
  lemma MemoryAnswers<P, R>(e: Entry<P, R>, files: Files<P>, deletes: bool)
    requires e.memory.Some? && ExistingAsRecorded(e.tracked, files)
    ensures AfterGet(e, files, deletes) == (e, e.memory)
  {
    ValidityIs(e.tracked, files);
  }

  /** Otherwise a usable cache file answers and fills memory, and without one there is no answer. */
  lemma FileAnswers<P, R>(e: Entry<P, R>, files: Files<P>, deletes: bool)
    requires e.memory.None? || !ExistingAsRecorded(e.tracked, files)
    ensures FileUsable(e, files, deletes) ==>
              AfterGet(e, files, deletes)
              == (e.(memory := Some(e.file.env), tracked := e.file.tracked), Some(e.file.env))
    ensures !FileUsable(e, files, deletes) ==>
              AfterGet(e, files, deletes) == (e.(memory := None, file := FileLeft(e, files, deletes)), None)
  {
    ValidityIs(e.tracked, files);
    if e.file.Stored? { ValidityIs(e.file.tracked, files); }
  }

  /** `store` records exactly the listed files that have a modification time, with their times. */
  lemma StoreRecords<P, R>(
      le: (Tracked<P>, Tracked<P>) -> bool, e: Entry<P, R>, env: Resolved<P, R>, files: Files<P>, write: Write,
      x: Tracked<P>)
    ensures x in AfterStore(le, e, env, files, write).tracked <==>
              && env.symlinks.Some? && x.path in env.symlinks.value
              && files(x.path) == Some(Metadata(Some(x.mtime), x.ctime))
    ensures AfterStore(le, e, env, files, write).memory == Some(env)
  {
    var recorded := Recorded(Paths(env), files);
    SortElements(le, recorded);
    DedupElements(Sort(le, recorded));
    assert x in SortDedup(le, recorded) <==> x in Elements(recorded);
    RecordedIs(Paths(env), files, x);
  }

  lemma {:induction false} RecordedIs<P>(paths: seq<P>, files: Files<P>, x: Tracked<P>)
    ensures x in Recorded(paths, files) <==> x.path in paths && files(x.path) == Some(Metadata(Some(x.mtime), x.ctime))
  {
    if paths != [] {
      RecordedIs(paths[..|paths| - 1], files, x);
      assert paths == paths[..|paths| - 1] + [paths[|paths| - 1]];
    }
  }

  /** Every given path is tracked already. */
  ghost predicate AllTracked<P>(tracked: seq<Tracked<P>>, paths: seq<P>) {
    forall i :: 0 <= i < |paths| ==> IsTracked(tracked, paths[i])
  }

  ghost predicate IsTracked<P>(tracked: seq<Tracked<P>>, p: P) {
    exists x :: x in tracked && x.path == p
  }

  lemma KnowsAllIs<P(!new)>(tracked: seq<Tracked<P>>, paths: seq<P>)
    ensures KnowsAll(tracked, paths) <==> AllTracked(tracked, paths)
  {
    forall p ensures IsTracked(tracked, p) <==> Knows(tracked, p) {
      if IsTracked(tracked, p) {
        var x :| x in tracked && x.path == p;
        var j :| 0 <= j < |tracked| && tracked[j] == x;
        assert tracked[j].path == p;
      }
      if Knows(tracked, p) {
        var j :| 0 <= j < |tracked| && tracked[j].path == p;
        assert tracked[j] in tracked;
      }
    }
  }

  /**
    `track_symlinks` with a new path and a usable cache file: memory and, if it can be written,
    the file then hold the file's environment with exactly the given paths added.
   */
  lemma TrackAdds<P(!new), R>(
      o: Orders<P>, e: Entry<P, R>, paths: seq<P>, files: Files<P>, deletes: bool, write: Write, p: P)
    requires !AllTracked(e.tracked, paths) && FileUsable(e, files, deletes)
    ensures var r := AfterTrack(o, e, paths, files, deletes, write);
            && r.memory.Some? && r.memory.value.rest == e.file.env.rest && r.memory.value.symlinks.Some?
            && (p in r.memory.value.symlinks.value <==> p in e.file.env.symlinks.value || p in paths)
            && (write.Written? ==> r.file == Stored(r.memory.value, r.tracked))
  {
    ValidityIs(e.tracked, files);
    ValidityIs(e.file.tracked, files);
    KnowsAllIs(e.tracked, paths);
    var all := Paths(e.file.env) + paths;
    SortElements(o.pathLe, all);
    DedupElements(Sort(o.pathLe, all));
    assert p in SortDedup(o.pathLe, all) <==> p in Elements(all);
  }

  /** Otherwise it only validates: memory stays exactly while existing files are as recorded. */
  lemma TrackOnlyValidates<P(!new), R>(
      o: Orders<P>, e: Entry<P, R>, paths: seq<P>, files: Files<P>, deletes: bool, write: Write)
    requires AllTracked(e.tracked, paths) || !FileUsable(e, files, deletes)
    ensures var r := AfterTrack(o, e, paths, files, deletes, write);
            && r.memory == (if ExistingAsRecorded(e.tracked, files) then e.memory else None)
            && r.tracked == e.tracked
            && r.file == (if FileRemoved(e, files, deletes) then Absent
                          else if AllTracked(e.tracked, paths) then e.file else FileLeft(e, files, deletes))
  {
    ValidityIs(e.tracked, files);
    if e.file.Stored? { ValidityIs(e.file.tracked, files); }
    KnowsAllIs(e.tracked, paths);
  }

  // ----- storing and reading back -----

  lemma {:induction false} RecordedUnchanged<P>(paths: seq<P>, files: Files<P>)
    ensures AllUnchanged(Recorded(paths, files), files)
  {
    if paths != [] {
      RecordedUnchanged(paths[..|paths| - 1], files);
    }
  }

  /** What has just been recorded is unchanged, also after sorting. */
  lemma StoredUnchanged<P>(le: (Tracked<P>, Tracked<P>) -> bool, paths: seq<P>, files: Files<P>)
    ensures AllUnchanged(SortDedup(le, Recorded(paths, files)), files)
  {
    var recorded := Recorded(paths, files);
    RecordedUnchanged(paths, files);
    SortElements(le, recorded);
    DedupElements(Sort(le, recorded));
    var r := SortDedup(le, recorded);
    forall i | 0 <= i < |r| ensures Unchanged(r[i], files) {
      assert r[i] in Elements(recorded);
    }
  }

  lemma UnchangedNotChanged<P>(tracked: seq<Tracked<P>>, files: Files<P>)
    requires AllUnchanged(tracked, files)
    ensures !AnyChanged(tracked, files)
  {}

  /** A new entry over an existing file, as after a restart. */
  function Restarted<P, R>(e: Entry<P, R>): Entry<P, R> {
    e.(memory := None, tracked := [])
  }

  /**
    What was stored is what a new process reads back, as long as the tracked files have not
    changed, exactly when the environment lists the executable it was stored for.
   */
  lemma StoredIsReadBack<P, R>(
      le: (Tracked<P>, Tracked<P>) -> bool, e: Entry<P, R>, env: Resolved<P, R>, files: Files<P>, later: Files<P>,
      deletes: bool)
    requires e.hasFile
    requires forall p :: p in Paths(env) ==> later(p) == files(p)
    ensures var r := AfterGet(Restarted(AfterStore(le, e, env, files, Written)), later, deletes).1;
            if e.executable in Paths(env) then r == Some(env) else r.None?
  {
    var tracked := SortDedup(le, Recorded(Paths(env), files));
    StoredUnchanged(le, Paths(env), files);
    forall i | 0 <= i < |tracked| ensures Unchanged(tracked[i], later) {
      SortElements(le, Recorded(Paths(env), files));
      DedupElements(Sort(le, Recorded(Paths(env), files)));
      assert tracked[i] in Elements(Recorded(Paths(env), files));
      RecordedPaths(Paths(env), files, tracked[i]);
      assert Unchanged(tracked[i], files);
    }
  }

  lemma {:induction false} RecordedPaths<P>(paths: seq<P>, files: Files<P>, x: Tracked<P>)
    requires x in Recorded(paths, files)
    ensures x.path in paths
  {
    var n := |paths| - 1;
    if x in Recorded(paths[..n], files) {
      RecordedPaths(paths[..n], files, x);
    }
  }

  // ----- memory and file over whole runs -----

  /** Memory and file, when both present, hold the same environment and the same times. */
  ghost predicate InSync<P, R>(e: Entry<P, R>) {
    e.hasFile && e.memory.Some? && e.file.Stored? ==>
      e.file.env == e.memory.value && e.file.tracked == e.tracked
  }

  datatype Step<!P(!new), R> =
    | Get(deletes: bool)
    | Store(env: Resolved<P, R>, write: Write)
    | Track(paths: seq<P>, deletes: bool, write: Write)
    | Restart
    | ChangeFiles(files: Files<P>)
    | Overwrite(content: FileContent<P, R>)   // a colliding entry or another process

  datatype World<!P(!new), R> = World(entry: Entry<P, R>, files: Files<P>)

  function AfterStep<P(==, !new), R>(o: Orders<P>, w: World<P, R>, step: Step<P, R>): World<P, R> {
    match step
    case Get(deletes) => w.(entry := AfterGet(w.entry, w.files, deletes).0)
    case Store(env, write) => w.(entry := AfterStore(o.trackedLe, w.entry, env, w.files, write))
    case Track(paths, deletes, write) => w.(entry := AfterTrack(o, w.entry, paths, w.files, deletes, write))
    case Restart => w.(entry := Restarted(w.entry))
    case ChangeFiles(files) => w.(files := files)
    case Overwrite(content) => w.(entry := w.entry.(file := content))
  }

  function AfterSteps<P(==, !new), R>(o: Orders<P>, w: World<P, R>, steps: seq<Step<P, R>>): World<P, R> {
    if steps == [] then w
    else AfterStep(o, AfterSteps(o, w, steps[..|steps| - 1]), steps[|steps| - 1])
  }

  /** The times that a store of `env` records. */
  function TimesOf<P(==, !new), R>(o: Orders<P>, env: Resolved<P, R>, files: Files<P>): seq<Tracked<P>> {
    SortDedup(o.trackedLe, Recorded(Paths(env), files))
  }

  /**
    When a step leaves memory and file in step: a store or an extension whose write cannot open
    the file must find there what it was going to write, and another writer must write what
    memory holds.
   */
  predicate KeepsSync<P(==, !new), R(==)>(o: Orders<P>, w: World<P, R>, step: Step<P, R>) {
    var e := w.entry;
    match step
    case Store(env, write) =>
      e.hasFile && write.OpenFailed? && e.file.Stored? ==> e.file == Stored(env, TimesOf(o, env, w.files))
    case Track(paths, deletes, write) =>
      var extending := !KnowsAll(e.tracked, paths) && !(AnyChanged(e.tracked, w.files) && deletes)
                      && FileHit(e.executable, e.file, w.files);
      e.hasFile && write.OpenFailed? && extending ==>
        var env := Extended(o, e.file.env, paths); e.file == Stored(env, TimesOf(o, env, w.files))
    case Overwrite(content) =>
      e.hasFile && e.memory.Some? && content.Stored? ==> content == Stored(e.memory.value, e.tracked)
    case _ => true
  }

  lemma TrackInSyncIff<P(!new), R>(o: Orders<P>, w: World<P, R>, paths: seq<P>, deletes: bool, write: Write)
    requires InSync(w.entry)
    ensures InSync(AfterTrack(o, w.entry, paths, w.files, deletes, write)) <==>
            KeepsSync(o, w, Track(paths, deletes, write))
  {
    var v := Verified(w.entry, w.files, deletes);
    assert v.tracked == w.entry.tracked && v.executable == w.entry.executable && v.hasFile == w.entry.hasFile;
    if v.hasFile && !KnowsAll(v.tracked, paths) && FileHit(v.executable, v.file, w.files) {
      assert v.file == w.entry.file;
    }
  }

  /** For every step the condition is exact. */
  lemma StepInSyncIff<P(!new), R>(o: Orders<P>, w: World<P, R>, step: Step<P, R>)
    requires InSync(w.entry)
    ensures InSync(AfterStep(o, w, step).entry) <==> KeepsSync(o, w, step)
  {
    if step.Track? {
      TrackInSyncIff(o, w, step.paths, step.deletes, step.write);
    }
  }

  ghost predicate InSyncAt<P(!new), R>(o: Orders<P>, w: World<P, R>, steps: seq<Step<P, R>>, n: nat)
    requires n <= |steps|
  {
    InSync(AfterSteps(o, w, steps[..n]).entry)
  }

  ghost predicate KeepsSyncAt<P(!new), R>(o: Orders<P>, w: World<P, R>, steps: seq<Step<P, R>>, i: nat)
    requires i < |steps|
  {
    KeepsSync(o, AfterSteps(o, w, steps[..i]), steps[i])
  }

  lemma SyncStepAt<P(!new), R>(o: Orders<P>, w: World<P, R>, steps: seq<Step<P, R>>, i: nat)
    requires i < |steps| && InSyncAt(o, w, steps, i)
    ensures InSyncAt(o, w, steps, i + 1) <==> KeepsSyncAt(o, w, steps, i)
  {
    assert steps[..i + 1][..i] == steps[..i];
    StepInSyncIff(o, AfterSteps(o, w, steps[..i]), steps[i]);
  }

  lemma {:induction false} InSyncUpTo<P(!new), R>(o: Orders<P>, w: World<P, R>, steps: seq<Step<P, R>>, n: nat)
    requires InSync(w.entry) && n <= |steps| && forall i: nat :: i < n ==> KeepsSyncAt(o, w, steps, i)
    ensures InSyncAt(o, w, steps, n)
  {
    if n > 0 {
      InSyncUpTo(o, w, steps, n - 1);
      SyncStepAt(o, w, steps, n - 1);
    }
  }

  /**
    Over every run, memory and file agree at every moment, whenever both are present, exactly when
    every step keeps them in step.
   */
  lemma MemoryAndFileAgreeIff<P(!new), R>(o: Orders<P>, w: World<P, R>, steps: seq<Step<P, R>>)
    requires InSync(w.entry)
    ensures (forall n: nat :: n <= |steps| ==> InSyncAt(o, w, steps, n)) <==>
            (forall i: nat :: i < |steps| ==> KeepsSyncAt(o, w, steps, i))
  {
    if forall i: nat :: i < |steps| ==> KeepsSyncAt(o, w, steps, i) {
      forall n: nat | n <= |steps| ensures InSyncAt(o, w, steps, n) { InSyncUpTo(o, w, steps, n); }
    }
    if forall n: nat :: n <= |steps| ==> InSyncAt(o, w, steps, n) {
      forall i: nat | i < |steps| ensures KeepsSyncAt(o, w, steps, i) {
        assert InSyncAt(o, w, steps, i + 1);
        SyncStepAt(o, w, steps, i);
      }
    }
  }

  /** The step neither replaces the file behind the entry's back nor fails to open it. */
  predicate Undisturbed<P(!new), R>(step: Step<P, R>) {
    match step
    case Store(_, write) => !write.OpenFailed?
    case Track(_, _, write) => !write.OpenFailed?
    case Overwrite(_) => false
    case _ => true
  }

  /** Over every undisturbed run memory and file agree whenever both are present. */
  lemma MemoryAndFileAgree<P(!new), R>(o: Orders<P>, w: World<P, R>, steps: seq<Step<P, R>>)
    requires InSync(w.entry) && forall i :: 0 <= i < |steps| ==> Undisturbed(steps[i])
    ensures InSync(AfterSteps(o, w, steps).entry)
  {
    forall i: nat | i < |steps| ensures KeepsSyncAt(o, w, steps, i) {
      assert Undisturbed(steps[i]);
    }
    InSyncUpTo(o, w, steps, |steps|);
    assert steps[..|steps|] == steps;
  }

  /** A second store that cannot open the file leaves the first one's environment there. */
  lemma FailedOpenDisagrees<P(!new), R>(
      o: Orders<P>, executable: P, files: Files<P>, env: Resolved<P, R>, other: Resolved<P, R>)
    requires env != other
    ensures var w := World(Entry(executable, true, None, [], Absent), files);
            !InSync(AfterSteps(o, w, [Store(env, Written), Store(other, OpenFailed)]).entry)
  {
    var w := World(Entry(executable, true, None, [], Absent), files);
    var steps := [Store(env, Written), Store(other, OpenFailed)];
    assert steps[..1] == [Store(env, Written)] && steps[..1][..0] == [];
    assert AfterSteps(o, w, steps[..1]) == AfterStep(o, w, Store(env, Written));
  }

  // ----- where a result comes from -----

  /** The pair was there at the start, in memory or in the file. */
  ghost predicate InitiallyHeld<P(!new), R>(w: World<P, R>, env: Resolved<P, R>, tracked: seq<Tracked<P>>) {
    w.entry.file == Stored(env, tracked) || (w.entry.memory == Some(env) && w.entry.tracked == tracked)
  }

  /** A step in `before` brings in the pair: a store, new symlinks on top of what the file holds, or another writer. */
  ghost predicate Supplies<P(!new), R>(
      o: Orders<P>, before: World<P, R>, step: Step<P, R>, env: Resolved<P, R>, tracked: seq<Tracked<P>>)
  {
    match step
    case Store(stored, _) => env == stored && tracked == TimesOf(o, env, before.files)
    case Track(paths, _, _) =>
      && before.entry.file.Stored? && tracked == TimesOf(o, env, before.files)
      && env == Extended(o, before.entry.file.env, paths)
    case Overwrite(content) => content == Stored(env, tracked)
    case _ => false
  }

  ghost predicate SuppliedAt<P(!new), R>(
      o: Orders<P>, w: World<P, R>, steps: seq<Step<P, R>>, i: nat, env: Resolved<P, R>, tracked: seq<Tracked<P>>)
    requires i < |steps|
  {
    Supplies(o, AfterSteps(o, w, steps[..i]), steps[i], env, tracked)
  }

  ghost predicate HasOrigin<P(!new), R>(
      o: Orders<P>, w: World<P, R>, steps: seq<Step<P, R>>, env: Resolved<P, R>, tracked: seq<Tracked<P>>)
  {
    InitiallyHeld(w, env, tracked) || exists i: nat :: i < |steps| && SuppliedAt(o, w, steps, i, env, tracked)
  }

  /** Both copies of the entry, where present, have an origin. */
  ghost predicate Explained<P(!new), R>(o: Orders<P>, w: World<P, R>, steps: seq<Step<P, R>>, e: Entry<P, R>) {
    && (e.memory.Some? ==> HasOrigin(o, w, steps, e.memory.value, e.tracked))
    && (e.file.Stored? ==> HasOrigin(o, w, steps, e.file.env, e.file.tracked))
  }

  lemma OriginStays<P(!new), R>(
      o: Orders<P>, w: World<P, R>, steps: seq<Step<P, R>>, env: Resolved<P, R>, tracked: seq<Tracked<P>>)
    requires steps != [] && HasOrigin(o, w, steps[..|steps| - 1], env, tracked)
    ensures HasOrigin(o, w, steps, env, tracked)
  {
    var n := |steps| - 1;
    if !InitiallyHeld(w, env, tracked) {
      var i: nat :| i < n && SuppliedAt(o, w, steps[..n], i, env, tracked);
      assert steps[..n][..i] == steps[..i];
      assert SuppliedAt(o, w, steps, i, env, tracked);
    }
  }

  ghost predicate HeldOrSupplied<P(!new), R>(o: Orders<P>, w: World<P, R>, step: Step<P, R>, after: Entry<P, R>) {
    && (after.memory.Some? ==>
          || InitiallyHeld(w, after.memory.value, after.tracked)
          || Supplies(o, w, step, after.memory.value, after.tracked))
    && (after.file.Stored? ==>
          || InitiallyHeld(w, after.file.env, after.file.tracked)
          || Supplies(o, w, step, after.file.env, after.file.tracked))
  }

  lemma TrackSupplies<P(!new), R>(o: Orders<P>, w: World<P, R>, paths: seq<P>, deletes: bool, write: Write)
    ensures HeldOrSupplied(o, w, Track(paths, deletes, write), AfterTrack(o, w.entry, paths, w.files, deletes, write))
  {
    var v := Verified(w.entry, w.files, deletes);
    assert v.file.Stored? ==> v.file == w.entry.file;
  }

  lemma GetSupplies<P(!new), R>(o: Orders<P>, w: World<P, R>, deletes: bool)
    ensures HeldOrSupplied(o, w, Get(deletes), AfterGet(w.entry, w.files, deletes).0)
  {
    var v := Verified(w.entry, w.files, deletes);
    assert v.file.Stored? ==> v.file == w.entry.file;
  }

  /** What an entry holds after one step it held before, or the step supplies it. */
  lemma StepSupplies<P(!new), R>(o: Orders<P>, w: World<P, R>, step: Step<P, R>)
    ensures HeldOrSupplied(o, w, step, AfterStep(o, w, step).entry)
  {
    match step
    case Get(deletes) => GetSupplies(o, w, deletes);
    case Track(paths, deletes, write) => TrackSupplies(o, w, paths, deletes, write);
    case _ =>
  }

  lemma HeldHasOrigin<P(!new), R>(
      o: Orders<P>, w: World<P, R>, steps: seq<Step<P, R>>, env: Resolved<P, R>, tracked: seq<Tracked<P>>)
    requires steps != []
    requires var before := AfterSteps(o, w, steps[..|steps| - 1]);
             && Explained(o, w, steps[..|steps| - 1], before.entry)
             && (InitiallyHeld(before, env, tracked) || Supplies(o, before, steps[|steps| - 1], env, tracked))
    ensures HasOrigin(o, w, steps, env, tracked)
  {
    var n := |steps| - 1;
    if InitiallyHeld(AfterSteps(o, w, steps[..n]), env, tracked) {
      OriginStays(o, w, steps, env, tracked);
    } else {
      assert SuppliedAt(o, w, steps, n, env, tracked);
    }
  }

  lemma {:induction false} RunIsExplained<P(!new), R>(o: Orders<P>, w: World<P, R>, steps: seq<Step<P, R>>)
    ensures Explained(o, w, steps, AfterSteps(o, w, steps).entry)
  {
    if steps != [] {
      var n := |steps| - 1;
      RunIsExplained(o, w, steps[..n]);
      StepSupplies(o, AfterSteps(o, w, steps[..n]), steps[n]);
      var e := AfterSteps(o, w, steps).entry;
      if e.memory.Some? { HeldHasOrigin(o, w, steps, e.memory.value, e.tracked); }
      if e.file.Stored? { HeldHasOrigin(o, w, steps, e.file.env, e.file.tracked); }
    }
  }

  // ----- what a hit means -----

  /** The file has the times it had earlier, as far as both are known; with `allExist` it is there. */
  predicate KeepsTimes<P>(p: P, earlier: Files<P>, now: Files<P>, allExist: bool) {
    earlier(p).Some? && earlier(p).value.mtime.Some? ==>
      && (allExist ==> now(p).Some?)
      && (now(p).Some? ==>
            && now(p).value.mtime == earlier(p).value.mtime
            && (earlier(p).value.ctime.Some? ==> now(p).value.ctime == earlier(p).value.ctime))
  }

  lemma {:induction false} RecordedHas<P>(paths: seq<P>, files: Files<P>, p: P)
    requires p in paths && files(p).Some? && files(p).value.mtime.Some?
    ensures Tracked(p, files(p).value.mtime.value, files(p).value.ctime) in Recorded(paths, files)
  {
    var n := |paths| - 1;
    if p != paths[n] {
      RecordedHas(paths[..n], files, p);
    }
  }

  /** If no recorded file has changed, every listed path has the times it had at the recording. */
  lemma UnchangedKeepsTimes<P(!new), R>(
      o: Orders<P>, env: Resolved<P, R>, earlier: Files<P>, now: Files<P>, allExist: bool, p: P)
    requires p in Paths(env) && !AnyChanged(TimesOf(o, env, earlier), now)
    requires allExist ==> AllUnchanged(TimesOf(o, env, earlier), now)
    ensures KeepsTimes(p, earlier, now, allExist)
  {
    if earlier(p).Some? && earlier(p).value.mtime.Some? {
      var recorded := Recorded(Paths(env), earlier);
      var x := Tracked(p, earlier(p).value.mtime.value, earlier(p).value.ctime);
      RecordedHas(Paths(env), earlier, p);
      SortElements(o.trackedLe, recorded);
      DedupElements(Sort(o.trackedLe, recorded));
      assert x in Elements(TimesOf(o, env, earlier));
      var i :| 0 <= i < |TimesOf(o, env, earlier)| && TimesOf(o, env, earlier)[i] == x;
      assert !Changed(x, now);
    }
  }

  /** The lookup is answered from memory. */
  predicate MemoryHit<P, R>(e: Entry<P, R>, files: Files<P>) {
    e.memory.Some? && !AnyChanged(e.tracked, files)
  }

  /**
    Step `i` of the run supplied `env`. If it was this process's own store or track, every path of
    `env` that still exists has the times it had at that step; with `allExist` all of them exist.
   */
  ghost predicate JustifiedBy<P(!new), R>(
      o: Orders<P>, w: World<P, R>, steps: seq<Step<P, R>>, i: nat, env: Resolved<P, R>, tracked: seq<Tracked<P>>,
      now: Files<P>, allExist: bool)
    requires i < |steps|
  {
    && SuppliedAt(o, w, steps, i, env, tracked)
    && (!steps[i].Overwrite? ==>
          forall p :: p in Paths(env) ==> KeepsTimes(p, AfterSteps(o, w, steps[..i]).files, now, allExist))
  }

  lemma OriginJustifies<P(!new), R>(
      o: Orders<P>, w: World<P, R>, steps: seq<Step<P, R>>, i: nat, env: Resolved<P, R>, tracked: seq<Tracked<P>>,
      now: Files<P>, allExist: bool)
    requires i < |steps| && SuppliedAt(o, w, steps, i, env, tracked) && !AnyChanged(tracked, now)
    requires allExist ==> AllUnchanged(tracked, now)
    ensures JustifiedBy(o, w, steps, i, env, tracked, now, allExist)
  {
    if !steps[i].Overwrite? {
      var earlier := AfterSteps(o, w, steps[..i]).files;
      forall p | p in Paths(env) ensures KeepsTimes(p, earlier, now, allExist) {
        UnchangedKeepsTimes(o, env, earlier, now, allExist, p);
      }
    }
  }

  /** The pair comes from the start of the run or from one of its steps, with the times unchanged since. */
  ghost predicate IsJustified<P(!new), R>(
      o: Orders<P>, w: World<P, R>, steps: seq<Step<P, R>>, env: Resolved<P, R>, tracked: seq<Tracked<P>>,
      now: Files<P>, allExist: bool)
  {
    || InitiallyHeld(w, env, tracked)
    || (exists i: nat :: i < |steps| && JustifiedBy(o, w, steps, i, env, tracked, now, allExist))
  }

  lemma OriginIsJustified<P(!new), R>(
      o: Orders<P>, w: World<P, R>, steps: seq<Step<P, R>>, env: Resolved<P, R>, tracked: seq<Tracked<P>>,
      now: Files<P>, allExist: bool)
    requires HasOrigin(o, w, steps, env, tracked) && !AnyChanged(tracked, now)
    requires allExist ==> AllUnchanged(tracked, now)
    ensures IsJustified(o, w, steps, env, tracked, now, allExist)
  {
    if !InitiallyHeld(w, env, tracked) {
      var i: nat :| i < |steps| && SuppliedAt(o, w, steps, i, env, tracked);
      OriginJustifies(o, w, steps, i, env, tracked, now, allExist);
    }
  }

  /** One lookup answers from memory or, for a file of its own with all files unchanged, from that. */
  lemma HitComesFrom<P(!new), R>(e: Entry<P, R>, now: Files<P>, deletes: bool)
    ensures var (after, r) := AfterGet(e, now, deletes);
            r.Some? ==>
              && after.memory == r && !AnyChanged(after.tracked, now)
              && (MemoryHit(e, now) ==> r == e.memory && after.tracked == e.tracked)
              && (!MemoryHit(e, now) ==>
                    && e.file == Stored(r.value, after.tracked) && AllUnchanged(after.tracked, now)
                    && e.executable in Paths(r.value))
  {}

  /**
    After any run, with writes failing and files overwritten anywhere, a `get` that returns `env`
    returns what the run started with or what one of its steps supplied. Every file recorded then
    that still exists has the recorded times, and unless memory answers all of them exist and the
    environment lists this executable, so that a colliding file of another one never answers.
   */
  lemma HitIsJustified<P(!new), R>(o: Orders<P>, w: World<P, R>, steps: seq<Step<P, R>>, deletes: bool)
    ensures var e, now := AfterSteps(o, w, steps).entry, AfterSteps(o, w, steps).files;
            var (after, r) := AfterGet(e, now, deletes);
            r.Some? ==>
              && !AnyChanged(after.tracked, now)
              && (!MemoryHit(e, now) ==> AllUnchanged(after.tracked, now) && e.executable in Paths(r.value))
              && IsJustified(o, w, steps, r.value, after.tracked, now, !MemoryHit(e, now))
  {
    var e, now := AfterSteps(o, w, steps).entry, AfterSteps(o, w, steps).files;
    HitComesFrom(e, now, deletes);
    var (after, r) := AfterGet(e, now, deletes);
    if r.Some? {
      RunIsExplained(o, w, steps);
      OriginIsJustified(o, w, steps, r.value, after.tracked, now, !MemoryHit(e, now));
    }
  }

  /** Every stored environment lists the executable, as those from a spawned interpreter do. */
  predicate StoresOwn<P(==, !new), R>(executable: P, step: Step<P, R>) {
    step.Store? ==> executable in Paths(step.env)
  }

  /**
    Over every run, with overwritten files and failing writes included, the memory copy lists the
    entry's own executable, so no call ever returns another executable's details.
   */
  lemma {:induction false} MemoryListsExecutable<P(!new), R>(o: Orders<P>, w: World<P, R>, steps: seq<Step<P, R>>)
    requires w.entry.memory.Some? ==> w.entry.executable in Paths(w.entry.memory.value)
    requires forall i :: 0 <= i < |steps| ==> StoresOwn(w.entry.executable, steps[i])
    ensures var e := AfterSteps(o, w, steps).entry;
            && e.executable == w.entry.executable
            && (e.memory.Some? ==> e.executable in Paths(e.memory.value))
  {
    if steps != [] {
      var n := |steps| - 1;
      MemoryListsExecutable(o, w, steps[..n]);
      StepListsExecutable(o, AfterSteps(o, w, steps[..n]), steps[n]);
    }
  }

  ghost predicate ListsExecutable<P(!new), R>(e: Entry<P, R>) {
    e.memory.Some? ==> e.executable in Paths(e.memory.value)
  }

  lemma StepListsExecutable<P(!new), R>(o: Orders<P>, w: World<P, R>, step: Step<P, R>)
    requires ListsExecutable(w.entry) && StoresOwn(w.entry.executable, step)
    ensures ListsExecutable(AfterStep(o, w, step).entry) && AfterStep(o, w, step).entry.executable == w.entry.executable
  {
    match step
    case Get(deletes) => GetListsExecutable(w.entry, w.files, deletes);
    case Track(paths, deletes, write) => TrackListsExecutable(o, w.entry, paths, w.files, deletes, write);
    case _ =>
  }

  lemma GetListsExecutable<P(!new), R>(e: Entry<P, R>, files: Files<P>, deletes: bool)
    requires ListsExecutable(e)
    ensures var r := AfterGet(e, files, deletes).0; r.executable == e.executable && ListsExecutable(r)
  {}

  lemma TrackListsExecutable<P(!new), R>(
      o: Orders<P>, e: Entry<P, R>, paths: seq<P>, files: Files<P>, deletes: bool, write: Write)
    requires e.memory.Some? ==> e.executable in Paths(e.memory.value)
    ensures var r := AfterTrack(o, e, paths, files, deletes, write);
            r.executable == e.executable && (r.memory.Some? ==> e.executable in Paths(r.memory.value))
  {
    var v := Verified(e, files, deletes);
    if v.hasFile && FileHit(v.executable, v.file, files) {
      var all := Paths(v.file.env) + paths;
      SortElements(o.pathLe, all);
      DedupElements(Sort(o.pathLe, all));
      assert e.executable in Elements(all);
      assert e.executable in Elements(SortDedup(o.pathLe, all));
    }
  }

  // ----- the entry as an object -----

  /** A cache file; entries whose executables have the same hash share one. */
  class CacheFile<P, R> {
    var content: FileContent<P, R>

    constructor ()
      ensures content == Absent
    {
      content := Absent;
    }
  }

  class CacheEntry<P(==, !new), R> {
    const executable: P
    const file: CacheFile?<P, R>
    const orders: Orders<P>
    var environment: Option<Resolved<P, R>>
    var tracked: seq<Tracked<P>>

    ghost function View(): Entry<P, R>
      reads this, file
    {
      Entry(executable, file != null, environment, tracked, if file == null then Absent else file.content)
    }

    constructor (executable: P, file: CacheFile?<P, R>, orders: Orders<P>)
      ensures this.executable == executable && this.file == file && this.orders == orders
      ensures View() == Entry(executable, file != null, None, [], if file == null then Absent else file.content)
    {
      this.executable, this.file, this.orders := executable, file, orders;
      environment, tracked := None, [];
    }

    method DeleteFile(deletes: bool)
      requires file != null
      modifies file
      ensures file.content == Deleted(old(file.content), deletes)
    {
      if deletes {
        file.content := Absent;
      }
    }

    /** `verify_in_memory_cache`: the loop over the tracked files goes on after an invalidation. */
    method VerifyInMemoryCache(files: Files<P>, deletes: bool)
      modifies this`environment, file
      ensures View() == Verified(old(View()), files, deletes)
    {
      for i := 0 to |tracked|
        invariant View() == Verified(old(View()).(tracked := tracked[..i]), files, deletes).(tracked := tracked)
      {
        assert tracked[..i + 1] == tracked[..i] + [tracked[i]];
        assert AnyChanged(tracked[..i + 1], files) <==>
               AnyChanged(tracked[..i], files) || Changed(tracked[i], files) by {
          assert tracked[..i + 1][i] == tracked[i];
          assert forall j :: 0 <= j < i ==> tracked[..i + 1][j] == tracked[..i][j];
        }
        var metadata := files(tracked[i].path);
        if metadata.Some? && TimesDiffer(tracked[i], metadata.value) {
          environment := None;
          if file != null {
            DeleteFile(deletes);
          }
        }
      }
      assert tracked[..|tracked|] == tracked;
    }

    /** `get_cache_from_file`: removes an outdated file of its own, leaves a colliding one alone. */
    method ReadFile(files: Files<P>, deletes: bool) returns (hit: bool)
      requires file != null
      modifies file
      ensures hit == FileHit(executable, old(file.content), files)
      ensures file.content == FileAfterRead(executable, old(file.content), files, deletes)
    {
      if !file.content.Stored? || executable !in Paths(file.content.env) {
        return false;
      }
      hit := AllUnchanged(file.content.tracked, files);
      if !hit {
        DeleteFile(deletes);
      }
    }

    method Get(files: Files<P>, deletes: bool) returns (r: Option<Resolved<P, R>>)
      modifies this, file
      ensures (View(), r) == AfterGet(old(View()), files, deletes)
    {
      VerifyInMemoryCache(files, deletes);
      if environment.Some? {
        return environment;
      }
      if file == null {
        return None;
      }
      var hit := ReadFile(files, deletes);
      if !hit {
        return None;
      }
      environment, tracked := Some(file.content.env), file.content.tracked;
      r := environment;
    }

    method Store(env: Resolved<P, R>, files: Files<P>, write: Write)
      modifies this, file
      ensures View() == AfterStore(orders.trackedLe, old(View()), env, files, write)
    {
      var paths := Paths(env);
      var recorded: seq<Tracked<P>> := [];
      for i := 0 to |paths|
        invariant recorded == Recorded(paths[..i], files)
      {
        var m := files(paths[i]);
        if m.Some? && m.value.mtime.Some? {
          recorded := recorded + [Tracked(paths[i], m.value.mtime.value, m.value.ctime)];
        }
        assert paths[..i + 1][..i] == paths[..i];
      }
      assert paths[..|paths|] == paths;
      tracked := Dedup(Sort(orders.trackedLe, recorded));
      environment := Some(env);
      if file != null {
        match write
        case OpenFailed =>
        case WriteFailed => file.content := Corrupt;
        case Written => file.content := Stored(env, tracked);
      }
    }

    method TrackSymlinks(paths: seq<P>, files: Files<P>, deletes: bool, write: Write)
      modifies this, file
      ensures View() == AfterTrack(orders, old(View()), paths, files, deletes, write)
    {
      VerifyInMemoryCache(files, deletes);
      if KnowsAll(tracked, paths) || file == null {
        return;
      }
      var hit := ReadFile(files, deletes);
      if hit {
        var env := file.content.env;
        Store(env.(symlinks := Some(Dedup(Sort(orders.pathLe, Paths(env) + paths)))), files, write);
      }
    }
  }
}
