/**
  `ResolvedPythonEnv::from` across threads (crates/pet-python-utils/src/env.rs with
  `CacheImpl` in cache.rs): one lockable entry per executable, whose lock is held over the cache
  lookup, the interpreter spawn and the store. One action is one critical section.
 */
module InterpreterSpawns {
  import opened Prelude
  import opened Ordering
  import opened InterpreterCache

  /** The file name hash, the sort orders, and whether a cache directory is set. */
  datatype Config<!P(!new)> = Config(hash: P -> nat, orders: Orders<P>, hasFile: bool)

  /** One lockable entry; `holder` is the thread inside its mutex. */
  datatype Cell<P, R> = Cell(
    executable: P, memory: Option<Resolved<P, R>>, tracked: seq<Tracked<P>>, holder: Option<nat>)

  /** Where one `from(executable)` call stands. */
  datatype Thread<P, R> =
    | Starting(path: P)
    | Created(path: P, cell: nat)
    | Locked(path: P, cell: nat)
    | Missed(path: P, cell: nat)
    | Spawned(path: P, cell: nat, env: Resolved<P, R>)
    | Done(path: P, result: Option<Resolved<P, R>>, fromCache: bool)

  /** `spawns` counts the successful interpreter spawns of each executable. */
  datatype State<!P(!new), R> = State(
    files: Files<P>,
    disk: map<nat, FileContent<P, R>>,
    locks: map<P, nat>,
    cells: seq<Cell<P, R>>,
    threads: seq<Thread<P, R>>,
    spawns: map<P, nat>)

  datatype Action<!P(!new), R> =
    | Begin(path: P)
    | CreateCache(t: nat)
    | Acquire(t: nat)
    | GetCached(t: nat, deletes: bool)
    | SpawnFails(t: nat)
    | SpawnSucceeds(t: nat, env: Resolved<P, R>)
    | StoreResult(t: nat, write: Write)
    | TrackSymlinks(cell: nat, paths: seq<P>, deletes: bool, write: Write)
    | ChangeFiles(files: Files<P>)
    | OverwriteFile(hash: nat, content: FileContent<P, R>)
    | ClearLocks                         // `clear`, first region
    | RemoveFiles                        // `clear`, removal of the cache directory

  function Init<P(!new), R>(files: Files<P>): State<P, R> {
    State(files, map[], map[], [], [], map[])
  }

  predicate HasCell<P, R>(x: Thread<P, R>) {
    x.Created? || x.Locked? || x.Missed? || x.Spawned?
  }

  predicate InLock<P, R>(x: Thread<P, R>) {
    x.Locked? || x.Missed? || x.Spawned?
  }

  function SpawnCount<P(!new), R>(s: State<P, R>, path: P): nat {
    if path in s.spawns then s.spawns[path] else 0
  }

  /** The entry behind a cell, with the file its hash leads to. */
  function EntryOf<P(!new), R>(cfg: Config<P>, s: State<P, R>, cell: nat): Entry<P, R>
    requires cell < |s.cells|
  {
    var c := s.cells[cell];
    var h := cfg.hash(c.executable);
    Entry(c.executable, cfg.hasFile, c.memory, c.tracked, if h in s.disk then s.disk[h] else Absent)
  }

  /** Writing an operation's outcome back to the cell and the file. */
  function WithEntry<P(!new), R>(
      cfg: Config<P>, s: State<P, R>, cell: nat, e: Entry<P, R>, holder: Option<nat>): State<P, R>
    requires cell < |s.cells|
  {
    var c := s.cells[cell];
    s.(disk := s.disk[cfg.hash(c.executable) := e.file],
       cells := s.cells[cell := Cell(c.executable, e.memory, e.tracked, holder)])
  }

  predicate Enabled<P(!new), R>(s: State<P, R>, a: Action<P, R>) {
    match a
    case CreateCache(t) => t < |s.threads| && s.threads[t].Starting?
    case Acquire(t) =>
      t < |s.threads| && s.threads[t].Created? && s.threads[t].cell < |s.cells|
      && s.cells[s.threads[t].cell].holder.None?
    case GetCached(t, _) => t < |s.threads| && s.threads[t].Locked? && s.threads[t].cell < |s.cells|
    case SpawnFails(t) => t < |s.threads| && s.threads[t].Missed? && s.threads[t].cell < |s.cells|
    case SpawnSucceeds(t, _) => t < |s.threads| && s.threads[t].Missed?
    case StoreResult(t, _) => t < |s.threads| && s.threads[t].Spawned? && s.threads[t].cell < |s.cells|
    case TrackSymlinks(cell, _, _, _) => cell < |s.cells| && s.cells[cell].holder.None?
    case _ => true
  }

  function Apply<P(==, !new), R>(cfg: Config<P>, s: State<P, R>, a: Action<P, R>): State<P, R>
    requires Enabled(s, a)
  {
    match a
    case Begin(path) => s.(threads := s.threads + [Starting(path)])
    case CreateCache(t) =>
      var path := s.threads[t].path;
      if path in s.locks then s.(threads := s.threads[t := Created(path, s.locks[path])])
      else s.(locks := s.locks[path := |s.cells|], cells := s.cells + [Cell(path, None, [], None)],
              threads := s.threads[t := Created(path, |s.cells|)])
    case Acquire(t) =>
      var x := s.threads[t];
      s.(cells := s.cells[x.cell := s.cells[x.cell].(holder := Some(t))],
         threads := s.threads[t := Locked(x.path, x.cell)])
    case GetCached(t, deletes) =>
      var x := s.threads[t];
      var (e, r) := AfterGet(EntryOf(cfg, s, x.cell), s.files, deletes);
      if r.Some? then
        WithEntry(cfg, s, x.cell, e, None).(threads := s.threads[t := Done(x.path, r, true)])
      else
        WithEntry(cfg, s, x.cell, e, Some(t)).(threads := s.threads[t := Missed(x.path, x.cell)])
    case SpawnFails(t) =>
      var x := s.threads[t];
      s.(cells := s.cells[x.cell := s.cells[x.cell].(holder := None)],
         threads := s.threads[t := Done(x.path, None, false)])
    case SpawnSucceeds(t, env) =>
      var x := s.threads[t];
      s.(spawns := s.spawns[x.path := SpawnCount(s, x.path) + 1],
         threads := s.threads[t := Spawned(x.path, x.cell, env)])
    case StoreResult(t, write) =>
      var x := s.threads[t];
      var e := AfterStore(cfg.orders.trackedLe, EntryOf(cfg, s, x.cell), x.env, s.files, write);
      WithEntry(cfg, s, x.cell, e, None).(threads := s.threads[t := Done(x.path, Some(x.env), false)])
    case TrackSymlinks(cell, paths, deletes, write) =>
      WithEntry(cfg, s, cell, AfterTrack(cfg.orders, EntryOf(cfg, s, cell), paths, s.files, deletes, write), None)
    case ChangeFiles(files) => s.(files := files)
    case OverwriteFile(h, content) => s.(disk := s.disk[h := content])
    case ClearLocks => s.(locks := map[])
    case RemoveFiles => s.(disk := map[])
  }

  // ----- the invariants of every run -----

  /** A call works on an entry of its own executable, and past the lock it holds that entry's. */
  ghost predicate ThreadOk<P(!new), R>(s: State<P, R>, t: nat)
    requires t < |s.threads|
  {
    var x := s.threads[t];
    && (HasCell(x) ==> x.cell < |s.cells| && s.cells[x.cell].executable == x.path)
    && (InLock(x) ==> s.cells[x.cell].holder == Some(t))
  }

  ghost predicate LockOk<P(!new), R>(s: State<P, R>, path: P)
    requires path in s.locks
  {
    s.locks[path] < |s.cells| && s.cells[s.locks[path]].executable == path
  }

  ghost predicate LocksHeld<P(!new), R>(s: State<P, R>) {
    && (forall t: nat :: t < |s.threads| ==> ThreadOk(s, t))
    && (forall p :: p in s.locks ==> LockOk(s, p))
  }

  // ----- the invariants of a stretch without `clear` -----

  /** The call works on the entry that is listed for its executable. */
  predicate IsListed<P(==, !new), R>(s: State<P, R>, x: Thread<P, R>)
    requires HasCell(x)
  {
    x.path in s.locks && s.locks[x.path] == x.cell
  }

  /** A call of the path that may still spawn works on an entry no longer listed for it. */
  predicate IsStale<P(==, !new), R>(s: State<P, R>, t: nat, path: P) {
    && t < |s.threads| && HasCell(s.threads[t]) && !s.threads[t].Spawned? && s.threads[t].path == path
    && !IsListed(s, s.threads[t])
  }

  /** The stale calls of a path, left over from before a `clear`. */
  function StaleCalls<P(==, !new), R>(s: State<P, R>, path: P): (r: set<nat>)
    ensures forall t :: t in r <==> IsStale(s, t, path)
  {
    set t: nat | t < |s.threads| && IsStale(s, t, path)
  }

  /** The given calls that have spawned or have finished without. */
  function Spent<P(!new), R>(s: State<P, R>, calls: set<nat>): set<nat> {
    set t | t in calls && t < |s.threads| && (s.threads[t].Spawned? || s.threads[t].Done?)
  }

  /** The memory copy is present and no tracked file has other times. */
  ghost predicate Usable<P(!new), R>(c: Cell<P, R>, files: Files<P>) {
    c.memory.Some? && !AnyChanged(c.tracked, files)
  }

  ghost predicate Stores<P(!new), R>(s: State<P, R>, t: nat, cell: nat) {
    t < |s.threads| && s.threads[t].Spawned? && s.threads[t].cell == cell
  }

  /** The entry listed for the path has a usable copy, or its lock's holder is about to store one. */
  ghost predicate Supplied<P(!new), R>(s: State<P, R>, path: P) {
    && path in s.locks && s.locks[path] < |s.cells|
    && var c := s.cells[s.locks[path]];
       Usable(c, s.files) || (c.holder.Some? && Stores(s, c.holder.value, s.locks[path]))
  }

  /** Apart from the leftover calls, every call of the path works on the listed entry. */
  ghost predicate ListedBut<P(!new), R>(s: State<P, R>, path: P, leftover: set<nat>) {
    forall t: nat :: IsStale(s, t, path) ==> t in leftover
  }

  /**
    Since there were `base` successful spawns of the path there has been at most one more, and one
    for each of the leftover calls that is spent.
   */
  ghost predicate SpawnsBounded<P(!new), R>(s: State<P, R>, path: P, leftover: set<nat>, base: nat) {
    var bound := base + |Spent(s, leftover)|;
    && base <= SpawnCount(s, path) <= bound + 1
    && (SpawnCount(s, path) == bound + 1 ==> Supplied(s, path))
    && (forall t: nat :: t < |s.threads| && s.threads[t].Missed? && s.threads[t].path == path && t !in leftover ==>
          SpawnCount(s, path) <= bound)
  }

  /** A change of files that gives a file tracked for this path other times. */
  ghost predicate Invalidates<P(!new), R>(s: State<P, R>, a: Action<P, R>, path: P) {
    && a.ChangeFiles? && path in s.locks && s.locks[path] < |s.cells|
    && var tracked := s.cells[s.locks[path]].tracked; !AnyChanged(tracked, s.files) && AnyChanged(tracked, a.files)
  }

  // ----- what the entry operations do to memory -----

  lemma GetKeepsMemory<P(!new), R>(e: Entry<P, R>, files: Files<P>, deletes: bool)
    ensures e.memory.Some? && !AnyChanged(e.tracked, files) ==> AfterGet(e, files, deletes) == (e, e.memory)
  {
    assert !AnyChanged(e.tracked, files) ==> Verified(e, files, deletes) == e;
  }

  lemma StoreFillsMemory<P(!new), R>(
      le: (Tracked<P>, Tracked<P>) -> bool, e: Entry<P, R>, env: Resolved<P, R>, files: Files<P>, write: Write)
    ensures var after := AfterStore(le, e, env, files, write);
            after.memory == Some(env) && !AnyChanged(after.tracked, files)
  {
    StoredUnchanged(le, Paths(env), files);
    UnchangedNotChanged(SortDedup(le, Recorded(Paths(env), files)), files);
  }

  lemma TrackKeepsMemory<P(!new), R>(
      o: Orders<P>, e: Entry<P, R>, paths: seq<P>, files: Files<P>, deletes: bool, write: Write)
    requires e.memory.Some? && !AnyChanged(e.tracked, files)
    ensures var after := AfterTrack(o, e, paths, files, deletes, write);
            after.memory.Some? && !AnyChanged(after.tracked, files)
  {
    if e.hasFile && FileHit(e.executable, e.file, files) {
      StoreFillsMemory(o.trackedLe, e, Extended(o, e.file.env, paths), files, write);
    }
  }

  // ----- every action keeps the locks in order -----

  /** The thread whose step this is. */
  predicate Moves<P(!new), R>(a: Action<P, R>, t: nat) {
    match a
    case CreateCache(u) => u == t
    case Acquire(u) => u == t
    case GetCached(u, _) => u == t
    case SpawnFails(u) => u == t
    case SpawnSucceeds(u, _) => u == t
    case StoreResult(u, _) => u == t
    case _ => false
  }

  /** Another thread's step leaves a thread and the lock it holds alone. */
  lemma StepKeepsOthers<P(!new), R>(cfg: Config<P>, s: State<P, R>, a: Action<P, R>, t: nat)
    requires LocksHeld(s) && Enabled(s, a) && t < |s.threads| && !Moves(a, t)
    ensures var s' := Apply(cfg, s, a); t < |s'.threads| && s'.threads[t] == s.threads[t] && ThreadOk(s', t)
  {
    assert ThreadOk(s, t);
    match a
    case GetCached(u, _) => assert ThreadOk(s, u);
    case SpawnFails(u) => assert ThreadOk(s, u);
    case StoreResult(u, _) => assert ThreadOk(s, u);
    case _ =>
  }

  lemma StepKeepsOwn<P(!new), R>(cfg: Config<P>, s: State<P, R>, a: Action<P, R>, t: nat)
    requires LocksHeld(s) && Enabled(s, a) && t < |s.threads| && Moves(a, t)
    ensures t < |Apply(cfg, s, a).threads| && ThreadOk(Apply(cfg, s, a), t)
    ensures Apply(cfg, s, a).threads[t].path == s.threads[t].path
  {
    assert ThreadOk(s, t);
    if s.threads[t].path in s.locks {
      assert LockOk(s, s.threads[t].path);
    }
  }

  lemma StepKeepsThread<P(!new), R>(cfg: Config<P>, s: State<P, R>, a: Action<P, R>, t: nat)
    requires LocksHeld(s) && Enabled(s, a) && t < |Apply(cfg, s, a).threads|
    ensures ThreadOk(Apply(cfg, s, a), t)
  {
    if Moves(a, t) {
      StepKeepsOwn(cfg, s, a, t);
    } else if t < |s.threads| {
      StepKeepsOthers(cfg, s, a, t);
    }
  }

  lemma StepKeepsListing<P(!new), R>(cfg: Config<P>, s: State<P, R>, a: Action<P, R>, p: P)
    requires LocksHeld(s) && Enabled(s, a) && p in Apply(cfg, s, a).locks
    ensures LockOk(Apply(cfg, s, a), p)
  {
    if p in s.locks {
      assert LockOk(s, p);
      StepKeepsExecutable(cfg, s, a, s.locks[p]);
    }
  }

  lemma StepKeepsExecutable<P(!new), R>(cfg: Config<P>, s: State<P, R>, a: Action<P, R>, c: nat)
    requires Enabled(s, a) && c < |s.cells|
    ensures c < |Apply(cfg, s, a).cells| && Apply(cfg, s, a).cells[c].executable == s.cells[c].executable
  {}

  lemma StepKeepsLocks<P(!new), R>(cfg: Config<P>, s: State<P, R>, a: Action<P, R>)
    requires LocksHeld(s) && Enabled(s, a)
    ensures LocksHeld(Apply(cfg, s, a))
  {
    var s' := Apply(cfg, s, a);
    forall t: nat | t < |s'.threads| ensures ThreadOk(s', t) { StepKeepsThread(cfg, s, a, t); }
    forall p | p in s'.locks ensures LockOk(s', p) { StepKeepsListing(cfg, s, a, p); }
  }

  // ----- every action that neither clears nor invalidates keeps the bound -----

  /** Without `clear` a listed entry stays listed. */
  lemma StepKeepsListed<P(!new), R>(cfg: Config<P>, s: State<P, R>, a: Action<P, R>, path: P, leftover: set<nat>)
    requires LocksHeld(s) && Enabled(s, a) && !a.ClearLocks? && ListedBut(s, path, leftover)
    ensures ListedBut(Apply(cfg, s, a), path, leftover)
  {
    var s' := Apply(cfg, s, a);
    forall t: nat | IsStale(s', t, path) ensures t in leftover {
      if t < |s.threads| && !Moves(a, t) { StepKeepsOthers(cfg, s, a, t); }
      assert IsStale(s, t, path);
    }
  }

  /** A usable copy stays usable. */
  lemma UsableStays<P(!new), R>(cfg: Config<P>, s: State<P, R>, a: Action<P, R>, path: P)
    requires LocksHeld(s) && Enabled(s, a) && !a.ClearLocks? && !Invalidates(s, a, path)
    requires path in s.locks && s.locks[path] < |s.cells| && Usable(s.cells[s.locks[path]], s.files)
    ensures Supplied(Apply(cfg, s, a), path)
  {
    var c := s.locks[path];
    if a.GetCached? || a.StoreResult? || a.TrackSymlinks? {
      OperationKeepsUsable(cfg, s, a, c);
    }
  }

  /** So do the operations on entries, whichever entry they work on. */
  lemma OperationKeepsUsable<P(!new), R>(cfg: Config<P>, s: State<P, R>, a: Action<P, R>, c: nat)
    requires Enabled(s, a) && (a.GetCached? || a.StoreResult? || a.TrackSymlinks?)
    requires c < |s.cells| && Usable(s.cells[c], s.files)
    ensures c < |Apply(cfg, s, a).cells| && Usable(Apply(cfg, s, a).cells[c], s.files)
  {
    match a
    case GetCached(t, deletes) =>
      if s.threads[t].cell == c { GetKeepsMemory(EntryOf(cfg, s, c), s.files, deletes); }
    case StoreResult(t, write) =>
      if s.threads[t].cell == c {
        StoreFillsMemory(cfg.orders.trackedLe, EntryOf(cfg, s, c), s.threads[t].env, s.files, write);
      }
    case TrackSymlinks(cell, paths, deletes, write) =>
      if cell == c { TrackKeepsMemory(cfg.orders, EntryOf(cfg, s, c), paths, s.files, deletes, write); }
  }

  /** A holder about to store goes on holding the lock, until its store makes the copy usable. */
  lemma HolderSupplies<P(!new), R>(cfg: Config<P>, s: State<P, R>, a: Action<P, R>, path: P, h: nat)
    requires LocksHeld(s) && Enabled(s, a) && !a.ClearLocks?
    requires path in s.locks && s.locks[path] < |s.cells|
    requires s.cells[s.locks[path]].holder == Some(h) && Stores(s, h, s.locks[path])
    ensures Supplied(Apply(cfg, s, a), path)
  {
    var c := s.locks[path];
    assert ThreadOk(s, h);
    if !Moves(a, h) {
      StepKeepsOthers(cfg, s, a, h);
    } else {
      StoreFillsMemory(cfg.orders.trackedLe, EntryOf(cfg, s, c), s.threads[h].env, s.files, a.write);
    }
  }

  lemma SupplyStays<P(!new), R>(cfg: Config<P>, s: State<P, R>, a: Action<P, R>, path: P)
    requires LocksHeld(s) && Enabled(s, a) && !a.ClearLocks? && !Invalidates(s, a, path) && Supplied(s, path)
    ensures Supplied(Apply(cfg, s, a), path)
  {
    var c := s.cells[s.locks[path]];
    if Usable(c, s.files) {
      UsableStays(cfg, s, a, path);
    } else {
      HolderSupplies(cfg, s, a, path, c.holder.value);
    }
  }

  /** A lookup in the listed entry misses only while no spawn has succeeded. */
  lemma MissMeansNoSpawn<P(!new), R>(
      cfg: Config<P>, s: State<P, R>, t: nat, deletes: bool, leftover: set<nat>, base: nat)
    requires LocksHeld(s) && Enabled(s, GetCached(t, deletes))
    requires SpawnsBounded(s, s.threads[t].path, leftover, base) && !IsStale(s, t, s.threads[t].path)
    requires AfterGet(EntryOf(cfg, s, s.threads[t].cell), s.files, deletes).1.None?
    ensures SpawnCount(s, s.threads[t].path) <= base + |Spent(s, leftover)|
  {
    assert ThreadOk(s, t);
    GetKeepsMemory(EntryOf(cfg, s, s.threads[t].cell), s.files, deletes);
  }

  /** Calls are spent for good, and a successful spawn spends the call that made it. */
  lemma SpentGrows<P(!new), R>(cfg: Config<P>, s: State<P, R>, a: Action<P, R>, calls: set<nat>)
    requires LocksHeld(s) && Enabled(s, a)
    ensures |Spent(s, calls)| <= |Spent(Apply(cfg, s, a), calls)|
    ensures a.SpawnSucceeds? && a.t in calls ==> |Spent(s, calls)| + 1 <= |Spent(Apply(cfg, s, a), calls)|
  {
    var s' := Apply(cfg, s, a);
    forall t | t in Spent(s, calls) ensures t in Spent(s', calls) {
      if !Moves(a, t) { StepKeepsOthers(cfg, s, a, t); }
    }
    SubsetSize(Spent(s, calls), Spent(s', calls));
    if a.SpawnSucceeds? && a.t in calls {
      SubsetSize(Spent(s, calls) + {a.t}, Spent(s', calls));
    }
  }

  lemma {:induction false} SubsetSize<T>(a: set<T>, b: set<T>)
    requires a <= b
    ensures |a| <= |b|
  {
    if x :| x in a {
      SubsetSize(a - {x}, b - {x});
    }
  }

  /** A successful spawn by a call that is not left over is the first, and its thread holds the lock. */
  lemma SpawnIsFirst<P(!new), R>(
      cfg: Config<P>, s: State<P, R>, t: nat, env: Resolved<P, R>, path: P, leftover: set<nat>, base: nat)
    requires LocksHeld(s) && Enabled(s, SpawnSucceeds(t, env)) && ListedBut(s, path, leftover)
    requires SpawnsBounded(s, path, leftover, base) && s.threads[t].path == path && t !in leftover
    ensures SpawnsBounded(Apply(cfg, s, SpawnSucceeds(t, env)), path, leftover, base)
  {
    var s' := Apply(cfg, s, SpawnSucceeds(t, env));
    SpentGrows(cfg, s, SpawnSucceeds(t, env), leftover);
    assert ThreadOk(s, t) && !IsStale(s, t, path);
    assert Stores(s', t, s.locks[path]);
    forall u: nat | u < |s'.threads| && u !in leftover ensures !(s'.threads[u].Missed? && s'.threads[u].path == path) {
      if u != t { assert ThreadOk(s, u) && !IsStale(s, u, path); }
    }
  }

  /** A call that misses after the step and is not left over has seen no spawn. */
  lemma StepKeepsMissed<P(!new), R>(
      cfg: Config<P>, s: State<P, R>, a: Action<P, R>, path: P, leftover: set<nat>, base: nat, t: nat)
    requires LocksHeld(s) && Enabled(s, a) && ListedBut(s, path, leftover) && SpawnsBounded(s, path, leftover, base)
    requires t < |Apply(cfg, s, a).threads| && t !in leftover
    requires Apply(cfg, s, a).threads[t].Missed? && Apply(cfg, s, a).threads[t].path == path
    ensures SpawnCount(s, path) <= base + |Spent(s, leftover)|
  {
    assert !IsStale(s, t, path);
    if !s.threads[t].Missed? {
      MissMeansNoSpawn(cfg, s, t, a.deletes, leftover, base);
    }
  }

  lemma StepKeepsBound<P(!new), R>(
      cfg: Config<P>, s: State<P, R>, a: Action<P, R>, path: P, leftover: set<nat>, base: nat)
    requires LocksHeld(s) && Enabled(s, a) && !a.ClearLocks? && !Invalidates(s, a, path)
    requires ListedBut(s, path, leftover) && SpawnsBounded(s, path, leftover, base)
    ensures SpawnsBounded(Apply(cfg, s, a), path, leftover, base)
  {
    if a.SpawnSucceeds? && s.threads[a.t].path == path && a.t !in leftover {
      SpawnIsFirst(cfg, s, a.t, a.env, path, leftover, base);
    } else {
      var s' := Apply(cfg, s, a);
      SpentGrows(cfg, s, a, leftover);
      if Supplied(s, path) { SupplyStays(cfg, s, a, path); }
      forall t: nat | t < |s'.threads| && s'.threads[t].Missed? && s'.threads[t].path == path && t !in leftover
        ensures SpawnCount(s, path) <= base + |Spent(s, leftover)|
      {
        StepKeepsMissed(cfg, s, a, path, leftover, base, t);
      }
    }
  }

  // ----- whole runs -----

  datatype Run<!P(!new), R> = Run(states: seq<State<P, R>>, actions: seq<Action<P, R>>)

  ghost predicate StepAt<P(!new), R>(cfg: Config<P>, run: Run<P, R>, i: nat)
    requires |run.states| == |run.actions| + 1 && i < |run.actions|
  {
    Enabled(run.states[i], run.actions[i]) && run.states[i + 1] == Apply(cfg, run.states[i], run.actions[i])
  }

  ghost predicate IsRun<P(!new), R>(cfg: Config<P>, run: Run<P, R>) {
    && |run.states| == |run.actions| + 1
    && run.states[0] == Init(run.states[0].files)
    && (forall i: nat :: i < |run.actions| ==> StepAt(cfg, run, i))
  }

  /** Between the two moments there is no `clear`, and no file tracked for the path gets other times. */
  ghost predicate QuietFor<P(!new), R>(run: Run<P, R>, first: nat, last: nat, path: P)
    requires |run.states| == |run.actions| + 1 && first <= last <= |run.actions|
  {
    forall i: nat :: first <= i < last ==>
      !run.actions[i].ClearLocks? && !Invalidates(run.states[i], run.actions[i], path)
  }

  lemma {:induction false} RunKeepsLocks<P(!new), R>(cfg: Config<P>, run: Run<P, R>, n: nat)
    requires IsRun(cfg, run) && n <= |run.actions|
    ensures LocksHeld(run.states[n])
  {
    if n > 0 {
      RunKeepsLocks(cfg, run, n - 1);
      assert StepAt(cfg, run, n - 1);
      StepKeepsLocks(cfg, run.states[n - 1], run.actions[n - 1]);
    }
  }

  /** At its start a stretch satisfies its own invariants. */
  lemma StretchStarts<P(!new), R>(s: State<P, R>, path: P)
    ensures ListedBut(s, path, StaleCalls(s, path))
    ensures SpawnsBounded(s, path, StaleCalls(s, path), SpawnCount(s, path))
  {}

  lemma {:induction false} RunKeepsBound<P(!new), R>(cfg: Config<P>, run: Run<P, R>, first: nat, last: nat, path: P)
    requires IsRun(cfg, run) && first <= last <= |run.actions| && QuietFor(run, first, last, path)
    ensures var leftover := StaleCalls(run.states[first], path);
            && ListedBut(run.states[last], path, leftover)
            && SpawnsBounded(run.states[last], path, leftover, SpawnCount(run.states[first], path))
    decreases last
  {
    if first == last {
      StretchStarts(run.states[first], path);
    } else {
      RunKeepsBound(cfg, run, first, last - 1, path);
      RunKeepsLocks(cfg, run, last - 1);
      assert StepAt(cfg, run, last - 1);
      var leftover, base := StaleCalls(run.states[first], path), SpawnCount(run.states[first], path);
      StepKeepsListed(cfg, run.states[last - 1], run.actions[last - 1], path, leftover);
      StepKeepsBound(cfg, run.states[last - 1], run.actions[last - 1], path, leftover, base);
    }
  }

  /**
    At any moment of any run at most one thread is past the lock of an entry without having
    returned, and so at most one per executable works on the entry listed for it.
   */
  lemma OneThreadPerExecutable<P(!new), R>(cfg: Config<P>, run: Run<P, R>, n: nat, t: nat, u: nat)
    requires IsRun(cfg, run) && n <= |run.actions| && t < |run.states[n].threads| && u < |run.states[n].threads|
    requires InLock(run.states[n].threads[t]) && InLock(run.states[n].threads[u])
    ensures run.states[n].threads[t].cell == run.states[n].threads[u].cell ==> t == u
    ensures var s, x, y := run.states[n], run.states[n].threads[t], run.states[n].threads[u];
            x.path == y.path && IsListed(s, x) && IsListed(s, y) ==> t == u
  {
    RunKeepsLocks(cfg, run, n);
    assert ThreadOk(run.states[n], t) && ThreadOk(run.states[n], u);
  }

  /** Only a `clear` makes calls stale. */
  lemma {:induction false} NoneStaleWithoutClear<P(!new), R>(cfg: Config<P>, run: Run<P, R>, n: nat, path: P)
    requires IsRun(cfg, run) && n <= |run.actions| && forall i: nat :: i < n ==> !run.actions[i].ClearLocks?
    ensures StaleCalls(run.states[n], path) == {}
  {
    if n > 0 {
      NoneStaleWithoutClear(cfg, run, n - 1, path);
      RunKeepsLocks(cfg, run, n - 1);
      assert StepAt(cfg, run, n - 1);
      StepKeepsListed(cfg, run.states[n - 1], run.actions[n - 1], path, {});
    }
  }

  /**
    In any run, `clear` included, and any stretch of it without a further `clear` in which the
    times of the files tracked for an executable stay as recorded, the executable is spawned
    successfully at most once, plus once for each call left over from before the stretch's last `clear`.
   */
  lemma SpawnsAreBounded<P(!new), R>(cfg: Config<P>, run: Run<P, R>, first: nat, last: nat, path: P)
    requires IsRun(cfg, run) && first <= last <= |run.actions| && QuietFor(run, first, last, path)
    ensures SpawnCount(run.states[first], path) <= SpawnCount(run.states[last], path)
            <= SpawnCount(run.states[first], path) + 1 + |StaleCalls(run.states[first], path)|
  {
    RunKeepsBound(cfg, run, first, last, path);
    SubsetSize(Spent(run.states[last], StaleCalls(run.states[first], path)), StaleCalls(run.states[first], path));
  }

  /** Where no stale call is left at its start, across any number of threads one spawn at most. */
  lemma AtMostOneSpawn<P(!new), R>(cfg: Config<P>, run: Run<P, R>, first: nat, last: nat, path: P)
    requires IsRun(cfg, run) && first <= last <= |run.actions| && QuietFor(run, first, last, path)
    requires StaleCalls(run.states[first], path) == {}
    ensures SpawnCount(run.states[first], path) <= SpawnCount(run.states[last], path)
            <= SpawnCount(run.states[first], path) + 1
  {
    SpawnsAreBounded(cfg, run, first, last, path);
  }

  /** Once a spawn has succeeded in such a stretch, every later lookup in it is a cache hit. */
  lemma LaterCallsHitTheCache<P(!new), R>(
      cfg: Config<P>, run: Run<P, R>, first: nat, n: nat, t: nat, path: P, deletes: bool)
    requires IsRun(cfg, run) && first <= n < |run.actions| && QuietFor(run, first, n, path)
    requires StaleCalls(run.states[first], path) == {}
    requires run.actions[n] == GetCached(t, deletes) && t < |run.states[n].threads|
    requires run.states[n].threads[t].path == path
    requires SpawnCount(run.states[n], path) > SpawnCount(run.states[first], path)
    ensures t < |run.states[n + 1].threads| && run.states[n + 1].threads[t].Done?
    ensures run.states[n + 1].threads[t].fromCache && run.states[n + 1].threads[t].result.Some?
    ensures var s := run.states[n];
            && HasCell(s.threads[t]) && IsListed(s, s.threads[t]) && s.locks[path] < |s.cells|
            && run.states[n + 1].threads[t].result == s.cells[s.locks[path]].memory
  {
    RunKeepsBound(cfg, run, first, n, path);
    RunKeepsLocks(cfg, run, n);
    assert StepAt(cfg, run, n);
    var s := run.states[n];
    assert Spent(s, {}) == {} && !IsStale(s, t, path);
    assert ThreadOk(s, t);
    GetKeepsMemory(EntryOf(cfg, s, s.threads[t].cell), s.files, deletes);
  }

  // ----- what calls return -----

  /** In every run, a call whose spawn succeeded with `env` goes on to return `env`. */
  lemma {:induction false} SpawnedCallReturns<P(!new), R>(
      cfg: Config<P>, run: Run<P, R>, i: nat, n: nat, t: nat, env: Resolved<P, R>)
    requires IsRun(cfg, run) && i < n <= |run.actions| && run.actions[i] == SpawnSucceeds(t, env)
    ensures t < |run.states[i].threads| && t < |run.states[n].threads|
    ensures var path, x := run.states[i].threads[t].path, run.states[n].threads[t];
            (x.Spawned? && x.path == path && x.env == env) || x == Done(path, Some(env), false)
    decreases n
  {
    assert StepAt(cfg, run, i) && StepAt(cfg, run, n - 1);
    if i < n - 1 {
      SpawnedCallReturns(cfg, run, i, n - 1, t, env);
      if !Moves(run.actions[n - 1], t) { ThreadsMoveAlone(cfg, run.states[n - 1], run.actions[n - 1], t); }
    }
  }

  /** A step changes no thread but the one whose step it is. */
  lemma ThreadsMoveAlone<P(!new), R>(cfg: Config<P>, s: State<P, R>, a: Action<P, R>, t: nat)
    requires Enabled(s, a) && t < |s.threads| && !Moves(a, t)
    ensures t < |Apply(cfg, s, a).threads| && Apply(cfg, s, a).threads[t] == s.threads[t]
  {}

  lemma {:induction false} DoneStays<P(!new), R>(cfg: Config<P>, run: Run<P, R>, m: nat, n: nat, t: nat)
    requires IsRun(cfg, run) && m <= n <= |run.actions| && t < |run.states[m].threads| && run.states[m].threads[t].Done?
    ensures t < |run.states[n].threads| && run.states[n].threads[t] == run.states[m].threads[t]
    decreases n
  {
    if m < n {
      DoneStays(cfg, run, m, n - 1, t);
      assert StepAt(cfg, run, n - 1);
      ThreadsMoveAlone(cfg, run.states[n - 1], run.actions[n - 1], t);
    }
  }

  /** A call whose spawn failed returns nothing. */
  lemma FailedSpawnReturnsNone<P(!new), R>(cfg: Config<P>, run: Run<P, R>, i: nat, n: nat, t: nat)
    requires IsRun(cfg, run) && i < n <= |run.actions| && run.actions[i] == SpawnFails(t)
    ensures t < |run.states[i].threads| && t < |run.states[n].threads|
    ensures run.states[n].threads[t] == Done(run.states[i].threads[t].path, None, false)
  {
    assert StepAt(cfg, run, i);
    DoneStays(cfg, run, i + 1, n, t);
  }

  /** The entry holds `env` with its files as recorded, and no call is about to replace it. */
  ghost predicate Holds<P(!new), R>(s: State<P, R>, c: nat, env: Resolved<P, R>) {
    && c < |s.cells| && s.cells[c].memory == Some(env) && !AnyChanged(s.cells[c].tracked, s.files)
    && (forall t: nat :: t < |s.threads| && (s.threads[t].Missed? || s.threads[t].Spawned?) ==> s.threads[t].cell != c)
  }

  /** The action neither gives a file tracked by the entry other times nor extends its symlinks. */
  ghost predicate SparesCell<P(!new), R>(s: State<P, R>, a: Action<P, R>, c: nat) {
    && (a.ChangeFiles? && c < |s.cells| ==> !AnyChanged(s.cells[c].tracked, a.files))
    && (a.TrackSymlinks? ==> a.cell != c)
  }

  lemma StoreHolds<P(!new), R>(cfg: Config<P>, s: State<P, R>, t: nat, write: Write)
    requires LocksHeld(s) && Enabled(s, StoreResult(t, write))
    ensures Holds(Apply(cfg, s, StoreResult(t, write)), s.threads[t].cell, s.threads[t].env)
  {
    var c := s.threads[t].cell;
    assert ThreadOk(s, t);
    StoreFillsMemory(cfg.orders.trackedLe, EntryOf(cfg, s, c), s.threads[t].env, s.files, write);
    forall u: nat | u < |s.threads| && u != t && (s.threads[u].Missed? || s.threads[u].Spawned?)
      ensures s.threads[u].cell != c
    {
      assert ThreadOk(s, u);
    }
  }

  lemma StepKeepsHolding<P(!new), R>(cfg: Config<P>, s: State<P, R>, a: Action<P, R>, c: nat, env: Resolved<P, R>)
    requires Enabled(s, a) && Holds(s, c, env) && SparesCell(s, a, c)
    ensures Holds(Apply(cfg, s, a), c, env)
  {
    if a.GetCached? && s.threads[a.t].cell == c {
      GetKeepsMemory(EntryOf(cfg, s, c), s.files, a.deletes);
    }
  }

  lemma {:induction false} RunKeepsHolding<P(!new), R>(
      cfg: Config<P>, run: Run<P, R>, m: nat, n: nat, c: nat, env: Resolved<P, R>)
    requires IsRun(cfg, run) && m <= n <= |run.actions| && Holds(run.states[m], c, env)
    requires forall i: nat :: m <= i < n ==> SparesCell(run.states[i], run.actions[i], c)
    ensures Holds(run.states[n], c, env)
    decreases n
  {
    if m < n {
      RunKeepsHolding(cfg, run, m, n - 1, c, env);
      assert StepAt(cfg, run, n - 1);
      StepKeepsHolding(cfg, run.states[n - 1], run.actions[n - 1], c, env);
    }
  }

  /**
    In every run, once a spawned environment is stored, every later lookup in that entry returns
    exactly it, from the cache, until a tracked file gets other times or symlinks are added.
   */
  lemma LaterCallsReturnTheStored<P(!new), R>(
      cfg: Config<P>, run: Run<P, R>, i: nat, t: nat, write: Write, n: nat, u: nat, deletes: bool)
    requires IsRun(cfg, run) && i < n < |run.actions|
    requires run.actions[i] == StoreResult(t, write) && run.actions[n] == GetCached(u, deletes)
    requires t < |run.states[i].threads| && run.states[i].threads[t].Spawned?
    requires u < |run.states[n].threads| && run.states[n].threads[u].Locked?
    requires run.states[n].threads[u].cell == run.states[i].threads[t].cell
    requires forall j: nat :: i < j < n ==> SparesCell(run.states[j], run.actions[j], run.states[i].threads[t].cell)
    ensures u < |run.states[n + 1].threads|
    ensures run.states[n + 1].threads[u]
            == Done(run.states[n].threads[u].path, Some(run.states[i].threads[t].env), true)
  {
    var c, env := run.states[i].threads[t].cell, run.states[i].threads[t].env;
    RunKeepsLocks(cfg, run, i);
    assert StepAt(cfg, run, i) && StepAt(cfg, run, n);
    StoreHolds(cfg, run.states[i], t, write);
    RunKeepsHolding(cfg, run, i + 1, n, c, env);
    GetKeepsMemory(EntryOf(cfg, run.states[n], c), run.states[n].files, deletes);
  }

  // ----- every entry behaves as one entry alone -----

  /** What an action is to entry `c` with its file; another entry of the same hash overwrites the file. */
  function StepOn<P(==, !new), R>(cfg: Config<P>, s: State<P, R>, a: Action<P, R>, c: nat): Option<Step<P, R>>
    requires Enabled(s, a) && c < |s.cells|
  {
    var h := cfg.hash(s.cells[c].executable);
    match a
    case GetCached(t, deletes) =>
      var x := s.threads[t].cell;
      if x == c then Some(Step.Get(deletes))
      else if cfg.hash(s.cells[x].executable) != h then None
      else Some(Step.Overwrite(AfterGet(EntryOf(cfg, s, x), s.files, deletes).0.file))
    case StoreResult(t, write) =>
      var x := s.threads[t].cell;
      if x == c then Some(Step.Store(s.threads[t].env, write))
      else if cfg.hash(s.cells[x].executable) != h then None
      else Some(Step.Overwrite(
        AfterStore(cfg.orders.trackedLe, EntryOf(cfg, s, x), s.threads[t].env, s.files, write).file))
    case TrackSymlinks(x, paths, deletes, write) =>
      if x == c then Some(Step.Track(paths, deletes, write))
      else if cfg.hash(s.cells[x].executable) != h then None
      else Some(Step.Overwrite(AfterTrack(cfg.orders, EntryOf(cfg, s, x), paths, s.files, deletes, write).file))
    case ChangeFiles(files) => Some(Step.ChangeFiles(files))
    case OverwriteFile(hash, content) => if hash == h then Some(Step.Overwrite(content)) else None
    case RemoveFiles => Some(Step.Overwrite(Absent))
    case _ => None
  }

  function WorldOf<P(!new), R>(cfg: Config<P>, s: State<P, R>, c: nat): World<P, R>
    requires c < |s.cells|
  {
    World(EntryOf(cfg, s, c), s.files)
  }

  /** The action does to the entry, its file and the disk exactly what that step does. */
  ghost predicate Follows<P(!new), R>(cfg: Config<P>, s: State<P, R>, a: Action<P, R>, c: nat)
    requires Enabled(s, a) && c < |s.cells|
  {
    && c < |Apply(cfg, s, a).cells|
    && var step := StepOn(cfg, s, a, c);
       WorldOf(cfg, Apply(cfg, s, a), c)
       == if step.Some? then AfterStep(cfg.orders, WorldOf(cfg, s, c), step.value) else WorldOf(cfg, s, c)
  }

  lemma GetFollows<P(!new), R>(cfg: Config<P>, s: State<P, R>, t: nat, deletes: bool, c: nat)
    requires Enabled(s, GetCached(t, deletes)) && c < |s.cells|
    ensures Follows(cfg, s, GetCached(t, deletes), c)
  {
    var cell := s.threads[t].cell;
    var before := EntryOf(cfg, s, cell);
    var (e, r) := AfterGet(before, s.files, deletes);
    var holder := if r.Some? then None else Some(t);
    GetKeepsName(before, s.files, deletes);
    GetWritesBack(cfg, s, t, deletes);
    EntryWritten(cfg, s, cell, e, holder, c);
    var s' := Apply(cfg, s, GetCached(t, deletes));
    assert WorldOf(cfg, s', c) == World(EntryOf(cfg, WithEntry(cfg, s, cell, e, holder), c), s.files);
  }

  lemma GetKeepsName<P(!new), R>(e: Entry<P, R>, files: Files<P>, deletes: bool)
    ensures var r := AfterGet(e, files, deletes).0; r.executable == e.executable && r.hasFile == e.hasFile
  {}

  lemma GetWritesBack<P(!new), R>(cfg: Config<P>, s: State<P, R>, t: nat, deletes: bool)
    requires Enabled(s, GetCached(t, deletes))
    ensures var (e, r) := AfterGet(EntryOf(cfg, s, s.threads[t].cell), s.files, deletes);
            var s' := WithEntry(cfg, s, s.threads[t].cell, e, if r.Some? then None else Some(t));
            Apply(cfg, s, GetCached(t, deletes)) == s'.(threads := Apply(cfg, s, GetCached(t, deletes)).threads)
  {}

  lemma StoreFollows<P(!new), R>(cfg: Config<P>, s: State<P, R>, t: nat, write: Write, c: nat)
    requires Enabled(s, StoreResult(t, write)) && c < |s.cells|
    ensures Follows(cfg, s, StoreResult(t, write), c)
  {
    var cell := s.threads[t].cell;
    var e := AfterStore(cfg.orders.trackedLe, EntryOf(cfg, s, cell), s.threads[t].env, s.files, write);
    EntryWritten(cfg, s, cell, e, None, c);
  }

  lemma TrackFollows<P(!new), R>(
      cfg: Config<P>, s: State<P, R>, cell: nat, paths: seq<P>, deletes: bool, write: Write, c: nat)
    requires Enabled(s, TrackSymlinks(cell, paths, deletes, write)) && c < |s.cells|
    ensures Follows(cfg, s, TrackSymlinks(cell, paths, deletes, write), c)
  {
    var e := AfterTrack(cfg.orders, EntryOf(cfg, s, cell), paths, s.files, deletes, write);
    EntryWritten(cfg, s, cell, e, None, c);
  }

  lemma EntryFollows<P(!new), R>(cfg: Config<P>, s: State<P, R>, a: Action<P, R>, c: nat)
    requires Enabled(s, a) && c < |s.cells|
    ensures Follows(cfg, s, a, c)
  {
    match a
    case GetCached(t, deletes) => GetFollows(cfg, s, t, deletes, c);
    case StoreResult(t, write) => StoreFollows(cfg, s, t, write, c);
    case TrackSymlinks(cell, paths, deletes, write) => TrackFollows(cfg, s, cell, paths, deletes, write, c);
    case _ =>
  }

  /** Writing an outcome back gives its own entry that outcome, and others of the same hash its file. */
  lemma EntryWritten<P(!new), R>(
      cfg: Config<P>, s: State<P, R>, cell: nat, e: Entry<P, R>, holder: Option<nat>, c: nat)
    requires cell < |s.cells| && c < |s.cells| && e.executable == s.cells[cell].executable && e.hasFile == cfg.hasFile
    ensures var s' := WithEntry(cfg, s, cell, e, holder);
            && c < |s'.cells| && s'.files == s.files
            && EntryOf(cfg, s', c) ==
               if c == cell then e
               else if cfg.hash(s.cells[c].executable) == cfg.hash(s.cells[cell].executable)
               then EntryOf(cfg, s, c).(file := e.file) else EntryOf(cfg, s, c)
  {}

  /**
    Over every run of any number of threads, an entry goes through a run of its own operations, so
    that all that holds over those runs holds here: in particular what a lookup returns is
    justified by the files' times at the step that supplied it.
   */
  lemma {:induction false} EntryRuns<P(!new), R>(cfg: Config<P>, run: Run<P, R>, m: nat, n: nat, c: nat)
    returns (steps: seq<Step<P, R>>)
    requires IsRun(cfg, run) && m <= n <= |run.actions| && c < |run.states[m].cells|
    ensures c < |run.states[n].cells|
    ensures WorldOf(cfg, run.states[n], c) == AfterSteps(cfg.orders, WorldOf(cfg, run.states[m], c), steps)
    decreases n
  {
    steps := [];
    if m < n {
      steps := EntryRuns(cfg, run, m, n - 1, c);
      assert StepAt(cfg, run, n - 1);
      EntryFollows(cfg, run.states[n - 1], run.actions[n - 1], c);
      var step := StepOn(cfg, run.states[n - 1], run.actions[n - 1], c);
      if step.Some? {
        assert (steps + [step.value])[..|steps|] == steps;
        steps := steps + [step.value];
      }
    }
  }

  /** A lookup in any run returns what an earlier step on its entry supplied, with the files' times kept. */
  lemma LookupIsJustified<P(!new), R>(cfg: Config<P>, run: Run<P, R>, m: nat, n: nat, t: nat, deletes: bool)
    returns (steps: seq<Step<P, R>>)
    requires IsRun(cfg, run) && m <= n < |run.actions| && run.actions[n] == GetCached(t, deletes)
    requires t < |run.states[n].threads| && run.states[n].threads[t].Locked?
    requires run.states[n].threads[t].cell < |run.states[m].cells|
    ensures var c := run.states[n].threads[t].cell;
            && c < |run.states[n].cells| && c < |run.states[n + 1].cells| && t < |run.states[n + 1].threads|
            && WorldOf(cfg, run.states[n], c) == AfterSteps(cfg.orders, WorldOf(cfg, run.states[m], c), steps)
            && var x, now := run.states[n + 1].threads[t], run.states[n].files;
               x.Done? ==>
                 && x.result.Some?
                 && IsJustified(cfg.orders, WorldOf(cfg, run.states[m], c), steps, x.result.value,
                                run.states[n + 1].cells[c].tracked, now,
                                !MemoryHit(EntryOf(cfg, run.states[n], c), now))
  {
    var c := run.states[n].threads[t].cell;
    steps := EntryRuns(cfg, run, m, n, c);
    assert StepAt(cfg, run, n);
    HitIsJustified(cfg.orders, WorldOf(cfg, run.states[m], c), steps, deletes);
  }

  // ----- a call left over from before a `clear` does spawn beside a new one -----

  /** A lock's holder is a call past it. */
  ghost predicate HolderOk<P(!new), R>(s: State<P, R>, c: nat)
    requires c < |s.cells|
  {
    s.cells[c].holder.Some? ==>
      var h := s.cells[c].holder.value;
      h < |s.threads| && InLock(s.threads[h]) && s.threads[h].cell == c
  }

  lemma StepKeepsHolder<P(!new), R>(cfg: Config<P>, s: State<P, R>, a: Action<P, R>, c: nat)
    requires LocksHeld(s) && Enabled(s, a) && c < |Apply(cfg, s, a).cells|
    requires c < |s.cells| ==> HolderOk(s, c)
    ensures HolderOk(Apply(cfg, s, a), c)
  {
    if c < |s.cells| && s.cells[c].holder.Some? {
      var h := s.cells[c].holder.value;
      if Moves(a, h) { HolderMoves(cfg, s, a, c, h); } else { StepKeepsOthers(cfg, s, a, h); }
    } else {
      FreeLockIsTaken(cfg, s, a, c);
    }
  }

  /** A holder's own step keeps the lock or gives it up. */
  lemma HolderMoves<P(!new), R>(cfg: Config<P>, s: State<P, R>, a: Action<P, R>, c: nat, h: nat)
    requires Enabled(s, a) && Moves(a, h) && c < |s.cells| && s.cells[c].holder == Some(h)
    requires h < |s.threads| && InLock(s.threads[h]) && s.threads[h].cell == c
    ensures c < |Apply(cfg, s, a).cells| && HolderOk(Apply(cfg, s, a), c)
  {}

  /** A free lock stays free or is taken by a call that waits for it. */
  lemma FreeLockIsTaken<P(!new), R>(cfg: Config<P>, s: State<P, R>, a: Action<P, R>, c: nat)
    requires LocksHeld(s) && Enabled(s, a) && c < |Apply(cfg, s, a).cells|
    requires c < |s.cells| ==> s.cells[c].holder.None?
    ensures HolderOk(Apply(cfg, s, a), c)
  {
    match a
    case GetCached(u, _) => assert ThreadOk(s, u);
    case SpawnFails(u) => assert ThreadOk(s, u);
    case StoreResult(u, _) => assert ThreadOk(s, u);
    case _ =>
  }

  lemma {:induction false} RunKeepsHolders<P(!new), R>(cfg: Config<P>, run: Run<P, R>, n: nat, c: nat)
    requires IsRun(cfg, run) && n <= |run.actions| && c < |run.states[n].cells|
    ensures HolderOk(run.states[n], c)
  {
    assert StepAt(cfg, run, n - 1);
    if c < |run.states[n - 1].cells| {
      RunKeepsHolders(cfg, run, n - 1, c);
    }
    RunKeepsLocks(cfg, run, n - 1);
    StepKeepsHolder(cfg, run.states[n - 1], run.actions[n - 1], c);
  }

  function Last<P(!new), R>(run: Run<P, R>): State<P, R>
    requires run.states != []
  {
    run.states[|run.states| - 1]
  }

  /** `r` goes on from `run` without a `clear` and without a change of files, hence quietly for every path. */
  ghost predicate Continues<P(!new), R>(cfg: Config<P>, run: Run<P, R>, r: Run<P, R>) {
    && IsRun(cfg, run) && IsRun(cfg, r) && run.states <= r.states && run.actions <= r.actions
    && (forall i: nat :: |run.actions| <= i < |r.actions| ==> !r.actions[i].ClearLocks? && !r.actions[i].ChangeFiles?)
  }

  lemma Extend<P(!new), R>(cfg: Config<P>, run: Run<P, R>, r: Run<P, R>, a: Action<P, R>) returns (x: Run<P, R>)
    requires Continues(cfg, run, r) && Enabled(Last(r), a) && !a.ClearLocks? && !a.ChangeFiles?
    ensures Continues(cfg, run, x) && Last(x) == Apply(cfg, Last(r), a)
  {
    x := Run(r.states + [Apply(cfg, Last(r), a)], r.actions + [a]);
    forall i: nat | i < |x.actions| ensures StepAt(cfg, x, i) {
      assert i < |r.actions| ==> StepAt(cfg, r, i);
    }
  }

  lemma LookupMisses<P(!new), R>(cfg: Config<P>, s: State<P, R>, t: nat)
    requires Enabled(s, GetCached(t, false)) && !Usable(s.cells[s.threads[t].cell], s.files)
    requires var h := cfg.hash(s.cells[s.threads[t].cell].executable); h in s.disk && s.disk[h].Absent?
    ensures Apply(cfg, s, GetCached(t, false)).threads == s.threads[t := Missed(s.threads[t].path, s.threads[t].cell)]
    ensures Apply(cfg, s, GetCached(t, false)).spawns == s.spawns
  {}

  /** A call inside the lock of an entry without a usable copy can spawn. */
  lemma LockedCallSpawns<P(!new), R>(
      cfg: Config<P>, run: Run<P, R>, before: Run<P, R>, t: nat, env: Resolved<P, R>) returns (r: Run<P, R>)
    requires Continues(cfg, run, before) && t < |Last(before).threads| && Last(before).threads[t].Locked?
    requires var s := Last(before); s.threads[t].cell < |s.cells| && !Usable(s.cells[s.threads[t].cell], s.files)
    ensures Continues(cfg, run, r)
    ensures var s, x := Last(before), Last(before).threads[t];
            && Last(r).threads == s.threads[t := Spawned(x.path, x.cell, env)]
            && Last(r).spawns == s.spawns[x.path := SpawnCount(s, x.path) + 1]
  {
    var s, x := Last(before), Last(before).threads[t];
    r := Extend(cfg, run, before, OverwriteFile(cfg.hash(s.cells[x.cell].executable), Absent));
    LookupMisses(cfg, Last(r), t);
    r := Extend(cfg, run, r, GetCached(t, false));
    r := Extend(cfg, run, r, SpawnSucceeds(t, env));
  }

  /** Where the listed entry, if any, is not locked, a new call gets its lock. */
  lemma NewCallLocks<P(!new), R>(cfg: Config<P>, run: Run<P, R>, before: Run<P, R>, path: P) returns (r: Run<P, R>)
    requires Continues(cfg, run, before)
    requires var s := Last(before);
             path in s.locks ==> s.locks[path] < |s.cells| && s.cells[s.locks[path]].holder.None?
    ensures Continues(cfg, run, r)
    ensures var s := Last(before);
            var c := if path in s.locks then s.locks[path] else |s.cells|;
            && Last(r).threads == s.threads + [Locked(path, c)] && Last(r).spawns == s.spawns && c < |Last(r).cells|
            && (path !in s.locks ==> Last(r).cells[c].memory.None?)
            && (path in s.locks ==> Last(r).cells[c] == s.cells[c].(holder := Some(|s.threads|)))
            && Last(r).files == s.files && Last(r).disk == s.disk
  {
    var s, t := Last(before), |Last(before).threads|;
    r := Extend(cfg, run, before, Begin(path));
    assert Last(r).threads[t] == Starting(path);
    r := Extend(cfg, run, r, CreateCache(t));
    assert Last(r).threads == s.threads + [Created(path, Last(r).threads[t].cell)];
    r := Extend(cfg, run, r, Acquire(t));
  }

  /** Where the listed entry is not supplied, some call on it can spawn. */
  lemma ListedEntrySpawns<P(!new), R>(cfg: Config<P>, run: Run<P, R>, path: P, env: Resolved<P, R>)
    returns (r: Run<P, R>)
    requires IsRun(cfg, run) && !Supplied(Last(run), path)
    ensures Continues(cfg, run, r) && SpawnCount(Last(r), path) == SpawnCount(Last(run), path) + 1
    ensures forall t: nat :: IsStale(Last(run), t, path) ==>
              t < |Last(r).threads| && Last(r).threads[t] == Last(run).threads[t]
  {
    var s := Last(run);
    RunKeepsLocks(cfg, run, |run.actions|);
    assert path in s.locks ==> LockOk(s, path);
    if path in s.locks && s.cells[s.locks[path]].holder.Some? {
      var c := s.locks[path];
      var h := s.cells[c].holder.value;
      RunKeepsHolders(cfg, run, |run.actions|, c);
      assert ThreadOk(s, h) && !Stores(s, h, c);
      if s.threads[h].Locked? {
        r := LockedCallSpawns(cfg, run, run, h, env);
      } else {
        r := Extend(cfg, run, run, SpawnSucceeds(h, env));
      }
    } else {
      r := NewCallLocks(cfg, run, run, path);
      r := LockedCallSpawns(cfg, run, r, |s.threads|, env);
    }
  }

  /**
    The bound of one needs its condition: after any run that leaves a call about to spawn on an
    entry no longer listed, while the listed one is not supplied, some quiet continuation has two
    successful spawns.
   */
  lemma LeftoverCallSpawnsToo<P(!new), R>(
      cfg: Config<P>, run: Run<P, R>, t: nat, path: P, env: Resolved<P, R>, other: Resolved<P, R>)
    returns (r: Run<P, R>)
    requires IsRun(cfg, run) && IsStale(Last(run), t, path) && Last(run).threads[t].Missed?
    requires !Supplied(Last(run), path)
    ensures IsRun(cfg, r) && run.states <= r.states && run.actions <= r.actions
    ensures QuietFor(r, |run.actions|, |r.actions|, path)
    ensures SpawnCount(Last(r), path) == SpawnCount(Last(run), path) + 2
  {
    r := ListedEntrySpawns(cfg, run, path, env);
    r := Extend(cfg, run, r, SpawnSucceeds(t, other));
  }

  /** Such states are reached: one call misses, and a `clear` makes its entry unlisted. */
  lemma TwoSpawnsAfterClear<P(!new), R>(
      cfg: Config<P>, files: Files<P>, path: P, env: Resolved<P, R>, other: Resolved<P, R>)
    returns (run: Run<P, R>, first: nat)
    ensures IsRun(cfg, run) && first <= |run.actions| && QuietFor(run, first, |run.actions|, path)
    ensures SpawnCount(Last(run), path) == SpawnCount(run.states[first], path) + 2
  {
    var start: Run<P, R> := Run([Init(files)], []);
    run := NewCallLocks(cfg, start, start, path);
    run := Extend(cfg, start, run, GetCached(0, false));
    var cleared := Apply(cfg, Last(run), ClearLocks);
    var before := run;
    run := Run(before.states + [cleared], before.actions + [ClearLocks]);
    forall i: nat | i < |run.actions| ensures StepAt(cfg, run, i) {
      assert i < |before.actions| ==> StepAt(cfg, before, i);
    }
    first := |run.actions|;
    run := LeftoverCallSpawnsToo(cfg, run, 0, path, env, other);
  }
}
