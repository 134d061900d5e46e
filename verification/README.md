# Verified models of python-environment-tools

python-environment-tools discovers Python interpreters and environments. Its hardest code is a set
of small caching protocols that many threads use at once, and a handful of exact algorithms on
paths, patterns and byte streams. This project models those in Dafny and proves what they promise.

The protocols are transition systems with arbitrarily many threads, one atomic action per lock
region, file read or closure return; theorems range over every interleaving. Code that updates
objects step by step is also modelled as classes and methods, tied by their contracts to the
functions the theorems are about. The disk, canonicalisation, hashing and the interpreter are
parameters of the models: arbitrary functions or arbitrary actions.

| file | subject |
|---|---|
| `SingleFlight.dfy`, `SingleFlightRuns.dfy`, `SingleFlightResults.dfy`, `LocatorCache.dfy` | `LocatorCache`, the single-flight cache all locators share |
| `HatchCache.dfy` | Hatch's generation-guarded cache of parsed workspaces |
| `CondaInfoCache.dfy` | Conda's fingerprint-validated cache of environment details |
| `InterpreterCache.dfy`, `InterpreterSpawns.dfy` | the two-level interpreter cache, and spawning under its lock |
| `BraceExpansion.dfy` | capped brace expansion of search globs |
| `EnvironmentBuilder.dfy`, `LinuxGlobal.dfy`, `CondaLocations.dfy`, `RefreshSync.dfy` | building, collecting, enumerating and synchronising environments |
| `Utf8.dfy`, `CondaHistory.dfy`, `JsonRpcFraming.dfy` | UTF-8 boundaries, conda history lines, Content-Length framing |
| `Ordering.dfy`, `Prelude.dfy` | stable sort and dedup with their theory; `Option` |

`dafny verify dfyconfig.toml` covers everything.

## What the proofs show about the code

- `LocatorCache`: a returned value was in the cache during the call, and a `None` or a panic was a
  closure's during the call, unless the call began while the owner of its key was publishing that
  result (`ResultIsExplained`). After any run, a call that begins next can return a value never
  cached during it exactly when the owner is publishing it and it is no longer cached
  (`UnseenReturnIff`); `clear` leads there (`ClearHidesTheValue`). In a stretch of calls alone, two
  later calls can disagree exactly when the key is not cached and one of the two values is being
  published at its start (`DisagreementIff`).
- Hatch: the generation check accepts a parse exactly when whole turns of the 64-bit counter lie
  in between, and `StaleAfterFullWrap` reaches that state, so freshness is proved under the bound
  of fewer than 2^64 configures during one parse.
- Poetry: environments are sorted by executable and prefix but deduplicated by full equality, so a
  merge can keep duplicates. `MergeDuplicates` gives the exact condition.
- Interpreter cache: memory and file agree throughout a run exactly when no store or extension that
  fails to open the file would have changed it and no other writer puts something else there
  (`MemoryAndFileAgreeIff`); a second store that cannot open the file makes them differ
  (`FailedOpenDisagrees`).
- Interpreter spawns: one successful spawn per quiet stretch holds also after a `clear`, with one
  more for each call still working on an entry from before it (`SpawnsAreBounded`);
  any run that leaves such a call about to spawn, with nothing supplied under the path, goes on to
  two spawns (`LeftoverCallSpawnsToo`, reached by `TwoSpawnsAfterClear`).
- Globs: the documentation of `expand_braces` says that nested braces are not supported; the code
  does expand them, one group after the other. `has_brace_pattern` misses some nested patterns that
  do expand to several (`NestedPatternMissed`); `RecognisedIffSeveral` says exactly which, by
  the positions of braces and commas in the text.
- Conda: a child environment enumerates the same list as its install exactly when the `envs` folder
  can be read and lists the child, or the condarc names it (`ChildListsWhatInstallLists`); with an
  unreadable folder the two differ (`UnreadableEnvsDiffer`). A locator that full-syncs from itself
  empties its maps, because each map is cleared before it is copied. A read inside a load that
  fails for a moment between two equal fingerprints puts a wrong entry into the shared cache, and a
  later hit returns it (`FailedLookMisleads`).
- JSON-RPC: the read loop drops header lines in front of `Content-Length` but takes a header line
  behind it for the blank line, so the payload is shifted (`LineBehindLengthShifts`).

## Model

| member | source | states |
|---|---|---|
| SingleFlight.StepKeepsInv | crates/pet-core/src/cache.rs:59-256 | Every lock region of every call keeps the invariant: a slot names its live owner, a stored result is the owner's own, a waiter has a stored result or an owner that has not published, a sleeper has an owner that has not notified |
| SingleFlightRuns.ExclusiveOwner | crates/pet-core/src/cache.rs:173-228 | In every reachable state at most one call per key holds a slot, so at most one closure per key runs; the slot is that call's own entry and publishing, also on panic, removes that slot and no other |
| SingleFlightResults.ResultIsExplained | crates/pet-core/src/cache.rs:150-248 | In every interleaving, with `clear` and inserts anywhere, however a call ends, as hit, owner or waiter: a returned Some(v) was cached at a moment of the call, a None or panic was that of a closure of its key during the call, or the call began while the owner of its key was publishing that result |
| SingleFlightResults.ReturnedValueWasCachedOrPublishing | crates/pet-core/src/cache.rs:160-248 | The same for a call that returns Some(v): the cache mapped its key to v at a moment of the call, or the owner of its key was publishing v when it began |
| SingleFlightResults.ReturnedValueWasCachedDuringCall | crates/pet-core/src/cache.rs:173-206 | In any stretch without `clear` at whose start the key is cached or nobody is publishing v, a call that begins there and returns Some(v) has such a moment; a new cache is such a start |
| SingleFlightResults.UnseenReturnIff | crates/pet-core/src/cache.rs:230-256 | After any run, a next call can return a v that is never cached during it if and only if the owner of its key is publishing v and v is no longer cached |
| SingleFlightResults.OwnerSettles | crates/pet-core/src/cache.rs:180-206 | An owner that settles between two moments of a run settles on a value the cache holds in between, or on the None or panic of a closure in between |
| SingleFlightResults.WaitedForHeldSlot | crates/pet-core/src/cache.rs:208-228 | Whoever a call waits for, if it had begun, still had its slot to give up when that call began |
| SingleFlightResults.WaiterSeesOwnersResult | crates/pet-core/src/cache.rs:230-248 | In every interleaving a waiter that reads a stored result began while its owner was publishing it, or the result came about during its call |
| SingleFlightResults.AllResultsAgree | crates/pet-core/src/cache.rs:160-206 | In any stretch of `get_or_insert_with` actions, all Some results for one key of calls that begin there are equal, if at its start the key is cached or neither value is being published |
| SingleFlightResults.DisagreementIff | crates/pet-core/src/cache.rs:160-206 | After any run, two later calls can return different v and w, with calls alone acting, if and only if the key is not cached and v or w is being published |
| SingleFlightResults.ClearHidesTheValue | crates/pet-core/src/cache.rs:251-256 | For any key and value a complete interleaving with one `clear` in which a waiter returns a value the cache never held during its call |
| SingleFlightRuns.ClosureStartsOnMiss | crates/pet-core/src/cache.rs:178-187 | In every run a call comes to run its closure only while its key is not cached, by the second lookup |
| SingleFlightRuns.NoStartAfterSuccess | crates/pet-core/src/cache.rs:178-206 | Once a closure that started earlier has succeeded, no closure of its key starts before a `clear` |
| SingleFlightRuns.AtMostOneSuccess | crates/pet-core/src/cache.rs:173-206 | In a stretch without `clear`, any two successful closures of one key that started there are the same |
| SingleFlightRuns.MambaReportedAtMostOnce | crates/pet-conda/src/lib.rs:498-506 | In a stretch without `clear`, the set of successful closure returns, hence of mamba reports from the closure, for a conda directory has at most one element |
| SingleFlightRuns.WaiterHasOwnerOrResult | crates/pet-core/src/cache.rs:230-248 | No waiter is stranded: its result is stored or its owner is alive and unpublished; a sleeper's owner has still to notify |
| SingleFlightRuns.StepReducesWork | crates/pet-core/src/cache.rs:72-96 | Every action of a call lowers a measure, a new call adds eight and a spurious wake-up one, although publication is three separate regions |
| SingleFlightRuns.BoundedWork | crates/pet-core/src/cache.rs:72-96 | Over every run, steps made plus work left are at most eight per call plus one per spurious wake-up |
| SingleFlightRuns.NoDeadlock | crates/pet-core/src/cache.rs:230-248 | While any call is unfinished some call's own action is enabled, so with the bound every finite set of calls finishes once closures return |
| LocatorCaching.LocatorCache.Insert | crates/pet-core/src/cache.rs:127-132 | Returns the replaced value and changes that key only |
| LocatorCaching.LocatorCache.InsertMany | crates/pet-core/src/cache.rs:138-143 | All pairs in one write region, later pairs winning |
| SingleFlightRuns.InsertAllIs | crates/pet-core/src/cache.rs:138-143 | After `insert_many` each given key has the value of its last pair and every other key is as it was |
| LocatorCaching.LocatorCache.ClaimInFlight | crates/pet-core/src/cache.rs:208-228 | The caller owns the slot exactly when nobody held it, and otherwise gets the holder's entry |
| LocatorCaching.LocatorCache.Publish | crates/pet-core/src/cache.rs:72-87 | The result is stored under the owner's entry and the key's slot is gone |
| LocatorCaching.LocatorCache.WaitForInFlight | crates/pet-core/src/cache.rs:230-248 | A stored result is returned at once and untouched, otherwise what the holder of the slot publishes meanwhile |
| LocatorCaching.LocatorCache.GetOrInsertWith | crates/pet-core/src/cache.rs:160-206 | A cached value is returned with everything untouched; an owner returns the closure's outcome, caches only Some and leaves the slot table as it began also after a panic; a waiter returns the holder's result and caches nothing |
| LocatorCaching.LocatorCache.Clear | crates/pet-core/src/cache.rs:251-256 | Empties the cache and leaves in-flight slots and results alone |
| HatchCache.StepKeepsInv | crates/pet-hatch/src/lib.rs:157-205 | Every critical section keeps: the counter is the number of configures modulo 2^64, cached keys are configured, each parse's reads follow its snapshot |
| HatchCache.CachedEntriesAreFresh | crates/pet-hatch/src/lib.rs:157-205 | In every interleaving, every read behind a cached entry was made after the latest `configure`, if fewer than 2^64 configures fall into a single parse |
| HatchCache.GenerationCheckIsExact | crates/pet-hatch/src/lib.rs:178-184 | The comparison of generations succeeds exactly when a whole number of turns of the counter has passed since the snapshot |
| HatchCache.StaleAfterFullWrap | crates/pet-hatch/src/lib.rs:245-247 | A run of exactly one full turn during one parse that leaves a stale entry in the cache |
| HatchCache.CachedKeysAreConfigured | crates/pet-hatch/src/lib.rs:185-203 | Only configured workspaces are ever cached |
| HatchCache.ParsesAreBounded | crates/pet-hatch/src/lib.rs:157-205 | A call parses at most once plus once per `configure` that overlaps it |
| HatchCache.SameEpochSameEntry | crates/pet-hatch/src/lib.rs:194-203 | All calls on a configured workspace that finish between two configures return the identical entry |
| HatchCache.FinishedEntryIs | crates/pet-hatch/src/lib.rs:157-205 | A call ends with the cached entry if there is one, and otherwise with exactly its own parse |
| HatchCache.ParseIsItsReads | crates/pet-hatch/src/lib.rs:169-175 | In every run a parse consists of exactly the reads its call made since the look that started it, in order |
| HatchCache.ReturnedEntriesAreFresh | crates/pet-hatch/src/lib.rs:157-205 | In every interleaving, whatever a call returns, cached or for a workspace no longer configured, was read entirely after the latest `configure`, under the same bound |
| HatchCache.CachedCallDoesNotParse | crates/pet-hatch/src/lib.rs:161-168 | A call that begins with its workspace cached and meets no `configure` returns that entry without parsing |
| HatchCache.Hatch.Configure | crates/pet-hatch/src/lib.rs:221-248 | Moves the generation with wrap-around, replaces the workspaces, drops every parsed entry |
| HatchCache.Hatch.WorkspaceEntry | crates/pet-hatch/src/lib.rs:157-205 | The retry loop with configures and other callers' commits before any look and during any parse: it parses at most once plus once per interfering configure; without configures a cached entry is returned without parsing; undisturbed it caches exactly configured workspaces; a configured workspace ends up cached with the returned entry |
| CondaInfoCache.EqualFingerprintsPin | crates/pet-conda/src/lib.rs:89-101 | Two equal fingerprints, each of two separate reads, fix the state of `conda-meta` and `history` at every moment between the first one's last read and the second one's first |
| CondaInfoCache.EqualFingerprintsJustify | crates/pet-conda/src/lib.rs:191-210 | A load between two equal fingerprints whose reads saw the disk yields what the fingerprinted state loads to, whatever the disk did around it |
| CondaInfoCache.HitIsFresh | crates/pet-conda/src/lib.rs:175-189 | A fingerprint match is justified at a moment inside the call that found it |
| CondaInfoCache.StepKeepsInv | crates/pet-conda/src/lib.rs:167-216 | Disk changes, fingerprint reads, lookups, loads, inserts, removals and `retain` all keep the invariant on disk, calls and the shared map |
| CondaInfoCache.HitEqualsFreshLoad | crates/pet-conda/src/lib.rs:167-216 | In every interleaving, fingerprint reads failing anywhere, a cache hit equals a fresh load of the caller's own path at some moment during the call, unless a read failed for a moment inside the load that filled the entry |
| CondaInfoCache.CalmWithoutFailures | crates/pet-conda/src/lib.rs:191-210 | Without such a failure in the run no hit is excepted |
| CondaInfoCache.FailedLookMisleads | crates/pet-conda/src/lib.rs:191-210 | For any loader that yields something else when `history` cannot be read, a run over an unchanged disk in which one such failure leads to a hit that no fresh load would give |
| CondaInfoCache.CachedDetailsMatchFingerprint | crates/pet-conda/src/lib.rs:203-210 | Every entry filled by such a load is what its fingerprint loads to, for every spelling of its prefix |
| CondaInfoCache.FingerprintIs | crates/pet-conda/src/lib.rs:89-101 | Read from an unchanging prefix both fingerprints are: nothing if `conda-meta` is not there or `history` cannot be read, otherwise the two stamps, `history` absent included |
| CondaInfoCache.LoadedCallReturns | crates/pet-conda/src/lib.rs:191-216 | In every run a call whose load returned something returns it under its own path, and one whose load failed returns nothing |
| CondaInfoCache.InfoCache.GetOrLoad | crates/pet-conda/src/lib.rs:167-216 | One undisturbed call: hit without loading and with the caller's spelling; otherwise insert after two equal fingerprints, remove in every other case including a failed load |
| CondaInfoCache.InfoCache.Retain | crates/pet-conda/src/lib.rs:520-523 | Keeps exactly the entries of active prefixes, unchanged |
| InterpreterCache.MemoryAnswers | crates/pet-python-utils/src/cache.rs:148-202 | With a memory copy whose existing tracked files all have the recorded modification time and, where recorded, creation time, `get` returns it and changes nothing; missing files do not matter |
| InterpreterCache.FileAnswers | crates/pet-python-utils/src/fs_cache.rs:41-90 | Otherwise `get` answers exactly from a cache file that survives validation, lists the executable and whose files all exist as recorded, and fills memory from it; without one it answers nothing, drops memory and removes only an outdated file of its own |
| InterpreterCache.StoreRecords | crates/pet-python-utils/src/cache.rs:216-248 | `store` keeps the environment in memory and tracks exactly its listed files that have a modification time, with their times |
| InterpreterCache.TrackAdds | crates/pet-python-utils/src/cache.rs:250-284 | With a path not tracked yet and a usable file, memory and the written file hold the file's environment with exactly the given paths added |
| InterpreterCache.TrackOnlyValidates | crates/pet-python-utils/src/cache.rs:250-284 | In every other case `track_symlinks` only validates, and removes only what validation or an outdated file calls for |
| InterpreterCache.RunIsExplained | crates/pet-python-utils/src/cache.rs:148-284 | After any run, each copy of the entry is what the run started with or what one of its steps supplied, with the times recorded at that step |
| InterpreterCache.HitIsJustified | crates/pet-python-utils/src/cache.rs:186-214 | After any run, writes failing and files overwritten anywhere, a result of `get` was there at the start or supplied by a step; each of its files recorded at that step that still exists has the times it had then, and unless memory answers all exist and the executable is listed, so a colliding file never answers |
| InterpreterCache.StoredUnchanged | crates/pet-python-utils/src/cache.rs:216-231 | The times recorded by `store` are those of existing files, also after sorting and dedup |
| InterpreterCache.StoredIsReadBack | crates/pet-python-utils/src/fs_cache.rs:41-121 | After a restart with unchanged files the stored environment is returned exactly, if and only if it lists the executable |
| InterpreterCache.StepInSyncIff | crates/pet-python-utils/src/cache.rs:148-284 | For every step on an entry in sync, a condition on the step and the entry that holds if and only if memory and file agree afterwards: for store, for track_symlinks, for another writer |
| InterpreterCache.MemoryAndFileAgreeIff | crates/pet-python-utils/src/cache.rs:148-284 | Over every run, memory and file agree at every moment if and only if every step meets that condition |
| InterpreterCache.FailedOpenDisagrees | crates/pet-python-utils/src/fs_cache.rs:92-121 | Two stores of different environments, the second unable to open the file, leave memory and file apart |
| InterpreterCache.MemoryAndFileAgree | crates/pet-python-utils/src/cache.rs:148-284 | In particular over every run of get, store, track, restart and file changes in which no other writer replaces the cache file and writes can open it |
| InterpreterCache.MemoryListsExecutable | crates/pet-python-utils/src/cache.rs:148-284 | Over every run, with files overwritten by colliding entries and writes failing anywhere, the memory copy lists the entry's own executable |
| InterpreterCache.TrackListsExecutable | crates/pet-python-utils/src/cache.rs:250-284 | `track_symlinks` never brings in an environment that does not list the executable |
| InterpreterCache.CacheEntry.VerifyInMemoryCache | crates/pet-python-utils/src/cache.rs:148-182 | The loop over tracked files drops memory and file exactly if some existing file has other times |
| InterpreterCache.CacheEntry.ReadFile | crates/pet-python-utils/src/fs_cache.rs:41-90 | Hits exactly for a readable file of this executable with all tracked files unchanged; removes only an outdated file of its own |
| InterpreterCache.CacheEntry.DeleteFile | crates/pet-python-utils/src/fs_cache.rs:36-39 | The file is gone if removal succeeds and untouched otherwise |
| InterpreterCache.CacheEntry.Get | crates/pet-python-utils/src/cache.rs:186-214 | The new memory, tracked times, file and result, on every path |
| InterpreterCache.CacheEntry.Store | crates/pet-python-utils/src/cache.rs:216-248 | The new memory, sorted tracked times and file for each way a write can end |
| InterpreterCache.CacheEntry.TrackSymlinks | crates/pet-python-utils/src/cache.rs:250-284 | Known paths change nothing beyond validation; new ones extend what the file holds and are stored again |
| InterpreterSpawns.StepKeepsLocks | crates/pet-python-utils/src/cache.rs:104-123 | Every action, `clear` included, keeps: a call works on an entry of its own executable, and past the lock it holds that entry's lock |
| InterpreterSpawns.StepKeepsBound | crates/pet-python-utils/src/env.rs:80-95 | Every action that neither clears nor invalidates keeps: at most one more successful spawn beyond those of leftover calls, and its result is usable in memory or about to be stored by the lock's holder |
| InterpreterSpawns.OneThreadPerExecutable | crates/pet-python-utils/src/env.rs:80-95 | In every run at most one call per entry, hence one per executable on its listed entry, is between lookup and store |
| InterpreterSpawns.SpawnsAreBounded | crates/pet-python-utils/src/env.rs:80-95 | In any run, `clear` included, a stretch without a further `clear` in which no file tracked for the path gets other times has at most one successful spawn of it, plus one per call left over on an entry that is no longer listed |
| InterpreterSpawns.AtMostOneSpawn | crates/pet-python-utils/src/env.rs:80-95 | With no such leftover call at its start the stretch has at most one, across any number of threads and whatever happens to cache files and other executables |
| InterpreterSpawns.NoneStaleWithoutClear | crates/pet-python-utils/src/cache.rs:90-103 | Only a `clear` leaves such calls over |
| InterpreterSpawns.LeftoverCallSpawnsToo | crates/pet-python-utils/src/env.rs:80-95 | After any run that leaves a call about to spawn on an entry no longer listed, with the listed one not supplied, some quiet continuation has two successful spawns |
| InterpreterSpawns.TwoSpawnsAfterClear | crates/pet-python-utils/src/cache.rs:90-103 | For every executable a run with one `clear` that reaches such a state and has the two spawns |
| InterpreterSpawns.LaterCallsHitTheCache | crates/pet-python-utils/src/env.rs:80-95 | After that spawn every later lookup of the stretch finishes from the cache with the listed entry's environment |
| InterpreterSpawns.SpawnedCallReturns | crates/pet-python-utils/src/env.rs:90-92 | In every run a call whose spawn succeeded with an environment goes on to return that environment |
| InterpreterSpawns.FailedSpawnReturnsNone | crates/pet-python-utils/src/env.rs:93-95 | A call whose spawn failed returns nothing |
| InterpreterSpawns.LaterCallsReturnTheStored | crates/pet-python-utils/src/env.rs:86-92 | In every run, `clear` included, once a spawned environment is stored every later lookup in that entry returns exactly it from the cache, until a tracked file gets other times or symlinks are added |
| InterpreterSpawns.EntryFollows | crates/pet-python-utils/src/cache.rs:186-284 | Each action does to each entry, with its file, exactly what one operation on that entry alone does; another entry of the same hash acts as a foreign writer |
| InterpreterSpawns.LookupIsJustified | crates/pet-python-utils/src/cache.rs:186-214 | So a lookup by any thread in any run returns what an earlier step on its entry supplied, with the files' times kept since |
| BraceExpansion.ExpandBracesInner | crates/pet-fs/src/glob.rs:68-101 | The capped accumulator ends as its old contents extended by the uncapped expansion and cut at 1024, for every pattern and every start |
| BraceExpansion.ExpandBraces | crates/pet-fs/src/glob.rs:62-66 | The result is the first min(1024, n) elements, in order, of the uncapped expansion; it is not empty and no element has a `{` with a later `}` |
| BraceExpansion.SplitJoins | crates/pet-fs/src/glob.rs:86-88 | The alternatives are the text between the commas: in order and joined with commas they give it back, and none contains a comma |
| BraceExpansion.JoinSplits | crates/pet-fs/src/glob.rs:86-88 | No other list of comma-free pieces does |
| BraceExpansion.GroupExpandsInOrder | crates/pet-fs/src/glob.rs:84-100 | A group of any plain alternatives between texts without `{` expands to them in the order in which it lists them |
| BraceExpansion.ProductAt | crates/pet-fs/src/glob.rs:58-61 | Which combination stands where: the first group's alternatives in order, the rest varying faster |
| BraceExpansion.ExpandIsNonEmpty | crates/pet-fs/src/glob.rs:68-101 | Every pattern, balanced or not, expands to something |
| BraceExpansion.ExpandLeavesNoGroup | crates/pet-fs/src/glob.rs:68-101 | No element of the expansion has a `{` with a later `}` |
| BraceExpansion.ExpandBehind | crates/pet-fs/src/glob.rs:84-100 | Text without `{` in front of a pattern is prepended to each expansion |
| BraceExpansion.ExpandIsProduct | crates/pet-fs/src/glob.rs:82-100 | A first group without nesting expands to the ordered product of its alternatives with the expansions of the rest |
| BraceExpansion.ExpansionSize | crates/pet-fs/src/glob.rs:68-101 | Without nesting the number of elements is the product over groups of commas plus one |
| BraceExpansion.HasBracePattern | crates/pet-fs/src/glob.rs:31-45 | The scan answers true exactly when a comma follows a `{` with no `}` between them and a `}` behind, which is when the product over groups is at least two; for patterns without nesting exactly when the expansion has two or more elements, and for all patterns only then |
| BraceExpansion.CommaGroupExpands | crates/pet-fs/src/glob.rs:31-45 | A recognised pattern, nested or not, expands to at least two |
| BraceExpansion.ExpandsIffDeepComma | crates/pet-fs/src/glob.rs:68-101 | A pattern, nested or unbalanced, expands to several exactly when a comma lies at positive brace depth with a `}` still to come |
| BraceExpansion.CommaGroupIff | crates/pet-fs/src/glob.rs:31-45 | The left-to-right scan over groups succeeds exactly on texts with `{`, `,`, `}` in this order and no `}` between the first two |
| BraceExpansion.RecognisedIffSeveral | crates/pet-fs/src/glob.rs:31-45 | Recognition and expansion agree exactly on texts with such a comma and on texts with no comma inside an open brace at all |
| BraceExpansion.NestedPatternMissed | crates/pet-fs/src/glob.rs:31-45 | A nested pattern that expands to several without being recognised |
| EnvironmentBuilder.SortHeadIsFirstShortest | crates/pet-core/src/python_environment.rs:398-413 | The stable sort by length puts the first of the shortest paths in front |
| EnvironmentBuilder.ShortestExecutableIsMember | crates/pet-core/src/python_environment.rs:368-413 | A choice exists exactly for a non-empty list: the first Store executable where one is wanted and present, otherwise the first of the shortest |
| EnvironmentBuilder.BuiltListsSupplied | crates/pet-core/src/python_environment.rs:306-363 | After any sequence of calls the symlinks are exactly the supplied paths, strictly ascending; the executable is the one preferred member of that list, present exactly when the last `executable` call gave one |
| EnvironmentBuilder.BuildDependsOnSetOnly | crates/pet-core/src/python_environment.rs:252-363 | Call sequences that supply the same set of paths build the same environment |
| EnvironmentBuilder.RebuildIsIdentity | crates/pet-core/src/python_environment.rs:226-240 | `from_environment` followed by `build` returns a built environment unchanged |
| EnvironmentBuilder.Builder.SetExecutable | crates/pet-core/src/python_environment.rs:252-263 | The new draft after an `executable` call, None included |
| EnvironmentBuilder.Builder.SetSymlinks | crates/pet-core/src/python_environment.rs:296-299 | The new draft after a `symlinks` call |
| EnvironmentBuilder.Builder.UpdateSymlinksAndExe | crates/pet-core/src/python_environment.rs:306-328 | Symlinks and executable of the draft after the in-place sort, dedup and choice |
| EnvironmentBuilder.Builder.Build | crates/pet-core/src/python_environment.rs:330-363 | The built environment as a function of the draft |
| Ordering.SortDedupStrict | crates/pet-core/src/python_environment.rs:314-315 | Sorting by a total order and dropping repeats gives a strictly ascending list of the same elements |
| Ordering.StrictlySortedUnique | crates/pet-core/src/python_environment.rs:338-339 | A strictly ascending list is determined by its elements |
| Ordering.SortKeepsOrder | crates/pet-core/src/python_environment.rs:400-405 | The sort is a permutation that keeps the elements of each key in their order |
| Ordering.SortDedupDistinctIff | crates/pet-poetry/src/lib.rs:195-196 | With a key coarser than equality, sort and dedup leave no duplicates exactly when each element that recurs directly follows itself among those of its key |
| LinuxGlobal.Resolved | crates/pet-fs/src/path.rs:388-414 | `resolve_symlink` or else `canonicalize` is always the canonical path |
| LinuxGlobal.KnownSymlinks | crates/pet-linux-global-python/src/lib.rs:184-220 | What is collected before the scan, and the real file when it lies in another directory |
| LinuxGlobal.CollectSymlinks | crates/pet-linux-global-python/src/lib.rs:222-247 | The scan over a list that grows while it is consulted collects a set that does not depend on the order of the directory |
| LinuxGlobal.CollectedAreTheAliases | crates/pet-linux-global-python/src/lib.rs:178-264 | The collected Python executables of the directory are exactly those with the executable's real file |
| LinuxGlobal.CollectedIs | crates/pet-linux-global-python/src/lib.rs:178-249 | For given symlinks of any kind: the given paths, the executable and its real file in the directory are collected, and of the directory's files exactly those whose real file is one of these or the executable's |
| LinuxGlobal.GetPythonInBin | crates/pet-linux-global-python/src/lib.rs:178-264 | An environment exactly when version, prefix and parent exist; its symlinks are the collected set in ascending order and its executable is the first of the shortest of them |
| LinuxGlobal.TableStepKeepsInv | crates/pet-linux-global-python/src/lib.rs:112-128 | Reporting, `clear` and each of the two separate inserts of `try_from` keep: a key is a symlink of its own environment |
| LinuxGlobal.KeysAreOwnSymlinks | crates/pet-linux-global-python/src/lib.rs:143-176 | In every interleaving each key of `reported_executables` is one of its own environment's symlinks |
| LinuxGlobal.ReportInserts | crates/pet-linux-global-python/src/lib.rs:158-168 | A report makes every symlink and the executable keys of the new environment and changes no other key |
| LinuxGlobal.TryFromUpdatesBoth | crates/pet-linux-global-python/src/lib.rs:112-128 | A `try_from` found under the canonical path answers with that environment plus the given path, and both paths then lead to that answer |
| CondaLocations.GetEnvironments | crates/pet-conda/src/environment_locations.rs:233-300 | The in-place collection computes the enumeration the lemmas are about, on every file tree; it recurses at most one level, exactly for an environment in the `envs` folder of an install |
| CondaLocations.CollectEnvs | crates/pet-conda/src/environment_locations.rs:239-247 | The conda environments among a directory's entries, in order, nothing when it cannot be read |
| CondaLocations.EnvironmentsStrictlySorted | crates/pet-conda/src/environment_locations.rs:297-299 | The enumeration is strictly ascending |
| CondaLocations.InstallEnumerates | crates/pet-conda/src/environment_locations.rs:236-251 | An install lists itself, the conda environments in its `envs` folder and its condarc directories, and nothing else |
| CondaLocations.LoneEnvironmentEnumerates | crates/pet-conda/src/environment_locations.rs:252-270 | An environment outside the `envs` folder of an install enumerates only itself |
| CondaLocations.PlainDirectoryEnumerates | crates/pet-conda/src/environment_locations.rs:271-295 | A directory that is neither enumerates the environments in its `envs` folder if that exists, readable or not, and otherwise those in itself |
| CondaLocations.InstallsAreNotNested | crates/pet-conda/src/utils.rs:7-31 | What looks installed is an install exactly when nothing two levels up looks installed |
| CondaLocations.ChildListsWhatInstallLists | crates/pet-conda/src/environment_locations.rs:252-270 | `root/envs/x` enumerates what `root` does exactly when the `envs` folder can be read and lists the child, or the condarc of `root` names it |
| CondaLocations.UnreadableEnvsDiffer | crates/pet-conda/src/environment_locations.rs:239-247 | A tree with an unreadable `envs` folder on which the two enumerations differ |
| RefreshSync.NewestSourceWins | crates/pet-conda/src/lib.rs:352-388 | After any history a map holds exactly the keys supplied since the last full sync, each from the newest source that has it; no other sync loses a key |
| RefreshSync.Conda.SyncRefreshStateFrom | crates/pet-conda/src/lib.rs:352-388 | All three maps after one sync, for every scope and for a source that is the locator itself |
| RefreshSync.UnionSinceReplacement | crates/pet-poetry/src/lib.rs:278-295 | After any history the managers and environments are, as sets, the union of the sources since the last replacing sync |
| RefreshSync.MergeDuplicates | crates/pet-poetry/src/lib.rs:173-199 | A merge leaves managers strictly ascending and environments sorted; environments are duplicate-free if and only if each that recurs directly follows itself among those of its executable and prefix |
| RefreshSync.MergeDistinctWhenKeyed | crates/pet-core/src/python_environment.rs:82-95 | Where executable and prefix determine the environment a merge is duplicate-free |
| RefreshSync.MergeCanKeepDuplicates | crates/pet-core/src/python_environment.rs:82-95 | Any two different environments with the same executable and prefix can make a duplicate survive |
| RefreshSync.Poetry.MergeSearchResultFrom | crates/pet-poetry/src/lib.rs:173-199 | The merged result, unchanged when the source has none |
| RefreshSync.Poetry.SyncRefreshStateFrom | crates/pet-poetry/src/lib.rs:278-295 | Replace, merge or keep, by scope |
| Utf8.BoundaryIff | crates/pet-conda/src/environments.rs:220 | A byte offset is a character boundary exactly when the text splits there into two valid UTF-8 texts (section 4 of RFC 3629) |
| Utf8.TrimEmptyIff | crates/pet-conda/src/environments.rs:220-221 | Trimming leaves nothing exactly of all-white text |
| Utf8.TrimIsExact | crates/pet-conda/src/environments.rs:220 | Trimming cuts white text off both ends, nothing else, and leaves none there |
| Utf8.WhiteFrontIff | crates/pet-conda/src/environments.rs:220 | A character counts as white exactly when its code point has the Unicode property White_Space |
| CondaHistory.MarkersSpell | crates/pet-conda/src/environments.rs:218-219 | The two byte sequences searched for spell `# cmd:` and ` create -` |
| CondaHistory.MatchOnBoundaries | crates/pet-conda/src/environments.rs:210-215 | In valid UTF-8 every ASCII case-insensitive match starts and ends on character boundaries |
| CondaHistory.OffsetsOnBoundaries | crates/pet-conda/src/environments.rs:217-220 | Both offsets used for slicing are in range and on character boundaries |
| CondaHistory.ExtractionIsExact | crates/pet-conda/src/environments.rs:217-222 | Extraction succeeds exactly when both markers are present, in order, not overlapping, with non-white text between them; the result is that text trimmed, valid, not empty and without white text at either end |
| JsonRpcFraming.Serve | crates/pet-jsonrpc/src/server.rs:107-139 | The read loop delivers the decoding of the stream, malformed and truncated input included |
| JsonRpcFraming.HeaderSpells | crates/pet-jsonrpc/src/server.rs:153-154 | The byte sequence searched for spells `Content-Length: ` |
| JsonRpcFraming.HeaderAnnounces | crates/pet-jsonrpc/src/server.rs:151-169 | The header line written for a body is one line of text whose content length is read back |
| JsonRpcFraming.ParseUsizeIs | crates/pet-jsonrpc/src/server.rs:155-156 | A length is an optional plus sign and decimal digits of positional value below 2^64, leading zeros included, and nothing else |
| JsonRpcFraming.ContentLengthIs | crates/pet-jsonrpc/src/server.rs:151-156 | A line announces what follows the first header text in it, wherever that stands |
| JsonRpcFraming.SilentLineDropped | crates/pet-jsonrpc/src/server.rs:132-137 | A line that is not UTF-8 or announces nothing readable is dropped and changes nothing |
| JsonRpcFraming.CutBodyNotDelivered | crates/pet-jsonrpc/src/server.rs:119-131 | A body cut short by the end of the stream is not delivered, nor any part of it |
| JsonRpcFraming.FrameDelivers | crates/pet-jsonrpc/src/server.rs:110-131 | One frame delivers exactly its body and leaves the rest of the stream untouched |
| JsonRpcFraming.LineDropped | crates/pet-jsonrpc/src/server.rs:151-169 | A line that nowhere contains the header text, whatever else it holds, is dropped and changes nothing |
| JsonRpcFraming.StreamDelivers | crates/pet-jsonrpc/src/server.rs:107-139 | Every sequence of messages, each with its own line ends, other header lines in front of the length and any bytes in the body, newlines and header text included, is decoded into exactly the bodies in order |
| JsonRpcFraming.LineBehindLengthShifts | crates/pet-jsonrpc/src/server.rs:116-121 | A header line behind the length is taken for the blank line: the payload starts with the real one, and is wrong for every body that does not start like a line end |

## Left out

- Process spawning, timeouts and command output: a spawn is an action that fails or yields an arbitrary result.
- JSON, TOML, YAML and condarc parsing, SHA-256, base64: arbitrary functions; the file name hash may collide at will.
- Windows paths, registry and Store lookups: `norm_case` is the identity or an arbitrary function, the Store rule an arbitrary predicate on paths.
- Path comparison: path equality is identity, and the order of paths is any total order.
- Lock poisoning other than a panicking closure in `LocatorCache`.
- Re-entering a `LocatorCache` from a closure for the same key, which its documentation forbids.
- `LocatorCache` allocation: an in-flight entry is named by the call that allocates it instead of by a shared reference.
- `set_cache_directory` and the global search locations: their check and update are separate lock regions, so no atomicity is claimed; a cache directory is set from the start or never.
- CondaInfoCache.HitEqualsFreshLoad: assumes that a changed stamp is never reused, that creating or deleting `history` changes the stamp of `conda-meta`, and that a path and its normalised form name one directory. Results of calls that load are not constrained, since a load may see several states of the disk.
- HatchCache.CachedEntriesAreFresh: assumes fewer than 2^64 configures during one parse; `StaleAfterFullWrap` shows that the bound is needed.
- InterpreterCache: tracked files are taken as constant during one operation of one entry; they may change between any two.
- InterpreterSpawns.AtMostOneSpawn: needs that no call is left over from before a `clear`; `SpawnsAreBounded` covers the others. The cache file of one operation is written atomically with it; `clear` is two separate actions.
- LinuxGlobal.CollectedAreTheAliases: needs a canonicalisation that is idempotent and succeeds on the executable, and given symlinks that are already its aliases.
- JsonRpcFraming.Serve: payloads are delivered as bytes; replacing invalid UTF-8 in a payload and dispatching it are not modelled.
- The order of environments as a formatted string of executable and prefix: taken as any total preorder.
- Which executables a scan of a bin directory spawns: a report is an action with any environment whose executable is among its symlinks.
- Reporters, logging, telemetry, search path lists, locator kinds and path-shape predicates: they would add only easy members.
