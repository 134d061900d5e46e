/**
  The fingerprint-validated environment cache that Conda locators share
  (crates/pet-conda/src/lib.rs). A fingerprint is two separate reads, first of
  `conda-meta/history`, then of `conda-meta`; it is taken before and after a load while other
  instances insert, remove and `retain` entries of the same map.

  The disk is kept as its whole history, one snapshot per change, so that "at some moment during
  the call" is an index into it. Calls note the index of each of their reads; nothing they do
  depends on those notes.
 */
module CondaInfoCache {
  import opened Prelude

  /** The metadata of one file or directory. A stamp is its modification time and length. */
  datatype FileState = Missing | Present(stamp: nat) | Failing

  /** `conda-meta` and its `history` file under one prefix, with the stamps each has ever had. */
  datatype PrefixDisk = PrefixDisk(
    meta: FileState, history: FileState, usedMeta: set<nat>, usedHistory: set<nat>)

  const NOTHING := PrefixDisk(Missing, Missing, {}, {})

  /** What a read that fails for a moment sees. */
  const UNREADABLE := PrefixDisk(Failing, Failing, {}, {})

  /** `CondaEnvironmentFingerprint`. */
  datatype Fingerprint = Fingerprint(meta: nat, history: Option<nat>)

  datatype Details<+P, +B> = Details(prefix: P, body: B)

  datatype Cached<+P, +B> = Cached(fingerprint: Fingerprint, details: Details<P, B>)

  /**
    `norm` is `norm_case`. `body(k, m, h)` is what a load of prefix `k` yields, apart from the
    spelling of the prefix, when everything it reads of `conda-meta` and `history` is `m` and `h`.
   */
  datatype World<!P, !K, !B> = World(
    norm: P -> K, body: (K, FileState, FileState) -> Option<B>)

  /** One thing a load looked at, and when. */
  datatype Look = SawMeta(state: FileState, at: nat) | SawHistory(state: FileState, at: nat)

  /** Where one `get_or_load_environment_details(path)` call stands. */
  datatype Pc<+P, +B> =
    | ReadHistory
    | ReadMeta(h: Option<nat>, t0: nat)
    | LookUp(before: Option<Fingerprint>, t0: nat, t1: nat)
    | Loading(before: Option<Fingerprint>, t0: nat, t1: nat, looks: seq<Look>)
    | Removing
    | ReadHistoryAgain(before: Option<Fingerprint>, t0: nat, t1: nat, looks: seq<Look>, loaded: B)
    | ReadMetaAgain(before: Option<Fingerprint>, t0: nat, t1: nat, looks: seq<Look>, loaded: B,
                    h: Option<nat>, t2: nat)
    | Committing(before: Option<Fingerprint>, t0: nat, t1: nat, looks: seq<Look>, loaded: B,
                 after: Option<Fingerprint>, t2: nat, t3: nat)
    | Done(result: Option<Details<P, B>>, hit: bool, disturbed: bool, end: nat)

  datatype Call<+P, +B> = Call(path: P, start: nat, pc: Pc<P, B>)

  /** `disturbed` notes the keys whose entry was loaded while a read of the load failed for a moment. */
  datatype State<P, K, B> = State(
    snapshots: seq<map<K, PrefixDisk>>, cache: map<K, Cached<P, B>>, calls: seq<Call<P, B>>, disturbed: set<K>)

  datatype Action<P, K, B> =
    | ChangeDisk(key: K, disk: PrefixDisk)
    | Begin(path: P)
    | Fingerprinting(c: nat, fails: bool)   // the next of the four fingerprint reads, which may fail
    | Consult(c: nat)                    // the read region of the cache
    | LookAtMeta(c: nat, fails: bool)
    | LookAtHistory(c: nat, fails: bool)
    | LoadReturns(c: nat, loaded: Option<B>)
    | Commit(c: nat)                     // the write region of the cache
    | Retain(keys: set<K>)

  // ----- the disk and how it may change -----

  function At<P, K, B>(s: State<P, K, B>, t: nat, k: K): PrefixDisk
    requires t < |s.snapshots|
  {
    if k in s.snapshots[t] then s.snapshots[t][k] else NOTHING
  }

  /** A changed file gets a stamp it never had before, or becomes unavailable. */
  predicate FileEvolves(f: FileState, used: set<nat>, f': FileState, used': set<nat>) {
    || (f' == f && used' == used)
    || (if f'.Present? then f'.stamp !in used && used' == used + {f'.stamp} else used' == used)
  }

  /** Creating or deleting `history` changes the directory `conda-meta` too. */
  predicate Evolves(d: PrefixDisk, d': PrefixDisk) {
    && FileEvolves(d.meta, d.usedMeta, d'.meta, d'.usedMeta)
    && FileEvolves(d.history, d.usedHistory, d'.history, d'.usedHistory)
    && (d.history.Missing? != d'.history.Missing? ==> d'.meta != d.meta)
  }

  /** The stamp part of a read of `history`: `None` if it failed, `Some(None)` if absent. */
  function HistoryRead(f: FileState): Option<Option<nat>> {
    match f
    case Missing => Some(None)
    case Present(x) => Some(Some(x))
    case Failing => None
  }

  function Matching(h: Option<nat>): FileState {
    if h.Some? then Present(h.value) else Missing
  }

  function MetaRead(f: FileState, h: Option<nat>): Option<Fingerprint> {
    if f.Present? then Some(Fingerprint(f.stamp, h)) else None
  }

  /** What a load made in one instant would return. */
  function FreshLoad<P, K, B>(w: World<P, K, B>, path: P, d: PrefixDisk): Option<Details<P, B>> {
    var b := w.body(w.norm(path), d.meta, d.history);
    if b.Some? then Some(Details(path, b.value)) else None
  }

  predicate Saw(looks: seq<Look>, m: FileState, h: FileState) {
    forall i :: 0 <= i < |looks| ==>
      (if looks[i].SawMeta? then looks[i].state == m else looks[i].state == h)
  }

  /** A load's result depends on nothing but what it looked at. */
  ghost predicate Explains<P, K, B>(w: World<P, K, B>, k: K, looks: seq<Look>, r: Option<B>) {
    forall m, h :: Saw(looks, m, h) ==> r == w.body(k, m, h)
  }

  /** Every look saw what the disk then was. */
  ghost predicate LooksTrue<P, K, B>(s: State<P, K, B>, k: K, looks: seq<Look>) {
    forall i :: 0 <= i < |looks| && looks[i].at < |s.snapshots| ==>
      var d := At(s, looks[i].at, k);
      looks[i].state == if looks[i].SawMeta? then d.meta else d.history
  }

  // ----- the transition system -----

  function Init<P, K, B>(): State<P, K, B> {
    State([map[]], map[], [], {})
  }

  ghost predicate Enabled<P, K, B>(w: World<P, K, B>, s: State<P, K, B>, a: Action<P, K, B>) {
    && s.snapshots != []
    && match a
       case ChangeDisk(k, d) => Evolves(At(s, |s.snapshots| - 1, k), d)
       case Begin(_) => true
       case Retain(_) => true
       case Fingerprinting(c, _) =>
         c < |s.calls| &&
         var pc := s.calls[c].pc;
         pc.ReadHistory? || pc.ReadMeta? || pc.ReadHistoryAgain? || pc.ReadMetaAgain?
       case Consult(c) => c < |s.calls| && s.calls[c].pc.LookUp?
       case LookAtMeta(c, _) => c < |s.calls| && s.calls[c].pc.Loading?
       case LookAtHistory(c, _) => c < |s.calls| && s.calls[c].pc.Loading?
       case LoadReturns(c, r) =>
         c < |s.calls| && s.calls[c].pc.Loading? &&
         Explains(w, w.norm(s.calls[c].path), s.calls[c].pc.looks, r)
       case Commit(c) => c < |s.calls| && (s.calls[c].pc.Removing? || s.calls[c].pc.Committing?)
  }

  /** The read region: the key is cached under the fingerprint just taken. */
  predicate IsHit<P, K, B>(cache: map<K, Cached<P, B>>, k: K, before: Option<Fingerprint>) {
    before.Some? && k in cache && cache[k].fingerprint == before.value
  }

  /** The write region: insert after two equal fingerprints, otherwise remove. */
  function Committed<P, K, B>(
      cache: map<K, Cached<P, B>>, k: K,
      before: Option<Fingerprint>, loaded: Option<Details<P, B>>, after: Option<Fingerprint>): map<K, Cached<P, B>>
  {
    if loaded.Some? && before.Some? && before == after
    then cache[k := Cached(before.value, loaded.value)] else cache - {k}
  }

  /** The clean-up of `find`: entries of other prefixes go. */
  function Retained<P, K, B>(cache: map<K, Cached<P, B>>, keys: set<K>): map<K, Cached<P, B>> {
    map k | k in cache && k in keys :: cache[k]
  }

  function NextRead<P, B>(pc: Pc<P, B>, d: PrefixDisk, now: nat): Pc<P, B>
    requires pc.ReadHistory? || pc.ReadMeta? || pc.ReadHistoryAgain? || pc.ReadMetaAgain?
  {
    match pc
    case ReadHistory =>
      var h := HistoryRead(d.history);
      if h.Some? then ReadMeta(h.value, now) else LookUp(None, now, now)
    case ReadMeta(h, t0) => LookUp(MetaRead(d.meta, h), t0, now)
    case ReadHistoryAgain(before, t0, t1, looks, b) =>
      var h := HistoryRead(d.history);
      if h.Some? then ReadMetaAgain(before, t0, t1, looks, b, h.value, now)
      else Committing(before, t0, t1, looks, b, None, now, now)
    case ReadMetaAgain(before, t0, t1, looks, b, h, t2) =>
      Committing(before, t0, t1, looks, b, MetaRead(d.meta, h), t2, now)
  }

  function NextLook<P, B>(pc: Pc<P, B>, look: Look): Pc<P, B>
    requires pc.Loading?
  {
    Loading(pc.before, pc.t0, pc.t1, pc.looks + [look])
  }

  ghost function Apply<P, K, B>(w: World<P, K, B>, s: State<P, K, B>, a: Action<P, K, B>): State<P, K, B>
    requires Enabled(w, s, a)
  {
    var now := |s.snapshots| - 1;
    match a
    case ChangeDisk(k, d) => s.(snapshots := s.snapshots + [s.snapshots[now][k := d]])
    case Begin(path) => s.(calls := s.calls + [Call(path, now, ReadHistory)])
    case Retain(keys) => s.(cache := Retained(s.cache, keys))
    case Fingerprinting(c, fails) =>
      var call := s.calls[c];
      var d := if fails then UNREADABLE else At(s, now, w.norm(call.path));
      s.(calls := s.calls[c := call.(pc := NextRead(call.pc, d, now))])
    case Consult(c) =>
      var call := s.calls[c];
      var k := w.norm(call.path);
      s.(calls := s.calls[c := call.(pc :=
        if IsHit(s.cache, k, call.pc.before)
        then Done(Some(s.cache[k].details.(prefix := call.path)), true, k in s.disturbed, now)
        else Loading(call.pc.before, call.pc.t0, call.pc.t1, []))])
    case LookAtMeta(c, fails) =>
      var call := s.calls[c];
      var d := if fails then UNREADABLE else At(s, now, w.norm(call.path));
      s.(calls := s.calls[c := call.(pc := NextLook(call.pc, SawMeta(d.meta, now)))])
    case LookAtHistory(c, fails) =>
      var call := s.calls[c];
      var d := if fails then UNREADABLE else At(s, now, w.norm(call.path));
      s.(calls := s.calls[c := call.(pc := NextLook(call.pc, SawHistory(d.history, now)))])
    case LoadReturns(c, r) =>
      var call := s.calls[c];
      s.(calls := s.calls[c := call.(pc :=
        if r.None? then Removing
        else ReadHistoryAgain(call.pc.before, call.pc.t0, call.pc.t1, call.pc.looks, r.value))])
    case Commit(c) =>
      var call := s.calls[c];
      var k, pc := w.norm(call.path), call.pc;
      if pc.Removing? then
        s.(cache := Committed(s.cache, k, None, None, None),
           calls := s.calls[c := call.(pc := Done(None, false, false, now))])
      else
        var details := Details(call.path, pc.loaded);
        s.(cache := Committed(s.cache, k, pc.before, Some(details), pc.after),
           calls := s.calls[c := call.(pc := Done(Some(details), false, false, now))],
           disturbed := if LooksTrue(s, k, pc.looks) then s.disturbed - {k} else s.disturbed + {k})
  }

  // ----- stamps are never reused -----

  ghost predicate DiskOk<P, K, B>(s: State<P, K, B>, t: nat, k: K)
    requires t < |s.snapshots|
  {
    var d := At(s, t, k);
    && (d.meta.Present? ==> d.meta.stamp in d.usedMeta)
    && (d.history.Present? ==> d.history.stamp in d.usedHistory)
    && (t + 1 < |s.snapshots| ==> At(s, t + 1, k) == d || Evolves(d, At(s, t + 1, k)))
  }

  ghost predicate DiskInv<P, K(!new), B>(s: State<P, K, B>) {
    s.snapshots != [] && forall t: nat, k :: t < |s.snapshots| ==> DiskOk(s, t, k)
  }

  datatype File = CondaMeta | History

  function StateOf(d: PrefixDisk, f: File): FileState {
    if f.CondaMeta? then d.meta else d.history
  }

  function UsedBy(d: PrefixDisk, f: File): set<nat> {
    if f.CondaMeta? then d.usedMeta else d.usedHistory
  }

  /** A stamp that a file has left never comes back. */
  lemma {:induction false} NeverBack<P, K(!new), B>(s: State<P, K, B>, k: K, f: File, i: nat, j: nat, x: nat)
    requires DiskInv(s) && i <= j < |s.snapshots|
    requires x in UsedBy(At(s, i, k), f) && StateOf(At(s, i, k), f) != Present(x)
    ensures x in UsedBy(At(s, j, k), f) && StateOf(At(s, j, k), f) != Present(x)
  {
    if i < j {
      NeverBack(s, k, f, i, j - 1, x);
      assert DiskOk(s, j - 1, k);
    }
  }

  lemma {:induction false} UsedGrows<P, K(!new), B>(s: State<P, K, B>, k: K, f: File, i: nat, j: nat)
    requires DiskInv(s) && i <= j < |s.snapshots|
    ensures UsedBy(At(s, i, k), f) <= UsedBy(At(s, j, k), f)
  {
    if i < j {
      UsedGrows(s, k, f, i, j - 1);
      assert DiskOk(s, j - 1, k);
    }
  }

  /** Seeing the same stamp twice means the file did not change in between. */
  lemma StampConstant<P, K(!new), B>(s: State<P, K, B>, k: K, f: File, i: nat, t: nat, j: nat, x: nat)
    requires DiskInv(s) && i <= t <= j < |s.snapshots|
    requires StateOf(At(s, i, k), f) == Present(x) && StateOf(At(s, j, k), f) == Present(x)
    ensures StateOf(At(s, t, k), f) == Present(x)
  {
    assert DiskOk(s, i, k);
    UsedGrows(s, k, f, i, t);
    if StateOf(At(s, t, k), f) != Present(x) {
      NeverBack(s, k, f, t, j, x);
    }
  }

  /** While `conda-meta` keeps its stamp, `history` neither appears nor disappears. */
  lemma {:induction false} PresenceConstant<P, K(!new), B>(s: State<P, K, B>, k: K, i: nat, j: nat, x: nat)
    requires DiskInv(s) && i <= j < |s.snapshots|
    requires At(s, i, k).meta == Present(x) && At(s, j, k).meta == Present(x)
    ensures At(s, i, k).history.Missing? == At(s, j, k).history.Missing?
  {
    if i < j {
      StampConstant(s, k, CondaMeta, i, j - 1, j, x);
      PresenceConstant(s, k, i, j - 1, x);
      assert DiskOk(s, j - 1, k);
    }
  }

  /**
    Two equal fingerprints, read at `t0`, `t1` and at `t2`, `t3`, pin both files over everything
    a load between them can look at, although each fingerprint is itself two separate reads.
   */
  lemma EqualFingerprintsPin<P, K(!new), B>(
      s: State<P, K, B>, k: K, t0: nat, t1: nat, t: nat, t2: nat, t3: nat, fp: Fingerprint)
    requires DiskInv(s) && t0 <= t1 <= t <= t2 <= t3 < |s.snapshots|
    requires At(s, t0, k).history == Matching(fp.history) && At(s, t1, k).meta == Present(fp.meta)
    requires At(s, t2, k).history == Matching(fp.history) && At(s, t3, k).meta == Present(fp.meta)
    ensures At(s, t, k).meta == Present(fp.meta) && At(s, t, k).history == Matching(fp.history)
  {
    StampConstant(s, k, CondaMeta, t1, t, t3, fp.meta);
    if fp.history.Some? {
      StampConstant(s, k, History, t0, t, t2, fp.history.value);
    } else {
      StampConstant(s, k, CondaMeta, t1, t2, t3, fp.meta);
      PresenceConstant(s, k, t, t2, fp.meta);
    }
  }

  // ----- the invariant of every reachable state -----

  ghost predicate BeforeOk<P, K, B>(s: State<P, K, B>, k: K, start: nat, fp: Option<Fingerprint>, t0: nat, t1: nat) {
    && start <= t0 <= t1 < |s.snapshots|
    && (fp.Some? ==> At(s, t0, k).history == Matching(fp.value.history)
                     && At(s, t1, k).meta == Present(fp.value.meta))
  }

  /** Every look was made between `lo` and `hi`. */
  ghost predicate LooksOk<P, K, B>(s: State<P, K, B>, looks: seq<Look>, lo: nat, hi: nat) {
    hi < |s.snapshots| && forall i :: 0 <= i < |looks| ==> lo <= looks[i].at <= hi
  }

  ghost predicate CallOk<P, K, B>(w: World<P, K, B>, s: State<P, K, B>, call: Call<P, B>)
    requires s.snapshots != []
  {
    var k, start, now := w.norm(call.path), call.start, |s.snapshots| - 1;
    && start <= now
    && match call.pc
       case ReadHistory => true
       case ReadMeta(h, t0) => start <= t0 <= now && At(s, t0, k).history == Matching(h)
       case LookUp(fp, t0, t1) => BeforeOk(s, k, start, fp, t0, t1)
       case Loading(fp, t0, t1, looks) => BeforeOk(s, k, start, fp, t0, t1) && LooksOk(s, looks, t1, now)
       case Removing => true
       case ReadHistoryAgain(fp, t0, t1, looks, b) =>
         BeforeOk(s, k, start, fp, t0, t1) && LooksOk(s, looks, t1, now) && Explains(w, k, looks, Some(b))
       case ReadMetaAgain(fp, t0, t1, looks, b, h, t2) =>
         && BeforeOk(s, k, start, fp, t0, t1) && LooksOk(s, looks, t1, t2) && Explains(w, k, looks, Some(b))
         && t1 <= t2 && At(s, t2, k).history == Matching(h)
       case Committing(fp, t0, t1, looks, b, after, t2, t3) =>
         && BeforeOk(s, k, start, fp, t0, t1) && LooksOk(s, looks, t1, t2) && Explains(w, k, looks, Some(b))
         && BeforeOk(s, k, t1, after, t2, t3)
       case Done(r, hit, disturbed, end) =>
         hit && !disturbed ==> end <= now && HitOk(w, s, call, r, end)
  }

  /** The result is what a fresh load would give at some moment between start and end. */
  ghost predicate HitOk<P, K, B>(
      w: World<P, K, B>, s: State<P, K, B>, call: Call<P, B>, r: Option<Details<P, B>>, end: nat)
    requires end < |s.snapshots|
  {
    exists t: nat :: call.start <= t <= end && FreshLoad(w, call.path, At(s, t, w.norm(call.path))) == r
  }

  ghost predicate Matches(d: PrefixDisk, fp: Fingerprint) {
    d.meta == Present(fp.meta) && d.history == Matching(fp.history)
  }

  /** A cached fingerprint was once the disk's, and the cached details are what it loads to. */
  ghost predicate CacheOk<P, K, B>(w: World<P, K, B>, s: State<P, K, B>, k: K)
    requires k in s.cache
  {
    var fp := s.cache[k].fingerprint;
    && w.body(k, Present(fp.meta), Matching(fp.history)) == Some(s.cache[k].details.body)
    && exists t: nat :: t < |s.snapshots| && Matches(At(s, t, k), fp)
  }

  ghost predicate Inv<P, K(!new), B>(w: World<P, K, B>, s: State<P, K, B>) {
    && DiskInv(s)
    && (forall c: nat :: c < |s.calls| ==> CallOk(w, s, s.calls[c]))
    && (forall k :: k in s.cache && k !in s.disturbed ==> CacheOk(w, s, k))
  }

  /** A load between two equal fingerprints yields what the fingerprinted state loads to. */
  lemma EqualFingerprintsJustify<P, K(!new), B>(w: World<P, K, B>, s: State<P, K, B>, call: Call<P, B>)
    requires DiskInv(s) && call.pc.Committing? && CallOk(w, s, call)
    requires call.pc.before.Some? && call.pc.before == call.pc.after
    requires LooksTrue(s, w.norm(call.path), call.pc.looks)
    ensures var fp := call.pc.after.value;
            && w.body(w.norm(call.path), Present(fp.meta), Matching(fp.history)) == Some(call.pc.loaded)
            && Matches(At(s, call.pc.t1, w.norm(call.path)), fp)
  {
    var k, pc := w.norm(call.path), call.pc;
    var fp := pc.after.value;
    EqualFingerprintsPin(s, k, pc.t0, pc.t1, pc.t1, pc.t2, pc.t3, fp);
    forall i | 0 <= i < |pc.looks|
      ensures At(s, pc.looks[i].at, k).meta == Present(fp.meta)
      ensures At(s, pc.looks[i].at, k).history == Matching(fp.history)
    {
      EqualFingerprintsPin(s, k, pc.t0, pc.t1, pc.looks[i].at, pc.t2, pc.t3, fp);
    }
    assert Saw(pc.looks, Present(fp.meta), Matching(fp.history));
  }

  /**
    A hit is justified inside its own call: the cached state was on disk at some `t`; if that was
    before the call read `history`, the directory has not changed since, so it was there then too.
   */
  lemma HitIsFresh<P, K(!new), B>(w: World<P, K, B>, s: State<P, K, B>, call: Call<P, B>)
    requires Inv(w, s) && CallOk(w, s, call) && call.pc.LookUp? && call.pc.before.Some?
    requires w.norm(call.path) in s.cache && w.norm(call.path) !in s.disturbed
    requires s.cache[w.norm(call.path)].fingerprint == call.pc.before.value
    ensures HitOk(w, s, call, Some(s.cache[w.norm(call.path)].details.(prefix := call.path)), |s.snapshots| - 1)
  {
    var k, fp := w.norm(call.path), call.pc.before.value;
    assert CacheOk(w, s, k);
    var t: nat :| t < |s.snapshots| && Matches(At(s, t, k), fp);
    var m := if call.pc.t0 <= t then t else call.pc.t0;
    if t < call.pc.t0 {
      StampConstant(s, k, CondaMeta, t, call.pc.t0, call.pc.t1, fp.meta);
    }
    assert Matches(At(s, m, k), fp);
    assert FreshLoad(w, call.path, At(s, m, k)) == Some(s.cache[k].details.(prefix := call.path));
  }

  lemma StepKeepsDisk<P, K(!new), B>(w: World<P, K, B>, s: State<P, K, B>, a: Action<P, K, B>)
    requires DiskInv(s) && Enabled(w, s, a)
    ensures DiskInv(Apply(w, s, a))
  {
    var s' := Apply(w, s, a);
    forall t: nat, k | t < |s'.snapshots| ensures DiskOk(s', t, k) {
      assert DiskOk(s, if t < |s.snapshots| then t else t - 1, k);
    }
  }

  /** Calls and the disk as they were stay valid when the disk or the cache moves on. */
  lemma CallOkPersists<P, K(!new), B>(w: World<P, K, B>, s: State<P, K, B>, s': State<P, K, B>, call: Call<P, B>)
    requires s.snapshots != [] && s.snapshots <= s'.snapshots && CallOk(w, s, call)
    ensures CallOk(w, s', call)
  {
    forall t: nat, k | t < |s.snapshots| ensures At(s', t, k) == At(s, t, k) {}
    if call.pc.Done? && call.pc.hit && !call.pc.disturbed {
      var t: nat :| call.start <= t <= call.pc.end
        && FreshLoad(w, call.path, At(s, t, w.norm(call.path))) == call.pc.result;
      assert FreshLoad(w, call.path, At(s', t, w.norm(call.path))) == call.pc.result;
    }
  }

  lemma LookKeepsCall<P, K(!new), B>(w: World<P, K, B>, s: State<P, K, B>, a: Action<P, K, B>)
    requires s.snapshots != [] && Enabled(w, s, a) && (a.LookAtMeta? || a.LookAtHistory?)
    requires CallOk(w, s, s.calls[a.c])
    ensures CallOk(w, Apply(w, s, a), Apply(w, s, a).calls[a.c])
  {}

  lemma ReadKeepsCall<P, K(!new), B>(w: World<P, K, B>, s: State<P, K, B>, a: Action<P, K, B>)
    requires s.snapshots != [] && Enabled(w, s, a) && a.Fingerprinting?
    requires CallOk(w, s, s.calls[a.c])
    ensures CallOk(w, Apply(w, s, a), Apply(w, s, a).calls[a.c])
  {}

  lemma ReturnKeepsCall<P, K(!new), B>(w: World<P, K, B>, s: State<P, K, B>, a: Action<P, K, B>)
    requires s.snapshots != [] && Enabled(w, s, a)
    requires a.LoadReturns? || a.Commit? || a.Consult?
    requires CallOk(w, s, s.calls[a.c])
    requires a.Consult? ==> Apply(w, s, a).calls[a.c].pc.Loading?
    ensures CallOk(w, Apply(w, s, a), Apply(w, s, a).calls[a.c])
  {}

  lemma HitKeepsCall<P, K(!new), B>(w: World<P, K, B>, s: State<P, K, B>, c: nat)
    requires Inv(w, s) && Enabled(w, s, Consult(c)) && Apply(w, s, Consult(c)).calls[c].pc.Done?
    requires !Apply(w, s, Consult(c)).calls[c].pc.disturbed
    ensures CallOk(w, Apply(w, s, Consult(c)), Apply(w, s, Consult(c)).calls[c])
  {
    var s', call := Apply(w, s, Consult(c)), s.calls[c];
    assert CallOk(w, s, call);
    HitIsFresh(w, s, call);
    var t: nat :| call.start <= t <= |s.snapshots| - 1
      && FreshLoad(w, call.path, At(s, t, w.norm(call.path))) == s'.calls[c].pc.result;
    assert FreshLoad(w, call.path, At(s', t, w.norm(call.path))) == s'.calls[c].pc.result;
  }

  lemma StepKeepsCall<P, K(!new), B>(w: World<P, K, B>, s: State<P, K, B>, a: Action<P, K, B>, c: nat)
    requires Inv(w, s) && Enabled(w, s, a) && c < |Apply(w, s, a).calls|
    ensures CallOk(w, Apply(w, s, a), Apply(w, s, a).calls[c])
  {
    var s' := Apply(w, s, a);
    if c < |s.calls| {
      assert CallOk(w, s, s.calls[c]);
      if a.ChangeDisk? || a.Begin? || a.Retain? || a.c != c {
        CallOkPersists(w, s, s', s.calls[c]);
      } else if a.Consult? && s'.calls[c].pc.Done? {
        if !s'.calls[c].pc.disturbed { HitKeepsCall(w, s, c); }
      } else if a.Fingerprinting? {
        ReadKeepsCall(w, s, a);
      } else if a.LookAtMeta? || a.LookAtHistory? {
        LookKeepsCall(w, s, a);
      } else {
        ReturnKeepsCall(w, s, a);
      }
    }
  }

  lemma CacheOkPersists<P, K(!new), B>(w: World<P, K, B>, s: State<P, K, B>, s': State<P, K, B>, k: K)
    requires s.snapshots <= s'.snapshots && k in s.cache && CacheOk(w, s, k)
    requires k in s'.cache && s'.cache[k] == s.cache[k]
    ensures CacheOk(w, s', k)
  {
    var t: nat :| t < |s.snapshots| && Matches(At(s, t, k), s.cache[k].fingerprint);
    assert At(s', t, k) == At(s, t, k);
  }

  lemma StepKeepsCache<P, K(!new), B>(w: World<P, K, B>, s: State<P, K, B>, a: Action<P, K, B>, k: K)
    requires Inv(w, s) && Enabled(w, s, a) && k in Apply(w, s, a).cache && k !in Apply(w, s, a).disturbed
    ensures CacheOk(w, Apply(w, s, a), k)
  {
    var s' := Apply(w, s, a);
    if a.Commit? && w.norm(s.calls[a.c].path) == k {
      var call := s.calls[a.c];
      assert CallOk(w, s, call);
      EqualFingerprintsJustify(w, s, call);
      assert Matches(At(s', call.pc.t1, k), s'.cache[k].fingerprint);
    } else {
      assert CacheOk(w, s, k);
      CacheOkPersists(w, s, s', k);
    }
  }

  lemma StepKeepsInv<P, K(!new), B>(w: World<P, K, B>, s: State<P, K, B>, a: Action<P, K, B>)
    requires Inv(w, s) && Enabled(w, s, a)
    ensures Inv(w, Apply(w, s, a))
  {
    var s' := Apply(w, s, a);
    StepKeepsDisk(w, s, a);
    forall c: nat | c < |s'.calls| ensures CallOk(w, s', s'.calls[c]) { StepKeepsCall(w, s, a, c); }
    forall k | k in s'.cache && k !in s'.disturbed ensures CacheOk(w, s', k) { StepKeepsCache(w, s, a, k); }
  }

  // ----- whole runs -----

  datatype Run<P, K, B> = Run(states: seq<State<P, K, B>>, actions: seq<Action<P, K, B>>)

  ghost predicate StepAt<P, K, B>(w: World<P, K, B>, run: Run<P, K, B>, i: nat)
    requires |run.states| == |run.actions| + 1 && i < |run.actions|
  {
    Enabled(w, run.states[i], run.actions[i]) &&
    run.states[i + 1] == Apply(w, run.states[i], run.actions[i])
  }

  ghost predicate IsRun<P, K, B>(w: World<P, K, B>, run: Run<P, K, B>) {
    && |run.states| == |run.actions| + 1
    && run.states[0] == Init()
    && (forall i: nat :: i < |run.actions| ==> StepAt(w, run, i))
  }

  lemma {:induction false} RunInv<P, K(!new), B>(w: World<P, K, B>, run: Run<P, K, B>, n: nat)
    requires IsRun(w, run) && n <= |run.actions|
    ensures Inv(w, run.states[n])
  {
    if n > 0 {
      RunInv(w, run, n - 1);
      assert StepAt(w, run, n - 1);
      StepKeepsInv(w, run.states[n - 1], run.actions[n - 1]);
    }
  }

  /**
    In every interleaving of loaders, removers, `retain` and disk changes, a cache hit returns
    what a fresh load of the caller's own path would return at some moment during the call.
   */
  lemma HitEqualsFreshLoad<P, K(!new), B>(w: World<P, K, B>, run: Run<P, K, B>, n: nat, c: nat)
    requires IsRun(w, run) && n <= |run.actions| && c < |run.states[n].calls|
    requires run.states[n].calls[c].pc.Done? && run.states[n].calls[c].pc.hit && !run.states[n].calls[c].pc.disturbed
    ensures var s, call := run.states[n], run.states[n].calls[c];
            && call.pc.end < |s.snapshots|
            && (exists t: nat :: call.start <= t <= call.pc.end &&
                  FreshLoad(w, call.path, At(s, t, w.norm(call.path))) == call.pc.result)
  {
    RunInv(w, run, n);
    var s, call := run.states[n], run.states[n].calls[c];
    assert CallOk(w, s, call);
    assert HitOk(w, s, call, call.pc.result, call.pc.end);
  }

  /** Everything in the shared map is what its fingerprint loads to, for every spelling of its key. */
  lemma CachedDetailsMatchFingerprint<P, K(!new), B>(w: World<P, K, B>, run: Run<P, K, B>, n: nat, path: P)
    requires IsRun(w, run) && n <= |run.actions|
    requires w.norm(path) in run.states[n].cache && w.norm(path) !in run.states[n].disturbed
    ensures var cached := run.states[n].cache[w.norm(path)];
            var fp := cached.fingerprint;
            FreshLoad(w, path, PrefixDisk(Present(fp.meta), Matching(fp.history), {}, {}))
              == Some(cached.details.(prefix := path))
  {
    RunInv(w, run, n);
    assert CacheOk(w, run.states[n], w.norm(path));
  }

  // ----- what the reads and the load give -----

  /** The fingerprint that two reads of an unchanging prefix yield. */
  function QuietFingerprint(d: PrefixDisk): Option<Fingerprint> {
    if !d.meta.Present? || d.history.Failing? then None
    else Some(Fingerprint(d.meta.stamp, if d.history.Present? then Some(d.history.stamp) else None))
  }

  /** Both fingerprints are what the code's order of reads, with its early exit, gives. */
  lemma FingerprintIs<P, B>(
      d: PrefixDisk, now: nat, before: Option<Fingerprint>, t0: nat, t1: nat, looks: seq<Look>, b: B)
    ensures var first: Pc<P, B> := NextRead(ReadHistory, d, now);
            var read := if first.ReadMeta? then NextRead(first, d, now) else first;
            read == LookUp(QuietFingerprint(d), now, now)
    ensures var first: Pc<P, B> := NextRead(ReadHistoryAgain(before, t0, t1, looks, b), d, now);
            var read := if first.ReadMetaAgain? then NextRead(first, d, now) else first;
            read == Committing(before, t0, t1, looks, b, QuietFingerprint(d), now, now)
  {}

  /** In every run a call whose load returned `r` goes on to return it, under its own path. */
  lemma {:induction false} LoadedCallReturns<P, K(!new), B>(
      w: World<P, K, B>, run: Run<P, K, B>, i: nat, n: nat, c: nat, r: Option<B>)
    requires IsRun(w, run) && i < n <= |run.actions| && run.actions[i] == LoadReturns(c, r)
    ensures c < |run.states[i].calls| && c < |run.states[n].calls|
    ensures run.states[n].calls[c].path == run.states[i].calls[c].path
    ensures var pc := run.states[n].calls[c].pc;
            if pc.Done? then
              !pc.hit && pc.result == if r.Some? then Some(Details(run.states[i].calls[c].path, r.value)) else None
            else if r.None? then pc.Removing?
            else (pc.ReadHistoryAgain? || pc.ReadMetaAgain? || pc.Committing?) && pc.loaded == r.value
    decreases n
  {
    assert StepAt(w, run, i) && StepAt(w, run, n - 1);
    if i < n - 1 {
      LoadedCallReturns(w, run, i, n - 1, c, r);
    }
  }

  // ----- reads of a load that fail for a moment -----

  predicate FailsForAMoment<P, K, B>(a: Action<P, K, B>) {
    (a.LookAtMeta? || a.LookAtHistory?) && a.fails
  }

  function LooksOf<P, B>(pc: Pc<P, B>): seq<Look> {
    if pc.Loading? || pc.ReadHistoryAgain? || pc.ReadMetaAgain? || pc.Committing? then pc.looks else []
  }

  ghost predicate CallCalm<P, K, B>(w: World<P, K, B>, s: State<P, K, B>, call: Call<P, B>) {
    LooksTrue(s, w.norm(call.path), LooksOf(call.pc)) && (call.pc.Done? ==> !call.pc.disturbed)
  }

  ghost predicate Calm<P, K, B>(w: World<P, K, B>, s: State<P, K, B>) {
    s.disturbed == {} && forall c: nat :: c < |s.calls| ==> CallCalm(w, s, s.calls[c])
  }

  lemma CallCalmPersists<P, K(!new), B>(w: World<P, K, B>, s: State<P, K, B>, s': State<P, K, B>, call: Call<P, B>)
    requires s.snapshots != [] && s.snapshots <= s'.snapshots && CallOk(w, s, call) && CallCalm(w, s, call)
    ensures CallCalm(w, s', call)
  {
    var k, looks := w.norm(call.path), LooksOf(call.pc);
    forall i | 0 <= i < |looks|
      ensures looks[i].at < |s.snapshots| && At(s', looks[i].at, k) == At(s, looks[i].at, k)
    {}
  }

  lemma StepKeepsCalm<P, K(!new), B>(w: World<P, K, B>, s: State<P, K, B>, a: Action<P, K, B>)
    requires Inv(w, s) && Enabled(w, s, a) && Calm(w, s) && !FailsForAMoment(a)
    ensures Calm(w, Apply(w, s, a))
  {
    var s' := Apply(w, s, a);
    forall c: nat | c < |s'.calls| ensures CallCalm(w, s', s'.calls[c]) {
      if c < |s.calls| && (a.ChangeDisk? || a.Begin? || a.Retain? || a.c != c) {
        assert CallOk(w, s, s.calls[c]) && CallCalm(w, s, s.calls[c]);
        CallCalmPersists(w, s, s', s.calls[c]);
      } else if c < |s.calls| {
        OwnStepKeepsCalm(w, s, a);
      }
    }
    if a.Commit? {
      assert CallCalm(w, s, s.calls[a.c]);
    }
  }

  lemma OwnStepKeepsCalm<P, K(!new), B>(w: World<P, K, B>, s: State<P, K, B>, a: Action<P, K, B>)
    requires Enabled(w, s, a) && Calm(w, s) && !FailsForAMoment(a)
    requires !a.ChangeDisk? && !a.Begin? && !a.Retain?
    ensures CallCalm(w, Apply(w, s, a), Apply(w, s, a).calls[a.c])
  {
    var s', call := Apply(w, s, a), s.calls[a.c];
    assert CallCalm(w, s, call);
    LooksTrueStays(s, s', w.norm(call.path), LooksOf(call.pc));
    if a.LookAtMeta? || a.LookAtHistory? {
      var looks := s'.calls[a.c].pc.looks;
      LooksTrueLonger(s', w.norm(call.path), call.pc.looks, looks[|looks| - 1]);
    }
  }

  lemma LooksTrueStays<P, K, B>(s: State<P, K, B>, s': State<P, K, B>, k: K, looks: seq<Look>)
    requires LooksTrue(s, k, looks) && s'.snapshots == s.snapshots
    ensures LooksTrue(s', k, looks)
  {}

  lemma LooksTrueLonger<P, K, B>(s: State<P, K, B>, k: K, looks: seq<Look>, look: Look)
    requires LooksTrue(s, k, looks) && LooksTrue(s, k, [look])
    ensures LooksTrue(s, k, looks + [look])
  {
    assert [look][0] == look;
  }

  /** Unless a read of some load fails for a moment, nothing in the shared map is disturbed and no hit is. */
  lemma {:induction false} CalmWithoutFailures<P, K(!new), B>(w: World<P, K, B>, run: Run<P, K, B>, n: nat)
    requires IsRun(w, run) && n <= |run.actions| && forall i: nat :: i < n ==> !FailsForAMoment(run.actions[i])
    ensures Calm(w, run.states[n])
  {
    if n > 0 {
      CalmWithoutFailures(w, run, n - 1);
      RunInv(w, run, n - 1);
      assert StepAt(w, run, n - 1);
      StepKeepsCalm(w, run.states[n - 1], run.actions[n - 1]);
    }
  }

  function Last<P, K, B>(run: Run<P, K, B>): State<P, K, B>
    requires run.states != []
  {
    run.states[|run.states| - 1]
  }

  lemma Extend<P, K, B>(w: World<P, K, B>, run: Run<P, K, B>, a: Action<P, K, B>, s: State<P, K, B>)
    returns (r: Run<P, K, B>)
    requires IsRun(w, run) && Enabled(w, Last(run), a) && s == Apply(w, Last(run), a)
    ensures IsRun(w, r) && Last(r) == s
  {
    r := Run(run.states + [s], run.actions + [a]);
    forall i: nat | i < |r.actions| ensures StepAt(w, r, i) {
      assert i < |run.actions| ==> StepAt(w, run, i);
    }
  }

  /** Both files present, and never changed since. */
  const STEADY := PrefixDisk(Present(1), Present(2), {1}, {2})

  const STEADY_FINGERPRINT := Fingerprint(1, Some(2))

  /** One call at the given point, over a disk whose only change was to become steady. */
  function Alone<P, K, B>(k: K, path: P, pc: Pc<P, B>): State<P, K, B> {
    State([map[], map[k := STEADY]], map[], [Call(path, 1, pc)], {})
  }

  /** A call that starts with an empty map gets to its load. */
  lemma CallLoads<P, K(!new), B>(w: World<P, K, B>, path: P) returns (run: Run<P, K, B>)
    ensures IsRun(w, run)
    ensures Last(run) == Alone(w.norm(path), path, Loading(Some(STEADY_FINGERPRINT), 1, 1, []))
  {
    var k, fp := w.norm(path), Some(STEADY_FINGERPRINT);
    var empty: State<P, K, B> := State([map[], map[k := STEADY]], map[], [], {});
    run := Run([Init()], []);
    run := Extend(w, run, ChangeDisk(k, STEADY), empty);
    run := Extend(w, run, Begin(path), Alone(k, path, ReadHistory));
    run := Extend(w, run, Fingerprinting(0, false), Alone(k, path, ReadMeta(Some(2), 1)));
    run := Extend(w, run, Fingerprinting(0, false), Alone(k, path, LookUp(fp, 1, 1)));
    run := Extend(w, run, Consult(0), Alone(k, path, Loading(fp, 1, 1, [])));
  }

  /** Its read of `history` fails for a moment, which its result shows. */
  lemma FailedLookIsLoaded<P, K(!new), B>(w: World<P, K, B>, path: P, b: B) returns (run: Run<P, K, B>)
    requires forall m :: w.body(w.norm(path), m, Failing) == Some(b)
    ensures IsRun(w, run)
    ensures var pc := ReadHistoryAgain(Some(STEADY_FINGERPRINT), 1, 1, [SawHistory(Failing, 1)], b);
            Last(run) == Alone(w.norm(path), path, pc)
  {
    var k, fp, looks := w.norm(path), Some(STEADY_FINGERPRINT), [SawHistory(Failing, 1)];
    run := CallLoads(w, path);
    assert Last(run).calls[0].pc.looks + looks == looks;
    run := Extend(w, run, LookAtHistory(0, true), Alone(k, path, Loading(fp, 1, 1, looks)));
    assert forall m, h :: Saw(looks, m, h) ==> looks[0].state == h;
    run := Extend(w, run, LoadReturns(0, Some(b)), Alone(k, path, ReadHistoryAgain(fp, 1, 1, looks, b)));
  }

  /** What it loads is cached all the same. */
  lemma FailedLookIsCached<P, K(!new), B>(w: World<P, K, B>, path: P, b: B) returns (run: Run<P, K, B>)
    requires forall m :: w.body(w.norm(path), m, Failing) == Some(b)
    ensures IsRun(w, run) && |Last(run).calls| == 1 && Last(run).snapshots == [map[], map[w.norm(path) := STEADY]]
    ensures Last(run).cache == map[w.norm(path) := Cached(STEADY_FINGERPRINT, Details(path, b))]
  {
    var k, fp, looks := w.norm(path), Some(STEADY_FINGERPRINT), [SawHistory(Failing, 1)];
    run := FailedLookIsLoaded(w, path, b);
    run := Extend(w, run, Fingerprinting(0, false), Alone(k, path, ReadMetaAgain(fp, 1, 1, looks, b, Some(2), 1)));
    run := Extend(w, run, Fingerprinting(0, false), Alone(k, path, Committing(fp, 1, 1, looks, b, fp, 1, 1)));
    run := Extend(w, run, Commit(0), Apply(w, Last(run), Commit(0)));
  }

  /**
    Calm is needed: with a load that yields something else when `history` cannot be read, one
    failure of that read leads to a hit that no fresh load during the call would give, though the
    disk has not changed at all.
   */
  lemma FailedLookMisleads<P, K(!new), B>(w: World<P, K, B>, path: P, b: B) returns (run: Run<P, K, B>)
    requires forall m :: w.body(w.norm(path), m, Failing) == Some(b)
    requires w.body(w.norm(path), Present(1), Present(2)) != Some(b)
    ensures IsRun(w, run) && |Last(run).calls| == 2 && Last(run).calls[1].pc.Done?
    ensures var call := Last(run).calls[1];
            && call.pc.hit && call.pc.end < |Last(run).snapshots|
            && forall t: nat :: call.start <= t <= call.pc.end ==>
                 FreshLoad(w, path, At(Last(run), t, w.norm(path))) != call.pc.result
  {
    run := FailedLookIsCached(w, path, b);
    run := Extend(w, run, Begin(path), Apply(w, Last(run), Begin(path)));
    run := Extend(w, run, Fingerprinting(1, false), Apply(w, Last(run), Fingerprinting(1, false)));
    assert Last(run).calls[1] == Call(path, 1, ReadMeta(Some(2), 1));
    run := Extend(w, run, Fingerprinting(1, false), Apply(w, Last(run), Fingerprinting(1, false)));
    assert Last(run).calls[1] == Call(path, 1, LookUp(Some(STEADY_FINGERPRINT), 1, 1));
    run := Extend(w, run, Consult(1), Apply(w, Last(run), Consult(1)));
    assert Last(run).calls[1].pc.result == Some(Details(path, b));
  }

  // ----- the shared map as an object -----

  /** The map behind `environment_info_cache`, used without interference. */
  class InfoCache<P, K(==), B> {
    var cache: map<K, Cached<P, B>>

    constructor ()
      ensures cache == map[]
    {
      cache := map[];
    }

    /**
      One `get_or_load_environment_details`: `before` and `after` are its fingerprints and
      `loaded` what its load would yield. `ran` says whether the load was run.
     */
    method GetOrLoad(path: P, key: K, before: Option<Fingerprint>, loaded: Option<B>, after: Option<Fingerprint>)
      returns (r: Option<Details<P, B>>, ran: bool)
      modifies this
      ensures ran == !IsHit(old(cache), key, before)
      ensures !ran <==> before.Some? && key in old(cache) && old(cache)[key].fingerprint == before.value
      ensures !ran ==> cache == old(cache) && r == Some(Details(path, old(cache)[key].details.body))
      ensures ran ==> r == (if loaded.Some? then Some(Details(path, loaded.value)) else None)
      ensures ran ==> cache == Committed(old(cache), key, before, r, after)
      ensures ran && before.Some? && before == after && r.Some? ==>
                cache == old(cache)[key := Cached(before.value, r.value)]
      ensures ran && !(before.Some? && before == after && r.Some?) ==> cache == old(cache) - {key}
      ensures ran && before == after && r.Some? ==> IsHit(cache, key, before) == before.Some?
    {
      if before.Some? && key in cache && cache[key].fingerprint == before.value {
        return Some(Details(path, cache[key].details.body)), false;
      }
      ran := true;
      if loaded.None? {
        cache := cache - {key};
        return None, true;
      }
      r := Some(Details(path, loaded.value));
      if before.Some? && before == after {
        cache := cache[key := Cached(before.value, r.value)];
      } else {
        cache := cache - {key};
      }
    }

    method Retain(active: set<K>)
      modifies this
      ensures cache.Keys == old(cache).Keys * active
      ensures forall k :: k in cache.Keys ==> cache[k] == old(cache)[k]
      ensures cache == Retained(old(cache), active)
    {
      cache := map k | k in cache && k in active :: cache[k];
    }
  }
}
