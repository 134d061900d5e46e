/**
  The single-flight cache `LocatorCache` (crates/pet-core/src/cache.rs) as a transition
  system over arbitrarily many concurrent `get_or_insert_with` calls.

  One action is one lock region, or one closure return. Publication is therefore three
  actions: store the result, drop the in-flight slot, notify. An in-flight entry is an
  allocation made by the call that claims the slot, so the entry is named by that call.
 */
module SingleFlight {
  import opened Prelude

  /** What an owner publishes to its waiters, and also what a call ends with. */
  datatype InFlightResult<+V> = Value(value: Option<V>) | Panicked

  /** How far the owner of a slot has got. */
  datatype Stage<+V> =
    | Recheck                            // slot claimed, second cache lookup pending
    | Running                            // closure executing, no lock held
    | Computed(v: V)                     // closure returned Some(v), cache write pending
    | SetResult(r: InFlightResult<V>)    // publish, first region pending
    | RemoveSlot(r: InFlightResult<V>)   // publish, second region pending
    | Notify(r: InFlightResult<V>)       // publish, wake-up pending

  /** Where one `get_or_insert_with(key, f)` call stands. */
  datatype Pc<+K, +V> =
    | Reading(key: K)
    | Claiming(key: K)
    | Owning(key: K, stage: Stage<V>)
    | Waiting(key: K, entry: nat)        // holds the entry, will lock its result
    | Sleeping(key: K, entry: nat)       // blocked on the condition variable
    | Done(key: K, result: InFlightResult<V>)

  /** The memory behind the locks: the cache, the in-flight table, the published results. */
  datatype Shared<K, V> = Shared(
    cache: map<K, V>,
    inFlight: map<K, nat>,
    results: map<nat, InFlightResult<V>>)

  datatype State<K, V> = State(mem: Shared<K, V>, calls: seq<Pc<K, V>>)

  datatype Action<K, V> =
    | Begin(key: K)
    | ReadCache(c: nat)
    | Claim(c: nat)
    | RecheckCache(c: nat)
    | ClosureReturns(c: nat, computed: Option<V>)
    | ClosurePanics(c: nat)
    | InsertComputed(c: nat)
    | StoreResult(c: nat)
    | DropSlot(c: nat)
    | NotifyAll(c: nat)
    | CheckResult(c: nat)
    | SpuriousWake(c: nat)
    | Insert(key: K, value: V)
    | InsertMany(items: seq<(K, V)>)
    | Clear

  // ----- lock regions as functions of the shared memory -----

  function Lookup<K, V>(m: map<K, V>, k: K): Option<V> {
    if k in m then Some(m[k]) else None
  }

  /** `claim_in_flight`: the table after the region, and the entry the caller ends up with. */
  function ClaimSlot<K, V>(mem: Shared<K, V>, k: K, c: nat): (Shared<K, V>, nat) {
    if k in mem.inFlight then (mem, mem.inFlight[k])
    else (mem.(inFlight := mem.inFlight[k := c]), c)
  }

  /** The write region after the closure: keep an existing value, otherwise insert. */
  function InsertIfAbsent<K, V>(mem: Shared<K, V>, k: K, v: V): (Shared<K, V>, V) {
    if k in mem.cache then (mem, mem.cache[k])
    else (mem.(cache := mem.cache[k := v]), v)
  }

  /** `insert_many`: later pairs win. */
  function InsertAll<K, V>(m: map<K, V>, items: seq<(K, V)>): map<K, V> {
    if items == [] then m
    else InsertAll(m, items[..|items| - 1])[items[|items| - 1].0 := items[|items| - 1].1]
  }

  /** `notify_all` on one entry: every sleeper on it becomes runnable again. */
  function Woken<K, V>(p: Pc<K, V>, entry: nat): Pc<K, V> {
    if p.Sleeping? && p.entry == entry then Waiting(p.key, entry) else p
  }

  // ----- the transition system -----

  function Init<K, V>(): State<K, V> {
    State(Shared(map[], map[], map[]), [])
  }

  predicate Enabled<K, V>(s: State<K, V>, a: Action<K, V>) {
    match a
    case Begin(_) => true
    case ReadCache(c) => c < |s.calls| && s.calls[c].Reading?
    case Claim(c) => c < |s.calls| && s.calls[c].Claiming?
    case RecheckCache(c) => c < |s.calls| && s.calls[c].Owning? && s.calls[c].stage.Recheck?
    case ClosureReturns(c, _) => c < |s.calls| && s.calls[c].Owning? && s.calls[c].stage.Running?
    case ClosurePanics(c) => c < |s.calls| && s.calls[c].Owning? && s.calls[c].stage.Running?
    case InsertComputed(c) => c < |s.calls| && s.calls[c].Owning? && s.calls[c].stage.Computed?
    case StoreResult(c) => c < |s.calls| && s.calls[c].Owning? && s.calls[c].stage.SetResult?
    case DropSlot(c) => c < |s.calls| && s.calls[c].Owning? && s.calls[c].stage.RemoveSlot?
    case NotifyAll(c) => c < |s.calls| && s.calls[c].Owning? && s.calls[c].stage.Notify?
    case CheckResult(c) => c < |s.calls| && s.calls[c].Waiting?
    case SpuriousWake(c) => c < |s.calls| && s.calls[c].Sleeping?
    case Insert(_, _) => true
    case InsertMany(_) => true
    case Clear => true
  }

  function Apply<K, V>(s: State<K, V>, a: Action<K, V>): State<K, V>
    requires Enabled(s, a)
  {
    match a
    case Begin(k) => s.(calls := s.calls + [Reading(k)])
    case ReadCache(c) =>
      var k := s.calls[c].key;
      var hit := Lookup(s.mem.cache, k);
      s.(calls := s.calls[c := if hit.Some? then Done(k, Value(hit)) else Claiming(k)])
    case Claim(c) =>
      var k := s.calls[c].key;
      var (mem, entry) := ClaimSlot(s.mem, k, c);
      State(mem, s.calls[c := if entry == c then Owning(k, Recheck) else Waiting(k, entry)])
    case RecheckCache(c) =>
      var k := s.calls[c].key;
      var hit := Lookup(s.mem.cache, k);
      s.(calls := s.calls[c := Owning(k, if hit.Some? then SetResult(Value(hit)) else Running)])
    case ClosureReturns(c, r) =>
      s.(calls := s.calls[c := Owning(s.calls[c].key,
        if r.Some? then Computed(r.value) else SetResult(Value(None)))])
    case ClosurePanics(c) =>
      s.(calls := s.calls[c := Owning(s.calls[c].key, SetResult(Panicked))])
    case InsertComputed(c) =>
      var k := s.calls[c].key;
      var (mem, v) := InsertIfAbsent(s.mem, k, s.calls[c].stage.v);
      State(mem, s.calls[c := Owning(k, SetResult(Value(Some(v))))])
    case StoreResult(c) =>
      var r := s.calls[c].stage.r;
      State(s.mem.(results := s.mem.results[c := r]),
            s.calls[c := Owning(s.calls[c].key, RemoveSlot(r))])
    case DropSlot(c) =>
      var k := s.calls[c].key;
      State(s.mem.(inFlight := s.mem.inFlight - {k}),
            s.calls[c := Owning(k, Notify(s.calls[c].stage.r))])
    case NotifyAll(c) =>
      s.(calls := seq(|s.calls|, i requires 0 <= i < |s.calls| =>
        if i == c then Done(s.calls[c].key, s.calls[c].stage.r) else Woken(s.calls[i], c)))
    case CheckResult(c) =>
      var e := s.calls[c].entry;
      s.(calls := s.calls[c := if e in s.mem.results then Done(s.calls[c].key, s.mem.results[e])
                               else Sleeping(s.calls[c].key, e)])
    case SpuriousWake(c) =>
      s.(calls := s.calls[c := Waiting(s.calls[c].key, s.calls[c].entry)])
    case Insert(k, v) => s.(mem := s.mem.(cache := s.mem.cache[k := v]))
    case InsertMany(items) => s.(mem := s.mem.(cache := InsertAll(s.mem.cache, items)))
    case Clear => s.(mem := s.mem.(cache := map[]))
  }

  // ----- the invariant of every reachable state -----

  /** The owner still holds its slot of the in-flight table. */
  predicate HoldsSlot<K, V>(p: Pc<K, V>) {
    p.Owning? && !p.stage.Notify?
  }

  /** The owner has not stored a result for its entry yet. */
  predicate Unpublished<K, V>(p: Pc<K, V>) {
    p.Owning? && !p.stage.RemoveSlot? && !p.stage.Notify?
  }

  /** What each control point promises about the shared memory. */
  ghost predicate CallOk<K, V>(s: State<K, V>, c: nat)
    requires c < |s.calls|
  {
    match s.calls[c]
    case Owning(k, stage) =>
      && (HoldsSlot(s.calls[c]) ==> k in s.mem.inFlight && s.mem.inFlight[k] == c)
      && (stage.RemoveSlot? || stage.Notify? ==>
            c in s.mem.results && s.mem.results[c] == stage.r)
    case Waiting(k, e) =>
      e < |s.calls| && s.calls[e].key == k && (e in s.mem.results || Unpublished(s.calls[e]))
    case Sleeping(k, e) =>
      e < |s.calls| && s.calls[e].key == k && s.calls[e].Owning?
    case _ => true
  }

  /** A slot always points at the live call that claimed it. */
  ghost predicate SlotOk<K, V>(s: State<K, V>, k: K)
    requires k in s.mem.inFlight
  {
    var c := s.mem.inFlight[k];
    c < |s.calls| && s.calls[c].key == k && HoldsSlot(s.calls[c])
  }

  /** A stored result is the one its owner carries to its end. */
  ghost predicate ResultOk<K, V>(s: State<K, V>, e: nat)
    requires e in s.mem.results
  {
    && e < |s.calls|
    && (match s.calls[e]
        case Owning(_, stage) => (stage.RemoveSlot? || stage.Notify?) && stage.r == s.mem.results[e]
        case Done(_, r) => r == s.mem.results[e]
        case _ => false)
  }

  ghost predicate Inv<K(!new), V>(s: State<K, V>) {
    && (forall c: nat :: c < |s.calls| ==> CallOk(s, c))
    && (forall k :: k in s.mem.inFlight ==> SlotOk(s, k))
    && (forall e: nat :: e in s.mem.results ==> ResultOk(s, e))
  }

  lemma InitInv<K(!new), V>()
    ensures Inv(Init<K, V>())
  {}

  lemma StepKeepsOwner<K(!new), V>(s: State<K, V>, a: Action<K, V>, c: nat)
    requires Inv(s) && Enabled(s, a) && c < |Apply(s, a).calls|
    requires Apply(s, a).calls[c].Owning?
    ensures CallOk(Apply(s, a), c)
  {
    assert CallOk(s, c);
    if a.DropSlot? {
      assert CallOk(s, a.c);
    }
  }

  lemma StepKeepsWaiter<K(!new), V>(s: State<K, V>, a: Action<K, V>, c: nat)
    requires Inv(s) && Enabled(s, a) && c < |Apply(s, a).calls|
    requires !Apply(s, a).calls[c].Owning?
    ensures CallOk(Apply(s, a), c)
  {
    if c < |s.calls| {
      assert CallOk(s, c);
      var p := s.calls[c];
      if p.Waiting? || p.Sleeping? {
        assert CallOk(s, p.entry);
      } else if p.Claiming? && p.key in s.mem.inFlight {
        assert SlotOk(s, p.key) && CallOk(s, s.mem.inFlight[p.key]);
      }
    }
  }

  lemma StepKeepsSlot<K(!new), V>(s: State<K, V>, a: Action<K, V>, k: K)
    requires Inv(s) && Enabled(s, a) && k in Apply(s, a).mem.inFlight
    ensures SlotOk(Apply(s, a), k)
  {
    if k in s.mem.inFlight {
      assert SlotOk(s, k);
    }
    if a.DropSlot? {
      assert CallOk(s, a.c);
    }
  }

  lemma StepKeepsResult<K(!new), V>(s: State<K, V>, a: Action<K, V>, e: nat)
    requires Inv(s) && Enabled(s, a) && e in Apply(s, a).mem.results
    ensures ResultOk(Apply(s, a), e)
  {
    if e in s.mem.results {
      assert ResultOk(s, e);
    }
  }

  /** Every action of every call keeps the invariant. */
  lemma StepKeepsInv<K(!new), V>(s: State<K, V>, a: Action<K, V>)
    requires Inv(s) && Enabled(s, a)
    ensures Inv(Apply(s, a))
  {
    var s' := Apply(s, a);
    forall c: nat | c < |s'.calls| ensures CallOk(s', c) {
      if s'.calls[c].Owning? { StepKeepsOwner(s, a, c); } else { StepKeepsWaiter(s, a, c); }
    }
    forall k | k in s'.mem.inFlight ensures SlotOk(s', k) { StepKeepsSlot(s, a, k); }
    forall e: nat | e in s'.mem.results ensures ResultOk(s', e) { StepKeepsResult(s, a, e); }
  }
}
