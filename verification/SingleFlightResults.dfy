/**
  Where the results come from that calls of the single-flight cache end with, over runs with
  `clear` and inserts anywhere: a returned value was in the cache during the call, and a `None` or
  a panic was a closure's during the call, unless the call began while an owner was already
  publishing it. The exception is exact.
 */
module SingleFlightResults {
  import opened Prelude
  import opened SingleFlight
  import opened SingleFlightRuns

  ghost predicate CachedAt<K, V>(run: Run<K, V>, t: nat, k: K, v: V)
    requires t < |run.states|
  {
    k in run.states[t].mem.cache && run.states[t].mem.cache[k] == v
  }

  ghost predicate CachedBetween<K, V>(run: Run<K, V>, i: nat, j: nat, k: K, v: V)
    requires i <= j < |run.states|
  {
    exists t: nat :: i <= t <= j && CachedAt(run, t, k, v)
  }

  /** Action `t` ends a closure of `k` without a value, by returning `None` or by a panic. */
  ghost predicate ClosureFailsAt<K, V>(run: Run<K, V>, t: nat, k: K, r: InFlightResult<V>)
    requires |run.states| == |run.actions| + 1 && t < |run.actions|
  {
    var a := run.actions[t];
    && ((a.ClosureReturns? && a.computed.None? && r == Value(None)) || (a.ClosurePanics? && r.Panicked?))
    && a.c < |run.states[t].calls| && run.states[t].calls[a.c].key == k
  }

  /** Between states `i` and `j` the result comes about: its value is cached, or a closure ends that way. */
  ghost predicate Happens<K, V>(run: Run<K, V>, i: nat, j: nat, k: K, r: InFlightResult<V>)
    requires |run.states| == |run.actions| + 1 && i <= j < |run.states|
  {
    if r.Value? && r.value.Some? then CachedBetween(run, i, j, k, r.value.value)
    else exists t: nat :: i <= t < j && ClosureFailsAt(run, t, k, r)
  }

  /** The result a call has settled on, if any. */
  function Settled<K, V>(p: Pc<K, V>): Option<InFlightResult<V>> {
    match p
    case Owning(_, SetResult(r)) => Some(r)
    case Owning(_, RemoveSlot(r)) => Some(r)
    case Owning(_, Notify(r)) => Some(r)
    case Done(_, r) => Some(r)
    case _ => None
  }

  ghost predicate SettledOwner<K, V>(s: State<K, V>, e: nat, r: InFlightResult<V>) {
    e < |s.calls| && s.calls[e].Owning? && Settled(s.calls[e]) == Some(r)
  }

  /** The slot of `k` is held by an owner that has settled on `r` and is about to publish it. */
  ghost predicate PublishingResult<K, V>(s: State<K, V>, k: K, r: InFlightResult<V>) {
    && k in s.mem.inFlight
    && SettledOwner(s, s.mem.inFlight[k], r) && HoldsSlot(s.calls[s.mem.inFlight[k]])
  }

  ghost predicate Publishing<K, V>(s: State<K, V>, k: K, v: V) {
    PublishingResult(s, k, Value(Some(v)))
  }

  // ----- owners, stored results, waiters -----

  /** A call settles where its result comes about, except when it takes over a stored one. */
  lemma SettlesWhereItHappens<K, V>(run: Run<K, V>, n: nat, c: nat, r: InFlightResult<V>)
    requires IsRun(run) && n < |run.actions| && run.actions[n] != CheckResult(c)
    requires c < |run.states[n + 1].calls| && Settled(run.states[n + 1].calls[c]) == Some(r)
    requires c < |run.states[n].calls| ==> Settled(run.states[n].calls[c]) != Some(r)
    ensures Happens(run, n, n + 1, run.states[n + 1].calls[c].key, r)
  {
    assert StepAt(run, n);
    var k := run.states[n + 1].calls[c].key;
    if r.Value? && r.value.Some? {
      assert CachedAt(run, n + 1, k, r.value.value);
    } else {
      assert ClosureFailsAt(run, n, k, r);
    }
  }

  /** An owner that settles after `m` settles on a result that comes about after `m`. */
  lemma {:induction false} OwnerSettles<K, V>(run: Run<K, V>, m: nat, n: nat, e: nat, r: InFlightResult<V>)
    requires IsRun(run) && m <= n <= |run.actions| && SettledOwner(run.states[n], e, r)
    ensures SettledOwner(run.states[m], e, r) || Happens(run, m, n, run.states[n].calls[e].key, r)
    decreases n
  {
    if m < n {
      assert StepAt(run, n - 1);
      if SettledOwner(run.states[n - 1], e, r) {
        OwnerSettles(run, m, n - 1, e, r);
      } else {
        SettlesWhereItHappens(run, n - 1, e, r);
      }
    }
  }

  ghost predicate StoredAs<K, V>(s: State<K, V>, e: nat, r: InFlightResult<V>) {
    e in s.mem.results && s.mem.results[e] == r
  }

  /** A result is stored once, by the owner that settled on it. */
  lemma StoreStep<K(!new), V>(s: State<K, V>, a: Action<K, V>, e: nat, r: InFlightResult<V>)
    requires Inv(s) && Enabled(s, a) && StoredAs(Apply(s, a), e, r)
    ensures e < |s.calls| && e < |Apply(s, a).calls| && Apply(s, a).calls[e].key == s.calls[e].key
    ensures StoredAs(s, e, r) || SettledOwner(s, e, r)
  {
    if e in s.mem.results {
      assert ResultOk(s, e);
    }
  }

  /** A result stored after `m` is what its owner had settled on. */
  lemma {:induction false} StoredIsOwners<K(!new), V>(
      run: Run<K, V>, m: nat, n: nat, e: nat, r: InFlightResult<V>)
    requires IsRun(run) && m <= n <= |run.actions| && StoredAs(run.states[n], e, r)
    ensures e < |run.states[n].calls|
    ensures || StoredAs(run.states[m], e, r) || SettledOwner(run.states[m], e, r)
            || Happens(run, m, n, run.states[n].calls[e].key, r)
    decreases n
  {
    RunInv(run, n);
    assert ResultOk(run.states[n], e);
    if m < n {
      assert StepAt(run, n - 1);
      RunInv(run, n - 1);
      StoreStep(run.states[n - 1], run.actions[n - 1], e, r);
      if StoredAs(run.states[n - 1], e, r) {
        StoredIsOwners(run, m, n - 1, e, r);
      } else {
        OwnerSettles(run, m, n - 1, e, r);
      }
    }
  }

  /** Whoever a call waits for still held the slot when that call began. */
  lemma {:induction false} WaitedForHeldSlot<K(!new), V>(run: Run<K, V>, b: nat, n: nat, c: nat)
    requires IsRun(run) && b <= n <= |run.actions| && c < |run.states[b].calls| && run.states[b].calls[c].Reading?
    requires c < |run.states[n].calls| && (run.states[n].calls[c].Waiting? || run.states[n].calls[c].Sleeping?)
    ensures var e := run.states[n].calls[c].entry;
            e < |run.states[b].calls| ==> OwnerRank(run.states[b].calls[e]) >= 2
    decreases n
  {
    assert StepAt(run, n - 1);
    CallsPersist(run, b, n - 1, c);
    var p, e := run.states[n - 1].calls[c], run.states[n].calls[c].entry;
    if p.Waiting? || p.Sleeping? {
      WaitedForHeldSlot(run, b, n - 1, c);
    } else {
      RunInv(run, n - 1);
      assert SlotOk(run.states[n - 1], p.key);
      if e < |run.states[b].calls| {
        OwnerRankFalls(run, b, n - 1, e);
      }
    }
  }

  /** A waiter returns a result that comes about during its call, or one being published when it began. */
  lemma WaiterSeesOwnersResult<K(!new), V>(run: Run<K, V>, b: nat, n: nat, c: nat, r: InFlightResult<V>)
    requires IsRun(run) && b <= n <= |run.actions| && c < |run.states[b].calls| && run.states[b].calls[c].Reading?
    requires c < |run.states[n].calls| && run.states[n].calls[c].Waiting?
    requires StoredAs(run.states[n], run.states[n].calls[c].entry, r)
    ensures Happens(run, b, n, run.states[n].calls[c].key, r)
            || PublishingResult(run.states[b], run.states[n].calls[c].key, r)
  {
    var k, e := run.states[n].calls[c].key, run.states[n].calls[c].entry;
    RunInv(run, n);
    assert CallOk(run.states[n], c);
    StoredIsOwners(run, b, n, e, r);
    WaitedForHeldSlot(run, b, n, c);
    if !Happens(run, b, n, k, r) {
      RunInv(run, b);
      assert StoredAs(run.states[b], e, r) ==> ResultOk(run.states[b], e);
      CallsPersist(run, b, n, e);
      assert CallOk(run.states[b], e);
    }
  }

  // ----- the promise of `get_or_insert_with` -----

  lemma {:induction false} SettledIsExplained<K(!new), V>(
      run: Run<K, V>, b: nat, n: nat, c: nat, k: K, r: InFlightResult<V>)
    requires IsRun(run) && b <= n <= |run.actions|
    requires c < |run.states[b].calls| && run.states[b].calls[c] == Reading(k)
    requires c < |run.states[n].calls| && Settled(run.states[n].calls[c]) == Some(r)
    ensures Happens(run, b, n, k, r) || PublishingResult(run.states[b], k, r)
    decreases n
  {
    assert StepAt(run, n - 1);
    CallsPersist(run, b, n - 1, c);
    if Settled(run.states[n - 1].calls[c]) == Some(r) {
      SettledIsExplained(run, b, n - 1, c, k, r);
    } else if run.actions[n - 1] == CheckResult(c) {
      WaiterSeesOwnersResult(run, b, n - 1, c, r);
    } else {
      SettlesWhereItHappens(run, n - 1, c, r);
    }
  }

  /** Call `c`, which starts at state `b`, has ended with `r` for `k` by state `n`. */
  ghost predicate EndsWith<K, V>(run: Run<K, V>, b: nat, n: nat, c: nat, k: K, r: InFlightResult<V>)
    requires |run.states| == |run.actions| + 1 && b <= n <= |run.actions|
  {
    && c < |run.states[b].calls| && run.states[b].calls[c] == Reading(k)
    && c < |run.states[n].calls| && run.states[n].calls[c] == Done(k, r)
  }

  ghost predicate Returns<K, V>(run: Run<K, V>, b: nat, n: nat, c: nat, k: K, v: V)
    requires |run.states| == |run.actions| + 1 && b <= n <= |run.actions|
  {
    EndsWith(run, b, n, c, k, Value(Some(v)))
  }

  /**
    In every interleaving, with `clear` and inserts anywhere, however a call ends, its result came
    about during the call or was being published by the owner of its key when it began. A call
    that returns `Some(v)` has a moment at which the cache mapped its key to `v`; one that returns
    `None` or panics has one at which a closure of its key did.
   */
  lemma ResultIsExplained<K(!new), V>(run: Run<K, V>, b: nat, n: nat, c: nat, k: K, r: InFlightResult<V>)
    requires IsRun(run) && b <= n <= |run.actions| && EndsWith(run, b, n, c, k, r)
    ensures Happens(run, b, n, k, r) || PublishingResult(run.states[b], k, r)
  {
    SettledIsExplained(run, b, n, c, k, r);
  }

  lemma ReturnedValueWasCachedOrPublishing<K(!new), V>(run: Run<K, V>, b: nat, n: nat, c: nat, k: K, v: V)
    requires IsRun(run) && b <= n <= |run.actions| && Returns(run, b, n, c, k, v)
    ensures CachedBetween(run, b, n, k, v) || Publishing(run.states[b], k, v)
  {
    ResultIsExplained(run, b, n, c, k, Value(Some(v)));
  }

  /** A call that begins with its key cached, and meets no `clear`, is a hit. */
  lemma {:induction false} CachedKeyIsHit<K(!new), V>(run: Run<K, V>, b: nat, n: nat, c: nat, k: K)
    requires IsRun(run) && b <= n <= |run.actions| && ClearFree(run, b, n) && k in run.states[b].mem.cache
    requires c < |run.states[b].calls| && run.states[b].calls[c] == Reading(k)
    ensures c < |run.states[n].calls|
    ensures var p := run.states[n].calls[c];
            p == Reading(k) || (exists v :: p == Done(k, Value(Some(v))) && CachedBetween(run, b, n, k, v))
    decreases n
  {
    if b < n {
      CachedKeyIsHit(run, b, n - 1, c, k);
      KeysPersist(run, b, n - 1, k);
      assert StepAt(run, n - 1);
      var p := run.states[n - 1].calls[c];
      if p != Reading(k) {
        var v :| p == Done(k, Value(Some(v))) && CachedBetween(run, b, n - 1, k, v);
        assert run.states[n].calls[c] == Done(k, Value(Some(v))) && CachedBetween(run, b, n, k, v);
      } else if run.actions[n - 1] == ReadCache(c) {
        var v := run.states[n - 1].mem.cache[k];
        assert CachedAt(run, n, k, v);
        assert run.states[n].calls[c] == Done(k, Value(Some(v))) && CachedBetween(run, b, n, k, v);
      }
    }
  }

  /** An owner that publishes in a stretch without `clear` did so from the start, or its key is cached. */
  lemma PublishedKeyIsCached<K(!new), V>(run: Run<K, V>, lo: nat, b: nat, k: K, v: V)
    requires IsRun(run) && lo <= b <= |run.actions| && ClearFree(run, lo, b) && Publishing(run.states[b], k, v)
    ensures Publishing(run.states[lo], k, v) || k in run.states[b].mem.cache
  {
    var e := run.states[b].mem.inFlight[k];
    RunInv(run, b);
    assert SlotOk(run.states[b], k);
    OwnerSettles(run, lo, b, e, Value(Some(v)));
    if CachedBetween(run, lo, b, k, v) {
      var t: nat :| lo <= t <= b && CachedAt(run, t, k, v);
      KeysPersist(run, t, b, k);
    } else {
      RunInv(run, lo);
      CallsPersist(run, lo, b, e);
      OwnerRankFalls(run, lo, b, e);
      assert CallOk(run.states[lo], e);
    }
  }

  /**
    In a stretch without `clear` at whose start nobody is publishing `v`, every call that begins
    there and returns `Some(v)` has a moment inside the call at which the cache mapped its key to
    `v`. A new cache is such a start.
   */
  lemma ReturnedValueWasCachedDuringCall<K(!new), V>(
      run: Run<K, V>, lo: nat, b: nat, n: nat, c: nat, k: K, v: V)
    requires IsRun(run) && lo <= b <= n <= |run.actions| && Returns(run, b, n, c, k, v)
    requires ClearFree(run, lo, n) && (k in run.states[lo].mem.cache || !Publishing(run.states[lo], k, v))
    ensures CachedBetween(run, b, n, k, v)
  {
    ReturnedValueWasCachedOrPublishing(run, b, n, c, k, v);
    if Publishing(run.states[b], k, v) {
      PublishedKeyIsCached(run, lo, b, k, v);
      if k in run.states[lo].mem.cache { KeysPersist(run, lo, b, k); }
      CachedKeyIsHit(run, b, n, c, k);
    }
  }

  /**
    In a stretch where only `get_or_insert_with` calls act, all `Some` results of calls that begin
    there agree, if the key is cached at its start or nobody is publishing either of them then.
   */
  lemma AllResultsAgree<K(!new), V>(
      run: Run<K, V>, lo: nat, hi: nat, b: nat, c: nat, v: V, b': nat, d: nat, w: V, k: K)
    requires IsRun(run) && lo <= hi <= |run.actions| && OnlyCalls(run, lo, hi)
    requires lo <= b <= hi && Returns(run, b, hi, c, k, v) && lo <= b' <= hi && Returns(run, b', hi, d, k, w)
    requires var s := run.states[lo]; k in s.mem.cache || (!Publishing(s, k, v) && !Publishing(s, k, w))
    ensures v == w
  {
    ReturnedValueWasCachedDuringCall(run, lo, b, hi, c, k, v);
    ReturnedValueWasCachedDuringCall(run, lo, b', hi, d, k, w);
    var t: nat :| b <= t <= hi && CachedAt(run, t, k, v);
    var u: nat :| b' <= u <= hi && CachedAt(run, u, k, w);
    ValuesPersist(run, t, hi, k);
    ValuesPersist(run, u, hi, k);
  }

  // ----- both conditions are exact: continuing a run -----

  function Last<K, V>(run: Run<K, V>): State<K, V>
    requires run.states != []
  {
    run.states[|run.states| - 1]
  }

  ghost predicate Continues<K, V>(run: Run<K, V>, r: Run<K, V>) {
    IsRun(run) && IsRun(r) && run.states <= r.states && run.actions <= r.actions
  }

  /** From the end of `run` on, `r` has only `get_or_insert_with` actions. */
  ghost predicate ContinuesByCalls<K, V>(run: Run<K, V>, r: Run<K, V>) {
    Continues(run, r) && OnlyCalls(r, |run.actions|, |r.actions|)
  }

  /** After the end of `run` the cache never maps `k` to `v`. */
  ghost predicate Unseen<K, V>(run: Run<K, V>, r: Run<K, V>, k: K, v: V) {
    Continues(run, r) && forall t: nat :: |run.actions| < t <= |r.actions| ==> !CachedAt(r, t, k, v)
  }

  lemma Extend<K, V>(run: Run<K, V>, r: Run<K, V>, a: Action<K, V>, k: K, v: V) returns (x: Run<K, V>)
    requires Continues(run, r) && Enabled(Last(r), a)
    ensures Continues(run, x) && x.actions == r.actions + [a] && Last(x) == Apply(Last(r), a)
    ensures ContinuesByCalls(run, r) && !a.Clear? && !a.Insert? && !a.InsertMany? ==> ContinuesByCalls(run, x)
    ensures Unseen(run, r, k, v) && Lookup(Last(x).mem.cache, k) != Some(v) ==> Unseen(run, x, k, v)
  {
    x := Run(r.states + [Apply(Last(r), a)], r.actions + [a]);
    forall i: nat | i < |x.actions| ensures StepAt(x, i) {
      assert i < |r.actions| ==> StepAt(r, i);
    }
    if Unseen(run, r, k, v) && Lookup(Last(x).mem.cache, k) != Some(v) {
      forall t: nat | |run.actions| < t <= |x.actions| ensures !CachedAt(x, t, k, v) {
        assert t <= |r.actions| ==> !CachedAt(r, t, k, v);
      }
    }
  }

  /** A publishing owner can store its result next. */
  lemma PublisherStores<K(!new), V>(run: Run<K, V>, before: Run<K, V>, k: K, v: V) returns (r: Run<K, V>)
    requires Continues(run, before) && k !in Last(before).mem.cache && Publishing(Last(before), k, v)
    ensures Continues(run, r) && (ContinuesByCalls(run, before) ==> ContinuesByCalls(run, r))
    ensures before.actions <= r.actions && (Unseen(run, before, k, v) ==> Unseen(run, r, k, v))
    ensures var s, e := Last(before), Last(before).mem.inFlight[k];
            && e < |s.calls| && StoredAs(Last(r), e, Value(Some(v)))
            && Last(r).mem == s.mem.(results := Last(r).mem.results)
            && Last(r).calls == s.calls[e := Owning(k, RemoveSlot(Value(Some(v))))]
  {
    var s := Last(before);
    var e := s.mem.inFlight[k];
    RunInv(before, |before.actions|);
    assert SlotOk(s, k) && CallOk(s, e);
    r := before;
    if s.calls[e].stage.SetResult? {
      r := Extend(run, r, StoreResult(e), k, v);
    }
  }

  /** While an owner publishes `v`, a call that has begun and misses ends up with `v`. */
  lemma WaiterTakes<K(!new), V>(run: Run<K, V>, before: Run<K, V>, c: nat, k: K, v: V) returns (r: Run<K, V>)
    requires Continues(run, before) && c < |Last(before).calls| && Last(before).calls[c] == Reading(k)
    requires k !in Last(before).mem.cache && Publishing(Last(before), k, v)
    ensures Continues(run, r) && (ContinuesByCalls(run, before) ==> ContinuesByCalls(run, r))
    ensures before.actions <= r.actions && (Unseen(run, before, k, v) ==> Unseen(run, r, k, v))
    ensures var s, e := Last(before), Last(before).mem.inFlight[k];
            && e != c && Last(r).mem == s.mem.(results := Last(r).mem.results)
            && Last(r).calls == s.calls[e := Owning(k, RemoveSlot(Value(Some(v))))][c := Done(k, Value(Some(v)))]
  {
    r := PublisherStores(run, before, k, v);
    var s, e := Last(r), Last(r).mem.inFlight[k];
    r := Extend(run, r, ReadCache(c), k, v);
    assert Last(r) == State(s.mem, s.calls[c := Claiming(k)]);
    r := Extend(run, r, Claim(c), k, v);
    assert Last(r) == State(s.mem, s.calls[c := Waiting(k, e)]);
    r := Extend(run, r, CheckResult(c), k, v);
    assert Last(r) == State(s.mem, s.calls[c := Done(k, Value(Some(v)))]);
  }

  /** A continuation of `run` by a new call on `k` that returns `Some(v)` without `v` ever being cached in it. */
  ghost predicate UnseenReturn<K, V>(run: Run<K, V>, r: Run<K, V>, k: K, v: V) {
    && Unseen(run, r, k, v) && |run.actions| < |r.actions| && r.actions[|run.actions|] == Begin(k)
    && |Last(run).calls| < |Last(r).calls| && Last(r).calls[|Last(run).calls|] == Done(k, Value(Some(v)))
  }

  lemma UnseenReturnExists<K(!new), V>(run: Run<K, V>, k: K, v: V) returns (r: Run<K, V>)
    requires IsRun(run) && Publishing(Last(run), k, v) && Lookup(Last(run).mem.cache, k) != Some(v)
    ensures UnseenReturn(run, r, k, v)
  {
    var c := |Last(run).calls|;
    r := Extend(run, run, Begin(k), k, v);
    if k in Last(r).mem.cache {
      r := Extend(run, r, Clear, k, v);
    }
    assert Publishing(Last(r), k, v);
    r := WaiterTakes(run, r, c, k, v);
  }

  /**
    After any run, a call that begins next can return a value `v` that is never in the cache
    during the call exactly when the owner of its key is publishing `v` and `v` is no longer
    cached, which takes a `clear` or an overwriting insert since the owner settled.
   */
  lemma UnseenReturnIff<K(!new), V>(run: Run<K, V>, k: K, v: V)
    requires IsRun(run)
    ensures (exists r :: UnseenReturn(run, r, k, v)) <==>
            Publishing(Last(run), k, v) && Lookup(Last(run).mem.cache, k) != Some(v)
  {
    if r :| UnseenReturn(run, r, k, v) {
      var b, c := |run.actions| + 1, |Last(run).calls|;
      assert StepAt(r, b - 1) && r.states[b - 1] == Last(run);
      assert r.states[|r.actions|] == Last(r);
      ReturnedValueWasCachedOrPublishing(r, b, |r.actions|, c, k, v);
      assert !CachedAt(r, b, k, v);
    }
    if Publishing(Last(run), k, v) && Lookup(Last(run).mem.cache, k) != Some(v) {
      var r := UnseenReturnExists(run, k, v);
    }
  }

  /** With the slot free and the key not cached, a new call gets to run its closure. */
  lemma NewCallRuns<K(!new), V>(run: Run<K, V>, before: Run<K, V>, k: K, v: V) returns (r: Run<K, V>)
    requires Continues(run, before) && k !in Last(before).mem.cache && k !in Last(before).mem.inFlight
    ensures Continues(run, r) && (ContinuesByCalls(run, before) ==> ContinuesByCalls(run, r))
    ensures var s := Last(before);
            Last(r) == State(s.mem.(inFlight := s.mem.inFlight[k := |s.calls|]), s.calls + [Owning(k, Running)])
  {
    var d := |Last(before).calls|;
    r := Extend(run, before, Begin(k), k, v);
    assert Last(r).calls[d] == Reading(k);
    r := Extend(run, r, ReadCache(d), k, v);
    assert Last(r).calls == Last(before).calls + [Claiming(k)];
    r := Extend(run, r, Claim(d), k, v);
    assert Last(r).calls == Last(before).calls + [Owning(k, Recheck)];
    r := Extend(run, r, RecheckCache(d), k, v);
    assert Last(r).calls == Last(before).calls + [Owning(k, Running)];
  }

  /** Its closure returns `Some(v)`, which goes into the cache. */
  lemma NewCallSettles<K(!new), V>(run: Run<K, V>, before: Run<K, V>, k: K, v: V) returns (r: Run<K, V>)
    requires Continues(run, before) && k !in Last(before).mem.cache && k !in Last(before).mem.inFlight
    ensures Continues(run, r) && (ContinuesByCalls(run, before) ==> ContinuesByCalls(run, r))
    ensures var s := Last(before);
            Last(r) == State(s.mem.(cache := s.mem.cache[k := v], inFlight := s.mem.inFlight[k := |s.calls|]),
                             s.calls + [Owning(k, SetResult(Value(Some(v))))])
  {
    var d := |Last(before).calls|;
    r := NewCallRuns(run, before, k, v);
    r := Extend(run, r, ClosureReturns(d, Some(v)), k, v);
    assert Last(r).calls == Last(before).calls + [Owning(k, Computed(v))];
    r := Extend(run, r, InsertComputed(d), k, v);
    assert Last(r).calls == Last(before).calls + [Owning(k, SetResult(Value(Some(v))))];
  }

  /** One call runs alone until its value is in the cache, and a `clear` removes it again. */
  lemma PublishingAfterClear<K(!new), V>(k: K, v: V) returns (run: Run<K, V>)
    ensures IsRun(run) && Publishing(Last(run), k, v) && Last(run).mem.cache == map[]
  {
    var start: Run<K, V> := Run([Init()], []);
    run := NewCallSettles(start, start, k, v);
    run := Extend(start, run, Clear, k, v);
  }

  /**
    Such states are reached: an interleaving, for any key and value, in which a waiter returns a
    value that the cache did not hold at any moment of the waiter's call.
   */
  lemma ClearHidesTheValue<K(!new), V>(k: K, v: V) returns (run: Run<K, V>, r: Run<K, V>)
    ensures UnseenReturn(run, r, k, v)
  {
    run := PublishingAfterClear(k, v);
    r := UnseenReturnExists(run, k, v);
  }

  // ----- disagreement -----

  /** A continuation by calls alone in which two calls that begin in it return `v` and `w`. */
  ghost predicate Disagreement<K, V>(run: Run<K, V>, r: Run<K, V>, c: nat, d: nat, k: K, v: V, w: V) {
    && ContinuesByCalls(run, r)
    && |Last(run).calls| <= c < |Last(r).calls| && Last(r).calls[c] == Done(k, Value(Some(v)))
    && |Last(run).calls| <= d < |Last(r).calls| && Last(r).calls[d] == Done(k, Value(Some(w)))
  }

  /** With the slot free and the key not cached, a new call returns what its closure gives. */
  lemma NewCallReturns<K(!new), V>(run: Run<K, V>, before: Run<K, V>, k: K, w: V) returns (r: Run<K, V>)
    requires ContinuesByCalls(run, before) && k !in Last(before).mem.cache && k !in Last(before).mem.inFlight
    ensures ContinuesByCalls(run, r) && |Last(r).calls| == |Last(before).calls| + 1
    ensures Last(r).calls[|Last(before).calls|] == Done(k, Value(Some(w)))
    ensures forall c :: 0 <= c < |Last(before).calls| && Last(before).calls[c].Done? ==>
              Last(r).calls[c] == Last(before).calls[c]
  {
    var d := |Last(before).calls|;
    r := NewCallSettles(run, before, k, w);
    r := Extend(run, r, StoreResult(d), k, w);
    assert Last(r).calls == Last(before).calls + [Owning(k, RemoveSlot(Value(Some(w))))];
    r := Extend(run, r, DropSlot(d), k, w);
    assert Last(r).calls == Last(before).calls + [Owning(k, Notify(Value(Some(w))))];
    r := Extend(run, r, NotifyAll(d), k, w);
  }

  lemma DisagreementExists<K(!new), V>(run: Run<K, V>, k: K, v: V, w: V) returns (r: Run<K, V>)
    requires IsRun(run) && k !in Last(run).mem.cache && Publishing(Last(run), k, v)
    ensures Disagreement(run, r, |Last(run).calls|, |Last(run).calls| + 1, k, v, w)
  {
    var c := |Last(run).calls|;
    r := Extend(run, run, Begin(k), k, v);
    assert Publishing(Last(r), k, v);
    r := WaiterTakes(run, r, c, k, v);
    r := Extend(run, r, DropSlot(Last(r).mem.inFlight[k]), k, v);
    r := NewCallReturns(run, r, k, w);
  }

  lemma {:induction false} BeginsAt<K, V>(run: Run<K, V>, lo: nat, n: nat, c: nat, k: K) returns (b: nat)
    requires IsRun(run) && lo <= n <= |run.actions|
    requires |run.states[lo].calls| <= c < |run.states[n].calls| && run.states[n].calls[c].key == k
    ensures lo < b <= n && c < |run.states[b].calls| && run.states[b].calls[c] == Reading(k)
    decreases n
  {
    assert StepAt(run, n - 1);
    if c < |run.states[n - 1].calls| {
      b := BeginsAt(run, lo, n - 1, c, k);
    } else {
      b := n;
    }
  }

  /**
    Two later calls can disagree on `v` and `w` exactly when the key is not cached and one of the
    two is being published.
   */
  lemma DisagreementIff<K(!new), V>(run: Run<K, V>, k: K, v: V, w: V)
    requires IsRun(run) && v != w
    ensures (exists r, c, d :: Disagreement(run, r, c, d, k, v, w)) <==>
            k !in Last(run).mem.cache && (Publishing(Last(run), k, v) || Publishing(Last(run), k, w))
  {
    var lo := |run.actions|;
    if r, c, d :| Disagreement(run, r, c, d, k, v, w) {
      var hi := |r.actions|;
      assert r.states[lo] == Last(run) && r.states[hi] == Last(r);
      var b := BeginsAt(r, lo, hi, c, k);
      var b' := BeginsAt(r, lo, hi, d, k);
      if k in Last(run).mem.cache || (!Publishing(Last(run), k, v) && !Publishing(Last(run), k, w)) {
        AllResultsAgree(r, lo, hi, b, c, v, b', d, w, k);
      }
    }
    if k !in Last(run).mem.cache && Publishing(Last(run), k, v) {
      var r := DisagreementExists(run, k, v, w);
    } else if k !in Last(run).mem.cache && Publishing(Last(run), k, w) {
      var r := DisagreementExists(run, k, w, v);
      assert Disagreement(run, r, |Last(run).calls| + 1, |Last(run).calls|, k, v, w);
    }
  }
}
