/**
  Theorems about whole runs of the single-flight cache: exclusion, at-most-once computation,
  and progress.
 */
module SingleFlightRuns {
  import opened Prelude
  import opened SingleFlight

  /** An interleaving: the states passed through and the actions between them. */
  datatype Run<K, V> = Run(states: seq<State<K, V>>, actions: seq<Action<K, V>>)

  ghost predicate StepAt<K, V>(run: Run<K, V>, i: nat)
    requires |run.states| == |run.actions| + 1
    requires i < |run.actions|
  {
    Enabled(run.states[i], run.actions[i]) &&
    run.states[i + 1] == Apply(run.states[i], run.actions[i])
  }

  /** A run of a freshly created cache. */
  ghost predicate IsRun<K, V>(run: Run<K, V>) {
    && |run.states| == |run.actions| + 1
    && run.states[0] == Init()
    && (forall i: nat :: i < |run.actions| ==> StepAt(run, i))
  }

  /** No `clear` takes effect between states `i` and `j`. */
  ghost predicate ClearFree<K, V>(run: Run<K, V>, i: nat, j: nat)
    requires i <= j <= |run.actions|
  {
    forall t: nat :: i <= t < j ==> !run.actions[t].Clear?
  }

  /** Between states `i` and `j` only `get_or_insert_with` calls act. */
  ghost predicate OnlyCalls<K, V>(run: Run<K, V>, i: nat, j: nat)
    requires i <= j <= |run.actions|
  {
    forall t: nat :: i <= t < j ==>
      !run.actions[t].Clear? && !run.actions[t].Insert? && !run.actions[t].InsertMany?
  }

  lemma {:induction false} RunInv<K(!new), V>(run: Run<K, V>, n: nat)
    requires IsRun(run) && n <= |run.actions|
    ensures Inv(run.states[n])
  {
    if n == 0 {
      InitInv<K, V>();
    } else {
      RunInv(run, n - 1);
      assert StepAt(run, n - 1);
      StepKeepsInv(run.states[n - 1], run.actions[n - 1]);
    }
  }

  // ----- exclusion -----

  /**
    In every reachable state at most one call per key holds a slot, so at most one closure per
    key runs; the slot of a key is that call's own entry, and publishing removes that slot only.
   */
  lemma ExclusiveOwner<K(!new), V>(run: Run<K, V>, n: nat, c: nat, d: nat)
    requires IsRun(run) && n <= |run.actions|
    requires c < |run.states[n].calls| && d < |run.states[n].calls|
    requires HoldsSlot(run.states[n].calls[c]) && HoldsSlot(run.states[n].calls[d])
    ensures run.states[n].calls[c].key == run.states[n].calls[d].key ==> c == d
    ensures Lookup(run.states[n].mem.inFlight, run.states[n].calls[c].key) == Some(c)
    ensures n < |run.actions| && run.actions[n] == DropSlot(c) ==>
              run.states[n + 1].mem.inFlight.Keys ==
                run.states[n].mem.inFlight.Keys - {run.states[n].calls[c].key}
              && c !in run.states[n + 1].mem.inFlight.Values
  {
    RunInv(run, n);
    assert CallOk(run.states[n], c) && CallOk(run.states[n], d);
    if n < |run.actions| && run.actions[n] == DropSlot(c) {
      assert StepAt(run, n);
      var t := run.states[n].mem;
      forall k | k in t.inFlight && t.inFlight[k] == c ensures k == run.states[n].calls[c].key {
        assert SlotOk(run.states[n], k);
      }
    }
  }

  // ----- how calls and the cache evolve -----

  /** Calls are never forgotten and keep their key. */
  lemma {:induction false} CallsPersist<K, V>(run: Run<K, V>, i: nat, j: nat, c: nat)
    requires IsRun(run) && i <= j <= |run.actions|
    requires c < |run.states[i].calls|
    ensures c < |run.states[j].calls| && run.states[j].calls[c].key == run.states[i].calls[c].key
  {
    if i < j {
      CallsPersist(run, i, j - 1, c);
      assert StepAt(run, j - 1);
    }
  }

  /** Pair `i` is the last one for `k`. */
  ghost predicate IsLastPair<K, V>(items: seq<(K, V)>, i: int, k: K) {
    0 <= i < |items| && items[i].0 == k && forall j :: i < j < |items| ==> items[j].0 != k
  }

  /** `insert_many` leaves each given key with its last value and every other key as it was. */
  lemma {:induction false} InsertAllIs<K, V>(m: map<K, V>, items: seq<(K, V)>, k: K)
    ensures forall i :: IsLastPair(items, i, k) ==> k in InsertAll(m, items) && InsertAll(m, items)[k] == items[i].1
    ensures (exists i :: IsLastPair(items, i, k)) || Lookup(InsertAll(m, items), k) == Lookup(m, k)
    ensures (forall i :: 0 <= i < |items| ==> items[i].0 != k) || exists i :: IsLastPair(items, i, k)
  {
    if items != [] {
      var n := |items| - 1;
      var front := items[..n];
      InsertAllIs(m, front, k);
      if items[n].0 == k {
        assert IsLastPair(items, n, k);
      } else {
        assert forall i :: IsLastPair(front, i, k) <==> IsLastPair(items, i, k);
      }
    }
  }

  lemma {:induction false} InsertAllKeeps<K, V>(m: map<K, V>, items: seq<(K, V)>, k: K)
    requires k in m
    ensures k in InsertAll(m, items)
  {
    if items != [] {
      InsertAllKeeps(m, items[..|items| - 1], k);
    }
  }

  /** Without `clear`, a cached key stays cached. */
  lemma {:induction false} KeysPersist<K, V>(run: Run<K, V>, i: nat, j: nat, k: K)
    requires IsRun(run) && i <= j <= |run.actions| && ClearFree(run, i, j)
    requires k in run.states[i].mem.cache
    ensures k in run.states[j].mem.cache
  {
    if i < j {
      KeysPersist(run, i, j - 1, k);
      assert StepAt(run, j - 1);
      if run.actions[j - 1].InsertMany? {
        InsertAllKeeps(run.states[j - 1].mem.cache, run.actions[j - 1].items, k);
      }
    }
  }

  /** With only `get_or_insert_with` calls, a cached value never changes. */
  lemma {:induction false} ValuesPersist<K, V>(run: Run<K, V>, i: nat, j: nat, k: K)
    requires IsRun(run) && i <= j <= |run.actions| && OnlyCalls(run, i, j)
    requires k in run.states[i].mem.cache
    ensures k in run.states[j].mem.cache && run.states[j].mem.cache[k] == run.states[i].mem.cache[k]
  {
    if i < j {
      ValuesPersist(run, i, j - 1, k);
      assert StepAt(run, j - 1);
    }
  }

  // ----- at most one successful closure -----

  /** Owners only move forward: the order in which an owner passes its stages. */
  function StageRank<V>(stage: Stage<V>): nat {
    match stage
    case Recheck => 6
    case Running => 5
    case Computed(_) => 4
    case SetResult(_) => 3
    case RemoveSlot(_) => 2
    case Notify(_) => 1
  }

  function OwnerRank<K, V>(p: Pc<K, V>): nat {
    match p
    case Owning(_, stage) => StageRank(stage)
    case Done(_, _) => 0
    case _ => 7
  }

  lemma {:induction false} OwnerRankFalls<K, V>(run: Run<K, V>, i: nat, j: nat, c: nat)
    requires IsRun(run) && i <= j <= |run.actions|
    requires c < |run.states[i].calls| && c < |run.states[j].calls|
    ensures OwnerRank(run.states[j].calls[c]) <= OwnerRank(run.states[i].calls[c])
  {
    if i < j {
      CallsPersist(run, i, j - 1, c);
      OwnerRankFalls(run, i, j - 1, c);
      assert StepAt(run, j - 1);
      OwnerRankStep(run.states[j - 1], run.actions[j - 1], c);
    }
  }

  lemma OwnerRankStep<K, V>(s: State<K, V>, a: Action<K, V>, c: nat)
    requires Enabled(s, a) && c < |s.calls|
    ensures c < |Apply(s, a).calls| && OwnerRank(Apply(s, a).calls[c]) <= OwnerRank(s.calls[c])
  {}

  /** After a closure has returned `Some`, its owner cannot get past its write without caching. */
  lemma {:induction false} ComputedGetsCached<K, V>(run: Run<K, V>, i: nat, j: nat, c: nat)
    requires IsRun(run) && i <= j <= |run.actions| && ClearFree(run, i, j)
    requires c < |run.states[i].calls| && c < |run.states[j].calls|
    requires run.states[i].calls[c].Owning? && run.states[i].calls[c].stage.Computed?
    ensures run.states[j].calls[c] == run.states[i].calls[c] ||
            run.states[i].calls[c].key in run.states[j].mem.cache
  {
    if i < j {
      CallsPersist(run, i, j - 1, c);
      ComputedGetsCached(run, i, j - 1, c);
      assert StepAt(run, j - 1);
      var k := run.states[i].calls[c].key;
      if k in run.states[j - 1].mem.cache {
        KeysPersist(run, j - 1, j, k);
      }
    }
  }

  /** Action `i` starts the closure of call `c` on `k`: the call comes to run it. */
  ghost predicate ClosureStarts<K, V>(run: Run<K, V>, i: nat, c: nat, k: K)
    requires |run.states| == |run.actions| + 1
  {
    && i < |run.actions| && c < |run.states[i].calls| && c < |run.states[i + 1].calls|
    && run.states[i].calls[c] != Owning(k, Running) && run.states[i + 1].calls[c] == Owning(k, Running)
  }

  /** In every run a closure starts only while its key is not cached, by the lookup after the claim. */
  lemma ClosureStartsOnMiss<K, V>(run: Run<K, V>, i: nat, c: nat, k: K)
    requires IsRun(run) && ClosureStarts(run, i, c, k)
    ensures k !in run.states[i].mem.cache && run.actions[i] == RecheckCache(c)
  {
    assert StepAt(run, i);
  }

  /** Action `j` is the return of `Some` from the closure of call `c`. */
  ghost predicate ClosureSucceeds<K, V>(run: Run<K, V>, j: nat, c: nat, k: K)
    requires |run.states| == |run.actions| + 1
  {
    && j < |run.actions| && c < |run.states[j].calls| && run.states[j].calls[c].key == k
    && run.actions[j].ClosureReturns? && run.actions[j].c == c && run.actions[j].computed.Some?
  }

  /** A closure that starts after another one of its key succeeded would have hit the cache. */
  lemma NoStartAfterSuccess<K(!new), V>(run: Run<K, V>, i: nat, j: nat, c: nat, i': nat, d: nat, k: K)
    requires IsRun(run) && i < j && i < i'
    requires ClosureStarts(run, i, c, k) && ClosureSucceeds(run, j, c, k)
    requires i' < |run.actions| && (j < i' ==> ClearFree(run, j, i'))
    ensures !ClosureStarts(run, i', d, k)
  {
    assert StepAt(run, i) && StepAt(run, j) && StepAt(run, i');
    ClosureStartsOnMiss(run, i, c, k);
    CallsPersist(run, i + 1, i', c);
    OwnerRankFalls(run, i + 1, i', c);
    RunInv(run, i');
    assert CallOk(run.states[i'], c);
    if i' <= j {
      OwnerRankFalls(run, i', j, c);
    } else {
      ComputedGetsCached(run, j + 1, i', c);
    }
    assert d < |run.states[i'].calls| ==> CallOk(run.states[i'], d);
    if ClosureStarts(run, i', d, k) { ClosureStartsOnMiss(run, i', d, k); }
  }

  /**
    In a stretch without `clear`, at most one closure per key that started there returns `Some`.
    A side effect that a closure performs exactly when it returns `Some`, such as reporting a
    mamba manager for its conda directory, therefore happens at most once per key there.
   */
  lemma AtMostOneSuccess<K(!new), V>(
      run: Run<K, V>, k: K, lo: nat, hi: nat, i: nat, j: nat, c: nat, i': nat, j': nat, d: nat)
    requires IsRun(run) && lo <= hi <= |run.actions| && ClearFree(run, lo, hi)
    requires lo <= i < j < hi && ClosureStarts(run, i, c, k) && ClosureSucceeds(run, j, c, k)
    requires lo <= i' < j' < hi && ClosureStarts(run, i', d, k) && ClosureSucceeds(run, j', d, k)
    ensures c == d && i == i' && j == j'
  {
    if i < i' {
      NoStartAfterSuccess(run, i, j, c, i', d, k);
    } else if i' < i {
      NoStartAfterSuccess(run, i', j', d, i, c, k);
    } else {
      ClosureStartsOnMiss(run, i, c, k);
      ClosureStartsOnMiss(run, i', d, k);
      var first, second := if j < j' then j else j', if j < j' then j' else j;
      assert StepAt(run, first) && StepAt(run, second);
      if first < second {
        OwnerRankFalls(run, first + 1, second, c);
      }
    }
  }

  /** Action `j` is a return of `Some` for key `k` from a closure that started at `lo` or later. */
  ghost predicate SuccessSince<K(!new), V>(run: Run<K, V>, k: K, lo: nat, j: nat)
    requires IsRun(run)
  {
    exists i: nat, c: nat :: lo <= i < j && ClosureStarts(run, i, c, k) && ClosureSucceeds(run, j, c, k)
  }

  ghost function Successes<K(!new), V>(run: Run<K, V>, k: K, lo: nat, hi: nat): set<nat>
    requires IsRun(run) && lo <= hi <= |run.actions|
  {
    set j: nat | lo <= j < hi && SuccessSince(run, k, lo, j)
  }

  /**
    `find` reports a mamba manager from its closure exactly when the closure returns `Some`, so
    after its `clear` each conda directory is reported at most once from there.
   */
  lemma MambaReportedAtMostOnce<K(!new), V>(run: Run<K, V>, condaDir: K, lo: nat, hi: nat)
    requires IsRun(run) && lo <= hi <= |run.actions| && ClearFree(run, lo, hi)
    ensures |Successes(run, condaDir, lo, hi)| <= 1
  {
    var reports := Successes(run, condaDir, lo, hi);
    if reports != {} {
      var j :| j in reports;
      forall j' | j' in reports ensures j' == j {
        assert SuccessSince(run, condaDir, lo, j) && SuccessSince(run, condaDir, lo, j');
        var i, c :| lo <= i < j && ClosureStarts(run, i, c, condaDir) && ClosureSucceeds(run, j, c, condaDir);
        var i', d :| lo <= i' < j' && ClosureStarts(run, i', d, condaDir) && ClosureSucceeds(run, j', d, condaDir);
        AtMostOneSuccess(run, condaDir, lo, hi, i, j, c, i', j', d);
      }
      assert reports == {j};
    }
  }

  // ----- progress -----

  /** The work a call still has to do. A waiter whose result is stored is nearly finished. */
  function CallWork<K, V>(p: Pc<K, V>, results: map<nat, InFlightResult<V>>): nat {
    match p
    case Reading(_) => 8
    case Claiming(_) => 7
    case Owning(_, stage) => StageRank(stage)
    case Waiting(_, e) => if e in results then 1 else 3
    case Sleeping(_, _) => 2
    case Done(_, _) => 0
  }

  function Work<K, V>(calls: seq<Pc<K, V>>, results: map<nat, InFlightResult<V>>): nat {
    if calls == [] then 0
    else Work(calls[..|calls| - 1], results) + CallWork(calls[|calls| - 1], results)
  }

  /** An action of a call itself, as opposed to the environment or a spurious wake-up. */
  predicate IsProgress<K, V>(a: Action<K, V>) {
    !a.Begin? && !a.SpuriousWake? && !a.Insert? && !a.InsertMany? && !a.Clear?
  }

  /** How much work an action may add: a new call brings 8 units, a spurious wake-up one. */
  function Brought<K, V>(a: Action<K, V>): nat {
    if a.Begin? then 8 else if a.SpuriousWake? then 1 else 0
  }

  lemma {:induction false} WorkMonotone<K, V>(
      p: seq<Pc<K, V>>, r: map<nat, InFlightResult<V>>,
      q: seq<Pc<K, V>>, r': map<nat, InFlightResult<V>>, c: nat, extra: nat)
    requires |p| == |q|
    requires forall i: nat :: i < |p| && i != c ==> CallWork(q[i], r') <= CallWork(p[i], r)
    requires c < |p| ==> CallWork(q[c], r') <= CallWork(p[c], r) + extra
    ensures Work(q, r') <= Work(p, r) + extra
    ensures c < |p| && CallWork(q[c], r') < CallWork(p[c], r) ==> Work(q, r') < Work(p, r)
  {
    if |p| > 0 {
      var n := |p| - 1;
      if n == c {
        WorkMonotone(p[..n], r, q[..n], r', c, 0);
      } else {
        WorkMonotone(p[..n], r, q[..n], r', c, extra);
      }
    }
  }

  /** The work of one call across one action. */
  lemma CallWorkStep<K(!new), V>(s: State<K, V>, a: Action<K, V>, c: nat)
    requires Inv(s) && Enabled(s, a) && c < |s.calls|
    ensures c < |Apply(s, a).calls|
    ensures var w, w' := CallWork(s.calls[c], s.mem.results), CallWork(Apply(s, a).calls[c], Apply(s, a).mem.results);
            && (IsProgress(a) && a.c == c ==> w' < w)
            && (a == SpuriousWake(c) ==> w' <= w + 1)
            && ((IsProgress(a) || a.SpuriousWake? ==> a.c != c) ==> w' <= w)
  {
    assert CallOk(s, c);
    if a.NotifyAll? {
      assert CallOk(s, a.c);
    } else if a == Claim(c) && s.calls[c].key in s.mem.inFlight {
      assert SlotOk(s, s.calls[c].key);
    }
  }

  /** Every action of a call reduces the work; nothing else adds more than it brings. */
  lemma StepReducesWork<K(!new), V>(s: State<K, V>, a: Action<K, V>)
    requires Inv(s) && Enabled(s, a)
    ensures Work(Apply(s, a).calls, Apply(s, a).mem.results) + (if IsProgress(a) then 1 else 0)
            <= Work(s.calls, s.mem.results) + Brought(a)
  {
    var s' := Apply(s, a);
    if a.Begin? {
      assert s'.calls[..|s.calls|] == s.calls;
    } else {
      var c := if IsProgress(a) || a.SpuriousWake? then a.c else |s.calls|;
      forall i: nat | i < |s.calls|
        ensures i != c ==> CallWork(s'.calls[i], s'.mem.results) <= CallWork(s.calls[i], s.mem.results)
      {
        CallWorkStep(s, a, i);
      }
      if c < |s.calls| { CallWorkStep(s, a, c); }
      WorkMonotone(s.calls, s.mem.results, s'.calls, s'.mem.results, c, if a.SpuriousWake? then 1 else 0);
    }
  }

  function ProgressCount<K, V>(actions: seq<Action<K, V>>): nat {
    if actions == [] then 0
    else ProgressCount(actions[..|actions| - 1]) + (if IsProgress(actions[|actions| - 1]) then 1 else 0)
  }

  function TotalBrought<K, V>(actions: seq<Action<K, V>>): nat {
    if actions == [] then 0
    else TotalBrought(actions[..|actions| - 1]) + Brought(actions[|actions| - 1])
  }

  /**
    Every run makes at most eight steps per call, plus one per spurious wake-up: publication in
    three regions never lets a call spin or wait for ever once closures return.
   */
  lemma {:induction false} BoundedWork<K(!new), V>(run: Run<K, V>, n: nat)
    requires IsRun(run) && n <= |run.actions|
    ensures Work(run.states[n].calls, run.states[n].mem.results) + ProgressCount(run.actions[..n])
            <= TotalBrought(run.actions[..n])
  {
    if n > 0 {
      BoundedWork(run, n - 1);
      RunInv(run, n - 1);
      assert StepAt(run, n - 1);
      StepReducesWork(run.states[n - 1], run.actions[n - 1]);
      assert run.actions[..n][..n - 1] == run.actions[..n - 1];
    }
  }

  /**
    No waiter is stranded: a waiter either has a stored result to read, or its owner is alive
    and has not published, and a sleeper's owner has not notified yet.
   */
  lemma WaiterHasOwnerOrResult<K(!new), V>(run: Run<K, V>, n: nat, c: nat)
    requires IsRun(run) && n <= |run.actions| && c < |run.states[n].calls|
    ensures run.states[n].calls[c].Waiting? ==>
              var e := run.states[n].calls[c].entry;
              e in run.states[n].mem.results || (e < |run.states[n].calls| && Unpublished(run.states[n].calls[e]))
    ensures run.states[n].calls[c].Sleeping? ==>
              var e := run.states[n].calls[c].entry;
              e < |run.states[n].calls| && run.states[n].calls[e].Owning?
  {
    RunInv(run, n);
    assert CallOk(run.states[n], c);
  }

  /** As long as a call is unfinished, some call can act: the cache never deadlocks. */
  lemma NoDeadlock<K(!new), V>(run: Run<K, V>, n: nat, c: nat) returns (a: Action<K, V>)
    requires IsRun(run) && n <= |run.actions| && c < |run.states[n].calls|
    requires !run.states[n].calls[c].Done?
    ensures IsProgress(a) && Enabled(run.states[n], a)
  {
    var s := run.states[n];
    RunInv(run, n);
    assert CallOk(s, c);
    var o := if s.calls[c].Sleeping? then s.calls[c].entry else c;
    match s.calls[o]
    case Reading(_) => a := ReadCache(o);
    case Claiming(_) => a := Claim(o);
    case Waiting(_, _) => a := CheckResult(o);
    case Owning(_, Recheck) => a := RecheckCache(o);
    case Owning(_, Running) => a := ClosureReturns(o, None);
    case Owning(_, Computed(_)) => a := InsertComputed(o);
    case Owning(_, SetResult(_)) => a := StoreResult(o);
    case Owning(_, RemoveSlot(_)) => a := DropSlot(o);
    case Owning(_, Notify(_)) => a := NotifyAll(o);
  }
}
