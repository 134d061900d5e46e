/**
  The generation-guarded lazy cache of Hatch workspace entries (crates/pet-hatch/src/lib.rs):
  `workspace_entry` parses outside the state mutex and retries when `configure` has moved the
  generation. One action is one critical section or one file read.
 */
module HatchCache {
  import opened Prelude

  /** The values of the `u64` generation counter, which wraps. */
  const GENERATIONS: nat := 0x1_0000_0000_0000_0000

  /** One file read of a parse: how many `configure` calls preceded it, and what it saw. */
  datatype Read<+C> = Read(after: nat, content: C)

  /** A parsed entry. The call and the number of its parse identify the shared allocation. */
  datatype Entry<+C> = Entry(call: nat, parse: nat, files: seq<Read<C>>)

  datatype Pc<+C> =
    | Looking
    | Parsing(generation: nat, since: nat, files: seq<Read<C>>)  // `since`: configures at the snapshot
    | Done(entry: Entry<C>)

  /** One `workspace_entry` call; `start` is the number of configures before it began. */
  datatype Call<P, +C> = Call(workspace: P, start: nat, parses: nat, pc: Pc<C>)

  /** `HatchState` with the calls under way. `configures` counts what `generation` wraps. */
  datatype State<P, C> = State(
    generation: nat,
    configures: nat,
    workspaces: seq<P>,
    parsed: map<P, Entry<C>>,
    calls: seq<Call<P, C>>)

  datatype Action<P, C> =
    | Begin(workspace: P)
    | Look(c: nat)
    | ReadFile(c: nat, content: C)
    | Commit(c: nat)
    | Configure(workspaces: seq<P>)

  function Init<P, C>(): State<P, C> {
    State(0, 0, [], map[], [])
  }

  predicate Enabled<P, C>(s: State<P, C>, a: Action<P, C>) {
    match a
    case Look(c) => c < |s.calls| && s.calls[c].pc.Looking?
    case ReadFile(c, _) => c < |s.calls| && s.calls[c].pc.Parsing?
    case Commit(c) => c < |s.calls| && s.calls[c].pc.Parsing?
    case _ => true
  }

  function Apply<P, C>(s: State<P, C>, a: Action<P, C>): State<P, C>
    requires Enabled(s, a)
  {
    match a
    case Begin(w) => s.(calls := s.calls + [Call(w, s.configures, 0, Looking)])
    case Look(c) =>
      var call := s.calls[c];
      s.(calls := s.calls[c :=
        if call.workspace in s.parsed then call.(pc := Done(s.parsed[call.workspace]))
        else call.(parses := call.parses + 1, pc := Parsing(s.generation, s.configures, []))])
    case ReadFile(c, content) =>
      var call := s.calls[c];
      s.(calls := s.calls[c := call.(pc := call.pc.(files := call.pc.files + [Read(s.configures, content)]))])
    case Commit(c) =>
      var call := s.calls[c];
      var w, mine := call.workspace, Entry(c, call.parses, call.pc.files);
      if s.generation != call.pc.generation then s.(calls := s.calls[c := call.(pc := Looking)])
      else if w !in s.workspaces then s.(calls := s.calls[c := call.(pc := Done(mine))])
      else
        var entry := if w in s.parsed then s.parsed[w] else mine;
        s.(parsed := s.parsed[w := entry], calls := s.calls[c := call.(pc := Done(entry))])
    case Configure(ws) =>
      s.(generation := (s.generation + 1) % GENERATIONS, configures := s.configures + 1,
         workspaces := ws, parsed := map[])
  }

  // ----- invariant of every reachable state -----

  ghost predicate CallOk<P, C>(s: State<P, C>, call: Call<P, C>) {
    match call.pc
    case Looking => call.start + call.parses <= s.configures
    case Parsing(g, since, files) =>
      && call.start + call.parses <= since + 1 && since <= s.configures && g == since % GENERATIONS
      && (forall i :: 0 <= i < |files| ==> since <= files[i].after <= s.configures)
    case Done(_) => call.start + call.parses <= s.configures + 1
  }

  ghost predicate Inv<P(!new), C>(s: State<P, C>) {
    && s.generation == s.configures % GENERATIONS
    && (forall w :: w in s.parsed ==> w in s.workspaces)
    && (forall c: nat :: c < |s.calls| ==> CallOk(s, s.calls[c]))
  }

  lemma GenerationMoves(n: nat)
    ensures (n % GENERATIONS + 1) % GENERATIONS == (n + 1) % GENERATIONS
  {}

  lemma StepKeepsInv<P(!new), C>(s: State<P, C>, a: Action<P, C>)
    requires Inv(s) && Enabled(s, a)
    ensures Inv(Apply(s, a))
  {
    var s' := Apply(s, a);
    GenerationMoves(s.configures);
    forall c: nat | c < |s'.calls| ensures CallOk(s', s'.calls[c]) {
      assert c < |s.calls| ==> CallOk(s, s.calls[c]);
    }
  }

  /** While a parse is under way, fewer configures have happened than the counter has values. */
  ghost predicate NoFullWrap<P, C>(s: State<P, C>) {
    forall c: nat :: c < |s.calls| && s.calls[c].pc.Parsing? ==>
      s.configures - s.calls[c].pc.since < GENERATIONS
  }

  /** Every read behind a cached entry was made after the latest `configure`. */
  ghost predicate Fresh<P(!new), C>(s: State<P, C>) {
    forall w, i :: w in s.parsed && 0 <= i < |s.parsed[w].files| ==>
      s.parsed[w].files[i].after == s.configures
  }

  lemma SameGeneration(n: nat, m: nat)
    requires m <= n
    ensures n % GENERATIONS == m % GENERATIONS <==> (n - m) % GENERATIONS == 0
  {
    var q, r := (n - m) / GENERATIONS, (n - m) % GENERATIONS;
    assert n == m + r + q * GENERATIONS;
    assert n % GENERATIONS == (m % GENERATIONS + r) % GENERATIONS;
  }

  lemma StepKeepsFresh<P(!new), C>(s: State<P, C>, a: Action<P, C>)
    requires Inv(s) && Enabled(s, a) && NoFullWrap(s) && Fresh(s)
    ensures Fresh(Apply(s, a))
  {
    if a.Commit? {
      assert CallOk(s, s.calls[a.c]);
      SameGeneration(s.configures, s.calls[a.c].pc.since);
    }
  }

  // ----- whole runs -----

  datatype Run<P, C> = Run(states: seq<State<P, C>>, actions: seq<Action<P, C>>)

  ghost predicate StepAt<P, C>(run: Run<P, C>, i: nat)
    requires |run.states| == |run.actions| + 1 && i < |run.actions|
  {
    Enabled(run.states[i], run.actions[i]) &&
    run.states[i + 1] == Apply(run.states[i], run.actions[i])
  }

  ghost predicate IsRun<P, C>(run: Run<P, C>) {
    && |run.states| == |run.actions| + 1
    && run.states[0] == Init()
    && (forall i: nat :: i < |run.actions| ==> StepAt(run, i))
  }

  lemma {:induction false} RunInv<P(!new), C>(run: Run<P, C>, n: nat)
    requires IsRun(run) && n <= |run.actions|
    ensures Inv(run.states[n])
  {
    if n > 0 {
      RunInv(run, n - 1);
      assert StepAt(run, n - 1);
      StepKeepsInv(run.states[n - 1], run.actions[n - 1]);
    }
  }

  /**
    In every interleaving of `configure` and `workspace_entry`, every cached entry comes from
    reads made entirely after the latest `configure`, as long as no parse sees the counter wrap.
   */
  lemma {:induction false} CachedEntriesAreFresh<P(!new), C>(run: Run<P, C>, n: nat)
    requires IsRun(run) && n <= |run.actions|
    requires forall i: nat :: i <= n ==> NoFullWrap(run.states[i])
    ensures Fresh(run.states[n])
  {
    if n > 0 {
      CachedEntriesAreFresh(run, n - 1);
      RunInv(run, n - 1);
      assert StepAt(run, n - 1);
      StepKeepsFresh(run.states[n - 1], run.actions[n - 1]);
    }
  }

  /** A commit passes the generation check exactly when whole turns of the counter have passed. */
  lemma GenerationCheckIsExact<P(!new), C>(run: Run<P, C>, n: nat, c: nat)
    requires IsRun(run) && n <= |run.actions|
    requires c < |run.states[n].calls| && run.states[n].calls[c].pc.Parsing?
    ensures var s := run.states[n];
            s.generation == s.calls[c].pc.generation <==>
              (s.configures - s.calls[c].pc.since) % GENERATIONS == 0
  {
    RunInv(run, n);
    assert CallOk(run.states[n], run.states[n].calls[c]);
    SameGeneration(run.states[n].configures, run.states[n].calls[c].pc.since);
  }

  /** Only configured workspaces are ever cached. */
  lemma CachedKeysAreConfigured<P(!new), C>(run: Run<P, C>, n: nat, w: P)
    requires IsRun(run) && n <= |run.actions| && w in run.states[n].parsed
    ensures w in run.states[n].workspaces
  {
    RunInv(run, n);
  }

  /** A call parses at most once, plus once per `configure` that overlaps it. */
  lemma ParsesAreBounded<P(!new), C>(run: Run<P, C>, n: nat, c: nat)
    requires IsRun(run) && n <= |run.actions| && c < |run.states[n].calls|
    ensures run.states[n].calls[c].start <= run.states[n].configures
    ensures run.states[n].calls[c].parses
            <= 1 + (run.states[n].configures - run.states[n].calls[c].start)
  {
    RunInv(run, n);
    assert CallOk(run.states[n], run.states[n].calls[c]);
    StartIsPast(run, n, c);
  }

  lemma {:induction false} StartIsPast<P, C>(run: Run<P, C>, n: nat, c: nat)
    requires IsRun(run) && n <= |run.actions| && c < |run.states[n].calls|
    ensures run.states[n].calls[c].start <= run.states[n].configures
  {
    if n > 0 {
      assert StepAt(run, n - 1);
      if c < |run.states[n - 1].calls| {
        StartIsPast(run, n - 1, c);
      }
    }
  }

  // ----- agreement within one configure epoch -----

  /** Action `i` finishes call `c` on workspace `w` with `entry`. */
  ghost predicate FinishesAt<P, C>(run: Run<P, C>, i: nat, c: nat, w: P, entry: Entry<C>)
    requires |run.states| == |run.actions| + 1
  {
    && i < |run.actions| && c < |run.states[i].calls| && c < |run.states[i + 1].calls|
    && run.states[i].calls[c].workspace == w && !run.states[i].calls[c].pc.Done?
    && run.states[i + 1].calls[c].pc == Done(entry)
  }

  lemma {:induction false} ConfiguresGrow<P, C>(run: Run<P, C>, i: nat, j: nat)
    requires IsRun(run) && i <= j <= |run.actions|
    ensures run.states[i].configures <= run.states[j].configures
  {
    if i < j {
      ConfiguresGrow(run, i, j - 1);
      assert StepAt(run, j - 1);
    }
  }

  /** Between two configures an entry, once cached, stays. */
  lemma {:induction false} EntryStays<P, C>(run: Run<P, C>, i: nat, j: nat, w: P)
    requires IsRun(run) && i <= j <= |run.actions|
    requires run.states[i].configures == run.states[j].configures && w in run.states[i].parsed
    ensures w in run.states[j].parsed && run.states[j].parsed[w] == run.states[i].parsed[w]
  {
    if i < j {
      ConfiguresGrow(run, i, j - 1);
      assert StepAt(run, j - 1);
      EntryStays(run, i, j - 1, w);
    }
  }

  /** All calls on a configured workspace that finish in one configure epoch share one entry. */
  lemma SameEpochSameEntry<P, C>(
      run: Run<P, C>, w: P, i: nat, c: nat, e: Entry<C>, j: nat, d: nat, f: Entry<C>)
    requires IsRun(run) && FinishesAt(run, i, c, w, e) && FinishesAt(run, j, d, w, f)
    requires run.states[i].configures == run.states[j].configures
    requires w in run.states[i].workspaces && w in run.states[j].workspaces
    ensures e == f
  {
    if j < i {
      SameEpochSameEntry(run, w, j, d, f, i, c, e);
    } else {
      assert StepAt(run, i) && StepAt(run, j);
      assert w in run.states[i + 1].parsed && run.states[i + 1].parsed[w] == e;
      if i < j {
        EntryStays(run, i + 1, j, w);
      }
    }
  }

  // ----- what a call returns -----

  /** A call ends with the cached entry if there is one, and otherwise with exactly what its parse read. */
  lemma FinishedEntryIs<P, C>(run: Run<P, C>, i: nat, c: nat, w: P, entry: Entry<C>)
    requires IsRun(run) && FinishesAt(run, i, c, w, entry)
    ensures var s, call := run.states[i], run.states[i].calls[c];
            if w in s.parsed && (call.pc.Looking? || w in s.workspaces) then entry == s.parsed[w]
            else call.pc.Parsing? && entry == Entry(c, call.parses, call.pc.files)
  {
    assert StepAt(run, i);
  }

  /** The reads of call `c` among the actions from `m` to `n`, in order, each with its time and content. */
  function ReadsBetween<P, C>(run: Run<P, C>, m: nat, n: nat, c: nat): seq<Read<C>>
    requires |run.states| == |run.actions| + 1 && m <= n <= |run.actions|
    decreases n
  {
    if m == n then []
    else
      var a := run.actions[n - 1];
      ReadsBetween(run, m, n - 1, c) +
      (if a.ReadFile? && a.c == c then [Read(run.states[n - 1].configures, a.content)] else [])
  }

  /** A parse consists of exactly the reads that its call has made since the look that started it. */
  lemma {:induction false} ParseIsItsReads<P, C>(run: Run<P, C>, m: nat, n: nat, c: nat)
    requires IsRun(run) && m < n <= |run.actions| && run.actions[m] == Look(c)
    requires c < |run.states[m + 1].calls| && run.states[m + 1].calls[c].pc.Parsing?
    ensures c < |run.states[n].calls| && run.states[n].calls[c].parses >= run.states[m + 1].calls[c].parses
    ensures var call := run.states[n].calls[c];
            call.parses == run.states[m + 1].calls[c].parses && call.pc.Parsing? ==>
              call.pc.files == ReadsBetween(run, m + 1, n, c)
    decreases n
  {
    assert StepAt(run, m) && StepAt(run, n - 1);
    if m + 1 < n {
      ParseIsItsReads(run, m, n - 1, c);
    }
  }

  /** Whatever a call returns, cached or not, was read entirely after the latest `configure`. */
  lemma ReturnedEntriesAreFresh<P(!new), C>(run: Run<P, C>, i: nat, c: nat, w: P, entry: Entry<C>, j: nat)
    requires IsRun(run) && FinishesAt(run, i, c, w, entry) && j < |entry.files|
    requires forall n: nat :: n <= i ==> NoFullWrap(run.states[n])
    ensures entry.files[j].after == run.states[i].configures
  {
    CachedEntriesAreFresh(run, i);
    RunInv(run, i);
    assert StepAt(run, i);
    var s := run.states[i];
    assert CallOk(s, s.calls[c]);
    FinishedEntryIs(run, i, c, w, entry);
    if s.calls[c].pc.Parsing? {
      SameGeneration(s.configures, s.calls[c].pc.since);
    }
  }

  /** A call that begins with its workspace cached, and meets no `configure`, returns that entry without parsing. */
  lemma {:induction false} CachedCallDoesNotParse<P, C>(run: Run<P, C>, b: nat, n: nat, c: nat)
    requires IsRun(run) && b <= n <= |run.actions| && run.states[b].configures == run.states[n].configures
    requires c < |run.states[b].calls| && run.states[b].calls[c].pc.Looking?
    requires run.states[b].calls[c].workspace in run.states[b].parsed
    ensures c < |run.states[n].calls|
    ensures var call := run.states[b].calls[c];
            || run.states[n].calls[c] == call
            || run.states[n].calls[c] == call.(pc := Done(run.states[b].parsed[call.workspace]))
    decreases n
  {
    if b < n {
      ConfiguresGrow(run, b, n - 1);
      assert StepAt(run, n - 1);
      CachedCallDoesNotParse(run, b, n - 1, c);
      EntryStays(run, b, n - 1, run.states[b].calls[c].workspace);
    }
  }

  // ----- the counter really wraps -----

  function Last<P, C>(run: Run<P, C>): State<P, C>
    requires run.states != []
  {
    run.states[|run.states| - 1]
  }

  lemma Extend<P, C>(run: Run<P, C>, a: Action<P, C>) returns (r: Run<P, C>)
    requires IsRun(run) && Enabled(Last(run), a)
    ensures IsRun(r) && Last(r) == Apply(Last(run), a)
  {
    r := Run(run.states + [Apply(Last(run), a)], run.actions + [a]);
    forall i: nat | i < |r.actions| ensures StepAt(r, i) {
      assert i < |run.actions| ==> StepAt(run, i);
    }
  }

  lemma {:induction false} Reconfigure<P(!new), C>(run: Run<P, C>, w: P, n: nat) returns (r: Run<P, C>)
    requires IsRun(run) && Last(run).workspaces == [w] && Last(run).parsed == map[]
    ensures IsRun(r) && Last(r).configures == Last(run).configures + n
    ensures Last(r) == Last(run).(generation := Last(r).generation, configures := Last(r).configures)
  {
    r := run;
    if n > 0 {
      r := Reconfigure(run, w, n - 1);
      r := Extend(r, Configure([w]));
    }
  }

  /** Without the bound the claim fails: after one full turn of the counter a stale parse is cached. */
  lemma StaleAfterFullWrap<P(!new), C>(w: P, content: C) returns (run: Run<P, C>)
    ensures IsRun(run) && w in Last(run).parsed
    ensures Last(run).parsed[w].files == [Read(1, content)] && Last(run).configures == 1 + GENERATIONS
    ensures !Fresh(Last(run))
  {
    run := Run([Init()], []);
    run := Extend(run, Configure([w]));
    run := Extend(run, Begin(w));
    run := Extend(run, Look(0));
    run := Extend(run, ReadFile(0, content));
    run := Reconfigure(run, w, GENERATIONS);
    RunInv(run, |run.actions|);
    run := Extend(run, Commit(0));
    assert Last(run).parsed[w].files[0].after != Last(run).configures;
  }

  // ----- the locator object -----

  /** Another thread's critical section: a `configure`, or the end of a `workspace_entry` that keeps its parse. */
  datatype Event<+P, +C> = Reconfigured(workspaces: Option<seq<P>>) | Committed(workspace: P, entry: Entry<C>)

  ghost predicate NoCommits<P, C>(events: seq<Event<P, C>>) {
    forall i :: 0 <= i < |events| ==> events[i].Reconfigured?
  }

  function Configures<P, C>(events: seq<Event<P, C>>): nat {
    if events == [] then 0
    else Configures(events[..|events| - 1]) + if events[|events| - 1].Reconfigured? then 1 else 0
  }

  /** What other threads do before a look and while the parse behind it is under way. */
  datatype Round<+P, +C> = Round(before: seq<Event<P, C>>, during: seq<Event<P, C>>)

  function AllConfigures<P, C>(rounds: seq<Round<P, C>>): nat {
    if rounds == [] then 0
    else
      var last := rounds[|rounds| - 1];
      AllConfigures(rounds[..|rounds| - 1]) + Configures(last.before) + Configures(last.during)
  }

  ghost predicate NoCommitsIn<P, C>(rounds: seq<Round<P, C>>) {
    forall i :: 0 <= i < |rounds| ==> NoCommits(rounds[i].before) && NoCommits(rounds[i].during)
  }

  lemma {:induction false} PrefixConfigures<P, C>(rounds: seq<Round<P, C>>, n: nat)
    requires n <= |rounds|
    ensures AllConfigures(rounds[..n]) <= AllConfigures(rounds)
    decreases |rounds|
  {
    if n == |rounds| {
      assert rounds[..n] == rounds;
    } else {
      var front := rounds[..|rounds| - 1];
      PrefixConfigures(front, n);
      assert front[..n] == rounds[..n];
    }
  }

  /** A round's configures are among all of them. */
  lemma RoundConfigures<P, C>(rounds: seq<Round<P, C>>, n: nat)
    requires n < |rounds|
    ensures AllConfigures(rounds[..n]) + Configures(rounds[n].before) + Configures(rounds[n].during)
            == AllConfigures(rounds[..n + 1]) <= AllConfigures(rounds)
  {
    PrefixConfigures(rounds, n + 1);
    assert rounds[..n + 1][..n] == rounds[..n];
  }

  class Hatch<P(==), C> {
    var generation: nat
    var workspaces: seq<P>
    var parsed: map<P, Entry<C>>

    ghost predicate Valid()
      reads this
    {
      generation < GENERATIONS && forall w :: w in parsed.Keys ==> w in workspaces
    }

    constructor ()
      ensures Valid() && generation == 0 && workspaces == [] && parsed == map[]
    {
      generation, workspaces, parsed := 0, [], map[];
    }

    method Configure(newWorkspaces: Option<seq<P>>)
      requires Valid()
      modifies this
      ensures Valid() && parsed == map[]
      ensures generation == (old(generation) + 1) % GENERATIONS
      ensures workspaces == if newWorkspaces.Some? then newWorkspaces.value else []
      ensures forall n: nat ::
                State(generation, n + 1, workspaces, parsed, [])
                == Apply(State(old(generation), n, old(workspaces), old(parsed), []), Action.Configure(workspaces))
    {
      generation := (generation + 1) % GENERATIONS;
      workspaces := if newWorkspaces.Some? then newWorkspaces.value else [];
      parsed := map[];
    }

    /** What other threads do to the state while this one is parsing, in order. */
    method Interfere(events: seq<Event<P, C>>)
      requires Valid()
      modifies this
      ensures Valid()
      ensures Configures(events) == 0 ==>
                && generation == old(generation) && workspaces == old(workspaces)
                && forall w :: w in old(parsed).Keys ==> w in parsed.Keys && parsed[w] == old(parsed)[w]
      ensures events == [] ==> parsed == old(parsed)
      ensures NoCommits(events) ==>
                forall w :: w in parsed.Keys ==> w in old(parsed).Keys && parsed[w] == old(parsed)[w]
    {
      for i := 0 to |events|
        invariant Valid()
        invariant Configures(events[..i]) == 0 ==>
                    && generation == old(generation) && workspaces == old(workspaces)
                    && forall w :: w in old(parsed).Keys ==> w in parsed.Keys && parsed[w] == old(parsed)[w]
        invariant i == 0 ==> parsed == old(parsed)
        invariant NoCommits(events) ==>
                    forall w :: w in parsed.Keys ==> w in old(parsed).Keys && parsed[w] == old(parsed)[w]
      {
        assert events[..i + 1][..i] == events[..i];
        match events[i]
        case Reconfigured(ws) => Configure(ws);
        case Committed(w, entry) =>
          if w in workspaces && w !in parsed {
            parsed := parsed[w := entry];
          }
      }
      assert events[..|events|] == events;
    }

    /**
      `workspace_entry`. `rounds[i]` lists what other threads do before look `i` and while parse
      `i` is under way, and `found(i)` is what parse `i` reads. The loop retries only when the
      generation moved.
     */
    method WorkspaceEntry(workspace: P, rounds: seq<Round<P, C>>, found: nat -> seq<Read<C>>)
      returns (entry: Entry<C>, parses: nat)
      requires Valid()
      modifies this
      ensures Valid() && parses <= 1 + AllConfigures(rounds)
      ensures workspace in workspaces ==> workspace in parsed && parsed[workspace] == entry
      ensures AllConfigures(rounds) == 0 ==> workspaces == old(workspaces) && generation == old(generation)
      ensures AllConfigures(rounds) == 0 && workspace in old(parsed) ==>
                parses == 0 && entry == old(parsed)[workspace]
      ensures NoCommitsIn(rounds) ==>
                || (workspace in old(parsed) && entry == old(parsed)[workspace])
                || (parses > 0 && entry.files == found(parses - 1))
      ensures rounds == [] && workspace in old(parsed) ==> parsed == old(parsed)
      ensures rounds == [] && workspace !in old(parsed) ==>
                && parses == 1 && entry.files == found(0)
                && parsed == if workspace in workspaces then old(parsed)[workspace := entry] else old(parsed)
    {
      parses := 0;
      while true
        invariant Valid() && parses <= |rounds| && parses <= AllConfigures(rounds[..parses])
        invariant parses == 0 ==>
                    parsed == old(parsed) && workspaces == old(workspaces) && generation == old(generation)
        invariant NoCommitsIn(rounds) ==>
                    forall w :: w in parsed.Keys ==> w in old(parsed).Keys && parsed[w] == old(parsed)[w]
        decreases |rounds| - parses
      {
        PrefixConfigures(rounds, parses);
        if parses < |rounds| {
          RoundConfigures(rounds, parses);
          Interfere(rounds[parses].before);
        }
        if workspace in parsed {
          return parsed[workspace], parses;
        }
        var snapshot := generation;
        entry := Entry(0, parses, found(parses));
        if parses < |rounds| {
          Interfere(rounds[parses].during);
        }
        parses := parses + 1;
        if generation == snapshot {
          if workspace in workspaces {
            if workspace in parsed {
              entry := parsed[workspace];
            }
            parsed := parsed[workspace := entry];
          }
          return;
        }
      }
    }
  }
}
