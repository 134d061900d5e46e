/**
  `PythonEnvironmentBuilder` (crates/pet-core/src/python_environment.rs): how executables and
  symlinks accumulate into one sorted list, and how the reported executable is chosen from it.
  Paths are values compared by identity; `norm_case` is the identity, as it is on Unix.
 */
module EnvironmentBuilder {
  import opened Prelude
  import opened Ordering

  datatype Kind = WindowsStore | OtherKind(name: string)

  /** What is needed of paths: their order, their printed length, the Store naming rule. */
  datatype Paths<!P> = Paths(le: (P, P) -> bool, length: P -> nat, isStoreExe: P -> bool)

  /** A built environment; `rest` stands for the fields that are only passed through. */
  datatype Environment<+P, +R> = Environment(
    kind: Option<Kind>, executable: Option<P>, symlinks: Option<seq<P>>, rest: R)

  /** One builder call that touches executables or symlinks. */
  datatype BuilderCall<+P> = ExecutableCall(executable: Option<P>) | SymlinksCall(symlinks: Option<seq<P>>)

  // ----- the choice of the executable -----

  function FirstWhere<P>(s: seq<P>, good: P -> bool): Option<P> {
    if s == [] then None else if good(s[0]) then Some(s[0]) else FirstWhere(s[1..], good)
  }

  function ByLength<P>(p: Paths<P>): (P, P) -> bool {
    (a, b) => p.length(a) <= p.length(b)
  }

  /** `get_shortest_executable`: the Store rule first, otherwise a stable sort by length. */
  function ShortestExecutable<P>(p: Paths<P>, kind: Option<Kind>, exes: seq<P>): Option<P> {
    var store := if kind == Some(WindowsStore) then FirstWhere(exes, p.isStoreExe) else None;
    if store.Some? then store
    else if exes == [] then None else (SortKeepsSome(ByLength(p), exes); Some(Sort(ByLength(p), exes)[0]))
  }

  lemma SortKeepsSome<P>(le: (P, P) -> bool, s: seq<P>)
    ensures |Sort(le, s)| == |s|
  {
    SortElements(le, s);
  }

  lemma {:induction false} FirstWhereFinds<P>(s: seq<P>, good: P -> bool)
    ensures FirstWhere(s, good).None? <==> forall i :: 0 <= i < |s| ==> !good(s[i])
    ensures FirstWhere(s, good).Some? ==>
              exists i :: 0 <= i < |s| && good(s[i]) && FirstWhere(s, good) == Some(s[i])
                          && forall j :: 0 <= j < i ==> !good(s[j])
  {
    if s != [] {
      FirstWhereFinds(s[1..], good);
      if good(s[0]) {
      } else if FirstWhere(s[1..], good).Some? {
        var i :| 0 <= i < |s[1..]| && good(s[1..][i]) && FirstWhere(s[1..], good) == Some(s[1..][i])
                 && forall j :: 0 <= j < i ==> !good(s[1..][j]);
        forall j | 0 <= j < i + 1 ensures !good(s[j]) {
          assert j > 0 ==> s[j] == s[1..][j - 1];
        }
        assert good(s[i + 1]);
      } else {
        forall i | 0 <= i < |s| ensures !good(s[i]) {
          assert i > 0 ==> s[i] == s[1..][i - 1];
        }
      }
    }
  }

  /** The element at `i` is the first of the shortest. */
  ghost predicate FirstShortest<P>(p: Paths<P>, s: seq<P>, i: int) {
    && 0 <= i < |s|
    && (forall j :: 0 <= j < |s| ==> p.length(s[i]) <= p.length(s[j]))
    && (forall j :: 0 <= j < i ==> p.length(s[i]) < p.length(s[j]))
  }

  lemma {:induction false} InsertHead<P>(p: Paths<P>, s: seq<P>, x: P)
    requires s != [] && (forall j :: 0 <= j < |s| ==> p.length(s[0]) <= p.length(s[j]))
    ensures Insert(ByLength(p), s, x) != []
    ensures Insert(ByLength(p), s, x)[0] == if p.length(s[0]) <= p.length(x) then s[0] else x
  {
    var n := |s| - 1;
    if n > 0 && !(p.length(s[n]) <= p.length(x)) {
      InsertHead(p, s[..n], x);
    }
  }

  lemma FirstShortestExtends<P>(p: Paths<P>, s: seq<P>, i: nat)
    requires s != [] && FirstShortest(p, s[..|s| - 1], i)
    ensures FirstShortest(p, s, if p.length(s[|s| - 1]) < p.length(s[i]) then |s| - 1 else i)
  {
    var n := |s| - 1;
    assert forall j :: 0 <= j < n ==> s[..n][j] == s[j];
  }

  lemma HeadIsShortest<P>(p: Paths<P>, s: seq<P>, i: nat)
    requires FirstShortest(p, s, i) && |Sort(ByLength(p), s)| == |s| && Sort(ByLength(p), s)[0] == s[i]
    ensures var t := Sort(ByLength(p), s); forall j :: 0 <= j < |t| ==> p.length(t[0]) <= p.length(t[j])
  {
    var t := Sort(ByLength(p), s);
    forall j | 0 <= j < |t| ensures p.length(t[0]) <= p.length(t[j]) {
      SortElements(ByLength(p), s);
      assert t[j] in Elements(s);
    }
  }

  /** A stable sort by length puts the first of the shortest at the front. */
  lemma {:induction false} SortHeadIsFirstShortest<P>(p: Paths<P>, s: seq<P>) returns (i: nat)
    requires s != []
    ensures FirstShortest(p, s, i) && |Sort(ByLength(p), s)| == |s| && Sort(ByLength(p), s)[0] == s[i]
  {
    var n := |s| - 1;
    SortKeepsSome(ByLength(p), s);
    if n == 0 {
      i := 0;
    } else {
      var t := Sort(ByLength(p), s[..n]);
      i := SortHeadIsFirstShortest(p, s[..n]);
      HeadIsShortest(p, s[..n], i);
      InsertHead(p, t, s[n]);
      FirstShortestExtends(p, s, i);
      if p.length(s[n]) < p.length(s[i]) {
        i := n;
      }
    }
  }

  /** The element at `i` is the first Store executable if one is wanted and present, otherwise the first shortest. */
  ghost predicate Preferred<P>(p: Paths<P>, kind: Option<Kind>, s: seq<P>, i: int) {
    if kind == Some(WindowsStore) && exists k :: 0 <= k < |s| && p.isStoreExe(s[k])
    then 0 <= i < |s| && p.isStoreExe(s[i]) && forall j :: 0 <= j < i ==> !p.isStoreExe(s[j])
    else FirstShortest(p, s, i)
  }

  /** The choice is the preferred element; there is one exactly for a non-empty list. */
  lemma ShortestExecutableIsMember<P>(p: Paths<P>, kind: Option<Kind>, exes: seq<P>)
    ensures exes == [] <==> ShortestExecutable(p, kind, exes).None?
    ensures exes != [] ==> ShortestExecutable(p, kind, exes).value in exes
    ensures exes != [] ==>
              exists i :: Preferred(p, kind, exes, i) && ShortestExecutable(p, kind, exes) == Some(exes[i])
  {
    FirstWhereFinds(exes, p.isStoreExe);
    if exes != [] {
      var i: int := SortHeadIsFirstShortest(p, exes);
      if kind == Some(WindowsStore) && FirstWhere(exes, p.isStoreExe).Some? {
        i :| 0 <= i < |exes| && p.isStoreExe(exes[i]) && FirstWhere(exes, p.isStoreExe) == Some(exes[i])
             && forall j :: 0 <= j < i ==> !p.isStoreExe(exes[j]);
      }
      assert Preferred(p, kind, exes, i);
    }
  }

  /** No list has two preferred elements. */
  lemma PreferredIsUnique<P>(p: Paths<P>, kind: Option<Kind>, s: seq<P>, i: int, j: int)
    requires Preferred(p, kind, s, i) && Preferred(p, kind, s, j)
    ensures i == j
  {
    var a, b := s[i], s[j];
  }

  // ----- the builder as a value -----

  datatype Draft<+P> = Draft(executable: Option<P>, symlinks: Option<seq<P>>)

  function OrEmpty<P>(s: Option<seq<P>>): seq<P> {
    if s.Some? then s.value else []
  }

  function OptionToSeq<P>(x: Option<P>): seq<P> {
    if x.Some? then [x.value] else []
  }

  /** A list of paths in final form, `None` when there are none. */
  function Normal<P(==)>(p: Paths<P>, all: seq<P>): Option<seq<P>> {
    if SortDedup(p.le, all) == [] then None else Some(SortDedup(p.le, all))
  }

  /** `update_symlinks_and_exe`. */
  function Updated<P(==)>(p: Paths<P>, kind: Option<Kind>, d: Draft<P>, symlinks: Option<seq<P>>): Draft<P> {
    var all := OrEmpty(d.symlinks) + OptionToSeq(d.executable) + OrEmpty(symlinks);
    Draft(Chosen(p, kind, d.executable, all), Normal(p, all))
  }

  function Chosen<P(==)>(p: Paths<P>, kind: Option<Kind>, executable: Option<P>, all: seq<P>): Option<P> {
    if executable.None? then None
    else
      var shortest := ShortestExecutable(p, kind, SortDedup(p.le, all));
      if shortest.Some? then shortest else executable
  }

  function AfterCall<P(==)>(p: Paths<P>, kind: Option<Kind>, d: Draft<P>, call: BuilderCall<P>): Draft<P> {
    match call
    case ExecutableCall(exe) => Updated(p, kind, Draft(exe, d.symlinks), d.symlinks)
    case SymlinksCall(symlinks) => Updated(p, kind, d, symlinks)
  }

  function AfterCalls<P(==)>(p: Paths<P>, kind: Option<Kind>, calls: seq<BuilderCall<P>>): Draft<P> {
    if calls == [] then Draft(None, None)
    else AfterCall(p, kind, AfterCalls(p, kind, calls[..|calls| - 1]), calls[|calls| - 1])
  }

  function Built<P(==), R>(p: Paths<P>, kind: Option<Kind>, d: Draft<P>, rest: R): Environment<P, R> {
    var all := OptionToSeq(d.executable) + OrEmpty(d.symlinks);
    Environment(kind, Chosen(p, kind, d.executable, all), Normal(p, all), rest)
  }

  // ----- what the calls supply -----

  ghost function SuppliedBy<P>(call: BuilderCall<P>): set<P> {
    match call
    case ExecutableCall(exe) => Elements(OptionToSeq(exe))
    case SymlinksCall(symlinks) => Elements(OrEmpty(symlinks))
  }

  ghost function Supplied<P>(calls: seq<BuilderCall<P>>): set<P> {
    if calls == [] then {} else Supplied(calls[..|calls| - 1]) + SuppliedBy(calls[|calls| - 1])
  }

  /** The last `executable` call gave a path. */
  predicate HasExecutable<P>(calls: seq<BuilderCall<P>>) {
    calls != [] &&
    var last := calls[|calls| - 1];
    if last.ExecutableCall? then last.executable.Some? else HasExecutable(calls[..|calls| - 1])
  }

  /** `l` is the ascending list of exactly the paths in `all`, `None` when there are none. */
  ghost predicate Lists<P>(p: Paths<P>, l: Option<seq<P>>, all: set<P>) {
    && StrictlySorted(p.le, OrEmpty(l)) && Elements(OrEmpty(l)) == all
    && (l.Some? ==> l.value != [])
  }

  lemma NormalLists<P(!new)>(p: Paths<P>, all: seq<P>)
    requires TotalOrder(p.le)
    ensures Lists(p, Normal(p, all), Elements(all))
    ensures OrEmpty(Normal(p, all)) == SortDedup(p.le, all)
  {
    SortDedupStrict(p.le, all);
  }

  lemma {:induction false} DraftListsSupplied<P(!new)>(p: Paths<P>, kind: Option<Kind>, calls: seq<BuilderCall<P>>)
    requires TotalOrder(p.le)
    ensures var d := AfterCalls(p, kind, calls);
            && Lists(p, d.symlinks, Supplied(calls))
            && d.executable.Some? == HasExecutable(calls)
            && (d.executable.Some? ==> d.executable.value in Supplied(calls))
  {
    if calls != [] {
      var n := |calls| - 1;
      var call := calls[n];
      DraftListsSupplied(p, kind, calls[..n]);
      var d := AfterCalls(p, kind, calls[..n]);
      var exe, given := if call.ExecutableCall? then call.executable else d.executable,
                        if call.ExecutableCall? then d.symlinks else call.symlinks;
      var all := OrEmpty(d.symlinks) + OptionToSeq(exe) + OrEmpty(given);
      ElementsConcat(OrEmpty(d.symlinks), OptionToSeq(exe));
      ElementsConcat(OrEmpty(d.symlinks) + OptionToSeq(exe), OrEmpty(given));
      NormalLists(p, all);
      ShortestExecutableIsMember(p, kind, SortDedup(p.le, all));
      if exe.Some? {
        assert AfterCalls(p, kind, calls).executable.value in Elements(SortDedup(p.le, all));
      }
    }
  }

  /**
    Whatever the order of the calls, the built environment lists exactly the supplied paths in
    ascending order; it has an executable exactly when the last `executable` call gave one, and
    then it is the preferred path of that list.
   */
  lemma BuiltListsSupplied<P(!new), R>(p: Paths<P>, kind: Option<Kind>, calls: seq<BuilderCall<P>>, rest: R)
    requires TotalOrder(p.le)
    ensures var env := Built(p, kind, AfterCalls(p, kind, calls), rest);
            && env.kind == kind && env.rest == rest && Lists(p, env.symlinks, Supplied(calls))
            && env.executable.Some? == HasExecutable(calls)
            && (env.executable.Some? ==>
                  && env.executable == ShortestExecutable(p, kind, OrEmpty(env.symlinks))
                  && env.executable.value in OrEmpty(env.symlinks)
                  && exists i :: Preferred(p, kind, OrEmpty(env.symlinks), i)
                                 && env.executable.value == OrEmpty(env.symlinks)[i]
                                 && forall j :: Preferred(p, kind, OrEmpty(env.symlinks), j) ==> j == i)
  {
    DraftListsSupplied(p, kind, calls);
    var d := AfterCalls(p, kind, calls);
    var all := OptionToSeq(d.executable) + OrEmpty(d.symlinks);
    ElementsConcat(OptionToSeq(d.executable), OrEmpty(d.symlinks));
    NormalLists(p, all);
    ShortestExecutableIsMember(p, kind, SortDedup(p.le, all));
    if d.executable.Some? {
      assert d.executable.value in Elements(all) && SortDedup(p.le, all) != [];
      var l := SortDedup(p.le, all);
      var i :| Preferred(p, kind, l, i) && ShortestExecutable(p, kind, l) == Some(l[i]);
      forall j | Preferred(p, kind, l, j) ensures j == i { PreferredIsUnique(p, kind, l, i, j); }
    }
  }

  /** Two call sequences that supply the same paths build the same environment. */
  lemma BuildDependsOnSetOnly<P(!new), R>(
      p: Paths<P>, kind: Option<Kind>, calls: seq<BuilderCall<P>>, others: seq<BuilderCall<P>>, rest: R)
    requires TotalOrder(p.le) && Supplied(calls) == Supplied(others)
    requires HasExecutable(calls) == HasExecutable(others)
    ensures Built(p, kind, AfterCalls(p, kind, calls), rest) == Built(p, kind, AfterCalls(p, kind, others), rest)
  {
    BuiltListsSupplied(p, kind, calls, rest);
    BuiltListsSupplied(p, kind, others, rest);
    var a := Built(p, kind, AfterCalls(p, kind, calls), rest);
    var b := Built(p, kind, AfterCalls(p, kind, others), rest);
    StrictlySortedUnique(p.le, OrEmpty(a.symlinks), OrEmpty(b.symlinks));
  }

  /** `from_environment` followed by `build` returns a built environment unchanged. */
  lemma RebuildIsIdentity<P(!new), R>(p: Paths<P>, kind: Option<Kind>, calls: seq<BuilderCall<P>>, rest: R)
    requires TotalOrder(p.le)
    ensures var env := Built(p, kind, AfterCalls(p, kind, calls), rest);
            Built(p, env.kind, Draft(env.executable, env.symlinks), env.rest) == env
  {
    BuiltListsSupplied(p, kind, calls, rest);
    var env := Built(p, kind, AfterCalls(p, kind, calls), rest);
    var l := OrEmpty(env.symlinks);
    ElementsConcat(OptionToSeq(env.executable), l);
    SortDedupCanonical(p.le, OptionToSeq(env.executable) + l, l);
    SortDedupIdentity(p.le, l);
    ShortestExecutableIsMember(p, kind, l);
  }

  // ----- the builder as an object -----

  class Builder<P(==), R> {
    const paths: Paths<P>
    const kind: Option<Kind>
    const rest: R
    var executable: Option<P>
    var symlinks: Option<seq<P>>

    ghost function View(): Draft<P>
      reads this
    {
      Draft(executable, symlinks)
    }

    constructor (paths: Paths<P>, kind: Option<Kind>, rest: R)
      ensures View() == AfterCalls(paths, kind, [])
      ensures this.paths == paths && this.kind == kind && this.rest == rest
    {
      this.paths, this.kind, this.rest := paths, kind, rest;
      executable, symlinks := None, None;
    }

    method SetExecutable(exe: Option<P>)
      modifies this
      ensures View() == AfterCall(paths, kind, old(View()), ExecutableCall(exe))
    {
      executable := exe;
      UpdateSymlinksAndExe(symlinks);
    }

    method SetSymlinks(given: Option<seq<P>>)
      modifies this
      ensures View() == AfterCall(paths, kind, old(View()), SymlinksCall(given))
    {
      UpdateSymlinksAndExe(given);
    }

    method UpdateSymlinksAndExe(given: Option<seq<P>>)
      modifies this
      ensures View() == Updated(paths, kind, old(View()), given)
    {
      var all := if symlinks.Some? then symlinks.value else [];
      if executable.Some? {
        all := all + [executable.value];
      }
      if given.Some? {
        all := all + given.value;
      }
      assert all == OrEmpty(symlinks) + OptionToSeq(executable) + OrEmpty(given);
      all := Dedup(Sort(paths.le, all));
      symlinks := if all == [] then None else Some(all);
      if executable.Some? {
        var shortest := ShortestExecutable(paths, kind, all);
        executable := if shortest.Some? then shortest else executable;
      }
    }

    method Build() returns (env: Environment<P, R>)
      ensures env == Built(paths, kind, View(), rest)
    {
      var all := if executable.Some? then [executable.value] else [];
      if symlinks.Some? {
        all := all + symlinks.value;
      }
      assert all == OptionToSeq(executable) + OrEmpty(symlinks);
      all := Dedup(Sort(paths.le, all));
      var chosen := executable;
      if executable.Some? {
        var shortest := ShortestExecutable(paths, kind, all);
        chosen := if shortest.Some? then shortest else executable;
      }
      env := Environment(kind, chosen, if all == [] then None else Some(all), rest);
    }
  }
}
