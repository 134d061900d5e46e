/**
  Global Pythons on Linux (crates/pet-linux-global-python/src/lib.rs): which files of a bin
  directory are collected as symlinks of one interpreter, and what the table of reported
  executables holds in every interleaving of discovery and `try_from`.
 */
module LinuxGlobal {
  import opened Prelude
  import opened Ordering
  import opened EnvironmentBuilder
  import SingleFlight
  import opened SingleFlightRuns

  /**
    What the code asks of the disk: `fs::canonicalize`, whether `resolve_symlink` follows a file
    (a link with a Python or conda name), the Python executables of a directory, the parent of a
    path, and `starts_with`.
   */
  datatype Disk<!P> = Disk(
    canonical: P -> Option<P>,
    isNamedLink: P -> bool,
    executables: P -> seq<P>,
    parent: P -> Option<P>,
    under: (P, P) -> bool)

  /** Canonical paths are their own canonical form. */
  ghost predicate Idempotent<P(!new)>(d: Disk<P>) {
    forall p :: d.canonical(p).Some? ==> d.canonical(d.canonical(p).value) == d.canonical(p)
  }

  /** `resolve_symlink`: nothing for a path that is not a link or resolves to itself. */
  function ResolveSymlink<P(==)>(d: Disk<P>, p: P): Option<P> {
    if d.isNamedLink(p) && d.canonical(p) != Some(p) then d.canonical(p) else None
  }

  /** `resolve_symlink(p).or(canonicalize(p))`. */
  function Resolved<P(==)>(d: Disk<P>, p: P): (r: Option<P>)
    ensures r == d.canonical(p)
  {
    if ResolveSymlink(d, p).Some? then ResolveSymlink(d, p) else d.canonical(p)
  }

  // ----- collecting symlinks -----

  /** What is collected before the directory is scanned. */
  ghost function Known<P>(d: Disk<P>, given: seq<P>, exe: P, bin: P): set<P> {
    Elements(given) + {exe} +
    (if d.canonical(exe).Some? && d.under(d.canonical(exe).value, bin) then {d.canonical(exe).value} else {})
  }

  /** A file of the directory joins: its real file is known, or is the interpreter's elsewhere. */
  ghost predicate Joins<P>(d: Disk<P>, given: seq<P>, exe: P, bin: P, q: P) {
    d.canonical(q).Some? &&
    var target := d.canonical(q).value;
    if d.under(target, bin) then target in Known(d, given, exe, bin) else d.canonical(exe) == Some(target)
  }

  /** Everything collected after looking at the files in `scanned`. */
  ghost function Collected<P>(d: Disk<P>, given: seq<P>, exe: P, bin: P, scanned: seq<P>): set<P> {
    Known(d, given, exe, bin) + set q | q in scanned && Joins(d, given, exe, bin, q)
  }

  /** Growing the list while scanning does not change who joins. */
  lemma MembershipIsStable<P(!new)>(d: Disk<P>, given: seq<P>, exe: P, bin: P, scanned: seq<P>, q: P)
    requires Idempotent(d) && d.canonical(q).Some? && d.under(d.canonical(q).value, bin)
    ensures d.canonical(q).value in Collected(d, given, exe, bin, scanned) <==>
            d.canonical(q).value in Known(d, given, exe, bin)
  {
    var target := d.canonical(q).value;
    assert d.canonical(target) == Some(target);
  }

  lemma CollectedGrows<P>(d: Disk<P>, given: seq<P>, exe: P, bin: P, scanned: seq<P>, q: P)
    ensures Collected(d, given, exe, bin, scanned + [q])
            == Collected(d, given, exe, bin, scanned) + (if Joins(d, given, exe, bin, q) then {q} else {})
  {
    assert forall x :: x in scanned + [q] <==> x in scanned || x == q;
  }

  /** The list before the scan, and the interpreter's real file if it lies elsewhere. */
  method KnownSymlinks<P(==)>(d: Disk<P>, given: seq<P>, exe: P, bin: P)
    returns (symlinks: seq<P>, elsewhere: Option<P>)
    ensures Elements(symlinks) == Known(d, given, exe, bin)
    ensures elsewhere == if d.canonical(exe).Some? && !d.under(d.canonical(exe).value, bin)
                         then d.canonical(exe) else None
  {
    symlinks := given + [exe];
    ElementsConcat(given, [exe]);
    elsewhere := None;
    var resolved := Resolved(d, exe);
    if resolved.Some? {
      if d.under(resolved.value, bin) {
        ElementsConcat(symlinks, [resolved.value]);
        symlinks := symlinks + [resolved.value];
      } else {
        elsewhere := resolved;
      }
    }
    if d.canonical(exe).Some? {
      if d.under(d.canonical(exe).value, bin) {
        ElementsConcat(symlinks, [d.canonical(exe).value]);
        symlinks := symlinks + [d.canonical(exe).value];
      } else {
        elsewhere := d.canonical(exe);
      }
    }
  }

  /**
    The scanning part of `get_python_in_bin`, with its two ways of recognising a file and a list
    that grows while it is consulted.
   */
  method CollectSymlinks<P(==, !new)>(d: Disk<P>, given: seq<P>, exe: P, bin: P) returns (symlinks: seq<P>)
    requires Idempotent(d)
    ensures Elements(symlinks) == Collected(d, given, exe, bin, d.executables(bin))
  {
    var elsewhere: Option<P>;
    symlinks, elsewhere := KnownSymlinks(d, given, exe, bin);
    var files := d.executables(bin);
    for i := 0 to |files|
      invariant Elements(symlinks) == Collected(d, given, exe, bin, files[..i])
    {
      var q := files[i];
      var target := Resolved(d, q);
      if target.Some? {
        if d.under(target.value, bin) {
          MembershipIsStable(d, given, exe, bin, files[..i], q);
          assert target.value in symlinks <==> target.value in Elements(symlinks);
        }
        if d.under(target.value, bin) && target.value in symlinks {
          ElementsConcat(symlinks, [q]);
          symlinks := symlinks + [q];
        }
        if elsewhere == target {
          ElementsConcat(symlinks, [q]);
          symlinks := symlinks + [q];
        }
      }
      CollectedGrows(d, given, exe, bin, files[..i], q);
      assert files[..i + 1] == files[..i] + [q];
    }
    assert files[..|files|] == files;
  }

  /**
    With an executable that has a real file, and given symlinks that are already its aliases, the
    collected Python executables of the directory are exactly those with the same real file.
   */
  lemma CollectedAreTheAliases<P(!new)>(d: Disk<P>, given: seq<P>, exe: P, bin: P, q: P)
    requires Idempotent(d) && d.canonical(exe).Some?
    requires forall x :: x in given ==> d.canonical(x) == d.canonical(exe)
    requires q in d.executables(bin)
    ensures q in Collected(d, given, exe, bin, d.executables(bin)) <==> d.canonical(q) == d.canonical(exe)
  {
    var target := d.canonical(exe).value;
    assert d.canonical(target) == Some(target);
    forall x | x in Known(d, given, exe, bin) ensures d.canonical(x) == Some(target) {}
    if d.canonical(q).Some? {
      assert d.canonical(d.canonical(q).value) == d.canonical(q);
    }
  }

  /**
    With given symlinks of any kind: the given paths, the executable and its real file in the same
    directory are collected, and of the directory's files exactly those whose real file is one of
    these, or is the executable's wherever that lies.
   */
  lemma CollectedIs<P(!new)>(d: Disk<P>, given: seq<P>, exe: P, bin: P, q: P)
    ensures q in Collected(d, given, exe, bin, d.executables(bin)) <==>
              || q in given || q == exe || (d.canonical(exe) == Some(q) && d.under(q, bin))
              || (&& q in d.executables(bin) && d.canonical(q).Some?
                  && var target := d.canonical(q).value;
                     || d.canonical(exe) == Some(target)
                     || (d.under(target, bin) && (target in given || target == exe)))
  {}

  /** `get_python_in_bin`: the collected paths become the environment's symlinks. */
  method GetPythonInBin<P(==, !new), R>(
      d: Disk<P>, paths: Paths<P>, exe: P, given: Option<seq<P>>, hasVersion: bool, hasPrefix: bool, rest: R)
    returns (env: Option<Environment<P, R>>)
    requires Idempotent(d) && TotalOrder(paths.le)
    ensures env.Some? <==> hasVersion && hasPrefix && d.parent(exe).Some?
    ensures env.Some? ==>
              var bin := d.parent(exe).value;
              && Lists(paths, env.value.symlinks, Collected(d, OrEmpty(given), exe, bin, d.executables(bin)))
              && env.value.executable.Some? && env.value.executable.value in OrEmpty(env.value.symlinks)
              && env.value.kind == Some(OtherKind("LinuxGlobal")) && env.value.rest == rest
              && exists i :: FirstShortest(paths, OrEmpty(env.value.symlinks), i)
                             && env.value.executable.value == OrEmpty(env.value.symlinks)[i]
  {
    if !hasVersion || !hasPrefix || d.parent(exe).None? {
      return None;
    }
    var bin := d.parent(exe).value;
    var symlinks := CollectSymlinks(d, if given.Some? then given.value else [], exe, bin);
    SortDedupStrict(paths.le, symlinks);
    symlinks := Dedup(Sort(paths.le, symlinks));
    var kind := Some(OtherKind("LinuxGlobal"));
    var builder := new Builder(paths, kind, rest);
    builder.SetExecutable(Some(exe));
    builder.SetSymlinks(Some(symlinks));
    var built := builder.Build();
    BuiltFromList(paths, kind, exe, symlinks, rest);
    env := Some(built);
  }

  /** A builder given one executable and a list that contains it builds exactly that list. */
  lemma BuiltFromList<P(!new), R>(p: Paths<P>, kind: Option<Kind>, exe: P, symlinks: seq<P>, rest: R)
    requires TotalOrder(p.le) && exe in Elements(symlinks)
    ensures var d := AfterCall(p, kind, AfterCall(p, kind, AfterCalls(p, kind, []), ExecutableCall(Some(exe))),
                               SymlinksCall(Some(symlinks)));
            var env := Built(p, kind, d, rest);
            && Lists(p, env.symlinks, Elements(symlinks))
            && env.executable.Some? && env.executable.value in OrEmpty(env.symlinks)
            && exists i :: Preferred(p, kind, OrEmpty(env.symlinks), i)
                           && env.executable.value == OrEmpty(env.symlinks)[i]
  {
    var calls := [ExecutableCall(Some(exe)), SymlinksCall(Some(symlinks))];
    assert calls[..1] == [calls[0]] && calls[..1][..0] == [];
    BuiltListsSupplied(p, kind, calls, rest);
    assert Supplied(calls[..1]) == Elements([exe]);
  }

  // ----- the table of reported executables -----

  /** A `try_from` that found an environment under the canonical path, with its two inserts to do. */
  datatype Pending<+P, +R> = Pending(canonical: P, executable: P, env: Environment<P, R>, insertsDone: nat)

  datatype Table<P, R> = Table(reported: map<P, Environment<P, R>>, pending: seq<Pending<P, R>>)

  datatype TableAction<P, R> =
    | Report(env: Environment<P, R>)
    | FindCanonical(canonical: P, executable: P)
    | InsertNext(i: nat)
    | ClearTable

  /** The pairs inserted at once for a discovered environment: its symlinks, then its executable. */
  function Entries<P, R>(env: Environment<P, R>): seq<(P, Environment<P, R>)> {
    var keys := OrEmpty(env.symlinks) + OptionToSeq(env.executable);
    seq(|keys|, i requires 0 <= i < |keys| => (keys[i], env))
  }

  /** `try_from`: the original path becomes one of the symlinks. */
  function WithSymlink<P(==), R>(p: Paths<P>, env: Environment<P, R>, executable: P): Environment<P, R> {
    var symlinks := OrEmpty(env.symlinks);
    if executable in symlinks then env
    else env.(symlinks := Some(SortDedup(p.le, symlinks + [executable])))
  }

  ghost predicate TableEnabled<P, R>(t: Table<P, R>, a: TableAction<P, R>) {
    match a
    case Report(env) => env.executable.Some? ==> env.executable.value in OrEmpty(env.symlinks)
    case FindCanonical(canonical, executable) => canonical != executable && canonical in t.reported
    case InsertNext(i) => i < |t.pending| && t.pending[i].insertsDone < 2
    case ClearTable => true
  }

  ghost function TableApply<P, R>(p: Paths<P>, t: Table<P, R>, a: TableAction<P, R>): Table<P, R>
    requires TableEnabled(t, a)
  {
    match a
    case Report(env) => t.(reported := SingleFlight.InsertAll(t.reported, Entries(env)))
    case FindCanonical(canonical, executable) =>
      t.(pending := t.pending + [Pending(canonical, executable, WithSymlink(p, t.reported[canonical], executable), 0)])
    case InsertNext(i) =>
      var x := t.pending[i];
      Table(t.reported[(if x.insertsDone == 0 then x.canonical else x.executable) := x.env],
            t.pending[i := x.(insertsDone := x.insertsDone + 1)])
    case ClearTable => t.(reported := map[])
  }

  ghost predicate TableInv<P(!new), R>(t: Table<P, R>) {
    && (forall k :: k in t.reported ==> k in OrEmpty(t.reported[k].symlinks))
    && (forall i :: 0 <= i < |t.pending| ==>
          && t.pending[i].canonical in OrEmpty(t.pending[i].env.symlinks)
          && t.pending[i].executable in OrEmpty(t.pending[i].env.symlinks))
  }

  lemma {:induction false} InsertAllOrigin<K, V>(m: map<K, V>, items: seq<(K, V)>, k: K)
    requires k in SingleFlight.InsertAll(m, items)
    ensures (k in m && SingleFlight.InsertAll(m, items)[k] == m[k]) ||
            (exists i :: 0 <= i < |items| && items[i] == (k, SingleFlight.InsertAll(m, items)[k]))
  {
    if items != [] {
      var n := |items| - 1;
      if items[n].0 == k {
        assert items[n] == (k, SingleFlight.InsertAll(m, items)[k]);
      } else {
        InsertAllOrigin(m, items[..n], k);
      }
    }
  }

  lemma WithSymlinkMembers<P(!new), R>(p: Paths<P>, env: Environment<P, R>, executable: P, x: P)
    ensures x in OrEmpty(WithSymlink(p, env, executable).symlinks) <==>
            x in OrEmpty(env.symlinks) || x == executable
  {
    var symlinks := OrEmpty(env.symlinks);
    if executable !in symlinks {
      var all := symlinks + [executable];
      SortElements(p.le, all);
      DedupElements(Sort(p.le, all));
      assert x in SortDedup(p.le, all) <==> x in Elements(all);
    }
  }

  /** A report makes every symlink and the executable keys of the new environment, and changes no other key. */
  lemma ReportInserts<P(!new), R>(p: Paths<P>, t: Table<P, R>, env: Environment<P, R>, k: P)
    requires TableEnabled(t, Report(env))
    ensures var after := TableApply(p, t, Report(env)).reported;
            if k in OrEmpty(env.symlinks) || env.executable == Some(k) then k in after && after[k] == env
            else SingleFlight.Lookup(after, k) == SingleFlight.Lookup(t.reported, k)
  {
    var items, keys := Entries(env), OrEmpty(env.symlinks) + OptionToSeq(env.executable);
    InsertAllIs(t.reported, items, k);
    assert |items| == |keys| && forall i :: 0 <= i < |keys| ==> items[i] == (keys[i], env);
    if k in OrEmpty(env.symlinks) || env.executable == Some(k) {
      assert k in keys;
      var i :| 0 <= i < |keys| && keys[i] == k;
      assert items[i].0 == k;
    } else {
      forall i | 0 <= i < |keys| ensures keys[i] != k { assert keys[i] in keys; }
    }
  }

  /**
    A `try_from` that finds the canonical path reported answers with that environment plus the
    given path among its symlinks, and after its two inserts both paths lead to that answer.
   */
  lemma TryFromUpdatesBoth<P(!new), R>(p: Paths<P>, t: Table<P, R>, canonical: P, executable: P)
    requires TableEnabled(t, FindCanonical(canonical, executable))
    ensures var i := |t.pending|;
            var found := TableApply(p, t, FindCanonical(canonical, executable));
            var once := TableApply(p, found, InsertNext(i));
            var after := TableApply(p, once, InsertNext(i));
            var env := found.pending[i].env;
            && after.reported == t.reported[canonical := env][executable := env]
            && env == t.reported[canonical].(symlinks := env.symlinks)
            && forall x :: x in OrEmpty(env.symlinks) <==>
                           x in OrEmpty(t.reported[canonical].symlinks) || x == executable
  {
    forall x ensures x in OrEmpty(WithSymlink(p, t.reported[canonical], executable).symlinks) <==>
                     x in OrEmpty(t.reported[canonical].symlinks) || x == executable
    {
      WithSymlinkMembers(p, t.reported[canonical], executable, x);
    }
  }

  lemma TableStepKeepsInv<P(!new), R>(p: Paths<P>, t: Table<P, R>, a: TableAction<P, R>)
    requires TableInv(t) && TableEnabled(t, a)
    ensures TableInv(TableApply(p, t, a))
  {
    var t' := TableApply(p, t, a);
    match a
    case Report(env) =>
      forall k | k in t'.reported ensures k in OrEmpty(t'.reported[k].symlinks) {
        InsertAllOrigin(t.reported, Entries(env), k);
      }
    case FindCanonical(canonical, executable) =>
      WithSymlinkMembers(p, t.reported[canonical], executable, canonical);
      WithSymlinkMembers(p, t.reported[canonical], executable, executable);
    case _ =>
  }

  /** The table after some actions, taken in order, each where it is enabled. */
  ghost predicate TableRun<P, R>(p: Paths<P>, states: seq<Table<P, R>>, actions: seq<TableAction<P, R>>) {
    && |states| == |actions| + 1
    && states[0] == Table(map[], [])
    && (forall i :: 0 <= i < |actions| ==> TableStepAt(p, states, actions, i))
  }

  ghost predicate TableStepAt<P, R>(p: Paths<P>, states: seq<Table<P, R>>, actions: seq<TableAction<P, R>>, i: int)
    requires |states| == |actions| + 1 && 0 <= i < |actions|
  {
    TableEnabled(states[i], actions[i]) && states[i + 1] == TableApply(p, states[i], actions[i])
  }

  /**
    In every interleaving of discovery, `clear` and the two separate inserts of `try_from`, each
    key of the table is one of the symlinks of its own environment.
   */
  lemma {:induction false} KeysAreOwnSymlinks<P(!new), R>(
      p: Paths<P>, states: seq<Table<P, R>>, actions: seq<TableAction<P, R>>, n: nat)
    requires TableRun(p, states, actions) && n <= |actions|
    ensures TableInv(states[n])
    ensures forall k :: k in states[n].reported ==> k in OrEmpty(states[n].reported[k].symlinks)
  {
    if n > 0 {
      KeysAreOwnSymlinks(p, states, actions, n - 1);
      assert TableStepAt(p, states, actions, n - 1);
      TableStepKeepsInv(p, states[n - 1], actions[n - 1]);
    }
  }
}
