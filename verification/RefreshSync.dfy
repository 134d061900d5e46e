/**
  Copying discovery state from a transient locator into the long-lived one after a refresh:
  `sync_refresh_state_from` of Conda (crates/pet-conda/src/lib.rs) and of Poetry
  (crates/pet-poetry/src/lib.rs), over whole histories of syncs.
 */
module RefreshSync {
  import opened Prelude
  import opened Ordering

  datatype Kind = CondaKind | PoetryKind | OtherKind(name: string)

  /** `RefreshStateSyncScope`. */
  datatype Scope = Full | GlobalFiltered(kind: Kind) | Workspace

  /** One past sync: its scope and what the source held. */
  datatype Sync<+S> = Sync(scope: Scope, source: S)

  // ----- Conda: one of its three maps -----

  /** The scopes on which Conda copies anything. */
  predicate CondaCounts(scope: Scope) {
    scope == Full || scope == GlobalFiltered(CondaKind)
  }

  function SyncMap<K, V>(mine: map<K, V>, source: map<K, V>, scope: Scope): map<K, V> {
    if scope.Full? then source else if CondaCounts(scope) then mine + source else mine
  }

  function MapAfter<K, V>(initial: map<K, V>, syncs: seq<Sync<map<K, V>>>): map<K, V> {
    if syncs == [] then initial
    else
      var last := syncs[|syncs| - 1];
      SyncMap(MapAfter(initial, syncs[..|syncs| - 1]), last.source, last.scope)
  }

  ghost predicate NoFullAfter<S>(syncs: seq<Sync<S>>, i: int) {
    forall j :: 0 <= j < |syncs| && i < j ==> !syncs[j].scope.Full?
  }

  /** Sync `i` counts, offers `k`, and has not been wiped by a later full sync. */
  ghost predicate Supplies<K, V>(syncs: seq<Sync<map<K, V>>>, i: int, k: K) {
    0 <= i < |syncs| && CondaCounts(syncs[i].scope) && k in syncs[i].source && NoFullAfter(syncs, i)
  }

  /** Sync `i` is the newest one that supplies `k`. */
  ghost predicate Newest<K, V>(syncs: seq<Sync<map<K, V>>>, i: int, k: K) {
    Supplies(syncs, i, k) && forall j :: i < j < |syncs| ==> !Supplies(syncs, j, k)
  }

  /**
    After any history of syncs a map holds exactly the keys supplied since the last full sync,
    each with the value of the newest source that has it; nothing else removes a key.
   */
  lemma {:induction false} NewestSourceWins<K, V>(initial: map<K, V>, syncs: seq<Sync<map<K, V>>>, k: K)
    ensures k in MapAfter(initial, syncs) <==>
              (exists i :: Newest(syncs, i, k)) || (k in initial && NoFullAfter(syncs, -1))
    ensures forall i :: Newest(syncs, i, k) ==>
              k in MapAfter(initial, syncs) && MapAfter(initial, syncs)[k] == syncs[i].source[k]
    ensures k in initial && NoFullAfter(syncs, -1) && (forall i :: !Newest(syncs, i, k)) ==>
              k in MapAfter(initial, syncs) && MapAfter(initial, syncs)[k] == initial[k]
  {
    if syncs != [] {
      var n := |syncs| - 1;
      var before, last := syncs[..n], syncs[n];
      NewestSourceWins(initial, before, k);
      assert Supplies(syncs, n, k) <==> CondaCounts(last.scope) && k in last.source;
      if Supplies(syncs, n, k) {
        assert Newest(syncs, n, k);
      } else if !last.scope.Full? {
        NewestPersists(before, last, syncs, k);
        var mine, now := MapAfter(initial, before), MapAfter(initial, syncs);
        assert now == SyncMap(mine, last.source, last.scope);
        assert (k in now <==> k in mine) && (k in mine ==> now[k] == mine[k]);
      } else {
        assert forall i :: i < n ==> !NoFullAfter(syncs, i);
      }
    }
  }

  /** A last sync that neither supplies the key nor wipes the map leaves the newest one in place. */
  lemma NewestPersists<K, V>(before: seq<Sync<map<K, V>>>, last: Sync<map<K, V>>, syncs: seq<Sync<map<K, V>>>, k: K)
    requires syncs == before + [last] && !last.scope.Full? && !Supplies(syncs, |before|, k)
    ensures NoFullAfter(syncs, -1) <==> NoFullAfter(before, -1)
    ensures forall i :: Newest(syncs, i, k) <==> Newest(before, i, k)
  {
    assert syncs[..|before|] == before && syncs[|before|] == last;
    forall i | 0 <= i < |before| ensures Supplies(syncs, i, k) <==> Supplies(before, i, k) {
      OlderSyncStillSupplies(syncs, i, k);
    }
  }

  lemma OlderSyncStillSupplies<K, V>(syncs: seq<Sync<map<K, V>>>, i: int, k: K)
    requires 0 <= i < |syncs| - 1 && !syncs[|syncs| - 1].scope.Full?
    ensures Supplies(syncs, i, k) <==> Supplies(syncs[..|syncs| - 1], i, k)
  {
    var before := syncs[..|syncs| - 1];
    assert forall j :: 0 <= j < |before| ==> before[j] == syncs[j];
  }

  // ----- Conda: the locator -----

  class Conda<K(==), E, M> {
    var environments: map<K, E>
    var managers: map<K, M>
    var mambaManagers: map<K, M>

    constructor ()
      ensures environments == map[] && managers == map[] && mambaManagers == map[]
    {
      environments, managers, mambaManagers := map[], map[], map[];
    }

    /**
      `sync_refresh_state_from`. A full sync clears each map before it copies the source's, so a
      locator that full-syncs from itself ends up empty.
     */
    method SyncRefreshStateFrom(source: Conda<K, E, M>, scope: Scope)
      modifies this
      ensures source != this || !scope.Full? ==>
                && environments == SyncMap(old(environments), old(source.environments), scope)
                && managers == SyncMap(old(managers), old(source.managers), scope)
                && mambaManagers == SyncMap(old(mambaManagers), old(source.mambaManagers), scope)
      ensures source == this && scope.Full? ==>
                environments == map[] && managers == map[] && mambaManagers == map[]
    {
      match scope
      case Full =>
        environments := map[];
        environments := environments + source.environments;
        managers := map[];
        managers := managers + source.managers;
        mambaManagers := map[];
        mambaManagers := mambaManagers + source.mambaManagers;
      case GlobalFiltered(kind) =>
        if kind == CondaKind {
          environments := environments + source.environments;
          managers := managers + source.managers;
          mambaManagers := mambaManagers + source.mambaManagers;
        }
      case Workspace =>
    }
  }

  // ----- Poetry: search results -----

  /** `LocatorResult`. */
  datatype Found<+M, +E> = Found(managers: seq<M>, environments: seq<E>)

  /** The order of managers, and the order of environments by executable and prefix. */
  datatype Orders<!M, !E> = Orders(managerLe: (M, M) -> bool, environmentLe: (E, E) -> bool)

  function Managers<M, E>(r: Option<Found<M, E>>): seq<M> {
    if r.Some? then r.value.managers else []
  }

  function Environments<M, E>(r: Option<Found<M, E>>): seq<E> {
    if r.Some? then r.value.environments else []
  }

  /** `merge_search_result_from`. */
  function Merged<M(==), E(==)>(
      o: Orders<M, E>, mine: Option<Found<M, E>>, source: Option<Found<M, E>>): Option<Found<M, E>>
  {
    if source.None? then mine
    else Some(Found(SortDedup(o.managerLe, Managers(mine) + source.value.managers),
                    SortDedup(o.environmentLe, Environments(mine) + source.value.environments)))
  }

  predicate PoetryReplaces(scope: Scope) {
    scope == Full || scope == GlobalFiltered(PoetryKind)
  }

  function SyncFound<M(==), E(==)>(
      o: Orders<M, E>, mine: Option<Found<M, E>>, source: Option<Found<M, E>>, scope: Scope): Option<Found<M, E>>
  {
    if PoetryReplaces(scope) then source else if scope.Workspace? then Merged(o, mine, source) else mine
  }

  function FoundAfter<M(==), E(==)>(
      o: Orders<M, E>, initial: Option<Found<M, E>>, syncs: seq<Sync<Option<Found<M, E>>>>): Option<Found<M, E>>
  {
    if syncs == [] then initial
    else
      var last := syncs[|syncs| - 1];
      SyncFound(o, FoundAfter(o, initial, syncs[..|syncs| - 1]), last.source, last.scope)
  }

  ghost predicate NoReplaceAfter<S>(syncs: seq<Sync<S>>, i: int) {
    forall j :: 0 <= j < |syncs| && i < j ==> !PoetryReplaces(syncs[j].scope)
  }

  /** Sync `i` contributes its source's findings and has not been replaced since. */
  ghost predicate Contributes<S>(syncs: seq<Sync<S>>, i: int) {
    && 0 <= i < |syncs| && (PoetryReplaces(syncs[i].scope) || syncs[i].scope.Workspace?)
    && NoReplaceAfter(syncs, i)
  }

  lemma ContributesEarlier<S>(syncs: seq<Sync<S>>, i: int)
    requires 0 <= i < |syncs| - 1 && !PoetryReplaces(syncs[|syncs| - 1].scope)
    ensures Contributes(syncs, i) <==> Contributes(syncs[..|syncs| - 1], i)
  {
    var before := syncs[..|syncs| - 1];
    assert forall j :: 0 <= j < |before| ==> before[j] == syncs[j];
  }

  lemma ContributionsPersist<S>(before: seq<Sync<S>>, last: Sync<S>, syncs: seq<Sync<S>>)
    requires syncs == before + [last] && !PoetryReplaces(last.scope)
    ensures NoReplaceAfter(syncs, -1) <==> NoReplaceAfter(before, -1)
    ensures forall i :: Contributes(before, i) ==> Contributes(syncs, i) && before[i] == syncs[i]
    ensures forall i :: Contributes(syncs, i) && i != |before| ==> Contributes(before, i)
  {
    assert syncs[..|before|] == before && syncs[|before|] == last;
    forall i | 0 <= i < |before| ensures Contributes(syncs, i) <==> Contributes(before, i) {
      ContributesEarlier(syncs, i);
    }
  }

  lemma MergedElements<M, E>(o: Orders<M, E>, mine: Option<Found<M, E>>, source: Option<Found<M, E>>)
    ensures Elements(Managers(Merged(o, mine, source))) == Elements(Managers(mine)) + Elements(Managers(source))
    ensures Elements(Environments(Merged(o, mine, source)))
            == Elements(Environments(mine)) + Elements(Environments(source))
  {
    if source.Some? {
      var ms, es := Managers(mine) + source.value.managers, Environments(mine) + source.value.environments;
      ElementsConcat(Managers(mine), source.value.managers);
      ElementsConcat(Environments(mine), source.value.environments);
      SortElements(o.managerLe, ms);
      DedupElements(Sort(o.managerLe, ms));
      SortElements(o.environmentLe, es);
      DedupElements(Sort(o.environmentLe, es));
    }
  }

  /** Managers and environments behave alike under a sync; `part` picks one of the two lists. */
  ghost predicate MergesAsSets<M(!new), E(!new), T>(o: Orders<M, E>, part: Option<Found<M, E>> -> seq<T>) {
    forall mine, source :: Elements(part(Merged(o, mine, source))) == Elements(part(mine)) + Elements(part(source))
  }

  lemma {:induction false} PartSinceReplacement<M(!new), E(!new), T>(
      o: Orders<M, E>, initial: Option<Found<M, E>>, syncs: seq<Sync<Option<Found<M, E>>>>,
      part: Option<Found<M, E>> -> seq<T>, x: T)
    requires MergesAsSets(o, part)
    ensures x in part(FoundAfter(o, initial, syncs)) <==>
              || (exists i :: Contributes(syncs, i) && x in part(syncs[i].source))
              || (x in part(initial) && NoReplaceAfter(syncs, -1))
  {
    if syncs != [] {
      var n := |syncs| - 1;
      var before, last := syncs[..n], syncs[n];
      PartSinceReplacement(o, initial, before, part, x);
      assert Contributes(syncs, n) <==> PoetryReplaces(last.scope) || last.scope.Workspace?;
      if !PoetryReplaces(last.scope) {
        ContributionsPersist(before, last, syncs);
        var mine := FoundAfter(o, initial, before);
        assert x in Elements(part(Merged(o, mine, last.source))) <==>
               x in Elements(part(mine)) + Elements(part(last.source));
      }
    }
  }

  /** After any history Poetry holds, as sets, what was found since the last replacing sync. */
  lemma UnionSinceReplacement<M(!new), E(!new)>(
      o: Orders<M, E>, initial: Option<Found<M, E>>, syncs: seq<Sync<Option<Found<M, E>>>>, m: M, e: E)
    ensures m in Managers(FoundAfter(o, initial, syncs)) <==>
              || (exists i :: Contributes(syncs, i) && m in Managers(syncs[i].source))
              || (m in Managers(initial) && NoReplaceAfter(syncs, -1))
    ensures e in Environments(FoundAfter(o, initial, syncs)) <==>
              || (exists i :: Contributes(syncs, i) && e in Environments(syncs[i].source))
              || (e in Environments(initial) && NoReplaceAfter(syncs, -1))
  {
    forall mine, source {
      MergedElements(o, mine, source);
    }
    PartSinceReplacement(o, initial, syncs, Managers, m);
    PartSinceReplacement(o, initial, syncs, Environments, e);
  }

  /**
    A merge leaves managers duplicate-free. It leaves environments duplicate-free exactly when
    none recurs behind a different environment with its executable and prefix, because the sort
    key is coarser than the equality that `dedup` uses.
   */
  lemma MergeDuplicates<M(!new), E(!new)>(o: Orders<M, E>, mine: Option<Found<M, E>>, source: Found<M, E>)
    requires TotalOrder(o.managerLe) && TotalPreorder(o.environmentLe)
    ensures StrictlySorted(o.managerLe, Managers(Merged(o, mine, Some(source))))
    ensures Sorted(o.environmentLe, Environments(Merged(o, mine, Some(source))))
    ensures Distinct(Environments(Merged(o, mine, Some(source)))) <==>
            Grouped(o.environmentLe, Environments(mine) + source.environments)
  {
    var es := Environments(mine) + source.environments;
    SortDedupStrict(o.managerLe, Managers(mine) + source.managers);
    SortSorted(o.environmentLe, es);
    DedupSorted(o.environmentLe, Sort(o.environmentLe, es));
    SortDedupDistinctIff(o.environmentLe, es);
  }

  /** Where executable and prefix determine the environment, a merge is duplicate-free. */
  lemma MergeDistinctWhenKeyed<M(!new), E(!new)>(o: Orders<M, E>, mine: Option<Found<M, E>>, source: Found<M, E>)
    requires TotalOrder(o.managerLe) && TotalPreorder(o.environmentLe)
    requires var all := Environments(mine) + source.environments;
             forall x, y :: x in all && y in all && SameKey(o.environmentLe, x, y) ==> x == y
    ensures Distinct(Environments(Merged(o, mine, Some(source))))
  {
    KeyDeterminesGrouped(o.environmentLe, Environments(mine) + source.environments);
    MergeDuplicates(o, mine, source);
  }

  /** Two different environments with one key are enough for a duplicate to survive. */
  lemma MergeCanKeepDuplicates<M(!new), E(!new)>(o: Orders<M, E>, a: E, b: E)
    requires TotalOrder(o.managerLe) && TotalPreorder(o.environmentLe)
    requires a != b && SameKey(o.environmentLe, a, b)
    ensures !Distinct(Environments(Merged(o, Some(Found([], [a, b])), Some(Found([], [a])))))
  {
    var es := [a, b] + [a];
    assert es[..2] == [a, b] && es[2] == a;
    assert !FollowsItself(o.environmentLe, es[..2], es[2]);
    MergeDuplicates(o, Some(Found([], [a, b])), Found([], [a]));
  }

  // ----- Poetry: the locator -----

  class Poetry<M(==), E(==)> {
    const orders: Orders<M, E>
    var searchResult: Option<Found<M, E>>

    constructor (orders: Orders<M, E>)
      ensures searchResult == None && this.orders == orders
    {
      this.orders, searchResult := orders, None;
    }

    method MergeSearchResultFrom(source: Poetry<M, E>)
      modifies this
      ensures searchResult == Merged(orders, old(searchResult), old(source.searchResult))
    {
      if source.searchResult.None? {
        return;
      }
      var theirs := source.searchResult.value;
      var merged := if searchResult.Some? then searchResult.value else Found([], []);
      merged := Found(merged.managers + theirs.managers, merged.environments + theirs.environments);
      merged := Found(Dedup(Sort(orders.managerLe, merged.managers)),
                      Dedup(Sort(orders.environmentLe, merged.environments)));
      searchResult := Some(merged);
    }

    method SyncRefreshStateFrom(source: Poetry<M, E>, scope: Scope)
      modifies this
      ensures searchResult == SyncFound(orders, old(searchResult), old(source.searchResult), scope)
    {
      match scope
      case Full => searchResult := source.searchResult;
      case GlobalFiltered(kind) =>
        if kind == PoetryKind {
          searchResult := source.searchResult;
        }
      case Workspace => MergeSearchResultFrom(source);
    }
  }
}
