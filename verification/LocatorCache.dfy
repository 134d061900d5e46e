/**
  `LocatorCache` as the object the locators share (crates/pet-core/src/cache.rs). Each method is
  one lock region, or the uninterrupted run of one call, and is tied to the region functions
  of the transition system in `SingleFlight`.
 */
module LocatorCaching {
  import opened Prelude
  import opened SingleFlight

  class LocatorCache<K(==), V> {
    var cache: map<K, V>
    var inFlight: map<K, nat>
    var results: map<nat, InFlightResult<V>>
    var nextEntry: nat

    ghost function Mem(): Shared<K, V>
      reads this
    {
      Shared(cache, inFlight, results)
    }

    constructor ()
      ensures Mem() == Init<K, V>().mem
    {
      cache, inFlight, results, nextEntry := map[], map[], map[], 0;
    }

    method Get(k: K) returns (r: Option<V>)
      ensures r == Lookup(cache, k)
    {
      r := if k in cache then Some(cache[k]) else None;
    }

    /** `insert`: returns the value that was replaced. */
    method Insert(k: K, v: V) returns (previous: Option<V>)
      modifies this`cache
      ensures previous == old(Lookup(cache, k))
      ensures cache == old(cache)[k := v]
      ensures Mem() == Apply(State(old(Mem()), []), Action.Insert(k, v)).mem
    {
      previous := if k in cache then Some(cache[k]) else None;
      cache := cache[k := v];
    }

    /** `insert_many`: one write region for all pairs, later pairs winning. */
    method InsertMany(items: seq<(K, V)>)
      modifies this`cache
      ensures cache == InsertAll(old(cache), items)
      ensures Mem() == Apply(State(old(Mem()), []), Action.InsertMany(items)).mem
    {
      for i := 0 to |items|
        invariant cache == InsertAll(old(cache), items[..i])
      {
        cache := cache[items[i].0 := items[i].1];
        assert items[..i + 1][..i] == items[..i];
      }
      assert items[..|items|] == items;
    }

    method Clear()
      modifies this`cache
      ensures cache == map[]
      ensures Mem() == Apply(State(old(Mem()), []), Action.Clear).mem
    {
      cache := map[];
    }

    /** `claim_in_flight`: the caller owns the slot exactly when no call held it. */
    method ClaimInFlight(k: K) returns (owner: bool, entry: nat)
      modifies this`inFlight, this`nextEntry
      ensures (Mem(), entry) == ClaimSlot(old(Mem()), k, old(nextEntry))
      ensures owner == (k !in old(inFlight))
      ensures nextEntry == old(nextEntry) + if owner then 1 else 0
    {
      if k in inFlight {
        return false, inFlight[k];
      }
      entry := nextEntry;
      nextEntry := nextEntry + 1;
      inFlight := inFlight[k := entry];
      owner := true;
    }

    /** `publish`: the result first, the slot second; the wake-up touches no memory. */
    method Publish(k: K, entry: nat, r: InFlightResult<V>)
      modifies this`inFlight, this`results
      ensures results == old(results)[entry := r]
      ensures inFlight == old(inFlight) - {k}
    {
      results := results[entry := r];
      inFlight := inFlight - {k};
    }

    /**
      `wait_for_in_flight`: a stored result is returned at once; otherwise the holder of the slot
      publishes `awaited` while this call waits.
     */
    method WaitForInFlight(k: K, entry: nat, awaited: InFlightResult<V>) returns (r: InFlightResult<V>)
      modifies this`inFlight, this`results
      ensures entry in results && results[entry] == r
      ensures entry in old(results) ==> r == old(results)[entry] && inFlight == old(inFlight) && results == old(results)
      ensures entry !in old(results) ==>
                r == awaited && inFlight == old(inFlight) - {k} && results == old(results)[entry := awaited]
    {
      if entry !in results {
        Publish(k, entry, awaited);
      }
      r := results[entry];
    }

    /**
      One `get_or_insert_with(k, f)`, where `outcome` is what `f` would do, return `Value(r)` or
      panic, and `awaited` is what another call that holds the slot of `k` publishes, if one does.
     */
    method GetOrInsertWith(k: K, outcome: InFlightResult<V>, awaited: InFlightResult<V>)
      returns (r: InFlightResult<V>)
      modifies this
      ensures k in old(cache) ==> r == Value(Some(old(cache)[k])) && Mem() == old(Mem())
      ensures k !in old(cache) && k !in old(inFlight) ==>
                && r == outcome && inFlight == old(inFlight)
                && cache == (if outcome.Value? && outcome.value.Some?
                             then old(cache)[k := outcome.value.value] else old(cache))
      ensures k !in old(cache) && k in old(inFlight) ==>
                && cache == old(cache)
                && var entry := old(inFlight)[k];
                   && r == (if entry in old(results) then old(results)[entry] else awaited)
                   && entry in results && results[entry] == r
    {
      var hit := Get(k);
      if hit.Some? {
        return Value(hit);
      }
      var owner, entry := ClaimInFlight(k);
      if !owner {
        r := WaitForInFlight(k, entry, awaited);
        return;
      }
      var again := Get(k);
      if again.Some? {
        r := Value(again);
      } else {
        r := outcome;
        if outcome.Value? && outcome.value.Some? {
          if k !in cache {
            cache := cache[k := outcome.value.value];
          }
          r := Value(Some(cache[k]));
        }
      }
      Publish(k, entry, r);
    }
  }
}
