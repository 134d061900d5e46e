/**
  `Vec::sort` (stable) followed by `Vec::dedup` (adjacent duplicates only), as the locators use
  them, for any order given as a relation.
 */
module Ordering {
  import opened Prelude

  ghost predicate TotalPreorder<T(!new)>(le: (T, T) -> bool) {
    && (forall x, y :: le(x, y) || le(y, x))
    && (forall x, y, z :: le(x, y) && le(y, z) ==> le(x, z))
  }

  ghost predicate TotalOrder<T(!new)>(le: (T, T) -> bool) {
    TotalPreorder(le) && forall x, y :: le(x, y) && le(y, x) ==> x == y
  }

  /** `x` goes behind every element that does not sort after it. */
  function Insert<T>(le: (T, T) -> bool, s: seq<T>, x: T): seq<T> {
    if s == [] then [x]
    else
      var n := |s| - 1;
      if le(s[n], x) then s + [x] else Insert(le, s[..n], x) + [s[n]]
  }

  function Sort<T>(le: (T, T) -> bool, s: seq<T>): seq<T> {
    if s == [] then [] else Insert(le, Sort(le, s[..|s| - 1]), s[|s| - 1])
  }

  function Dedup<T(==)>(s: seq<T>): seq<T> {
    if |s| <= 1 then s
    else
      var n := |s| - 1;
      if s[n - 1] == s[n] then Dedup(s[..n]) else Dedup(s[..n]) + [s[n]]
  }

  function SortDedup<T(==)>(le: (T, T) -> bool, s: seq<T>): seq<T> {
    Dedup(Sort(le, s))
  }

  ghost predicate Sorted<T>(le: (T, T) -> bool, s: seq<T>) {
    forall i, j :: 0 <= i < j < |s| ==> le(s[i], s[j])
  }

  ghost predicate Distinct<T>(s: seq<T>) {
    forall i, j :: 0 <= i < j < |s| ==> s[i] != s[j]
  }

  ghost predicate StrictlySorted<T>(le: (T, T) -> bool, s: seq<T>) {
    Sorted(le, s) && Distinct(s)
  }

  ghost function Elements<T>(s: seq<T>): set<T> {
    set x | x in s
  }

  lemma ElementsConcat<T>(s: seq<T>, t: seq<T>)
    ensures Elements(s + t) == Elements(s) + Elements(t)
  {
    assert forall x :: x in s + t <==> x in s || x in t;
  }

  lemma NoElements<T>(s: seq<T>)
    ensures Elements(s) == {} <==> s == []
  {
    if s != [] { assert s[0] in Elements(s); }
  }

  // ----- sorting -----

  lemma {:induction false} InsertElements<T>(le: (T, T) -> bool, s: seq<T>, x: T)
    ensures Elements(Insert(le, s, x)) == Elements(s) + {x}
    ensures |Insert(le, s, x)| == |s| + 1
  {
    if s == [] || le(s[|s| - 1], x) {
      assert Insert(le, s, x) == s + [x];
      ElementsConcat(s, [x]);
    } else {
      var n := |s| - 1;
      InsertElements(le, s[..n], x);
      ElementsConcat(Insert(le, s[..n], x), [s[n]]);
      assert s == s[..n] + [s[n]];
      ElementsConcat(s[..n], [s[n]]);
    }
  }

  lemma {:induction false} SortElements<T>(le: (T, T) -> bool, s: seq<T>)
    ensures Elements(Sort(le, s)) == Elements(s) && |Sort(le, s)| == |s|
  {
    if s != [] {
      SortElements(le, s[..|s| - 1]);
      InsertElements(le, Sort(le, s[..|s| - 1]), s[|s| - 1]);
      assert s == s[..|s| - 1] + [s[|s| - 1]];
      ElementsConcat(s[..|s| - 1], [s[|s| - 1]]);
    }
  }

  lemma {:induction false} InsertSorted<T(!new)>(le: (T, T) -> bool, s: seq<T>, x: T)
    requires TotalPreorder(le) && Sorted(le, s)
    ensures Sorted(le, Insert(le, s, x))
  {
    if s != [] && !le(s[|s| - 1], x) {
      var n := |s| - 1;
      InsertSorted(le, s[..n], x);
      InsertElements(le, s[..n], x);
      var r := Insert(le, s[..n], x);
      forall i | 0 <= i < |r| ensures le(r[i], s[n]) {
        assert r[i] in Elements(r);
      }
    }
  }

  lemma {:induction false} SortSorted<T(!new)>(le: (T, T) -> bool, s: seq<T>)
    requires TotalPreorder(le)
    ensures Sorted(le, Sort(le, s))
  {
    if s != [] {
      SortSorted(le, s[..|s| - 1]);
      InsertSorted(le, Sort(le, s[..|s| - 1]), s[|s| - 1]);
    }
  }

  // ----- removing adjacent duplicates -----

  lemma {:induction false} DedupElements<T>(s: seq<T>)
    ensures Elements(Dedup(s)) == Elements(s)
    ensures s != [] ==> Dedup(s) != [] && Dedup(s)[|Dedup(s)| - 1] == s[|s| - 1]
  {
    if |s| > 1 {
      var n := |s| - 1;
      DedupElements(s[..n]);
      assert s == s[..n] + [s[n]];
      ElementsConcat(s[..n], [s[n]]);
      ElementsConcat(Dedup(s[..n]), [s[n]]);
      assert s[n - 1] in s[..n];
    }
  }

  lemma {:induction false} DedupSorted<T(!new)>(le: (T, T) -> bool, s: seq<T>)
    requires Sorted(le, s)
    ensures Sorted(le, Dedup(s))
  {
    if |s| > 1 {
      var n := |s| - 1;
      DedupSorted(le, s[..n]);
      DedupElements(s[..n]);
      var d := Dedup(s[..n]);
      forall i | 0 <= i < |d| ensures le(d[i], s[n]) {
        assert d[i] in Elements(d);
      }
    }
  }

  /** All occurrences of a value stand together. */
  ghost predicate Contiguous<T>(s: seq<T>) {
    forall i, j, k :: 0 <= i < j < k < |s| && s[i] == s[k] ==> s[j] == s[i]
  }

  /** `dedup` removes every duplicate exactly when equal elements stand together. */
  lemma {:induction false} DedupDistinctIff<T>(s: seq<T>)
    ensures Distinct(Dedup(s)) <==> Contiguous(s)
  {
    if |s| > 1 {
      var n := |s| - 1;
      var t, d := s[..n], Dedup(s[..n]);
      DedupDistinctIff(t);
      DedupElements(t);
      assert Contiguous(s) ==> Contiguous(t) by {
        assert forall i :: 0 <= i < n ==> t[i] == s[i];
      }
      if s[n - 1] != s[n] {
        assert s[n] in d <==> s[n] in t by {
          assert s[n] in Elements(d) <==> s[n] in Elements(t);
        }
        if s[n] in t {
          var i :| 0 <= i < n && t[i] == s[n];
          assert i < n - 1 < n && s[i] == s[n];
          var j :| 0 <= j < |d| && d[j] == s[n];
          assert Dedup(s)[j] == Dedup(s)[|d|];
        } else if Distinct(d) {
          assert Distinct(d + [s[n]]);
        } else {
          var i, j :| 0 <= i < j < |d| && d[i] == d[j];
          assert Dedup(s)[i] == Dedup(s)[j];
        }
      }
    }
  }

  /** In a total order `sort` then `dedup` gives a strictly ascending list of the same elements. */
  lemma SortDedupStrict<T(!new)>(le: (T, T) -> bool, s: seq<T>)
    requires TotalOrder(le)
    ensures StrictlySorted(le, SortDedup(le, s))
    ensures Elements(SortDedup(le, s)) == Elements(s)
  {
    SortElements(le, s);
    SortSorted(le, s);
    DedupElements(Sort(le, s));
    DedupSorted(le, Sort(le, s));
    DedupDistinctIff(Sort(le, s));
  }

  /** A strictly ascending list is determined by its elements. */
  lemma {:induction false} StrictlySortedUnique<T(!new)>(le: (T, T) -> bool, s: seq<T>, t: seq<T>)
    requires TotalOrder(le) && StrictlySorted(le, s) && StrictlySorted(le, t)
    requires Elements(s) == Elements(t)
    ensures s == t
  {
    NoElements(s);
    NoElements(t);
    if s != [] {
      SameLast(le, s, t);
      WithoutLast(s);
      WithoutLast(t);
      var front, front' := s[..|s| - 1], t[..|t| - 1];
      StrictlySortedUnique(le, front, front');
      assert s == front + [s[|s| - 1]];
      assert t == front' + [t[|t| - 1]];
    }
  }

  /** Two ascending lists of the same elements end alike. */
  lemma SameLast<T(!new)>(le: (T, T) -> bool, s: seq<T>, t: seq<T>)
    requires TotalOrder(le) && Sorted(le, s) && Sorted(le, t) && Elements(s) == Elements(t) && s != [] && t != []
    ensures s[|s| - 1] == t[|t| - 1]
  {
    var m, n := |s| - 1, |t| - 1;
    assert s[m] in Elements(t) && t[n] in Elements(s);
    var i :| 0 <= i <= m && s[i] == t[n];
    var j :| 0 <= j <= n && t[j] == s[m];
    assert le(s[m], s[m]);
    assert le(s[i], s[m]) && le(t[j], t[n]);
  }

  lemma WithoutLast<T>(s: seq<T>)
    requires s != [] && Distinct(s)
    ensures Elements(s[..|s| - 1]) == Elements(s) - {s[|s| - 1]}
  {
    var n := |s| - 1;
    assert s == s[..n] + [s[n]];
    assert s[n] !in s[..n];
  }

  /** The outcome depends on the set of elements only. */
  lemma SortDedupCanonical<T(!new)>(le: (T, T) -> bool, s: seq<T>, t: seq<T>)
    requires TotalOrder(le) && Elements(s) == Elements(t)
    ensures SortDedup(le, s) == SortDedup(le, t)
  {
    SortDedupStrict(le, s);
    SortDedupStrict(le, t);
    StrictlySortedUnique(le, SortDedup(le, s), SortDedup(le, t));
  }

  /** A strictly ascending list is already in its final form. */
  lemma SortDedupIdentity<T(!new)>(le: (T, T) -> bool, s: seq<T>)
    requires TotalOrder(le) && StrictlySorted(le, s)
    ensures SortDedup(le, s) == s
  {
    SortDedupStrict(le, s);
    StrictlySortedUnique(le, SortDedup(le, s), s);
  }

  /** Adding an element changes nothing exactly when it is already there. */
  lemma SortDedupAddsNothingIff<T(!new)>(le: (T, T) -> bool, x: T, s: seq<T>)
    requires TotalOrder(le) && StrictlySorted(le, s)
    ensures SortDedup(le, [x] + s) == s <==> x in s
  {
    SortDedupStrict(le, [x] + s);
    ElementsConcat([x], s);
    if x in s {
      SortDedupCanonical(le, [x] + s, s);
      SortDedupIdentity(le, s);
    } else {
      assert x in Elements(SortDedup(le, [x] + s));
    }
  }

  // ----- sorting by a key that is coarser than equality -----

  predicate SameKey<T>(le: (T, T) -> bool, x: T, y: T) {
    le(x, y) && le(y, x)
  }

  /** The last element that sorts equal to `y`. */
  function LastSameKey<T>(le: (T, T) -> bool, s: seq<T>, y: T): Option<T> {
    if s == [] then None
    else if SameKey(le, s[|s| - 1], y) then Some(s[|s| - 1])
    else LastSameKey(le, s[..|s| - 1], y)
  }

  /** An element that recurs follows itself among the elements that sort equal to it. */
  ghost predicate Grouped<T>(le: (T, T) -> bool, s: seq<T>) {
    forall n :: 0 <= n < |s| ==> FollowsItself(le, s[..n], s[n])
  }

  ghost predicate FollowsItself<T>(le: (T, T) -> bool, before: seq<T>, x: T) {
    x in before ==> LastSameKey(le, before, x) == Some(x)
  }

  lemma GroupedAppend<T>(le: (T, T) -> bool, s: seq<T>, x: T)
    ensures Grouped(le, s + [x]) <==> Grouped(le, s) && FollowsItself(le, s, x)
  {
    var r := s + [x];
    assert forall i :: 0 <= i <= |s| ==> r[..i] == s[..i];
    assert s[..|s|] == s;
    if Grouped(le, r) {
      assert FollowsItself(le, r[..|s|], r[|s|]);
      forall n | 0 <= n < |s| ensures FollowsItself(le, s[..n], s[n]) {
        assert FollowsItself(le, r[..n], r[n]);
      }
    }
  }

  lemma {:induction false} InsertIsStable<T(!new)>(le: (T, T) -> bool, t: seq<T>, x: T, y: T)
    requires TotalPreorder(le)
    ensures LastSameKey(le, Insert(le, t, x), y) == LastSameKey(le, t + [x], y)
  {
    assert (t + [x])[..|t|] == t;
    if t != [] && !le(t[|t| - 1], x) {
      var n := |t| - 1;
      InsertIsStable(le, t[..n], x, y);
      var r := Insert(le, t[..n], x);
      assert (r + [t[n]])[..|r|] == r;
      assert (t[..n] + [x])[..n] == t[..n];
    }
  }

  lemma {:induction false} SortIsStable<T(!new)>(le: (T, T) -> bool, s: seq<T>, y: T)
    requires TotalPreorder(le)
    ensures LastSameKey(le, Sort(le, s), y) == LastSameKey(le, s, y)
  {
    if s != [] {
      var n := |s| - 1;
      SortIsStable(le, s[..n], y);
      var t := Sort(le, s[..n]);
      InsertIsStable(le, t, s[n], y);
      assert (t + [s[n]])[..|t|] == t;
    }
  }

  /** The elements with the key of `y`, in order. */
  ghost function WithKey<T>(le: (T, T) -> bool, s: seq<T>, y: T): seq<T> {
    if s == [] then []
    else WithKey(le, s[..|s| - 1], y) + (if SameKey(le, s[|s| - 1], y) then [s[|s| - 1]] else [])
  }

  lemma WithKeyAppend<T>(le: (T, T) -> bool, s: seq<T>, x: T, y: T)
    ensures WithKey(le, s + [x], y) == WithKey(le, s, y) + (if SameKey(le, x, y) then [x] else [])
  {
    assert (s + [x])[..|s|] == s;
  }

  lemma {:induction false} InsertKeepsOrder<T(!new)>(le: (T, T) -> bool, t: seq<T>, x: T, y: T)
    requires TotalPreorder(le)
    ensures WithKey(le, Insert(le, t, x), y) == WithKey(le, t + [x], y)
  {
    if t != [] && !le(t[|t| - 1], x) {
      var front, last := t[..|t| - 1], t[|t| - 1];
      InsertKeepsOrder(le, front, x, y);
      WithKeyAppend(le, Insert(le, front, x), last, y);
      WithKeyAppend(le, front, x, y);
      WithKeyAppend(le, t, x, y);
      KeysApart(le, last, x, y);
    }
  }

  lemma KeysApart<T(!new)>(le: (T, T) -> bool, last: T, x: T, y: T)
    requires TotalPreorder(le) && !le(last, x)
    ensures !SameKey(le, last, y) || !SameKey(le, x, y)
  {}

  /** The sort is a permutation that keeps the elements of each key in their order. */
  lemma {:induction false} SortKeepsOrder<T(!new)>(le: (T, T) -> bool, s: seq<T>, y: T)
    requires TotalPreorder(le)
    ensures WithKey(le, Sort(le, s), y) == WithKey(le, s, y)
    ensures multiset(Sort(le, s)) == multiset(s)
  {
    SortPermutes(le, s);
    if s != [] {
      var n := |s| - 1;
      SortKeepsOrder(le, s[..n], y);
      var t := Sort(le, s[..n]);
      InsertKeepsOrder(le, t, s[n], y);
      WithKeyAppend(le, t, s[n], y);
    }
  }

  lemma {:induction false} SortPermutes<T>(le: (T, T) -> bool, s: seq<T>)
    ensures multiset(Sort(le, s)) == multiset(s)
  {
    if s != [] {
      var n := |s| - 1;
      SortPermutes(le, s[..n]);
      InsertPermutes(le, Sort(le, s[..n]), s[n]);
      LastApart(s);
    }
  }

  lemma LastApart<T>(s: seq<T>)
    requires s != []
    ensures multiset(s) == multiset(s[..|s| - 1]) + multiset{s[|s| - 1]}
  {
    assert s == s[..|s| - 1] + [s[|s| - 1]];
  }

  lemma {:induction false} InsertPermutes<T>(le: (T, T) -> bool, t: seq<T>, x: T)
    ensures multiset(Insert(le, t, x)) == multiset(t) + multiset{x}
  {
    if t != [] {
      InsertPermutes(le, t[..|t| - 1], x);
      LastApart(t);
    }
  }

  lemma ContiguousAppend<T>(s: seq<T>, x: T)
    ensures Contiguous(s + [x]) <==> Contiguous(s) && (x in s ==> s[|s| - 1] == x)
  {
    var r, n := s + [x], |s|;
    if Contiguous(r) {
      assert forall i :: 0 <= i < n ==> s[i] == r[i];
      if x in s {
        var i :| 0 <= i < n && s[i] == x;
        assert i < n - 1 ==> r[i] == r[n] && r[n - 1] == r[i];
      }
    }
  }

  lemma LastSameKeyOfMember<T(!new)>(le: (T, T) -> bool, t: seq<T>, x: T)
    requires TotalPreorder(le) && Sorted(le, t) && x in t && le(t[|t| - 1], x)
    ensures LastSameKey(le, t, x) == Some(t[|t| - 1])
  {
    var i :| 0 <= i < |t| && t[i] == x;
    assert le(t[i], t[|t| - 1]);
  }

  lemma {:induction false} InsertContiguousIff<T(!new)>(le: (T, T) -> bool, t: seq<T>, x: T)
    requires TotalPreorder(le) && Sorted(le, t)
    ensures Contiguous(Insert(le, t, x)) <==>
            Contiguous(t) && (x in t ==> LastSameKey(le, t, x) == Some(x))
  {
    if t == [] || le(t[|t| - 1], x) {
      ContiguousAppend(t, x);
      if x in t { LastSameKeyOfMember(le, t, x); }
    } else {
      var n := |t| - 1;
      var u, r := t[..n], Insert(le, t[..n], x);
      InsertContiguousIff(le, u, x);
      InsertElements(le, u, x);
      ContiguousAppend(u, t[n]);
      ContiguousAppend(r, t[n]);
      assert t == u + [t[n]];
      assert t[n] in r <==> t[n] in u by {
        assert t[n] in Elements(r) <==> t[n] in Elements(u) + {x};
      }
      if t[n] in u {
        var i :| 0 <= i < n && u[i] == t[n];
        assert le(t[i], t[n - 1]) && !le(t[n - 1], x);
        assert r[|r| - 1] == u[n - 1];
      }
    }
  }

  lemma {:induction false} SortContiguousIff<T(!new)>(le: (T, T) -> bool, s: seq<T>)
    requires TotalPreorder(le)
    ensures Contiguous(Sort(le, s)) <==> Grouped(le, s)
  {
    if s != [] {
      var n := |s| - 1;
      var u, t := s[..n], Sort(le, s[..n]);
      SortContiguousIff(le, u);
      SortSorted(le, u);
      SortElements(le, u);
      InsertContiguousIff(le, t, s[n]);
      SortIsStable(le, u, s[n]);
      assert s[n] in t <==> s[n] in u by {
        assert s[n] in Elements(t) <==> s[n] in Elements(u);
      }
      GroupedAppend(le, u, s[n]);
      assert s == u + [s[n]];
    }
  }

  /**
    Sorting by a key coarser than equality and then removing adjacent duplicates leaves no
    duplicate exactly when no element recurs behind a different element with its key.
   */
  lemma SortDedupDistinctIff<T(!new)>(le: (T, T) -> bool, s: seq<T>)
    requires TotalPreorder(le)
    ensures Distinct(SortDedup(le, s)) <==> Grouped(le, s)
  {
    SortContiguousIff(le, s);
    DedupDistinctIff(Sort(le, s));
  }

  /** Where the key determines the element, every list is grouped. */
  lemma {:induction false} KeyDeterminesGrouped<T(!new)>(le: (T, T) -> bool, s: seq<T>)
    requires TotalPreorder(le)
    requires forall x, y :: x in s && y in s && SameKey(le, x, y) ==> x == y
    ensures Grouped(le, s)
  {
    forall n | 0 <= n < |s| ensures FollowsItself(le, s[..n], s[n]) {
      if s[n] in s[..n] { LastSameKeyFinds(le, s[..n], s[n]); }
    }
  }

  lemma {:induction false} LastSameKeyFinds<T(!new)>(le: (T, T) -> bool, s: seq<T>, y: T)
    requires TotalPreorder(le) && y in s
    requires forall x :: x in s && SameKey(le, x, y) ==> x == y
    ensures LastSameKey(le, s, y) == Some(y)
  {
    var n := |s| - 1;
    if s[n] != y {
      assert s == s[..n] + [s[n]];
      LastSameKeyFinds(le, s[..n], y);
    }
  }
}
