/**
  Brace expansion of search patterns (crates/pet-fs/src/glob.rs): the capped, accumulating
  `expand_braces` against the uncapped expansion, for every pattern, nested or unbalanced.
 */
module BraceExpansion {
  import opened Prelude

  const MAX_BRACE_EXPANSIONS: nat := 1024

  /** The first position of `c` at or behind `from`, or the length of `s` if there is none. */
  function FindFrom(s: string, c: char, from: nat): (r: nat)
    requires from <= |s|
    ensures from <= r <= |s| && (r < |s| ==> s[r] == c)
    ensures forall i :: from <= i < r ==> s[i] != c
    decreases |s| - from
  {
    if from == |s| || s[from] == c then from else FindFrom(s, c, from + 1)
  }

  /** Where a brace group opens and closes. */
  datatype Span = Span(open: nat, close: nat)

  /** The span is the first `{` together with the first `}` behind it. */
  ghost predicate IsFirstGroup(s: string, g: Span) {
    && g.open < g.close < |s| && s[g.open] == '{' && s[g.close] == '}'
    && (forall i :: 0 <= i < g.open ==> s[i] != '{')
    && (forall i :: g.open < i < g.close ==> s[i] != '}')
  }

  function FirstGroup(s: string): (g: Option<Span>)
    ensures g.Some? ==> IsFirstGroup(s, g.value)
  {
    var open := FindFrom(s, '{', 0);
    if open == |s| then None
    else
      var close := FindFrom(s, '}', open);
      if close == |s| then None else Some(Span(open, close))
  }

  /** There is at most one first group, and `FirstGroup` finds it. */
  lemma FirstGroupIs(s: string, g: Span)
    requires IsFirstGroup(s, g)
    ensures FirstGroup(s) == Some(g)
  {
    assert FindFrom(s, '{', 0) == g.open;
  }

  function Prefix(s: string, g: Span): string
    requires g.open < g.close < |s|
  {
    s[..g.open]
  }

  function Inside(s: string, g: Span): string
    requires g.open < g.close < |s|
  {
    s[g.open + 1..g.close]
  }

  function Suffix(s: string, g: Span): string
    requires g.open < g.close < |s|
  {
    s[g.close + 1..]
  }

  /** `split(',')`: always at least one piece. */
  function Split(s: string): (pieces: seq<string>)
    ensures pieces != [] && forall i :: 0 <= i < |pieces| ==> |pieces[i]| <= |s|
    decreases |s|
  {
    var comma := FindFrom(s, ',', 0);
    if comma == |s| then [s] else [s[..comma]] + Split(s[comma + 1..])
  }

  function Commas(s: string): nat {
    if s == [] then 0 else (if s[0] == ',' then 1 else 0) + Commas(s[1..])
  }

  /** The pieces with commas between them. */
  function Joined(pieces: seq<string>): string
    requires pieces != []
  {
    if |pieces| == 1 then pieces[0] else pieces[0] + [','] + Joined(pieces[1..])
  }

  ghost predicate NoComma(s: string) {
    forall i :: 0 <= i < |s| ==> s[i] != ','
  }

  /** Splitting cuts the text at its commas and nowhere else: in order, the pieces join to the text. */
  lemma {:induction false} SplitJoins(s: string)
    ensures Joined(Split(s)) == s && forall i :: 0 <= i < |Split(s)| ==> NoComma(Split(s)[i])
  {
    var comma := FindFrom(s, ',', 0);
    if comma < |s| {
      var first, rest := s[..comma], s[comma + 1..];
      SplitJoins(rest);
      JoinedCons(first, Split(rest));
      CutAtComma(s, comma);
    }
  }

  lemma JoinedCons(first: string, pieces: seq<string>)
    requires pieces != []
    ensures Joined([first] + pieces) == first + [','] + Joined(pieces)
  {
    assert ([first] + pieces)[1..] == pieces;
  }

  lemma CutAtComma(s: string, comma: nat)
    requires comma < |s| && s[comma] == ','
    ensures s == s[..comma] + [','] + s[comma + 1..]
  {}

  /** No other list of comma-free pieces joins to the text. */
  lemma {:induction false} JoinSplits(pieces: seq<string>)
    requires pieces != [] && forall i :: 0 <= i < |pieces| ==> NoComma(pieces[i])
    ensures Split(Joined(pieces)) == pieces
    decreases |pieces|
  {
    var s, first := Joined(pieces), pieces[0];
    if |pieces| == 1 {
      assert FindFrom(s, ',', 0) == |s|;
    } else {
      JoinSplits(pieces[1..]);
      FirstCommaAt(first, Joined(pieces[1..]));
      assert s == first + [','] + Joined(pieces[1..]);
      assert s[..|first|] == first && s[|first| + 1..] == Joined(pieces[1..]);
    }
  }

  lemma FirstCommaAt(first: string, rest: string)
    requires NoComma(first)
    ensures FindFrom(first + [','] + rest, ',', 0) == |first|
  {
    var s := first + [','] + rest;
    assert s[|first|] == ',';
    assert forall i :: 0 <= i < |first| ==> s[i] == first[i];
  }

  // ----- the uncapped expansion -----

  /** Every alternative in turn, expanded further. Patterns shrink, so this ends for every input. */
  function Expand(pattern: string): seq<string>
    decreases |pattern|, 1, 0
  {
    var g := FirstGroup(pattern);
    if g.None? then [pattern]
    else
      var prefix, inside, suffix := Prefix(pattern, g.value), Inside(pattern, g.value), Suffix(pattern, g.value);
      ExpandAlternatives(prefix, Split(inside), suffix, |pattern|)
  }

  function ExpandAlternatives(prefix: string, alts: seq<string>, suffix: string, size: nat): seq<string>
    requires forall i :: 0 <= i < |alts| ==> |prefix| + |alts[i]| + |suffix| < size
    decreases size, 0, |alts|
  {
    if alts == [] then []
    else
      var n := |alts| - 1;
      ExpandAlternatives(prefix, alts[..n], suffix, size) + Expand(prefix + alts[n] + suffix)
  }

  // ----- the capped expansion -----

  /** The vector that the recursive calls push into. */
  class PatternList {
    var items: seq<string>

    constructor ()
      ensures items == []
    {
      items := [];
    }
  }

  /** Appending up to the cap; a full vector stays as it is. */
  function Capped(items: seq<string>, more: seq<string>): seq<string> {
    if |items| >= MAX_BRACE_EXPANSIONS then items
    else if |items| + |more| <= MAX_BRACE_EXPANSIONS then items + more
    else (items + more)[..MAX_BRACE_EXPANSIONS]
  }

  lemma CappedTwice(items: seq<string>, a: seq<string>, b: seq<string>)
    ensures Capped(Capped(items, a), b) == Capped(items, a + b)
  {
    assert items + (a + b) == (items + a) + b;
  }

  lemma {:induction false} ExpandAlternativesPrefix(
      prefix: string, alts: seq<string>, suffix: string, size: nat, k: nat)
    requires forall i :: 0 <= i < |alts| ==> |prefix| + |alts[i]| + |suffix| < size
    requires k <= |alts|
    ensures ExpandAlternatives(prefix, alts[..k], suffix, size) <= ExpandAlternatives(prefix, alts, suffix, size)
  {
    if k == |alts| {
      assert alts[..k] == alts;
    } else {
      var n := |alts| - 1;
      ExpandAlternativesPrefix(prefix, alts[..n], suffix, size, k);
      assert alts[..n][..k] == alts[..k];
    }
  }

  /** One more alternative is one more capped step. */
  lemma CappedNext(items: seq<string>, prefix: string, alts: seq<string>, suffix: string, size: nat, i: nat)
    requires forall k :: 0 <= k < |alts| ==> |prefix| + |alts[k]| + |suffix| < size
    requires i < |alts|
    ensures Capped(items, ExpandAlternatives(prefix, alts[..i + 1], suffix, size))
            == Capped(Capped(items, ExpandAlternatives(prefix, alts[..i], suffix, size)),
                      Expand(prefix + alts[i] + suffix))
  {
    assert alts[..i + 1][..i] == alts[..i];
    CappedTwice(items, ExpandAlternatives(prefix, alts[..i], suffix, size), Expand(prefix + alts[i] + suffix));
  }

  /** Once the cap is reached the other alternatives do not matter. */
  lemma CappedEarly(items: seq<string>, prefix: string, alts: seq<string>, suffix: string, size: nat, i: nat)
    requires forall k :: 0 <= k < |alts| ==> |prefix| + |alts[k]| + |suffix| < size
    requires i <= |alts| && |Capped(items, ExpandAlternatives(prefix, alts[..i], suffix, size))| >= MAX_BRACE_EXPANSIONS
    ensures Capped(items, ExpandAlternatives(prefix, alts, suffix, size))
            == Capped(items, ExpandAlternatives(prefix, alts[..i], suffix, size))
  {
    ExpandAlternativesPrefix(prefix, alts, suffix, size, i);
  }

  /** The capped recursion appends exactly the expansion, cut at the cap. */
  method ExpandBracesInner(pattern: string, results: PatternList)
    modifies results
    ensures results.items == Capped(old(results.items), Expand(pattern))
    decreases |pattern|
  {
    if |results.items| >= MAX_BRACE_EXPANSIONS {
      return;
    }
    var g := FirstGroup(pattern);
    if g.None? {
      results.items := results.items + [pattern];
      return;
    }
    var prefix, suffix := Prefix(pattern, g.value), Suffix(pattern, g.value);
    var alts := Split(Inside(pattern, g.value));
    ghost var size := |pattern|;
    for i := 0 to |alts|
      invariant results.items == Capped(old(results.items), ExpandAlternatives(prefix, alts[..i], suffix, size))
    {
      if |results.items| >= MAX_BRACE_EXPANSIONS {
        CappedEarly(old(results.items), prefix, alts, suffix, size, i);
        return;
      }
      CappedNext(old(results.items), prefix, alts, suffix, size, i);
      ExpandBracesInner(prefix + alts[i] + suffix, results);
    }
    assert alts[..|alts|] == alts;
  }

  /** `expand_braces` returns the first 1024 elements, in order, of the uncapped expansion. */
  method ExpandBraces(pattern: string) returns (patterns: seq<string>)
    ensures patterns <= Expand(pattern)
    ensures |patterns| == if |Expand(pattern)| <= 1024 then |Expand(pattern)| else 1024
    ensures patterns != [] && forall i :: 0 <= i < |patterns| ==> !OpensBeforeCloses(patterns[i])
  {
    var results := new PatternList();
    ExpandBracesInner(pattern, results);
    patterns := results.items;
    ExpandIsNonEmpty(pattern);
    forall i | 0 <= i < |patterns| ensures !OpensBeforeCloses(patterns[i]) {
      assert patterns[i] == Expand(pattern)[i];
      ExpandLeavesNoGroup(pattern, i);
    }
  }

  // ----- what the outputs are -----

  /** A `{` with a `}` somewhere behind it. */
  ghost predicate OpensBeforeCloses(s: string) {
    exists i, j :: 0 <= i < j < |s| && s[i] == '{' && s[j] == '}'
  }

  lemma GroupIffOpensBeforeCloses(s: string)
    ensures FirstGroup(s).Some? <==> OpensBeforeCloses(s)
  {
    if FirstGroup(s).Some? {
      var g := FirstGroup(s).value;
      assert s[g.open] == '{' && s[g.close] == '}';
    }
  }

  lemma {:induction false} ExpandIsNonEmpty(pattern: string)
    ensures Expand(pattern) != []
    decreases |pattern|
  {
    var g := FirstGroup(pattern);
    if g.Some? {
      var alts := Split(Inside(pattern, g.value));
      var n := |alts| - 1;
      ExpandIsNonEmpty(Prefix(pattern, g.value) + alts[n] + Suffix(pattern, g.value));
    }
  }

  /** No output still holds a `{` followed by a `}`. */
  lemma {:induction false} ExpandLeavesNoGroup(pattern: string, i: nat)
    requires i < |Expand(pattern)|
    ensures !OpensBeforeCloses(Expand(pattern)[i])
    decreases |pattern|, 1, 0
  {
    var g := FirstGroup(pattern);
    if g.None? {
      GroupIffOpensBeforeCloses(pattern);
    } else {
      var prefix, inside, suffix := Prefix(pattern, g.value), Inside(pattern, g.value), Suffix(pattern, g.value);
      AlternativesLeaveNoGroup(prefix, Split(inside), suffix, |pattern|, i);
    }
  }

  lemma {:induction false} AlternativesLeaveNoGroup(
      prefix: string, alts: seq<string>, suffix: string, size: nat, i: nat)
    requires forall k :: 0 <= k < |alts| ==> |prefix| + |alts[k]| + |suffix| < size
    requires i < |ExpandAlternatives(prefix, alts, suffix, size)|
    ensures !OpensBeforeCloses(ExpandAlternatives(prefix, alts, suffix, size)[i])
    decreases size, 0, |alts|
  {
    var n := |alts| - 1;
    var before := ExpandAlternatives(prefix, alts[..n], suffix, size);
    if i < |before| {
      AlternativesLeaveNoGroup(prefix, alts[..n], suffix, size, i);
    } else {
      ExpandLeavesNoGroup(prefix + alts[n] + suffix, i - |before|);
    }
  }

  // ----- text without braces in front carries over -----

  ghost predicate NoOpen(s: string) {
    forall i :: 0 <= i < |s| ==> s[i] != '{'
  }

  function Prepend(x: string, patterns: seq<string>): seq<string> {
    seq(|patterns|, i requires 0 <= i < |patterns| => x + patterns[i])
  }

  lemma GroupBehind(x: string, s: string)
    requires NoOpen(x)
    ensures FirstGroup(x + s).Some? <==> FirstGroup(s).Some?
    ensures FirstGroup(s).Some? ==>
              FirstGroup(x + s) == Some(Span(FirstGroup(s).value.open + |x|, FirstGroup(s).value.close + |x|))
  {
    if FirstGroup(s).Some? {
      var g := FirstGroup(s).value;
      FirstGroupIs(x + s, Span(g.open + |x|, g.close + |x|));
    }
  }

  lemma PartsBehind(x: string, s: string, g: Span)
    requires g.open < g.close < |s|
    ensures var g' := Span(g.open + |x|, g.close + |x|);
            && Prefix(x + s, g') == x + Prefix(s, g)
            && Inside(x + s, g') == Inside(s, g) && Suffix(x + s, g') == Suffix(s, g)
  {
    SliceBehind(x, s, g.open + 1, g.close);
    SliceBehind(x, s, g.close + 1, |s|);
    assert (x + s)[..g.open + |x|] == x + s[..g.open];
  }

  lemma SliceBehind(x: string, s: string, a: nat, b: nat)
    requires a <= b <= |s|
    ensures (x + s)[a + |x|..b + |x|] == s[a..b]
  {}

  lemma PrependConcat(x: string, a: seq<string>, b: seq<string>)
    ensures Prepend(x, a + b) == Prepend(x, a) + Prepend(x, b)
  {}

  lemma ExpandIsAlternatives(x: string, s: string, g: Span)
    requires NoOpen(x) && FirstGroup(s) == Some(g)
    ensures Expand(x + s) == ExpandAlternatives(x + Prefix(s, g), Split(Inside(s, g)), Suffix(s, g), |x + s|)
  {
    var g' := Span(g.open + |x|, g.close + |x|);
    GroupBehind(x, s);
    PartsBehind(x, s, g);
    ExpandByParts(x + s, g');
  }

  lemma ExpandByParts(s: string, g: Span)
    requires FirstGroup(s) == Some(g)
    ensures Expand(s) == ExpandAlternatives(Prefix(s, g), Split(Inside(s, g)), Suffix(s, g), |s|)
  {}

  lemma {:induction false} ExpandBehind(x: string, s: string)
    requires NoOpen(x)
    ensures Expand(x + s) == Prepend(x, Expand(s))
    decreases |s|, 1, 0
  {
    GroupBehind(x, s);
    if FirstGroup(s).Some? {
      var g := FirstGroup(s).value;
      AlternativesBehind(x, Prefix(s, g), Split(Inside(s, g)), Suffix(s, g), |x + s|, |s|);
      ExpandIsAlternatives(x, s, g);
    }
  }

  lemma {:induction false} AlternativesBehind(
      x: string, prefix: string, alts: seq<string>, suffix: string, size': nat, size: nat)
    requires NoOpen(x) && size' == |x| + size
    requires forall i :: 0 <= i < |alts| ==> |prefix| + |alts[i]| + |suffix| < size
    ensures ExpandAlternatives(x + prefix, alts, suffix, size')
            == Prepend(x, ExpandAlternatives(prefix, alts, suffix, size))
    decreases size, 0, |alts|
  {
    if alts != [] {
      var n := |alts| - 1;
      var one := prefix + alts[n] + suffix;
      AlternativesBehind(x, prefix, alts[..n], suffix, size', size);
      assert x + prefix + alts[n] + suffix == x + one;
      ExpandBehind(x, one);
      PrependConcat(x, ExpandAlternatives(prefix, alts[..n], suffix, size), Expand(one));
    }
  }

  // ----- groups that do not nest -----

  /** Every alternative in front of every tail, in order. */
  function Product(prefix: string, alts: seq<string>, tails: seq<string>): seq<string> {
    if alts == [] then []
    else Product(prefix, alts[..|alts| - 1], tails) + Prepend(prefix + alts[|alts| - 1], tails)
  }

  lemma {:induction false} SplitPieces(s: string)
    ensures |Split(s)| == Commas(s) + 1
    ensures NoOpen(s) ==> forall i :: 0 <= i < |Split(s)| ==> NoOpen(Split(s)[i])
    decreases |s|
  {
    var comma := FindFrom(s, ',', 0);
    CommasFrom(s, comma);
    if comma < |s| {
      SplitPieces(s[comma + 1..]);
    }
  }

  lemma {:induction false} CommasFrom(s: string, k: nat)
    requires k <= |s| && forall i :: 0 <= i < k ==> s[i] != ','
    ensures Commas(s) == Commas(s[k..])
    ensures k < |s| && s[k] == ',' ==> Commas(s) == 1 + Commas(s[k + 1..])
    ensures k == |s| ==> Commas(s) == 0
  {
    if k == 0 {
      assert s[0..] == s;
    } else {
      CommasFrom(s[1..], k - 1);
      assert s[1..][k - 1..] == s[k..];
      assert k < |s| ==> s[1..][k..] == s[k + 1..];
    }
  }

  /** A first group without a `{` inside multiplies the expansion of what follows it. */
  lemma ExpandIsProduct(pattern: string, g: Span)
    requires FirstGroup(pattern) == Some(g) && NoOpen(Inside(pattern, g))
    ensures Expand(pattern) == Product(Prefix(pattern, g), Split(Inside(pattern, g)), Expand(Suffix(pattern, g)))
  {
    SplitPieces(Inside(pattern, g));
    AlternativesAreProduct(Prefix(pattern, g), Split(Inside(pattern, g)), Suffix(pattern, g), |pattern|);
  }

  lemma {:induction false} AlternativesAreProduct(prefix: string, alts: seq<string>, suffix: string, size: nat)
    requires NoOpen(prefix) && forall i :: 0 <= i < |alts| ==> NoOpen(alts[i])
    requires forall i :: 0 <= i < |alts| ==> |prefix| + |alts[i]| + |suffix| < size
    ensures ExpandAlternatives(prefix, alts, suffix, size) == Product(prefix, alts, Expand(suffix))
  {
    if alts != [] {
      var n := |alts| - 1;
      AlternativesAreProduct(prefix, alts[..n], suffix, size);
      ExpandBehind(prefix + alts[n], suffix);
    }
  }

  lemma OneMore(n: nat, m: nat)
    ensures n * m + m == (n + 1) * m
  {}

  lemma AtLeastTwo(n: nat, m: nat)
    requires n >= 1 && m >= 1
    ensures n * m >= 1
    ensures n * m >= 2 <==> n >= 2 || m >= 2
  {
    OneMore(n - 1, m);
    assert n >= 2 ==> (n - 1) * m >= m;
  }

  lemma {:induction false} ProductSize(prefix: string, alts: seq<string>, tails: seq<string>)
    ensures |Product(prefix, alts, tails)| == |alts| * |tails|
  {
    if alts != [] {
      ProductSize(prefix, alts[..|alts| - 1], tails);
      OneMore(|alts| - 1, |tails|);
    }
  }

  /** No group, scanning from left to right, has a `{` inside. */
  ghost predicate NonNested(s: string)
    decreases |s|
  {
    var g := FirstGroup(s);
    g.Some? ==> NoOpen(Inside(s, g.value)) && NonNested(Suffix(s, g.value))
  }

  /** The product over the groups, scanning from left to right, of commas plus one. */
  function GroupProduct(s: string): nat
    decreases |s|
  {
    var g := FirstGroup(s);
    if g.None? then 1 else (Commas(Inside(s, g.value)) + 1) * GroupProduct(Suffix(s, g.value))
  }

  /** Without nesting the expansion has exactly one element per combination of alternatives. */
  lemma {:induction false} ExpansionSize(s: string)
    requires NonNested(s)
    ensures |Expand(s)| == GroupProduct(s)
    decreases |s|
  {
    var g := FirstGroup(s);
    if g.Some? {
      ExpansionSize(Suffix(s, g.value));
      ExpandIsProduct(s, g.value);
      SplitPieces(Inside(s, g.value));
      ProductSize(Prefix(s, g.value), Split(Inside(s, g.value)), Expand(Suffix(s, g.value)));
    }
  }

  /** Which combination stands where: the alternatives in order, the rest of the pattern varying faster. */
  lemma {:induction false} ProductAt(prefix: string, alts: seq<string>, tails: seq<string>, i: nat, j: nat)
    requires i < |alts| && j < |tails|
    ensures i * |tails| + j < |Product(prefix, alts, tails)|
    ensures Product(prefix, alts, tails)[i * |tails| + j] == prefix + alts[i] + tails[j]
  {
    var n := |alts| - 1;
    ProductSize(prefix, alts[..n], tails);
    ProductSize(prefix, alts, tails);
    OneMore(n, |tails|);
    if i < n {
      ProductAt(prefix, alts[..n], tails, i, j);
    }
  }

  /** A piece of text that a group can list: no brace and no comma. */
  ghost predicate IsPlain(s: string) {
    forall i :: 0 <= i < |s| ==> s[i] != '{' && s[i] != '}' && s[i] != ','
  }

  lemma {:induction false} JoinedHasNoBrace(pieces: seq<string>)
    requires pieces != [] && forall i :: 0 <= i < |pieces| ==> IsPlain(pieces[i])
    ensures forall i :: 0 <= i < |Joined(pieces)| ==> Joined(pieces)[i] != '{' && Joined(pieces)[i] != '}'
    decreases |pieces|
  {
    if |pieces| > 1 {
      JoinedHasNoBrace(pieces[1..]);
    }
  }

  lemma {:induction false} ProductWithOne(prefix: string, alts: seq<string>, tail: string)
    ensures |Product(prefix, alts, [tail])| == |alts|
    ensures forall i :: 0 <= i < |alts| ==> Product(prefix, alts, [tail])[i] == prefix + alts[i] + tail
  {
    if alts != [] {
      ProductWithOne(prefix, alts[..|alts| - 1], tail);
    }
  }

  /** A single group expands to its alternatives, in the order in which it lists them. */
  lemma GroupExpandsInOrder(prefix: string, pieces: seq<string>, tail: string)
    requires NoOpen(prefix) && NoOpen(tail) && pieces != [] && forall i :: 0 <= i < |pieces| ==> IsPlain(pieces[i])
    ensures var r := Expand(prefix + ("{" + Joined(pieces) + "}" + tail));
            |r| == |pieces| && forall i :: 0 <= i < |pieces| ==> r[i] == prefix + pieces[i] + tail
  {
    var inside := Joined(pieces);
    var s, g := prefix + ("{" + inside + "}" + tail), Span(|prefix|, |prefix| + 1 + |inside|);
    JoinedHasNoBrace(pieces);
    GroupOf(prefix, inside, tail);
    JoinSplits(pieces);
    ExpandIsProduct(s, g);
    GroupIffOpensBeforeCloses(tail);
    assert Expand(tail) == [tail];
    ProductWithOne(prefix, pieces, tail);
  }

  lemma GroupOf(prefix: string, inside: string, tail: string)
    requires NoOpen(prefix) && NoClose(inside)
    ensures var s, g := prefix + ("{" + inside + "}" + tail), Span(|prefix|, |prefix| + 1 + |inside|);
            && FirstGroup(s) == Some(g)
            && Prefix(s, g) == prefix && Inside(s, g) == inside && Suffix(s, g) == tail
  {
    var s, g := prefix + ("{" + inside + "}" + tail), Span(|prefix|, |prefix| + 1 + |inside|);
    assert s[g.open] == '{' && s[g.close] == '}';
    forall i | g.open < i < g.close ensures s[i] != '}' { assert s[i] == inside[i - g.open - 1]; }
    FirstGroupIs(s, g);
  }

  // ----- recognising brace patterns -----

  predicate HasComma(s: string) {
    FindFrom(s, ',', 0) < |s|
  }

  lemma HasCommaIff(s: string)
    ensures HasComma(s) <==> Commas(s) > 0
  {
    CommasFrom(s, FindFrom(s, ',', 0));
  }

  /** Some group, scanning from left to right, has a comma inside. */
  predicate HasCommaGroup(s: string)
    decreases |s|
  {
    var g := FirstGroup(s);
    g.Some? && (HasComma(Inside(s, g.value)) || HasCommaGroup(Suffix(s, g.value)))
  }

  /** `has_brace_pattern`, with its scan over what remains. */
  method HasBracePattern(path: string) returns (found: bool)
    ensures found <==> PlainComma(path)
    ensures found <==> GroupProduct(path) >= 2
    ensures NonNested(path) ==> (found <==> |Expand(path)| >= 2)
    ensures found ==> |Expand(path)| >= 2
  {
    var remaining := path;
    found := false;
    while FirstGroup(remaining).Some? && !found
      invariant found ==> HasCommaGroup(path)
      invariant !found ==> HasCommaGroup(path) == HasCommaGroup(remaining)
      decreases |remaining|, !found
    {
      var g := FirstGroup(remaining).value;
      if HasComma(remaining[g.open + 1..g.close]) {
        found := true;
      } else {
        remaining := remaining[g.close + 1..];
      }
    }
    CommaGroupIff(path);
    CommaGroupIffProduct(path);
    if NonNested(path) { ExpansionSize(path); }
    if found { CommaGroupExpands(path); }
  }

  lemma {:induction false} CommaGroupIffProduct(s: string)
    ensures GroupProduct(s) >= 1
    ensures HasCommaGroup(s) <==> GroupProduct(s) >= 2
    decreases |s|
  {
    var g := FirstGroup(s);
    if g.Some? {
      CommaGroupIffProduct(Suffix(s, g.value));
      HasCommaIff(Inside(s, g.value));
      AtLeastTwo(Commas(Inside(s, g.value)) + 1, GroupProduct(Suffix(s, g.value)));
    }
  }

  /** `{` at `i`, `,` at `p` and `}` at `j`, in this order and without a `}` between the first two. */
  ghost predicate CommaGroupAt(s: string, i: nat, p: nat, j: nat) {
    && i < p < j < |s| && s[i] == '{' && s[p] == ',' && s[j] == '}'
    && (forall m :: i < m < p ==> s[m] != '}')
  }

  ghost predicate PlainComma(s: string) {
    exists i: nat, p: nat, j: nat :: CommaGroupAt(s, i, p, j)
  }

  /** Text in front of a comma group only shifts it. */
  lemma PlainCommaBehind(x: string, s: string)
    requires PlainComma(s)
    ensures PlainComma(x + s)
  {
    var i: nat, p: nat, j: nat :| CommaGroupAt(s, i, p, j);
    var n := |x|;
    forall m | i + n < m < p + n ensures (x + s)[m] != '}' {
      assert (x + s)[m] == s[m - n];
    }
    assert CommaGroupAt(x + s, i + n, p + n, j + n);
  }

  lemma PlainCommaFromSuffix(s: string, g: Span)
    requires g.open < g.close < |s| && PlainComma(Suffix(s, g))
    ensures PlainComma(s)
  {
    var front, rest := s[..g.close + 1], Suffix(s, g);
    PlainCommaBehind(front, rest);
    assert s == front + rest;
  }

  lemma {:induction false} ScanFindsPlainComma(s: string)
    requires HasCommaGroup(s)
    ensures PlainComma(s)
    decreases |s|
  {
    var g := FirstGroup(s).value;
    if HasComma(Inside(s, g)) {
      var p := FindFrom(Inside(s, g), ',', 0) + g.open + 1;
      assert s[p] == Inside(s, g)[p - g.open - 1];
      assert CommaGroupAt(s, g.open, p, g.close);
    } else {
      ScanFindsPlainComma(Suffix(s, g));
      PlainCommaFromSuffix(s, g);
    }
  }

  /** A comma group that is not the first group lies behind it. */
  lemma PlainCommaInSuffix(s: string, g: Span, i: nat, p: nat, j: nat)
    requires IsFirstGroup(s, g) && CommaGroupAt(s, i, p, j) && g.close < p
    ensures PlainComma(Suffix(s, g))
  {
    var n, rest := g.close + 1, Suffix(s, g);
    assert i >= n;
    forall m | i - n < m < p - n ensures rest[m] != '}' {
      assert rest[m] == s[m + n];
    }
    assert CommaGroupAt(rest, i - n, p - n, j - n);
  }

  lemma {:induction false} PlainCommaIsScanned(s: string, i: nat, p: nat, j: nat)
    requires CommaGroupAt(s, i, p, j)
    ensures HasCommaGroup(s)
    decreases |s|
  {
    GroupIffOpensBeforeCloses(s);
    var g := FirstGroup(s).value;
    if p < g.close {
      assert Inside(s, g)[p - g.open - 1] == ',';
    } else {
      PlainCommaInSuffix(s, g, i, p, j);
      var i': nat, p': nat, j': nat :| CommaGroupAt(Suffix(s, g), i', p', j');
      PlainCommaIsScanned(Suffix(s, g), i', p', j');
    }
  }

  /** The scan of `has_brace_pattern` succeeds exactly on the texts with a comma group. */
  lemma CommaGroupIff(s: string)
    ensures HasCommaGroup(s) <==> PlainComma(s)
  {
    if HasCommaGroup(s) {
      ScanFindsPlainComma(s);
    }
    if i: nat, p: nat, j: nat :| CommaGroupAt(s, i, p, j) {
      PlainCommaIsScanned(s, i, p, j);
    }
  }

  /** A comma group of the rest is still one when a first group loses its braces. */
  lemma CommaGroupSurvives(prefix: string, inside: string, suffix: string)
    requires HasCommaGroup(suffix)
    ensures HasCommaGroup(prefix + inside + suffix)
  {
    CommaGroupIff(suffix);
    PlainCommaBehind(prefix + inside, suffix);
    CommaGroupIff(prefix + inside + suffix);
  }

  /** A group without a comma only loses its braces. */
  lemma SingleAlternative(s: string, g: Span)
    requires FirstGroup(s) == Some(g) && !HasComma(Inside(s, g))
    ensures Expand(s) == Expand(Prefix(s, g) + Inside(s, g) + Suffix(s, g))
  {
    var x, y, z := Prefix(s, g), Inside(s, g), Suffix(s, g);
    assert Split(y) == [y] && [y][..0] == [];
    assert ExpandAlternatives(x, [y], z, |s|) == ExpandAlternatives(x, [], z, |s|) + Expand(x + y + z);
  }

  lemma TwoAlternatives(prefix: string, alts: seq<string>, suffix: string, size: nat)
    requires |alts| >= 2 && forall i :: 0 <= i < |alts| ==> |prefix| + |alts[i]| + |suffix| < size
    ensures |ExpandAlternatives(prefix, alts, suffix, size)| >= 2
  {
    var n := |alts| - 1;
    var front, last := alts[..n], prefix + alts[n] + suffix;
    ExpandIsNonEmpty(last);
    ExpandIsNonEmpty(prefix + front[n - 1] + suffix);
    assert ExpandAlternatives(prefix, front, suffix, size)
      == ExpandAlternatives(prefix, front[..n - 1], suffix, size) + Expand(prefix + front[n - 1] + suffix);
  }

  /** A recognised brace pattern always expands to at least two patterns, nested or not. */
  lemma {:induction false} CommaGroupExpands(s: string)
    requires HasCommaGroup(s)
    ensures |Expand(s)| >= 2
    decreases |s|
  {
    var g := FirstGroup(s).value;
    var prefix, inside, suffix := Prefix(s, g), Inside(s, g), Suffix(s, g);
    if HasComma(inside) {
      SplitPieces(inside);
      HasCommaIff(inside);
      TwoAlternatives(prefix, Split(inside), suffix, |s|);
    } else {
      SingleAlternative(s, g);
      CommaGroupSurvives(prefix, inside, suffix);
      CommaGroupExpands(prefix + inside + suffix);
    }
  }

  // ----- exactly which patterns expand to more than one -----

  ghost predicate NoClose(s: string) {
    forall i :: 0 <= i < |s| ==> s[i] != '}'
  }

  /** Some comma lies inside an open brace, counting from `depth`, with a `}` still to come. */
  predicate DeepComma(s: string, depth: nat) {
    s != [] &&
    var rest := s[1..];
    if s[0] == '{' then DeepComma(rest, depth + 1)
    else if s[0] == '}' then DeepComma(rest, if depth > 0 then depth - 1 else 0)
    else (s[0] == ',' && depth > 0 && '}' in rest) || DeepComma(rest, depth)
  }

  function Opens(s: string): nat {
    if s == [] then 0 else (if s[0] == '{' then 1 else 0) + Opens(s[1..])
  }

  lemma {:induction false} DeepCommaBehindText(x: string, s: string)
    requires NoOpen(x)
    ensures DeepComma(x + s, 0) == DeepComma(s, 0)
  {
    if x == [] {
      assert x + s == s;
    } else {
      assert (x + s)[1..] == x[1..] + s;
      DeepCommaBehindText(x[1..], s);
    }
  }

  lemma {:induction false} DeepCommaBehindOpens(x: string, s: string, depth: nat)
    requires NoClose(x) && !HasComma(x)
    ensures DeepComma(x + s, depth) == DeepComma(s, depth + Opens(x))
  {
    if x == [] {
      assert x + s == s;
    } else {
      assert (x + s)[1..] == x[1..] + s;
      assert !HasComma(x[1..]) by {
        assert forall i :: 0 <= i < |x[1..]| ==> x[1..][i] == x[i + 1];
      }
      DeepCommaBehindOpens(x[1..], s, if x[0] == '{' then depth + 1 else depth);
    }
  }

  lemma {:induction false} DeepCommaInGroup(x: string, s: string, depth: nat)
    requires NoClose(x) && HasComma(x) && depth > 0 && s != [] && s[0] == '}'
    ensures DeepComma(x + s, depth)
  {
    assert (x + s)[1..] == x[1..] + s;
    assert (x[1..] + s)[|x| - 1] == '}';
    if x[0] != ',' {
      var i := FindFrom(x, ',', 0);
      assert x[1..][i - 1] == ',';
      DeepCommaInGroup(x[1..], s, if x[0] == '{' then depth + 1 else depth);
    }
  }

  lemma {:induction false} NoDeepCommaUnclosed(s: string, depth: nat)
    requires NoClose(s)
    ensures !DeepComma(s, depth)
  {
    if s != [] {
      NoDeepCommaUnclosed(s[1..], if s[0] == '{' then depth + 1 else depth);
    }
  }

  lemma NoDeepCommaWithoutGroup(s: string)
    requires FirstGroup(s).None?
    ensures !DeepComma(s, 0)
  {
    var o := FindFrom(s, '{', 0);
    assert s == s[..o] + s[o..];
    DeepCommaBehindText(s[..o], s[o..]);
    NoDeepCommaUnclosed(s[o..], 0);
  }

  lemma PartsOfGroup(s: string, g: Span)
    requires IsFirstGroup(s, g)
    ensures var group, tail := s[g.open..], s[g.close..];
            && s == Prefix(s, g) + group && group[0] == '{' && group[1..] == Inside(s, g) + tail
            && tail[0] == '}' && tail[1..] == Suffix(s, g)
  {}

  /** Behind a comma-free group the depth is the number of braces left open in it. */
  lemma DeepCommaBehindGroup(s: string, g: Span)
    requires IsFirstGroup(s, g) && !HasComma(Inside(s, g))
    ensures DeepComma(s, 0) == DeepComma(Suffix(s, g), Opens(Inside(s, g)))
  {
    PartsOfGroup(s, g);
    DeepCommaBehindParts(Prefix(s, g), s[g.open..], Inside(s, g), s[g.close..]);
  }

  lemma DeepCommaBehindParts(x: string, group: string, y: string, tail: string)
    requires NoOpen(x) && NoClose(y) && !HasComma(y)
    requires group != [] && group[0] == '{' && group[1..] == y + tail && tail != [] && tail[0] == '}'
    ensures DeepComma(x + group, 0) == DeepComma(tail[1..], Opens(y))
  {
    DeepCommaBehindText(x, group);
    DeepCommaBehindBrace(group, 0);
    DeepCommaBehindOpens(y, tail, 1);
    DeepCommaBehindBrace(tail, 1 + Opens(y));
  }

  lemma DeepCommaBehindBrace(s: string, depth: nat)
    requires s != [] && (s[0] == '{' || s[0] == '}')
    ensures s[0] == '{' ==> DeepComma(s, depth) == DeepComma(s[1..], depth + 1)
    ensures s[0] == '}' && depth > 0 ==> DeepComma(s, depth) == DeepComma(s[1..], depth - 1)
  {}

  /** Dropping the braces of such a group leaves the same depth. */
  lemma DeepCommaBehindInside(x: string, y: string, z: string)
    requires NoOpen(x) && NoClose(y) && !HasComma(y)
    ensures DeepComma(x + y + z, 0) == DeepComma(z, Opens(y))
  {
    assert x + y + z == x + (y + z);
    DeepCommaBehindText(x, y + z);
    DeepCommaBehindOpens(y, z, 0);
  }

  lemma DeepCommaWithoutBraces(s: string, g: Span)
    requires FirstGroup(s) == Some(g) && !HasComma(Inside(s, g))
    ensures DeepComma(s, 0) == DeepComma(Prefix(s, g) + Inside(s, g) + Suffix(s, g), 0)
  {
    DeepCommaBehindGroup(s, g);
    DeepCommaBehindInside(Prefix(s, g), Inside(s, g), Suffix(s, g));
  }

  lemma DeepCommaOfGroup(s: string, g: Span)
    requires FirstGroup(s) == Some(g) && HasComma(Inside(s, g))
    ensures DeepComma(s, 0)
  {
    var x, y, group, tail := Prefix(s, g), Inside(s, g), s[g.open..], s[g.close..];
    PartsOfGroup(s, g);
    DeepCommaInGroup(y, tail, 1);
    DeepCommaBehindText(x, group);
  }

  /** A pattern expands to more than one exactly when a comma lies inside an open brace. */
  lemma {:induction false} ExpandsIffDeepComma(s: string)
    ensures |Expand(s)| >= 2 <==> DeepComma(s, 0)
    decreases |s|
  {
    if FirstGroup(s).None? {
      NoDeepCommaWithoutGroup(s);
    } else {
      var g := FirstGroup(s).value;
      if HasComma(Inside(s, g)) {
        CommaGroupExpands(s);
        DeepCommaOfGroup(s, g);
      } else {
        var shorter := Prefix(s, g) + Inside(s, g) + Suffix(s, g);
        assert |shorter| < |s|;
        DeepCommaWithoutBraces(s, g);
        SingleAlternative(s, g);
        ExpandsIffDeepComma(shorter);
      }
    }
  }

  /**
    `has_brace_pattern` tells whether the expansion has several elements, exactly for the patterns
    in which a comma follows a `{` with no `}` between them and some `}` behind, and for those in
    which no comma lies inside an open brace at all.
   */
  lemma RecognisedIffSeveral(s: string)
    ensures (HasCommaGroup(s) <==> |Expand(s)| >= 2) <==> (PlainComma(s) || !DeepComma(s, 0))
  {
    ExpandsIffDeepComma(s);
    CommaGroupIff(s);
    if HasCommaGroup(s) { CommaGroupExpands(s); }
  }

  lemma NestedPatternShape()
    ensures FirstGroup("{{a}x,y}") == Some(Span(0, 3)) && !HasComma(Inside("{{a}x,y}", Span(0, 3)))
    ensures Suffix("{{a}x,y}", Span(0, 3)) == "x,y}" && FirstGroup("x,y}").None?
    ensures Prefix("{{a}x,y}", Span(0, 3)) + Inside("{{a}x,y}", Span(0, 3)) + "x,y}" == "{ax,y}"
  {
    var s, g := "{{a}x,y}", Span(0, 3);
    FirstGroupIs(s, g);
    assert Inside(s, g) == "{a" && Suffix(s, g) == "x,y}" && Prefix(s, g) == "";
    assert FindFrom("{a", ',', 0) == 2 && FindFrom("x,y}", '{', 0) == 4;
  }

  /** A nested pattern that is not recognised and yet expands to several. */
  lemma NestedPatternMissed()
    ensures !HasCommaGroup("{{a}x,y}") && |Expand("{{a}x,y}")| >= 2
  {
    NestedPatternShape();
    SingleAlternative("{{a}x,y}", Span(0, 3));
    FirstGroupIs("{ax,y}", Span(0, 5));
    assert Inside("{ax,y}", Span(0, 5))[2] == ',';
    CommaGroupExpands("{ax,y}");
  }
}
