/**
  UTF-8 text as bytes, by the grammar in section 4 of RFC 3629, with the string operations the
  locators apply at byte offsets: character boundaries, slicing, trimming.
 */
module Utf8 {
  import opened Prelude

  type Byte = b: int | 0 <= b < 256
  type Bytes = seq<Byte>

  predicate Tail(b: Byte) {
    0x80 <= b <= 0xBF
  }

  /** What the second byte of a character may be, given its first. */
  predicate SecondOk(first: Byte, second: Byte) {
    Tail(second) &&
    (first == 0xE0 ==> second >= 0xA0) && (first == 0xED ==> second <= 0x9F) &&
    (first == 0xF0 ==> second >= 0x90) && (first == 0xF4 ==> second <= 0x8F)
  }

  /** The length of a character that starts with this byte, 0 if none does. */
  function LeadLength(first: Byte): nat {
    if first <= 0x7F then 1
    else if 0xC2 <= first <= 0xDF then 2
    else if 0xE0 <= first <= 0xEF then 3
    else if 0xF0 <= first <= 0xF4 then 4
    else 0
  }

  /** The length of the well-formed character at the front, 0 if there is none. */
  function CharLength(s: Bytes): (n: nat)
    ensures n <= |s|
  {
    if s == [] then 0
    else
      var n := LeadLength(s[0]);
      if n > |s| || (n > 1 && !SecondOk(s[0], s[1])) || (exists i :: 2 <= i < n && !Tail(s[i])) then 0 else n
  }

  /** The bytes are a sequence of well-formed characters. */
  predicate Valid(s: Bytes)
    decreases |s|
  {
    s == [] || (CharLength(s) > 0 && Valid(s[CharLength(s)..]))
  }

  /** `is_char_boundary`. */
  predicate IsBoundary(s: Bytes, i: nat) {
    i == 0 || i == |s| || (i < |s| && !Tail(s[i]))
  }

  /** `str::get(start..end)`. */
  function Get(s: Bytes, start: nat, end: nat): Option<Bytes> {
    if start <= end <= |s| && IsBoundary(s, start) && IsBoundary(s, end) then Some(s[start..end]) else None
  }

  // ----- boundaries -----

  lemma CharTails(s: Bytes, i: nat)
    requires 0 < i < CharLength(s)
    ensures Tail(s[i])
  {}

  lemma CharLengthPrefix(s: Bytes, i: nat)
    requires 0 < i <= |s| && CharLength(s) > 0
    ensures CharLength(s[..i]) == if i < CharLength(s) then 0 else CharLength(s)
  {
    var n, p := CharLength(s), s[..i];
    assert p[0] == s[0] && forall j :: 0 <= j < i ==> p[j] == s[j];
  }

  /** A boundary is a place where valid text splits into two valid texts. */
  lemma {:induction false} BoundaryIff(s: Bytes, i: nat)
    requires Valid(s) && i <= |s|
    ensures IsBoundary(s, i) <==> Valid(s[..i]) && Valid(s[i..])
    decreases |s|
  {
    if i == 0 {
      assert s[0..] == s;
    } else {
      var n := CharLength(s);
      CharLengthPrefix(s, i);
      if i < n {
        CharTails(s, i);
      } else {
        BoundaryIff(s[n..], i - n);
        assert s[n..][i - n..] == s[i..] && s[n..][..i - n] == s[..i][n..];
        assert i == n && i < |s| ==> CharLength(s[n..]) > 0 && !Tail(s[n..][0]);
      }
    }
  }

  /** An ASCII byte of valid text is a character by itself: both its ends are boundaries. */
  lemma {:induction false} AsciiIsWholeChar(s: Bytes, i: nat)
    requires Valid(s) && i < |s| && s[i] < 0x80
    ensures IsBoundary(s, i) && IsBoundary(s, i + 1)
    decreases |s|
  {
    var n := CharLength(s);
    if i == 0 {
      assert n == 1 && (|s| > 1 ==> CharLength(s[1..]) > 0 && s[1..][0] == s[1]);
    } else {
      if i < n { CharTails(s, i); }
      AsciiIsWholeChar(s[n..], i - n);
    }
  }

  lemma {:induction false} AsciiIsValid(s: Bytes)
    requires forall i :: 0 <= i < |s| ==> s[i] < 0x80
    ensures Valid(s)
  {
    if s != [] {
      AsciiIsValid(s[1..]);
    }
  }

  // ----- trimming -----

  /** The characters with the Unicode White_Space property, by the number of their bytes. */
  predicate White1(a: Byte) {
    9 <= a <= 13 || a == 32
  }

  predicate White2(a: Byte, b: Byte) {
    a == 0xC2 && (b == 0x85 || b == 0xA0)
  }

  predicate White3(a: Byte, b: Byte, c: Byte) {
    || (a == 0xE1 && b == 0x9A && c == 0x80)
    || (a == 0xE2 && b == 0x80 && (0x80 <= c <= 0x8A || c == 0xA8 || c == 0xA9 || c == 0xAF))
    || (a == 0xE2 && b == 0x81 && c == 0x9F)
    || (a == 0xE3 && b == 0x80 && c == 0x80)
  }

  /** The bits that a byte adds to its marker. */
  function Bits(b: Byte, marker: int): int {
    b as int - marker
  }

  /** The code point of the character at the front, by section 3 of RFC 3629. */
  function CodePoint(s: Bytes): int
    requires CharLength(s) > 0
  {
    match CharLength(s)
    case 1 => s[0]
    case 2 => 0x40 * Bits(s[0], 0xC0) + Bits(s[1], 0x80)
    case 3 => 0x1000 * Bits(s[0], 0xE0) + 0x40 * Bits(s[1], 0x80) + Bits(s[2], 0x80)
    case _ =>
      0x4_0000 * Bits(s[0], 0xF0) + 0x1000 * Bits(s[1], 0x80) + 0x40 * Bits(s[2], 0x80) + Bits(s[3], 0x80)
  }

  /** The Unicode property White_Space. */
  predicate IsWhiteSpace(c: int) {
    || 0x9 <= c <= 0xD || c == 0x20 || c == 0x85 || c == 0xA0 || c == 0x1680 || 0x2000 <= c <= 0x200A
    || c == 0x2028 || c == 0x2029 || c == 0x202F || c == 0x205F || c == 0x3000
  }

  /** The byte patterns are those of the white characters, and nothing shorter or longer. */
  lemma WhiteFrontIff(s: Bytes)
    requires CharLength(s) > 0
    ensures WhiteFront(s) == if IsWhiteSpace(CodePoint(s)) then CharLength(s) else 0
  {
    if CharLength(s) >= 2 { CharTails(s, 1); }
    if CharLength(s) >= 3 { CharTails(s, 2); }
    if CharLength(s) >= 4 { CharTails(s, 3); }
  }

  /** The length of the white character at the front, 0 if there is none. */
  function WhiteFront(s: Bytes): (n: nat)
    ensures n <= |s| && n <= 3
  {
    if |s| >= 1 && White1(s[0]) then 1
    else if |s| >= 2 && White2(s[0], s[1]) then 2
    else if |s| >= 3 && White3(s[0], s[1], s[2]) then 3
    else 0
  }

  /** The length of the white character at the back, 0 if there is none. */
  function WhiteBack(s: Bytes): (n: nat)
    ensures n <= |s| && n <= 3
  {
    var k := |s|;
    if k >= 1 && White1(s[k - 1]) then 1
    else if k >= 2 && White2(s[k - 2], s[k - 1]) then 2
    else if k >= 3 && White3(s[k - 3], s[k - 2], s[k - 1]) then 3
    else 0
  }

  function TrimStart(s: Bytes): Bytes
    decreases |s|
  {
    if WhiteFront(s) == 0 then s else TrimStart(s[WhiteFront(s)..])
  }

  function TrimEnd(s: Bytes): Bytes
    decreases |s|
  {
    if WhiteBack(s) == 0 then s else TrimEnd(s[..|s| - WhiteBack(s)])
  }

  /** `str::trim`. */
  function Trim(s: Bytes): Bytes {
    TrimEnd(TrimStart(s))
  }

  /** The text consists of white characters only. */
  predicate AllWhite(s: Bytes)
    decreases |s|
  {
    s == [] || (WhiteFront(s) > 0 && AllWhite(s[WhiteFront(s)..]))
  }

  lemma {:induction false} TrimStartEmptyIff(s: Bytes)
    ensures TrimStart(s) == [] <==> AllWhite(s)
    ensures TrimStart(s) != [] ==> WhiteFront(TrimStart(s)) == 0
    decreases |s|
  {
    if WhiteFront(s) > 0 {
      TrimStartEmptyIff(s[WhiteFront(s)..]);
    }
  }

  lemma {:induction false} TrimEndEmpty(s: Bytes)
    requires TrimEnd(s) == []
    ensures s == [] || WhiteFront(s) > 0
    decreases |s|
  {
    var n := WhiteBack(s);
    if 0 < n < |s| {
      TrimEndEmpty(s[..|s| - n]);
    }
  }

  /** Trimming leaves nothing exactly when everything is white. */
  lemma TrimEmptyIff(s: Bytes)
    ensures Trim(s) == [] <==> AllWhite(s)
  {
    TrimStartEmptyIff(s);
    if Trim(s) == [] { TrimEndEmpty(TrimStart(s)); }
  }

  /** A white character at the front of valid text is a whole character. */
  lemma WhiteFrontIsChar(s: Bytes)
    requires Valid(s) && WhiteFront(s) > 0
    ensures CharLength(s) == WhiteFront(s)
  {}

  lemma {:induction false} TrimStartValid(s: Bytes)
    requires Valid(s)
    ensures Valid(TrimStart(s))
    decreases |s|
  {
    var n := WhiteFront(s);
    if n > 0 {
      WhiteFrontIsChar(s);
      TrimStartValid(s[n..]);
    }
  }

  /** A white character starts with a byte that is not a tail. */
  lemma WhiteBackIsBoundary(s: Bytes)
    requires WhiteBack(s) > 0
    ensures IsBoundary(s, |s| - WhiteBack(s))
  {}

  lemma {:induction false} TrimEndValid(s: Bytes)
    requires Valid(s)
    ensures Valid(TrimEnd(s))
    decreases |s|
  {
    var n := WhiteBack(s);
    if n > 0 {
      WhiteBackIsBoundary(s);
      BoundaryIff(s, |s| - n);
      TrimEndValid(s[..|s| - n]);
    }
  }

  /** Trimming valid text gives valid text. */
  lemma TrimValid(s: Bytes)
    requires Valid(s)
    ensures Valid(Trim(s))
  {
    TrimStartValid(s);
    TrimEndValid(TrimStart(s));
  }

  lemma FrontCharIsWhite(s: Bytes)
    requires WhiteFront(s) > 0
    ensures AllWhite(s[..WhiteFront(s)])
  {
    var c := s[..WhiteFront(s)];
    assert WhiteFront(c) == |c| && c[|c|..] == [];
  }

  lemma BackCharIsWhite(s: Bytes)
    requires WhiteBack(s) > 0
    ensures AllWhite(s[|s| - WhiteBack(s)..])
  {
    var c := s[|s| - WhiteBack(s)..];
    assert WhiteFront(c) == |c| && c[|c|..] == [];
  }

  lemma {:induction false} WhiteThenWhite(x: Bytes, y: Bytes)
    requires AllWhite(x) && AllWhite(y)
    ensures AllWhite(x + y)
    decreases |x|
  {
    if x == [] {
      assert x + y == y;
    } else {
      var n := WhiteFront(x);
      FrontStays(x, y);
      WhiteThenWhite(x[n..], y);
      assert (x + y)[n..] == x[n..] + y;
    }
  }

  lemma FrontStays(x: Bytes, y: Bytes)
    requires WhiteFront(x) > 0
    ensures WhiteFront(x + y) == WhiteFront(x)
  {}

  lemma {:induction false} TrimStartIsSuffix(s: Bytes)
    ensures |TrimStart(s)| <= |s| && TrimStart(s) == s[|s| - |TrimStart(s)|..] && WhiteFront(TrimStart(s)) == 0
    decreases |s|
  {
    var n := WhiteFront(s);
    if n > 0 {
      TrimStartIsSuffix(s[n..]);
    }
  }

  lemma {:induction false} TrimStartDropsWhite(s: Bytes)
    ensures |TrimStart(s)| <= |s| && AllWhite(s[..|s| - |TrimStart(s)|])
    decreases |s|
  {
    var n := WhiteFront(s);
    TrimStartIsSuffix(s);
    if n > 0 {
      var rest, a := s[n..], |s| - |TrimStart(s)|;
      TrimStartIsSuffix(rest);
      TrimStartDropsWhite(rest);
      FrontCharIsWhite(s);
      assert TrimStart(s) == TrimStart(rest);
      SliceOfRest(s, n, a);
      WhiteHead(s, n, a);
    }
  }

  lemma WhiteHead(s: Bytes, n: nat, a: nat)
    requires n <= a <= |s| && AllWhite(s[..n]) && AllWhite(s[n..a])
    ensures AllWhite(s[..a])
  {
    WhiteThenWhite(s[..n], s[n..a]);
    SlicesJoin(s[..a], n);
    assert s[..a][..n] == s[..n] && s[..a][n..] == s[n..a];
  }

  lemma SliceOfRest(s: Bytes, n: nat, a: nat)
    requires n <= a <= |s|
    ensures s[n..][..a - n] == s[n..a]
  {}

  lemma SlicesJoin(s: Bytes, n: nat)
    requires n <= |s|
    ensures s[..n] + s[n..] == s
  {}

  lemma {:induction false} TrimEndIsPrefix(s: Bytes)
    ensures |TrimEnd(s)| <= |s| && TrimEnd(s) == s[..|TrimEnd(s)|] && WhiteBack(TrimEnd(s)) == 0
    decreases |s|
  {
    var n := WhiteBack(s);
    if n > 0 {
      TrimEndIsPrefix(s[..|s| - n]);
    }
  }

  lemma {:induction false} TrimEndDropsWhite(s: Bytes)
    ensures |TrimEnd(s)| <= |s| && AllWhite(s[|TrimEnd(s)|..])
    decreases |s|
  {
    var n := WhiteBack(s);
    TrimEndIsPrefix(s);
    if n == 0 {
      assert s[|s|..] == [];
    } else {
      var k, b := |s| - n, |TrimEnd(s)|;
      TrimEndIsPrefix(s[..k]);
      TrimEndDropsWhite(s[..k]);
      BackCharIsWhite(s);
      assert s[..k][b..] == s[b..k];
      WhiteTail(s, k, b);
    }
  }

  lemma WhiteTail(s: Bytes, k: nat, b: nat)
    requires b <= k <= |s| && AllWhite(s[b..k]) && AllWhite(s[k..])
    ensures AllWhite(s[b..])
  {
    WhiteThenWhite(s[b..k], s[k..]);
    SlicesJoin(s[b..], k - b);
    assert s[b..][..k - b] == s[b..k] && s[b..][k - b..] == s[k..];
  }

  /** What a prefix of the text starts with, the text starts with. */
  lemma WhiteFrontOfPrefix(s: Bytes, b: nat)
    requires b <= |s| && WhiteFront(s) == 0
    ensures WhiteFront(s[..b]) == 0
  {}

  /** Trimming cuts off white text at both ends and leaves none there. */
  lemma TrimIsExact(s: Bytes) returns (a: nat, b: nat)
    ensures a <= b <= |s| && Trim(s) == s[a..b] && AllWhite(s[..a]) && AllWhite(s[b..])
    ensures WhiteFront(Trim(s)) == 0 && WhiteBack(Trim(s)) == 0
  {
    TrimStartIsSuffix(s);
    TrimStartDropsWhite(s);
    a := |s| - |TrimStart(s)|;
    var rest := s[a..];
    var n := |TrimEnd(rest)|;
    TrimEndIsPrefix(rest);
    TrimEndDropsWhite(rest);
    b := a + n;
    WhiteFrontOfPrefix(rest, n);
    assert rest[n..] == s[b..] && rest[..n] == s[a..b];
  }

  /** At the back an ASCII byte decides by itself. */
  lemma WhiteBackAscii(s: Bytes)
    requires s != [] && s[|s| - 1] < 0x80
    ensures WhiteBack(s) == if White1(s[|s| - 1]) then 1 else 0
  {}

  lemma TrimEndDrops(s: Bytes, b: Byte)
    requires White1(b)
    ensures TrimEnd(s + [b]) == TrimEnd(s)
  {
    WhiteBackAscii(s + [b]);
    assert (s + [b])[..|s|] == s;
  }

  /** Text between two ASCII characters that are not white stays; the line end behind it goes. */
  lemma TrimAscii(text: Bytes, eol: Bytes)
    requires text != [] && 32 < text[0] < 0x80 && 32 < text[|text| - 1] < 0x80
    requires eol == [10] || eol == [13, 10]
    ensures Trim(text + eol) == text
  {
    assert WhiteFront(text + eol) == 0;
    assert TrimEnd(text + eol) == TrimEnd(text) by {
      if eol == [10] {
        TrimEndDrops(text, 10);
      } else {
        assert text + eol == text + [13] + [10];
        TrimEndDrops(text + [13], 10);
        TrimEndDrops(text, 13);
      }
    }
    WhiteBackAscii(text);
  }
}
