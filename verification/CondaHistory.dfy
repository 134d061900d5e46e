/**
  Extracting the conda executable from a line of `conda-meta/history`
  (crates/pet-conda/src/environments.rs): an ASCII case-insensitive search over bytes yields
  offsets that are then used to slice UTF-8 text.
 */
module CondaHistory {
  import opened Prelude
  import opened Utf8

  /** `# cmd:` */
  const COMMAND: Bytes := [35, 32, 99, 109, 100, 58]

  /** ` create -` */
  const CREATE: Bytes := [32, 99, 114, 101, 97, 116, 101, 32, 45]

  /** The markers spell the texts that the search is for. */
  lemma MarkersSpell()
    ensures |COMMAND| == |"# cmd:"| && forall i :: 0 <= i < |COMMAND| ==> COMMAND[i] == "# cmd:"[i] as int
    ensures |CREATE| == |" create -"| && forall i :: 0 <= i < |CREATE| ==> CREATE[i] == " create -"[i] as int
  {}

  function Lower(b: Byte): Byte {
    if 65 <= b <= 90 then b + 32 else b
  }

  /** The window at `i` equals the needle up to ASCII case. */
  predicate MatchesAt(haystack: Bytes, needle: Bytes, i: nat) {
    i + |needle| <= |haystack| &&
    forall j :: 0 <= j < |needle| ==> Lower(haystack[i + j]) == Lower(needle[j])
  }

  function FindFrom(haystack: Bytes, needle: Bytes, from: nat): (r: Option<nat>)
    ensures r.Some? ==> from <= r.value && MatchesAt(haystack, needle, r.value)
    ensures forall i: nat :: from <= i && (r.Some? ==> i < r.value) ==> !MatchesAt(haystack, needle, i)
    decreases |haystack| - from
  {
    if from + |needle| > |haystack| then None
    else if MatchesAt(haystack, needle, from) then Some(from)
    else if from < |haystack| then FindFrom(haystack, needle, from + 1)
    else None
  }

  /** `find_ascii_case_insensitive`: the first window that matches. */
  function Find(haystack: Bytes, needle: Bytes): Option<nat> {
    FindFrom(haystack, needle, 0)
  }

  /** `get_conda_executable_from_cmd`. */
  function CondaExecutable(line: Bytes): Option<Bytes> {
    var command := Find(line, COMMAND);
    var create := Find(line, CREATE);
    if command.None? || create.None? then None
    else
      var slice := Get(line, command.value + |COMMAND|, create.value);
      if slice.None? || Trim(slice.value) == [] then None else Some(Trim(slice.value))
  }

  /** A needle of ASCII characters can only match ASCII characters. */
  lemma AsciiMatch(haystack: Bytes, needle: Bytes, i: nat, j: nat)
    requires MatchesAt(haystack, needle, i) && j < |needle| && needle[j] < 0x80
    ensures haystack[i + j] < 0x80
  {
    assert Lower(haystack[i + j]) == Lower(needle[j]);
  }

  ghost predicate IsAscii(s: Bytes) {
    forall j :: 0 <= j < |s| ==> s[j] < 0x80
  }

  /** In valid UTF-8 a match of an ASCII needle starts and ends on character boundaries. */
  lemma MatchOnBoundaries(line: Bytes, needle: Bytes, i: nat)
    requires Valid(line) && needle != [] && IsAscii(needle) && MatchesAt(line, needle, i)
    ensures i + |needle| <= |line| && IsBoundary(line, i) && IsBoundary(line, i + |needle|)
  {
    var last := |needle| - 1;
    AsciiMatch(line, needle, i, 0);
    AsciiMatch(line, needle, i, last);
    AsciiIsWholeChar(line, i);
    AsciiIsWholeChar(line, i + last);
  }

  lemma MarkersAreAscii()
    ensures IsAscii(COMMAND) && IsAscii(CREATE)
  {}

  /** Both offsets used for slicing are in range and on character boundaries. */
  lemma OffsetsOnBoundaries(line: Bytes)
    requires Valid(line)
    ensures Find(line, COMMAND).Some? ==>
              var start := Find(line, COMMAND).value + |COMMAND|; start <= |line| && IsBoundary(line, start)
    ensures Find(line, CREATE).Some? ==>
              var end := Find(line, CREATE).value; end <= |line| && IsBoundary(line, end)
  {
    MarkersAreAscii();
    var command, create := Find(line, COMMAND), Find(line, CREATE);
    if command.Some? { MatchOnBoundaries(line, COMMAND, command.value); }
    if create.Some? { MatchOnBoundaries(line, CREATE, create.value); }
  }

  /**
    For every valid UTF-8 line the extraction fails only when a marker is missing, the markers
    are out of order or overlap, or the text between them is white; otherwise it returns the
    trimmed text between the first occurrence of each, which is valid UTF-8 again.
   */
  lemma ExtractionIsExact(line: Bytes)
    requires Valid(line)
    ensures CondaExecutable(line).Some? <==>
              && Find(line, COMMAND).Some? && Find(line, CREATE).Some?
              && Find(line, COMMAND).value + |COMMAND| <= Find(line, CREATE).value
              && !AllWhite(line[Find(line, COMMAND).value + |COMMAND|..Find(line, CREATE).value])
    ensures CondaExecutable(line).Some? ==>
              && CondaExecutable(line).value
                   == Trim(line[Find(line, COMMAND).value + |COMMAND|..Find(line, CREATE).value])
              && Valid(CondaExecutable(line).value) && CondaExecutable(line).value != []
              && WhiteFront(CondaExecutable(line).value) == 0 && WhiteBack(CondaExecutable(line).value) == 0
  {
    var command, create := Find(line, COMMAND), Find(line, CREATE);
    OffsetsOnBoundaries(line);
    if command.Some? && create.Some? {
      var start, end := command.value + |COMMAND|, create.value;
      if start <= end {
        TrimEmptyIff(line[start..end]);
        SliceValid(line, start, end);
        TrimValid(line[start..end]);
        var a, b := TrimIsExact(line[start..end]);
      }
    }
  }

  /** The text between two boundaries of valid text is valid. */
  lemma SliceValid(s: Bytes, start: nat, end: nat)
    requires Valid(s) && start <= end <= |s| && IsBoundary(s, start) && IsBoundary(s, end)
    ensures Valid(s[start..end])
  {
    BoundaryIff(s, end);
    var t := s[..end];
    assert start < end ==> t[start] == s[start];
    BoundaryIff(t, start);
    assert t[start..] == s[start..end];
  }
}
