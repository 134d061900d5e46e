/**
  The read loop of the JSON-RPC server (crates/pet-jsonrpc/src/server.rs): a header line with
  the content length, a line that is skipped, then exactly that many bytes of payload.
 */
module JsonRpcFraming {
  import opened Prelude
  import opened Utf8

  /** `Content-Length: ` */
  const HEADER: Bytes := [67, 111, 110, 116, 101, 110, 116, 45, 76, 101, 110, 103, 116, 104, 58, 32]

  lemma HeaderSpells()
    ensures |HEADER| == |"Content-Length: "|
    ensures forall i :: 0 <= i < |HEADER| ==> HEADER[i] == "Content-Length: "[i] as int
  {}

  /** The values of `usize`. */
  const USIZE: nat := 0x1_0000_0000_0000_0000

  // ----- the header line -----

  predicate IsDigit(b: Byte) {
    48 <= b <= 57
  }

  /** The value of a non-empty run of decimal digits. */
  function Digits(s: Bytes): Option<nat> {
    if s == [] || !IsDigit(s[|s| - 1]) then None
    else if |s| == 1 then Some(s[0] - 48)
    else
      var front := Digits(s[..|s| - 1]);
      if front.None? then None else Some(front.value * 10 + (s[|s| - 1] - 48))
  }

  /** `parse::<usize>`: an optional plus sign, digits, no overflow. */
  function ParseUsize(s: Bytes): Option<nat> {
    var n := Digits(if s != [] && s[0] == 43 then s[1..] else s);
    if n.Some? && n.value < USIZE then n else None
  }

  predicate StandsAt(s: Bytes, needle: Bytes, i: nat) {
    i + |needle| <= |s| && s[i..i + |needle|] == needle
  }

  /** The first position at or behind `from` where the needle stands. */
  function FindFrom(s: Bytes, needle: Bytes, from: nat): Option<nat>
    decreases |s| - from
  {
    if from + |needle| > |s| then None
    else if StandsAt(s, needle, from) then Some(from)
    else if from < |s| then FindFrom(s, needle, from + 1)
    else None
  }

  /** `get_content_length`. */
  function ContentLength(line: Bytes): Option<nat> {
    var text := Trim(line);
    var at := FindFrom(text, HEADER, 0);
    if at.Some? && at.value + |HEADER| <= |text| then ParseUsize(text[at.value + |HEADER|..]) else None
  }

  // ----- the stream -----

  /** How many bytes `read_line` takes: through the next newline, or everything. */
  function LineLength(s: Bytes): (n: nat)
    ensures n <= |s| && (s != [] ==> n > 0)
  {
    if s == [] then 0 else if s[0] == 10 then 1 else 1 + LineLength(s[1..])
  }

  /**
    The payloads delivered from a stream. A line that is not UTF-8 or has no length is dropped;
    a payload cut off by the end of the stream is not delivered.
   */
  function Delivered(s: Bytes): seq<Bytes>
    decreases |s|
  {
    if s == [] then []
    else
      var line, rest := s[..LineLength(s)], s[LineLength(s)..];
      if !Valid(line) || ContentLength(line).None? then Delivered(rest)
      else
        var n, body := ContentLength(line).value, rest[LineLength(rest)..];
        if n > |body| then [] else [body[..n]] + Delivered(body[n..])
  }

  /** `start_server` up to the end of its input, which is where it would wait for ever. */
  method Serve(stream: Bytes) returns (payloads: seq<Bytes>)
    ensures payloads == Delivered(stream)
  {
    payloads := [];
    var rest := stream;
    while rest != []
      invariant Delivered(stream) == payloads + Delivered(rest)
      decreases |rest|
    {
      var n := LineLength(rest);
      var line := rest[..n];
      rest := rest[n..];
      if Valid(line) {
        var length := ContentLength(line);
        if length.Some? {
          rest := rest[LineLength(rest)..];
          if length.value > |rest| {
            return;
          }
          payloads := payloads + [rest[..length.value]];
          rest := rest[length.value..];
        }
      }
    }
  }

  // ----- what a client sends -----

  /** Decimal notation without leading zeros. */
  function Decimal(n: nat): (s: Bytes)
    ensures s != [] && forall i :: 0 <= i < |s| ==> IsDigit(s[i])
  {
    if n < 10 then [48 + n] else Decimal(n / 10) + [48 + n % 10]
  }

  function LineEnd(crlf: bool): Bytes {
    if crlf then [13, 10] else [10]
  }

  function HeaderLine(body: Bytes, crlf: bool): Bytes {
    HEADER + Decimal(|body|) + LineEnd(crlf)
  }

  /** A framed message: header, blank line, body. */
  function Frame(body: Bytes, crlf: bool): Bytes {
    HeaderLine(body, crlf) + LineEnd(crlf) + body
  }

  /** A message as it is sent: header lines in front of the length, the body, and the kind of its line ends. */
  datatype Message = Message(front: seq<Bytes>, body: Bytes, crlf: bool)

  function Concat(lines: seq<Bytes>): Bytes {
    if lines == [] then [] else lines[0] + Concat(lines[1..])
  }

  function Sent(m: Message): Bytes {
    Concat(m.front) + Frame(m.body, m.crlf)
  }

  function Stream(messages: seq<Message>): Bytes {
    if messages == [] then [] else Sent(messages[0]) + Stream(messages[1..])
  }

  function Bodies(messages: seq<Message>): seq<Bytes> {
    if messages == [] then [] else [messages[0].body] + Bodies(messages[1..])
  }

  /** The header text stands nowhere in the line. */
  ghost predicate NoLength(line: Bytes) {
    forall i: nat :: !StandsAt(line, HEADER, i)
  }

  ghost predicate Sendable(m: Message) {
    |m.body| < USIZE && forall i :: 0 <= i < |m.front| ==> IsLine(m.front[i]) && NoLength(m.front[i])
  }

  lemma {:induction false} DecimalParses(n: nat)
    ensures Digits(Decimal(n)) == Some(n)
  {
    if n >= 10 {
      DecimalParses(n / 10);
      var d := Decimal(n / 10);
      assert (d + [48 + n % 10])[..|d|] == d;
    }
  }

  /** The text ends with its only newline. */
  ghost predicate IsLine(line: Bytes) {
    line != [] && line[|line| - 1] == 10 && forall i :: 0 <= i < |line| - 1 ==> line[i] != 10
  }

  lemma {:induction false} LineEndsAtNewline(line: Bytes, rest: Bytes)
    requires IsLine(line)
    ensures LineLength(line + rest) == |line|
  {
    if |line| > 1 {
      assert (line + rest)[1..] == line[1..] + rest;
      LineEndsAtNewline(line[1..], rest);
    }
  }

  lemma HeaderText(body: Bytes)
    ensures var text := HEADER + Decimal(|body|);
            && (forall i :: 0 <= i < |text| ==> 13 < text[i] < 0x80)
            && 32 < text[0] && 32 < text[|text| - 1]
  {
    var digits := Decimal(|body|);
    assert forall i :: 0 <= i < |HEADER| ==> 13 < HEADER[i] < 0x80;
    assert forall i :: 0 <= i < |digits| ==> IsDigit(digits[i]);
  }

  lemma FoundInFront(needle: Bytes, rest: Bytes)
    ensures FindFrom(needle + rest, needle, 0) == Some(0) && (needle + rest)[|needle|..] == rest
  {
    assert (needle + rest)[..|needle|] == needle;
    assert StandsAt(needle + rest, needle, 0);
  }

  lemma HeaderParses(body: Bytes)
    requires |body| < USIZE
    ensures var text := HEADER + Decimal(|body|);
            FindFrom(text, HEADER, 0) == Some(0) && ParseUsize(text[|HEADER|..]) == Some(|body|)
  {
    var digits := Decimal(|body|);
    FoundInFront(HEADER, digits);
    DecimalParses(|body|);
    assert IsDigit(digits[0]);
  }

  /** A header line is one line of valid text that announces the length of its body. */
  lemma HeaderAnnounces(body: Bytes, crlf: bool)
    requires |body| < USIZE
    ensures var line := HeaderLine(body, crlf);
            IsLine(line) && Valid(line) && ContentLength(line) == Some(|body|)
  {
    var text := HEADER + Decimal(|body|);
    var line := text + LineEnd(crlf);
    HeaderText(body);
    AsciiIsValid(line);
    TrimAscii(text, LineEnd(crlf));
    HeaderParses(body);
  }

  /** One frame delivers its body and leaves the rest of the stream untouched. */
  lemma FrameDelivers(body: Bytes, crlf: bool, rest: Bytes)
    requires |body| < USIZE
    ensures Delivered(Frame(body, crlf) + rest) == [body] + Delivered(rest)
  {
    var line, blank := HeaderLine(body, crlf), LineEnd(crlf);
    HeaderAnnounces(body, crlf);
    PartsDeliver(line, blank, body, rest);
    FrameParts(body, crlf, rest);
  }

  lemma FrameParts(body: Bytes, crlf: bool, rest: Bytes)
    ensures Frame(body, crlf) + rest == HeaderLine(body, crlf) + (LineEnd(crlf) + (body + rest))
  {
    Regroup(HeaderLine(body, crlf), LineEnd(crlf), body, rest);
  }

  lemma Regroup(a: Bytes, b: Bytes, c: Bytes, d: Bytes)
    ensures a + b + c + d == a + (b + (c + d))
  {}

  lemma PartsDeliver(line: Bytes, blank: Bytes, body: Bytes, rest: Bytes)
    requires IsLine(line) && Valid(line) && ContentLength(line) == Some(|body|) && IsLine(blank)
    ensures Delivered(line + (blank + (body + rest))) == [body] + Delivered(rest)
  {
    var behind := body + rest;
    LineDelivers(line, blank + behind, |body|);
    LineEndsAtNewline(blank, behind);
    assert (blank + behind)[|blank|..] == behind;
    assert behind[..|body|] == body && behind[|body|..] == rest;
  }

  /** A line that announces a length is followed by a line to skip and that many bytes. */
  lemma LineDelivers(line: Bytes, rest: Bytes, n: nat)
    requires IsLine(line) && Valid(line) && ContentLength(line) == Some(n)
    ensures var body := rest[LineLength(rest)..];
            Delivered(line + rest) == if n > |body| then [] else [body[..n]] + Delivered(body[n..])
  {
    var s := line + rest;
    LineEndsAtNewline(line, rest);
    assert s[..|line|] == line && s[|line|..] == rest;
  }

  // ----- what a header line announces -----

  function Pow10(n: nat): nat {
    if n == 0 then 1 else 10 * Pow10(n - 1)
  }

  ghost predicate AllDigits(s: Bytes) {
    s != [] && forall i :: 0 <= i < |s| ==> 48 <= s[i] <= 57
  }

  function DigitOf(b: Byte): int {
    b as int - 48
  }

  /** The positional value of decimal digits. */
  function ValueOf(s: Bytes): int {
    if s == [] then 0 else DigitOf(s[0]) * Pow10(|s| - 1) + ValueOf(s[1..])
  }

  lemma {:induction false} ValueOfLast(s: Bytes)
    requires s != []
    ensures ValueOf(s) == ValueOf(s[..|s| - 1]) * 10 + DigitOf(s[|s| - 1])
  {
    var n := |s| - 1;
    if n == 0 {
      assert s[1..] == [] && s[..n] == [];
    } else {
      ValueOfLast(s[1..]);
      assert s[1..][..n - 1] == s[..n][1..];
      TimesTen(DigitOf(s[0]), Pow10(n - 1), ValueOf(s[..n][1..]));
    }
  }

  lemma TimesTen(d: int, p: nat, v: int)
    ensures d * (10 * p) + v * 10 == (d * p + v) * 10
  {}

  lemma {:induction false} DigitsSomeIff(s: Bytes)
    ensures Digits(s).Some? <==> AllDigits(s)
  {
    if |s| > 1 {
      DigitsSomeIff(s[..|s| - 1]);
    }
  }

  lemma {:induction false} DigitsValue(s: Bytes)
    requires AllDigits(s)
    ensures Digits(s) == Some(ValueOf(s))
  {
    DigitsSomeIff(s);
    ValueOfLast(s);
    if |s| > 1 {
      DigitsValue(s[..|s| - 1]);
    } else {
      assert s[..0] == [];
    }
  }

  /** A length is an optional plus sign and decimal digits, leading zeros included, below 2^64. */
  lemma ParseUsizeIs(s: Bytes)
    ensures var digits := if s != [] && s[0] == 43 then s[1..] else s;
            ParseUsize(s) == if AllDigits(digits) && ValueOf(digits) < 0x1_0000_0000_0000_0000
                             then Some(ValueOf(digits)) else None
  {
    var digits := if s != [] && s[0] == 43 then s[1..] else s;
    DigitsSomeIff(digits);
    if AllDigits(digits) { DigitsValue(digits); }
  }

  lemma {:induction false} FindFromIsFirst(s: Bytes, needle: Bytes, from: nat)
    ensures var r := FindFrom(s, needle, from);
            && (r.Some? ==> from <= r.value && StandsAt(s, needle, r.value))
            && forall i: nat :: from <= i && (r.Some? ==> i < r.value) ==> !StandsAt(s, needle, i)
    decreases |s| - from
  {
    if from + |needle| <= |s| && !StandsAt(s, needle, from) && from < |s| {
      FindFromIsFirst(s, needle, from + 1);
    }
  }

  /** A line announces what follows the first header text in it, trimmed, wherever that stands. */
  lemma ContentLengthIs(line: Bytes, i: nat)
    requires StandsAt(Trim(line), HEADER, i) && forall j: nat :: j < i ==> !StandsAt(Trim(line), HEADER, j)
    ensures ContentLength(line) == ParseUsize(Trim(line)[i + |HEADER|..])
  {
    FindFromIsFirst(Trim(line), HEADER, 0);
  }

  /** A line that is not UTF-8, or announces nothing readable, is dropped. */
  lemma SilentLineDropped(line: Bytes, rest: Bytes)
    requires IsLine(line) && (!Valid(line) || ContentLength(line).None?)
    ensures Delivered(line + rest) == Delivered(rest)
  {
    var s := line + rest;
    LineEndsAtNewline(line, rest);
    assert s[..|line|] == line && s[|line|..] == rest;
  }

  /** A body that the end of the stream cuts short is not delivered, nor any part of it. */
  lemma CutBodyNotDelivered(body: Bytes, crlf: bool, cut: nat)
    requires cut < |body| < USIZE
    ensures Delivered(HeaderLine(body, crlf) + (LineEnd(crlf) + body[..cut])) == []
  {
    var blank, part := LineEnd(crlf), body[..cut];
    HeaderAnnounces(body, crlf);
    LineDelivers(HeaderLine(body, crlf), blank + part, |body|);
    LineEndsAtNewline(blank, part);
    assert (blank + part)[|blank|..] == part;
  }

  // ----- header lines in front of the length -----

  /** Without the header text a line announces nothing, whatever else it holds. */
  lemma NoLengthAnnouncesNothing(line: Bytes)
    requires NoLength(line)
    ensures ContentLength(line).None?
  {
    if FindFrom(Trim(line), HEADER, 0).Some? {
      FindFromIsFirst(Trim(line), HEADER, 0);
      var a, b := TrimIsExact(line);
      StandsInSlice(line, a, b, HEADER, FindFrom(Trim(line), HEADER, 0).value);
    }
  }

  lemma StandsInSlice(s: Bytes, a: nat, b: nat, needle: Bytes, i: nat)
    requires a <= b <= |s| && StandsAt(s[a..b], needle, i)
    ensures StandsAt(s, needle, a + i)
  {
    var piece := s[a..b];
    forall k | 0 <= k < |needle| ensures s[a + i + k] == needle[k] {
      assert piece[i..i + |needle|][k] == piece[i + k];
    }
  }

  /** A line that announces nothing is dropped. */
  lemma LineDropped(line: Bytes, rest: Bytes)
    requires IsLine(line) && NoLength(line)
    ensures Delivered(line + rest) == Delivered(rest)
  {
    NoLengthAnnouncesNothing(line);
    SilentLineDropped(line, rest);
  }

  lemma {:induction false} LinesDropped(lines: seq<Bytes>, rest: Bytes)
    requires forall i :: 0 <= i < |lines| ==> IsLine(lines[i]) && NoLength(lines[i])
    ensures Delivered(Concat(lines) + rest) == Delivered(rest)
  {
    if lines == [] {
      assert Concat(lines) + rest == rest;
    } else {
      LinesDropped(lines[1..], rest);
      LineDropped(lines[0], Concat(lines[1..]) + rest);
      FirstLineApart(lines, rest);
    }
  }

  lemma FirstLineApart(lines: seq<Bytes>, rest: Bytes)
    requires lines != []
    ensures Concat(lines) + rest == lines[0] + (Concat(lines[1..]) + rest)
  {
    Regroup([], lines[0], Concat(lines[1..]), rest);
  }

  // ----- whole streams -----

  lemma MessageDelivers(m: Message, rest: Bytes)
    requires Sendable(m)
    ensures Delivered(Sent(m) + rest) == [m.body] + Delivered(rest)
  {
    var front, frame := Concat(m.front), Frame(m.body, m.crlf);
    LinesDropped(m.front, frame + rest);
    FrameDelivers(m.body, m.crlf, rest);
    assert front + frame + rest == front + (frame + rest);
  }

  /**
    Every sequence of messages, whatever bytes their bodies hold, each with its own line ends and
    with other header lines in front of the length, is delivered exactly and in order; what the
    server makes of a payload, `from_utf8_lossy`, is the identity on valid UTF-8.
   */
  lemma {:induction false} StreamDelivers(messages: seq<Message>)
    requires forall i :: 0 <= i < |messages| ==> Sendable(messages[i])
    ensures Delivered(Stream(messages)) == Bodies(messages)
  {
    if messages != [] {
      StreamDelivers(messages[1..]);
      MessageDelivers(messages[0], Stream(messages[1..]));
    }
  }

  /**
    A header line behind the length is taken for the blank one, so the payload starts with the
    real blank line and is cut short by as much: it is wrong for every body that does not itself
    start like a line end, as no JSON text does.
   */
  lemma LineBehindLengthShifts(body: Bytes, crlf: bool, extra: Bytes, rest: Bytes)
    requires |body| < USIZE && IsLine(extra)
    ensures var behind := LineEnd(crlf) + (body + rest);
            var got := Delivered(HeaderLine(body, crlf) + (extra + behind));
            && got != [] && got[0] == behind[..|body|]
            && (body != [] && body[0] != LineEnd(crlf)[0] ==> got[0] != body)
  {
    var behind := LineEnd(crlf) + (body + rest);
    HeaderAnnounces(body, crlf);
    LineDelivers(HeaderLine(body, crlf), extra + behind, |body|);
    LineEndsAtNewline(extra, behind);
    assert (extra + behind)[|extra|..] == behind;
    assert body != [] ==> behind[..|body|][0] == LineEnd(crlf)[0];
  }
}
