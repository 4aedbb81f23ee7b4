/**
 The framed message stream: messages preceded by header lines, one of which gives the length. Bytes
 are chars; nothing depends on values above 255.
 */
module HeaderStream {
  import opened Wrappers
  import opened GoMath
  import opened Decimal

  /** The first index of a character, or -1. */
  function IndexOf(s: string, c: char): (i: int)
    ensures -1 <= i < |s|
    ensures i >= 0 ==> s[i] == c
    ensures forall j :: 0 <= j < (if i < 0 then |s| else i) ==> s[j] != c
  {
    if s == "" then -1
    else if s[0] == c then 0
    else
      var i := IndexOf(s[1..], c);
      if i < 0 then -1 else i + 1
  }

  // ---- trimming white space -----------------------------------------------------------------------

  predicate IsAsciiSpace(c: char) {
    c in {'\t', '\n', '\U{0B}', '\U{0C}', '\r', ' '}
  }

  /** The UTF-8 encodings of the other characters that count as white space. */
  predicate IsTwoByteSpace(a: char, b: char) {
    a == '\U{C2}' && b in {'\U{85}', '\U{A0}'}
  }

  predicate IsThreeByteSpace(a: char, b: char, c: char) {
    || (a == '\U{E1}' && b == '\U{9A}' && c == '\U{80}')
    || (a == '\U{E2}' && b == '\U{80}' && ('\U{80}' <= c <= '\U{8A}' || c in {'\U{A8}', '\U{A9}', '\U{AF}'}))
    || (a == '\U{E2}' && b == '\U{81}' && c == '\U{9F}')
    || (a == '\U{E3}' && b == '\U{80}' && c == '\U{80}')
  }

  /** How many bytes of white space a string starts with, looking at one character. */
  function LeadingSpace(s: string): (k: nat)
    ensures k <= |s|
  {
    if |s| >= 1 && IsAsciiSpace(s[0]) then 1
    else if |s| >= 2 && IsTwoByteSpace(s[0], s[1]) then 2
    else if |s| >= 3 && IsThreeByteSpace(s[0], s[1], s[2]) then 3
    else 0
  }

  function TrailingSpace(s: string): (k: nat)
    ensures k <= |s|
  {
    var n := |s|;
    if n >= 1 && IsAsciiSpace(s[n - 1]) then 1
    else if n >= 2 && IsTwoByteSpace(s[n - 2], s[n - 1]) then 2
    else if n >= 3 && IsThreeByteSpace(s[n - 3], s[n - 2], s[n - 1]) then 3
    else 0
  }

  function TrimLeft(s: string): string
    decreases |s|
  {
    var k := LeadingSpace(s);
    if k == 0 then s else TrimLeft(s[k..])
  }

  function TrimRight(s: string): string
    decreases |s|
  {
    var k := TrailingSpace(s);
    if k == 0 then s else TrimRight(s[..|s| - k])
  }

  function TrimSpace(s: string): string {
    TrimRight(TrimLeft(s))
  }

  // ---- reading -------------------------------------------------------------------------------------

  datatype ReadError =
    | ContextDone
    | NoHeaderLine
    | InvalidHeaderLine
    | UnparsableLength
    | NonPositiveLength
    | MissingLength
    | ShortBody

  /** `total` is the byte count that is returned, `rest` what the reader has not consumed. */
  datatype ReadResult =
    | Message(data: string, total: nat, rest: string)
    | Failed(error: ReadError, total: nat, rest: string)

  datatype Header =
    | Done(length: int, total: nat, rest: string)
    | BadHeader(error: ReadError, total: nat, rest: string)

  const LENGTH_NAME := "Content-Length"

  /** What one header line does. */
  datatype Line = Blank | NoColon | Other | LengthIs(value: Option<int>)

  function Classify(line: string): Line {
    var t := TrimSpace(line);
    var colon := IndexOf(t, ':');
    if t == "" then Blank
    else if colon < 0 then NoColon
    else if t[..colon] == LENGTH_NAME then LengthIs(ParseInt32(TrimSpace(t[colon + 1..])))
    else Other
  }

  /** The header loop: `total` bytes read so far, `length` the last length seen. */
  function ReadHeader(input: string, total: nat, length: int): Header
    decreases |input|, 0
  {
    var i := IndexOf(input, '\n');
    if i < 0 then BadHeader(NoHeaderLine, total + |input|, "")
    else AfterLine(Classify(input[..i + 1]), input[i + 1..], total + i + 1, length)
  }

  /** The rest of the header loop, once a line has been taken off the input. */
  function AfterLine(line: Line, rest: string, total: nat, length: int): Header
    decreases |rest|, 1
  {
    match line
    case Blank => Done(length, total, rest)
    case NoColon => BadHeader(InvalidHeaderLine, total, rest)
    case Other => ReadHeader(rest, total, length)
    case LengthIs(value) =>
      if value.None? then BadHeader(UnparsableLength, total, rest)
      else if value.value <= 0 then BadHeader(NonPositiveLength, total, rest)
      else ReadHeader(rest, total, value.value)
  }

  function ReadBody(h: Header): ReadResult {
    match h
    case BadHeader(error, total, rest) => Failed(error, total, rest)
    case Done(length, total, rest) =>
      if length <= 0 then Failed(MissingLength, total, rest)
      else if |rest| < length then Failed(ShortBody, total, "")
      else Message(rest[..length], total + length, rest[length..])
  }

  /** What one Read does to the bytes that are still to come. */
  function ReadFrame(input: string): ReadResult {
    ReadBody(ReadHeader(input, 0, 0))
  }

  /** A line ends with its only newline. */
  predicate IsLine(line: string) {
    |line| > 0 && line[|line| - 1] == '\n' && '\n' !in line[..|line| - 1]
  }

  lemma IndexInLine(line: string, rest: string)
    requires IsLine(line)
    ensures IndexOf(line + rest, '\n') == |line| - 1
  {
    var i := IndexOf(line + rest, '\n');
    assert (line + rest)[|line| - 1] == '\n';
    assert forall j | 0 <= j < |line| - 1 :: line[j] == line[..|line| - 1][j] != '\n';
  }

  /** The header is read line by line: what follows a line does not change what the line does. */
  lemma HeaderStep(line: string, rest: string, total: nat, length: int)
    requires IsLine(line)
    ensures ReadHeader(line + rest, total, length) == AfterLine(Classify(line), rest, total + |line|, length)
  {
    IndexInLine(line, rest);
    assert (line + rest)[..|line|] == line && (line + rest)[|line|..] == rest;
  }

  // ---- writing -------------------------------------------------------------------------------------------

  function LengthLine(n: nat): string {
    LENGTH_NAME + ": " + Itoa(n) + "\r\n"
  }

  function Frame(data: string): string {
    LengthLine(|data|) + "\r\n" + data
  }

  class Stream {
    var input: string
    var output: string

    constructor (input: string)
      ensures this.input == input && output == ""
    {
      this.input, output := input, "";
    }

    /** Takes one line off the input, up to and including the newline; without one, everything. */
    method ReadString() returns (line: string, ok: bool)
      modifies this`input
      ensures old(input) == line + input
      ensures ok ==> IsLine(line)
      ensures !ok ==> '\n' !in line && input == ""
    {
      var i := IndexOf(input, '\n');
      if i < 0 {
        line, ok, input := input, false, "";
      } else {
        line, ok, input := input[..i + 1], true, input[i + 1..];
      }
    }

    /** Splits a header line and parses the length if it is the one that carries it. */
    static method ParseLine(line: string) returns (kind: Line)
      ensures kind == Classify(line)
    {
      var trimmed := TrimSpace(line);
      if trimmed == "" {
        return Blank;
      }
      var colon := IndexOf(trimmed, ':');
      if colon < 0 {
        return NoColon;
      }
      var name, value := trimmed[..colon], TrimSpace(trimmed[colon + 1..]);
      if name == LENGTH_NAME {
        return LengthIs(ParseInt32(value));
      }
      kind := Other;
    }

    /** The header loop, up to the first empty line. */
    method ScanHeader() returns (length: int, total: nat, error: Option<ReadError>)
      modifies this`input
      ensures ReadHeader(old(input), 0, 0) ==
              if error.None? then Done(length, total, input) else BadHeader(error.value, total, input)
      ensures error.None? ==> length >= 0
    {
      length, total := 0, 0;
      while true
        invariant ReadHeader(old(input), 0, 0) == ReadHeader(input, total, length)
        invariant length >= 0
        decreases |input|
      {
        ghost var count := total;
        var line, ok := ReadString();
        total := total + |line|;
        if !ok {
          assert IndexOf(line, '\n') < 0 && line + input == line;
          return length, total, Some(NoHeaderLine);
        }
        var kind := ParseLine(line);
        HeaderStep(line, input, count, length);
        match kind
        case Blank => return length, total, None;
        case NoColon => return length, total, Some(InvalidHeaderLine);
        case LengthIs(value) =>
          if value.None? {
            return length, total, Some(UnparsableLength);
          }
          length := value.value;
          if length <= 0 {
            return length, total, Some(NonPositiveLength);
          }
        case Other =>
      }
    }

    /** One message; the byte count covers the header and, on success, the body. */
    method Read(done: bool) returns (data: string, total: nat, error: Option<ReadError>)
      modifies this`input
      ensures done ==> error == Some(ContextDone) && total == 0 && input == old(input)
      ensures !done ==>
                ReadFrame(old(input)) ==
                if error.None? then Message(data, total, input) else Failed(error.value, total, input)
    {
      if done {
        return "", 0, Some(ContextDone);
      }
      var length;
      length, total, error := ScanHeader();
      if error.Some? {
        return "", total, error;
      }
      if length == 0 {
        return "", total, Some(MissingLength);
      }
      if |input| < length {
        input := "";
        return "", total, Some(ShortBody);
      }
      data := input[..length];
      input := input[length..];
      total := total + length;
    }

    /** `room` is how many more bytes the underlying writer takes before it fails. */
    method Write(done: bool, data: string, room: nat) returns (total: nat, ok: bool)
      modifies this`output
      ensures done ==> total == 0 && !ok && output == old(output)
      ensures !done ==> total == Min(room, |Frame(data)|) && output == old(output) + Frame(data)[..total]
      ensures !done ==> (ok <==> room >= |Frame(data)|)
    {
      if done {
        return 0, false;
      }
      var header := LengthLine(|data|) + "\r\n";
      assert Frame(data) == header + data;
      var n := Min(room, |header|);
      output := output + header[..n];
      if n < |header| {
        assert Frame(data)[..n] == header[..n];
        return n, false;
      }
      var m := Min(room - n, |data|);
      output := output + data[..m];
      assert Frame(data)[..n + m] == header + data[..m];
      total, ok := n + m, m == |data|;
    }
  }
}
