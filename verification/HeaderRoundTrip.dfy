/** What is written to a framed stream is what is read from it. */
module HeaderRoundTrip {
  import opened Decimal
  import opened HeaderStream

  // ---- trimming ------------------------------------------------------------------------------------

  /** Neither white space nor part of a multi-byte character. */
  predicate Solid(c: char) {
    c < '\U{80}' && !IsAsciiSpace(c)
  }

  lemma {:induction false} TrimRightStopsAtSolid(head: string, tail: string)
    requires head != "" && Solid(head[|head| - 1])
    ensures TrimRight(head + tail) == head + TrimRight(tail)
    decreases |tail|
  {
    var s := head + tail;
    assert s[|head| - 1] == head[|head| - 1];
    TrailingSpaceOfSuffix(head, tail);
    var k := TrailingSpace(tail);
    if k > 0 {
      assert s[..|s| - k] == head + tail[..|tail| - k];
      TrimRightStopsAtSolid(head, tail[..|tail| - k]);
    }
  }

  lemma TrailingSpaceOfSuffix(head: string, tail: string)
    requires head != "" && Solid(head[|head| - 1])
    ensures TrailingSpace(head + tail) == TrailingSpace(tail)
  {
    var s := head + tail;
    assert forall i | 0 <= i < |tail| :: s[|head| + i] == tail[i];
    assert s[|head| - 1] == head[|head| - 1];
  }

  lemma SolidEndsAreKept(s: string)
    requires s != "" && Solid(s[0]) && Solid(s[|s| - 1])
    ensures TrimSpace(s) == s
  {
    assert TrimLeft(s) == s;
    assert s + "" == s && TrimRight("") == "";
    TrimRightStopsAtSolid(s, "");
  }

  // ---- header lines --------------------------------------------------------------------------------

  /** A header line is a length or any other field. */
  datatype Field = Length(n: nat) | Extra(name: string, value: string) {
    predicate Valid() {
      match this
      case Length(n) => 1 <= n < INT32_LIMIT
      case Extra(name, value) =>
        && name != "" && Solid(name[0]) && ':' !in name && '\n' !in name && '\n' !in value
        && name != LENGTH_NAME
    }

    function Line(): string {
      match this
      case Length(n) => LengthLine(n)
      case Extra(name, value) => name + ":" + value + "\r\n"
    }
  }

  function Lines(fields: seq<Field>): string {
    if fields == [] then "" else fields[0].Line() + Lines(fields[1..])
  }

  /** The length that counts is the last one. */
  function LastLength(fields: seq<Field>, length: int): int {
    if fields == [] then length
    else LastLength(fields[1..], if fields[0].Length? then fields[0].n else length)
  }

  /** A line splits at its first colon, whatever follows. */
  lemma ClassifyField(name: string, value: string)
    requires name != "" && Solid(name[0]) && ':' !in name
    ensures Classify(name + ":" + value) ==
            if name == LENGTH_NAME then LengthIs(ParseInt32(TrimSpace(TrimRight(value)))) else Other
  {
    var head, t := name + ":", name + ":" + TrimRight(value);
    TrimRightStopsAtSolid(head, value);
    assert TrimSpace(head + value) == t by {
      hide TrimRight;
      assert (head + value)[0] == name[0];
    }
    IndexOfColon(name, TrimRight(value));
    assert t[..|name|] == name && t[|name| + 1..] == TrimRight(value);
  }

  lemma IndexOfColon(name: string, value: string)
    requires ':' !in name
    ensures IndexOf(name + ":" + value, ':') == |name|
  {
    var t := name + ":" + value;
    assert t[|name|] == ':';
    assert forall j | 0 <= j < |name| :: t[j] == name[j];
  }

  lemma ClassifyLength(n: nat)
    ensures Classify(LengthLine(n)) == LengthIs(ParseInt32(Itoa(n)))
  {
    ItoaIsDigits(n);
    LengthLineParts(n);
    ClassifyField(LENGTH_NAME, " " + Itoa(n) + "\r\n");
    NumberIsTrimmed(Itoa(n));
  }

  lemma NumberIsTrimmed(digits: string)
    requires digits != "" && AllDigits(digits)
    ensures TrimSpace(TrimRight(" " + digits + "\r\n")) == digits
  {
    assert IsDigit(digits[0]) && IsDigit(digits[|digits| - 1]);
    LineEndIsTrimmed(" " + digits);
    assert (" " + digits)[1..] == digits;
    assert TrimLeft(digits) == digits;
    assert TrimLeft(" " + digits) == digits;
    SolidEndsAreKept(digits);
  }

  lemma LengthLineParts(n: nat)
    ensures LengthLine(n) == LENGTH_NAME + ":" + (" " + Itoa(n) + "\r\n")
  {
    var name, digits, end := LENGTH_NAME, Itoa(n), "\r\n";
    assert ": " == ":" + " ";
    assert name + ": " + digits + end == name + ":" + (" " + digits + end);
  }

  lemma LineEndIsTrimmed(s: string)
    requires s != "" && Solid(s[|s| - 1])
    ensures TrimRight(s + "\r\n") == s
  {
    TrimRightStopsAtSolid(s, "\r\n");
    assert "\r\n"[..1] == "\r" && "\r"[..0] == "";
    assert TrimRight("\r") == "";
  }

  lemma LengthLineIsLine(n: nat)
    ensures IsLine(LengthLine(n))
  {
    ItoaIsDigits(n);
    var line := LengthLine(n);
    var digits := Itoa(n);
    assert line[..|line| - 1] == LENGTH_NAME + ": " + digits + "\r";
    assert forall i | 0 <= i < |digits| :: IsDigit(digits[i]);
  }

  /** A blank line ends the header. */
  lemma ClassifyBlank()
    ensures IsLine("\r\n") && Classify("\r\n") == Blank
  {
    assert "\r\n"[1..] == "\n" && "\n"[1..] == "";
    assert TrimLeft("\n") == "";
  }

  lemma ValidFieldStep(field: Field, rest: string, total: nat, length: int)
    requires field.Valid()
    ensures ReadHeader(field.Line() + rest, total, length) ==
            ReadHeader(rest, total + |field.Line()|, if field.Length? then field.n else length)
  {
    hide ReadHeader, Classify;
    match field
    case Length(n) =>
      LengthLineIsLine(n);
      ClassifyLength(n);
      ParseItoa(n);
      HeaderStep(LengthLine(n), rest, total, length);
    case Extra(name, value) =>
      ExtraLine(name, value);
      HeaderStep(field.Line(), rest, total, length);
  }

  lemma ExtraLine(name: string, value: string)
    requires Extra(name, value).Valid()
    ensures IsLine(Extra(name, value).Line()) && Classify(Extra(name, value).Line()) == Other
  {
    hide Classify;
    var line := Extra(name, value).Line();
    assert line == name + ":" + (value + "\r\n");
    ClassifyField(name, value + "\r\n");
    assert line[..|line| - 1] == name + ":" + value + "\r";
  }

  /** A run of valid fields is read in full, and only its last length matters. */
  lemma {:induction false} FieldsAreRead(fields: seq<Field>, rest: string, total: nat, length: int)
    requires forall f | f in fields :: f.Valid()
    ensures ReadHeader(Lines(fields) + rest, total, length) ==
            ReadHeader(rest, total + |Lines(fields)|, LastLength(fields, length))
  {
    hide ReadHeader;
    if fields == [] {
      assert Lines(fields) + rest == rest;
    } else {
      var line, more := fields[0].Line(), Lines(fields[1..]);
      assert Lines(fields) + rest == line + (more + rest);
      ValidFieldStep(fields[0], more + rest, total, length);
      FieldsAreRead(fields[1..], rest, total + |line|, if fields[0].Length? then fields[0].n else length);
    }
  }

  lemma BlankLineEndsHeader(rest: string, total: nat, length: int)
    ensures ReadHeader("\r\n" + rest, total, length) == Done(length, total + 2, rest)
  {
    ClassifyBlank();
    HeaderStep("\r\n", rest, total, length);
  }

  lemma {:induction false} LastLengthIs(before: seq<Field>, n: nat, after: seq<Field>, length: int)
    requires forall f | f in after :: f.Extra?
    ensures LastLength(before + [Length(n)] + after, length) == n
  {
    var fields := before + [Length(n)] + after;
    if before == [] {
      assert fields[1..] == after;
      NoLengthIn(after, n);
    } else {
      assert fields[0] == before[0] && fields[1..] == before[1..] + [Length(n)] + after;
      LastLengthIs(before[1..], n, after, if before[0].Length? then before[0].n else length);
    }
  }

  lemma {:induction false} NoLengthIn(fields: seq<Field>, length: int)
    requires forall f | f in fields :: f.Extra?
    ensures LastLength(fields, length) == length
  {
    if fields != [] {
      assert fields[0] in fields;
      NoLengthIn(fields[1..], length);
    }
  }

  // ---- round trips ---------------------------------------------------------------------------------

  /**
   Any valid header around the length is transparent: extra fields before and after it, and stale
   lengths before it, change nothing but the byte count. What follows the message is left alone.
   */
  lemma HeaderIsTransparent(before: seq<Field>, after: seq<Field>, data: string, rest: string)
    requires forall f | f in before :: f.Valid()
    requires forall f | f in after :: f.Valid() && f.Extra?
    requires Length(|data|).Valid()
    ensures var header := Lines(before + [Length(|data|)] + after) + "\r\n";
            ReadFrame(header + data + rest) == Message(data, |header + data|, rest)
  {
    LastLengthIs(before, |data|, after, 0);
    BodyIsRead(before + [Length(|data|)] + after, data, rest);
  }

  lemma BodyIsRead(fields: seq<Field>, data: string, rest: string)
    requires forall f | f in fields :: f.Valid()
    requires data != "" && LastLength(fields, 0) == |data|
    ensures ReadFrame(Lines(fields) + "\r\n" + data + rest) == Message(data, |Lines(fields) + "\r\n" + data|, rest)
  {
    hide ReadHeader, ReadBody, Lines, LastLength;
    var lines, end := Lines(fields), "\r\n";
    FieldsAreRead(fields, end + (data + rest), 0, 0);
    BlankLineEndsHeader(data + rest, |lines|, |data|);
    HeaderAndBody(lines, data, rest);
  }

  lemma HeaderAndBody(lines: string, data: string, rest: string)
    requires data != ""
    ensures lines + "\r\n" + data + rest == lines + ("\r\n" + (data + rest))
    ensures ReadBody(Done(|data|, |lines| + 2, data + rest)) == Message(data, |lines + "\r\n" + data|, rest)
  {
    var end := "\r\n";
    assert lines + end + data + rest == lines + (end + (data + rest));
    assert (data + rest)[..|data|] == data && (data + rest)[|data|..] == rest;
  }

  /** Reading what was written, for every message: exactly the empty and the huge ones are refused. */
  lemma RoundTrip(data: string, rest: string)
    ensures ReadFrame(Frame(data) + rest) ==
            if Length(|data|).Valid() then Message(data, |Frame(data)|, rest)
            else Failed(if data == "" then NonPositiveLength else UnparsableLength,
                        |LengthLine(|data|)|, "\r\n" + data + rest)
  {
    hide ReadFrame, Lines, LengthLine, Frame;
    PlainFrame(data, rest);
    if Length(|data|).Valid() {
      HeaderIsTransparent([], [], data, rest);
    } else {
      BadLengthIsRefused(|data|, "\r\n" + data + rest);
    }
  }

  lemma PlainFrame(data: string, rest: string)
    ensures Lines([] + [Length(|data|)] + []) + "\r\n" + data == Frame(data)
    ensures Frame(data) + rest == LengthLine(|data|) + ("\r\n" + data + rest)
  {
    var line, end := LengthLine(|data|), "\r\n";
    hide LengthLine;
    assert [] + [Length(|data|)] + [] == [Length(|data|)];
    assert Lines([Length(|data|)]) == line;
    assert line + end + data + rest == line + (end + data + rest);
  }

  lemma BadLengthIsRefused(n: nat, more: string)
    requires !Length(n).Valid()
    ensures ReadFrame(LengthLine(n) + more) ==
            Failed(if n == 0 then NonPositiveLength else UnparsableLength, |LengthLine(n)|, more)
  {
    hide Classify;
    LengthLineIsLine(n);
    ClassifyLength(n);
    ParseItoa(n);
    HeaderStep(LengthLine(n), more, 0, 0);
  }

  function Frames(messages: seq<string>): string {
    if messages == [] then "" else Frame(messages[0]) + Frames(messages[1..])
  }

  /** Up to `n` successive reads: the messages, and what is left. */
  function ReadMessages(input: string, n: nat): (seq<string>, string)
    decreases n
  {
    if n == 0 then ([], input)
    else
      match ReadFrame(input)
      case Failed(_, _, rest) => ([], rest)
      case Message(data, _, rest) =>
        var (more, last) := ReadMessages(rest, n - 1);
        ([data] + more, last)
  }

  lemma MessageThenMore(input: string, n: nat)
    requires n > 0 && ReadFrame(input).Message?
    ensures var r := ReadFrame(input);
            var more := ReadMessages(r.rest, n - 1);
            ReadMessages(input, n) == ([r.data] + more.0, more.1)
  {
  }

  /** Any sequence of messages of legal length comes back, and nothing after it is touched. */
  lemma {:induction false} StreamRoundTrip(messages: seq<string>, rest: string)
    requires forall m | m in messages :: 1 <= |m| < INT32_LIMIT
    ensures ReadMessages(Frames(messages) + rest, |messages|) == (messages, rest)
  {
    hide ReadFrame, Frame;
    if messages == [] {
      assert Frames(messages) + rest == rest;
    } else {
      var first, more := messages[0], Frames(messages[1..]) + rest;
      assert Frames(messages) + rest == Frame(first) + more;
      RoundTrip(first, more);
      StreamRoundTrip(messages[1..], rest);
      MessageThenMore(Frame(first) + more, |messages|);
      assert [first] + messages[1..] == messages;
    }
  }

  // ---- any input -----------------------------------------------------------------------------------

  /** Of `input`, exactly the unread rest is left and the remainder has been counted. */
  predicate Accounts(input: string, total: nat, after: nat, rest: string) {
    |rest| <= |input| && rest == input[|input| - |rest|..] && after + |rest| == total + |input|
  }

  predicate LegalHeader(h: Header) {
    if h.Done? then 0 <= h.length < INT32_LIMIT else h.error != ShortBody
  }

  lemma AccountsAfterLine(input: string, i: nat, total: nat, after: nat, rest: string)
    requires i < |input| && Accounts(input[i + 1..], total + i + 1, after, rest)
    ensures Accounts(input, total, after, rest)
  {
  }

  lemma ParsedIsInt32(line: string)
    ensures var kind := Classify(line);
            kind.LengthIs? && kind.value.Some? ==> kind.value.value < INT32_LIMIT
  {
  }

  /** How the header loop accounts for the input, well formed or not. */
  lemma {:induction false} HeaderIsAccounted(input: string, total: nat, length: int)
    requires 0 <= length < INT32_LIMIT
    ensures var h := ReadHeader(input, total, length);
            Accounts(input, total, h.total, h.rest) && LegalHeader(h)
    decreases |input|, 0
  {
    hide Classify, AfterLine;
    var i := IndexOf(input, '\n');
    if i >= 0 {
      ParsedIsInt32(input[..i + 1]);
      LineIsAccounted(Classify(input[..i + 1]), input[i + 1..], total + i + 1, length);
      var h := AfterLine(Classify(input[..i + 1]), input[i + 1..], total + i + 1, length);
      AccountsAfterLine(input, i, total, h.total, h.rest);
    }
  }

  lemma {:induction false} LineIsAccounted(line: Line, rest: string, total: nat, length: int)
    requires 0 <= length < INT32_LIMIT
    requires line.LengthIs? && line.value.Some? ==> line.value.value < INT32_LIMIT
    ensures var h := AfterLine(line, rest, total, length);
            Accounts(rest, total, h.total, h.rest) && LegalHeader(h)
    decreases |rest|, 1
  {
    var next := if line.LengthIs? && line.value.Some? then line.value.value else length;
    if next >= 0 {
      HeaderIsAccounted(rest, total, next);
    }
  }

  /**
   Every read, of any bytes: the count says how far the reader went (a short body is consumed but not
   counted), the rest is untouched, and a message is the legal-length slice just before it.
   */
  lemma ReadIsAccounted(input: string)
    ensures match ReadFrame(input)
            case Message(data, total, rest) =>
              && Accounts(input, 0, total, rest) && Length(|data|).Valid()
              && |data| <= total && data == input[total - |data|..total]
            case Failed(error, total, rest) =>
              if error == ShortBody then rest == "" && total <= |input| < total + INT32_LIMIT - 1
              else Accounts(input, 0, total, rest)
  {
    HeaderIsAccounted(input, 0, 0);
    var h := ReadHeader(input, 0, 0);
    if h.Done? && 0 < h.length <= |h.rest| {
      BodyIsASlice(input, h.total, h.rest, h.length);
    }
  }

  lemma BodyIsASlice(input: string, total: nat, rest: string, n: nat)
    requires Accounts(input, 0, total, rest) && n <= |rest|
    ensures rest[..n] == input[total..total + n] && Accounts(input, 0, total + n, rest[n..])
  {
  }
}
