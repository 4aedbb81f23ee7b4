/**
 The framing written out in bytes: what a frame looks like, what counts as white space, and which input
 leads to which error.
 */
module HeaderErrors {
  import opened Decimal
  import opened HeaderStream
  import opened HeaderRoundTrip

  lemma Regrouped(a: string, b: string, c: string)
    ensures a + b + c == a + (b + c)
  {
  }

  lemma Cut(s: string, k: nat)
    requires k <= |s|
    ensures s == s[..k] + s[k..]
  {
  }

  lemma NameBytes()
    ensures LENGTH_NAME + ": " == "Content-Length: " && "\r\n" + "\r\n" == "\r\n\r\n"
  {
  }

  /** A frame: the length as a decimal number in one header line, an empty line, and the message. */
  lemma FrameBytes(data: string)
    ensures Frame(data) == "Content-Length: " + Itoa(|data|) + "\r\n\r\n" + data
  {
    NameBytes();
    Regrouped(LENGTH_NAME + ": " + Itoa(|data|), "\r\n", "\r\n");
    hide Itoa;
  }

  // ---- white space -------------------------------------------------------------------------------------

  /** The characters that Unicode counts as white space. */
  predicate IsUnicodeSpace(code: int) {
    || code in {0x09, 0x0A, 0x0B, 0x0C, 0x0D, 0x20, 0x85, 0xA0, 0x1680}
    || 0x2000 <= code <= 0x200A
    || code in {0x2028, 0x2029, 0x202F, 0x205F, 0x3000}
  }

  predicate IsContinuation(c: char) {
    0x80 <= c as int < 0xC0
  }

  /** A byte below 128 stands for itself, and two or three bytes for the character they encode. */
  lemma SpacesAreUnicode(a: char, b: char, c: char)
    ensures a as int < 0x80 ==> (IsAsciiSpace(a) <==> IsUnicodeSpace(a as int))
    ensures 0xC2 <= a as int < 0xE0 && IsContinuation(b) ==>
              (IsTwoByteSpace(a, b) <==> IsUnicodeSpace((a as int - 0xC0) * 64 + (b as int - 0x80)))
    ensures && 0xE0 <= a as int < 0xF0 && IsContinuation(b) && IsContinuation(c)
            && (a as int == 0xE0 ==> b as int >= 0xA0) ==>
              (IsThreeByteSpace(a, b, c) <==>
               IsUnicodeSpace((a as int - 0xE0) * 4096 + (b as int - 0x80) * 64 + (c as int - 0x80)))
  {
  }

  /** A run of white space. */
  predicate AllSpace(s: string)
    decreases |s|
  {
    s == "" || (LeadingSpace(s) > 0 && AllSpace(s[LeadingSpace(s)..]))
  }

  lemma LeadingUnit(s: string, more: string)
    requires LeadingSpace(s) > 0
    ensures var k := LeadingSpace(s); LeadingSpace(s[..k] + more) == k && (s[..k] + more)[k..] == more
  {
    var k := LeadingSpace(s);
    assert forall i | 0 <= i < k :: (s[..k] + more)[i] == s[i];
  }

  lemma TrailingUnit(s: string)
    requires TrailingSpace(s) > 0
    ensures var last := s[|s| - TrailingSpace(s)..]; LeadingSpace(last) == |last|
  {
    var k := TrailingSpace(s);
    var last := s[|s| - k..];
    assert k <= 3 && last[0] == s[|s| - k];
    assert k >= 2 ==> last[1] == s[|s| - k + 1];
    assert k >= 3 ==> last[2] == s[|s| - k + 2];
  }

  lemma {:induction false} TrimLeftStrips(s: string) returns (front: string)
    ensures s == front + TrimLeft(s) && AllSpace(front) && LeadingSpace(TrimLeft(s)) == 0
    decreases |s|
  {
    hide LeadingSpace;
    var k := LeadingSpace(s);
    if k == 0 {
      front := "";
    } else {
      var more := TrimLeftStrips(s[k..]);
      front := s[..k] + more;
      LeadingUnit(s, more);
      Cut(s, k);
      Regrouped(s[..k], more, TrimLeft(s[k..]));
    }
  }

  lemma {:induction false} AllSpaceConcat(a: string, b: string)
    requires AllSpace(a) && AllSpace(b)
    ensures AllSpace(a + b)
    decreases |a|
  {
    hide LeadingSpace;
    if a == "" {
      assert a + b == b;
    } else {
      var k := LeadingSpace(a);
      AllSpaceConcat(a[k..], b);
      LeadingUnit(a, a[k..] + b);
      Cut(a, k);
      Regrouped(a[..k], a[k..], b);
    }
  }

  lemma {:induction false} TrimRightStrips(s: string) returns (back: string)
    ensures s == TrimRight(s) + back && AllSpace(back) && TrailingSpace(TrimRight(s)) == 0
    decreases |s|
  {
    hide TrailingSpace, LeadingSpace;
    var k := TrailingSpace(s);
    if k == 0 {
      back := "";
    } else {
      var front, last := s[..|s| - k], s[|s| - k..];
      var more := TrimRightStrips(front);
      TrailingUnit(s);
      assert last[|last|..] == "" && AllSpace(last);
      hide AllSpace;
      AllSpaceConcat(more, last);
      back := more + last;
      Cut(s, |front|);
      Regrouped(TrimRight(front), more, last);
    }
  }

  lemma PrefixHasNoLeadingSpace(s: string, t: string, back: string)
    requires s == t + back && LeadingSpace(s) == 0
    ensures LeadingSpace(t) == 0
  {
    assert forall i | 0 <= i < |t| :: t[i] == s[i];
  }

  /** Trimming takes white space off both ends, and leaves none there. */
  lemma TrimSpaceStrips(s: string) returns (front: string, back: string)
    ensures s == front + TrimSpace(s) + back && AllSpace(front) && AllSpace(back)
    ensures LeadingSpace(TrimSpace(s)) == 0 && TrailingSpace(TrimSpace(s)) == 0
  {
    hide LeadingSpace, TrailingSpace, TrimLeft, TrimRight, AllSpace;
    front := TrimLeftStrips(s);
    back := TrimRightStrips(TrimLeft(s));
    PrefixHasNoLeadingSpace(TrimLeft(s), TrimSpace(s), back);
    Regrouped(front, TrimSpace(s), back);
  }

  // ---- errors ------------------------------------------------------------------------------------------

  /** After valid fields, what follows is read as it is, with the last of their lengths. */
  lemma AfterFields(fields: seq<Field>, more: string)
    requires forall f | f in fields :: f.Valid()
    ensures ReadFrame(Lines(fields) + more) == ReadBody(ReadHeader(more, |Lines(fields)|, LastLength(fields, 0)))
  {
    hide ReadHeader, ReadBody;
    FieldsAreRead(fields, more, 0, 0);
  }

  /** An input that ends within a header line is used up. */
  lemma CutHeaderFails(fields: seq<Field>, cut: string)
    requires (forall f | f in fields :: f.Valid()) && '\n' !in cut
    ensures ReadFrame(Lines(fields) + cut) == Failed(NoHeaderLine, |Lines(fields) + cut|, "")
  {
    AfterFields(fields, cut);
    assert IndexOf(cut, '\n') < 0;
  }

  lemma BadLineEndsRead(fields: seq<Field>, line: string, rest: string)
    requires (forall f | f in fields :: f.Valid()) && IsLine(line)
    ensures ReadFrame(Lines(fields) + line + rest) ==
            ReadBody(AfterLine(Classify(line), rest, |Lines(fields) + line|, LastLength(fields, 0)))
  {
    hide ReadHeader, ReadBody, AfterLine, Classify, Lines, LastLength;
    AfterFields(fields, line + rest);
    HeaderStep(line, rest, |Lines(fields)|, LastLength(fields, 0));
    assert Lines(fields) + line + rest == Lines(fields) + (line + rest);
  }

  /** A line that is not blank and has no colon is an error. */
  lemma LineWithoutColonFails(fields: seq<Field>, line: string, rest: string)
    requires (forall f | f in fields :: f.Valid()) && IsLine(line)
    requires TrimSpace(line) != "" && ':' !in TrimSpace(line)
    ensures ReadFrame(Lines(fields) + line + rest) == Failed(InvalidHeaderLine, |Lines(fields) + line|, rest)
  {
    BadLineEndsRead(fields, line, rest);
    assert IndexOf(TrimSpace(line), ':') < 0;
  }

  /** A length that is no 32-bit number, or not positive, is an error, whatever came before. */
  lemma BadLengthFails(fields: seq<Field>, value: string, rest: string)
    requires (forall f | f in fields :: f.Valid()) && '\n' !in value
    ensures var line := "Content-Length:" + value + "\n";
            var parsed := ParseInt32(TrimSpace(TrimRight(value + "\n")));
            && (parsed.None? ==>
                  ReadFrame(Lines(fields) + line + rest) == Failed(UnparsableLength, |Lines(fields) + line|, rest))
            && (parsed.Some? && parsed.value <= 0 ==>
                  ReadFrame(Lines(fields) + line + rest) == Failed(NonPositiveLength, |Lines(fields) + line|, rest))
  {
    hide Classify, IsLine, Lines, LastLength, ParseInt32, TrimSpace, TrimRight;
    LengthLineOf(value);
    BadLineEndsRead(fields, "Content-Length:" + value + "\n", rest);
  }

  lemma NameAndColon()
    ensures LENGTH_NAME + ":" == "Content-Length:" && '\n' !in LENGTH_NAME + ":"
    ensures LENGTH_NAME != "" && Solid(LENGTH_NAME[0]) && ':' !in LENGTH_NAME
  {
  }

  lemma TextIsLine(text: string)
    requires '\n' !in text
    ensures IsLine(text + "\n")
  {
    assert (text + "\n")[..|text|] == text;
  }

  lemma LengthLineOf(value: string)
    requires '\n' !in value
    ensures var line := "Content-Length:" + value + "\n";
            IsLine(line) && Classify(line) == LengthIs(ParseInt32(TrimSpace(TrimRight(value + "\n"))))
  {
    hide *;
    NameAndColon();
    var name := LENGTH_NAME;
    TextIsLine(name + ":" + value);
    Regrouped(name + ":", value, "\n");
    ClassifyField(name, value + "\n");
  }

  /** A header that ends without a length is an error. */
  lemma NoLengthFails(fields: seq<Field>, rest: string)
    requires forall f | f in fields :: f.Valid() && f.Extra?
    ensures ReadFrame(Lines(fields) + "\r\n" + rest) == Failed(MissingLength, |Lines(fields)| + 2, rest)
  {
    ClassifyBlank();
    BadLineEndsRead(fields, "\r\n", rest);
    NoLengthIn(fields, 0);
  }

  /** A body that is cut short is an error; it is consumed, but only the header is counted. */
  lemma ShortBodyFails(fields: seq<Field>, body: string)
    requires forall f | f in fields :: f.Valid()
    requires |body| < LastLength(fields, 0)
    ensures ReadFrame(Lines(fields) + "\r\n" + body) == Failed(ShortBody, |Lines(fields)| + 2, "")
  {
    ClassifyBlank();
    BadLineEndsRead(fields, "\r\n", body);
  }
}
