/** The ELF hash of a name, and names cut to a length with the hash as suffix. */
module ElfHash {
  import opened Wrappers
  import opened Decimal

  /** Strings are bytes: only the low eight bits of a char count. */
  function Byte(c: char): bv32 {
    ((c as int) % 0x100) as bv32
  }

  function Top(h: bv32): bv32 {
    h & 0xf000_0000
  }

  function Low(h: bv32): bv32 {
    h & 0x0fff_ffff
  }

  function Clear(h: bv32, bits: bv32): bv32 {
    h & !bits
  }

  /** Shifting and adding may wrap around. */
  function Shifted(h: bv32, c: char): bv32 {
    (h << 4) + Byte(c)
  }

  function FoldIn(h: bv32, bits: bv32): bv32 {
    h ^ (bits >> 24)
  }

  /** The top four bits, if any is set, are folded into the low byte. */
  function Fold(h: bv32): bv32 {
    if Top(h) == 0 then h else FoldIn(h, Top(h))
  }

  /** The hash as the System V ABI words it, in 32 bits: the bits that were folded are cleared. */
  function Hash(name: string): bv32 {
    if name == "" then 0 else Next(Hash(name[..|name| - 1]), name[|name| - 1])
  }

  function Next(h: bv32, c: char): bv32 {
    var sum := Shifted(h, c);
    Clear(Fold(sum), Top(sum))
  }

  lemma TopIsShiftedOut(h: bv32)
    ensures (Top(h) >> 24) & 0xf000_0000 == 0
  {
  }

  lemma XorKeepsTop(h: bv32, low: bv32)
    requires low & 0xf000_0000 == 0
    ensures Top(h ^ low) == Top(h)
  {
  }

  lemma FoldKeepsTop(h: bv32)
    ensures Top(Fold(h)) == Top(h)
  {
    TopIsShiftedOut(h);
    XorKeepsTop(h, Top(h) >> 24);
  }

  lemma ClearTopIsLow(h: bv32)
    ensures Clear(h, Top(h)) == Low(h) <= 0x0fff_ffff
  {
  }

  /** Clearing the bits that were folded is the same as keeping the low 28. */
  lemma FoldAndClear(h: bv32)
    ensures Clear(Fold(h), Top(h)) == Low(Fold(h)) <= 0x0fff_ffff
  {
    hide Top, Low, Clear, Fold;
    FoldKeepsTop(h);
    ClearTopIsLow(Fold(h));
  }

  method Accumulate(name: string) returns (h: bv32)
    ensures h == Hash(name)
  {
    hide Top, Low, Clear, Shifted, FoldIn;
    h := 0;
    for i := 0 to |name|
      invariant h == Hash(name[..i])
    {
      assert name[..i + 1][..i] == name[..i];
      h := Shifted(h, name[i]);
      FoldAndClear(h);
      var g := Top(h);
      if g != 0 {
        h := FoldIn(h, g);
      }
      h := Low(h);
    }
    assert name[..|name|] == name;
  }

  /** Wraparound or not, a hash has 28 bits. */
  lemma HashIs28Bits(name: string)
    ensures Hash(name) as int < 0x1000_0000
  {
    hide Top, Low, Clear, Fold, Shifted;
    if name != "" {
      FoldAndClear(Shifted(Hash(name[..|name| - 1]), name[|name| - 1]));
    }
    SmallAsInt(Hash(name));
  }

  lemma SmallAsInt(h: bv32)
    requires h <= 0x0fff_ffff
    ensures h as int < 0x1000_0000
  {
    var low := h as bv28;
    assert low as int < 0x1000_0000;
    assert h as int == low as int;
  }

  function HashText(name: string): string {
    Itoa(Hash(name) as int)
  }

  lemma HashTextIsShort(name: string)
    ensures 1 <= |HashText(name)| <= 9 && AllDigits(HashText(name))
  {
    HashIs28Bits(name);
    ItoaIsDigits(Hash(name) as int);
    assert Pow10(9) == 1_000_000_000 by {
      assert Pow10(3) == 1000;
      assert Pow10(6) == 1_000_000;
    }
    ItoaLength(Hash(name) as int, 9);
  }

  method ElfHash(name: string) returns (text: string)
    ensures text == HashText(name)
  {
    var h := Accumulate(name);
    text := Itoa(h as int);
  }

  /** None where the slice bound is negative. */
  function Suffixed(s: string, maxLength: int): Option<string> {
    if |s| < maxLength then Some(s)
    else
      var keep := maxLength - |HashText(s)| - 1;
      if keep < 0 then None else Some(s[..keep] + "-" + HashText(s))
  }

  method ElfHashSuffixed(s: string, maxLength: int) returns (r: Option<string>)
    ensures r == Suffixed(s, maxLength)
  {
    if |s| < maxLength {
      return Some(s);
    }
    var hash := ElfHash(s);
    var keep := maxLength - |hash| - 1;
    if keep < 0 {
      return None;
    }
    r := Some(s[..keep] + "-" + hash);
  }

  /** A limit of ten or more always leaves room for the hash; short names are kept as they are. */
  lemma SuffixedFits(s: string, maxLength: int)
    requires maxLength >= 10
    ensures var hash := HashText(s);
            match Suffixed(s, maxLength)
            case None => false
            case Some(t) =>
              if |s| < maxLength then t == s
              else
                && |t| == maxLength
                && t[maxLength - |hash| - 1..] == "-" + hash && AllDigits(hash)
                && t[..maxLength - |hash| - 1] == s[..maxLength - |hash| - 1]
  {
    hide Hash;
    HashTextIsShort(s);
  }

  ghost predicate NeverFails(maxLength: int) {
    forall s :: Suffixed(s, maxLength).Some?
  }

  lemma HashAppend(name: string, c: char)
    ensures Hash(name + [c]) == Next(Hash(name), c)
  {
    hide Next;
    assert (name + [c])[..|name|] == name;
  }

  lemma ByteOfA()
    ensures Byte('a') == 0x61
  {
  }

  /** All eight bits of a byte count. */
  lemma ByteIsWhole(c: char)
    requires c as int < 0x100
    ensures Byte(c) == (c as int) as bv32
  {
  }

  lemma SampleSteps()
    ensures Next(0, 'a') == 0x61 && Next(0x61, 'a') == 0x671 && Next(0x671, 'a') == 0x6771
    ensures Next(0x6771, 'a') == 0x6_7771 && Next(0x6_7771, 'a') == 0x67_7771
    ensures Next(0x67_7771, 'a') == 0x677_7771 && Next(0x677_7771, 'a') == 0x777_7711
    ensures Next(0x777_7711, 'a') == 0x777_7101 && Next(0x777_7101, 'a') == 0x777_1001
  {
    ByteOfA();
    hide Byte;
  }

  function Sample(n: nat): string {
    if n == 0 then "" else Sample(n - 1) + "a"
  }

  lemma NextSample(n: nat)
    ensures Hash(Sample(n + 1)) == Next(Hash(Sample(n)), 'a') && |Sample(n + 1)| == |Sample(n)| + 1
  {
    HashAppend(Sample(n), 'a');
    hide Next;
  }

  lemma SampleHash()
    ensures Hash(Sample(9)) == 0x777_1001 && |Sample(9)| == 9
  {
    SampleSteps();
    NextSample(0);
    NextSample(1);
    NextSample(2);
    NextSample(3);
    NextSample(4);
    NextSample(5);
    NextSample(6);
    NextSample(7);
    NextSample(8);
    hide Next;
  }

  lemma SampleTextIsLong()
    ensures |Sample(9)| == |HashText(Sample(9))| == 9
  {
    SampleHash();
    assert Hash(Sample(9)) as int == 0x777_1001;
    HashTextIsShort(Sample(9));
    assert Pow10(8) == 100_000_000 by {
      assert Pow10(4) == 10_000;
    }
    ItoaLength(Hash(Sample(9)) as int, 8);
  }

  /** Ten is the exact limit: with any smaller one some name makes the slice panic. */
  lemma NeverFailsIffTen(maxLength: int)
    ensures NeverFails(maxLength) <==> maxLength >= 10
  {
    hide Hash, Sample;
    if maxLength >= 10 {
      forall s ensures Suffixed(s, maxLength).Some? {
        SuffixedFits(s, maxLength);
      }
    } else {
      SampleTextIsLong();
      assert Suffixed(Sample(9), maxLength).None?;
    }
  }
}
