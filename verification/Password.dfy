/** Random passwords with minimum counts of each kind of character. Random choices are arbitrary. */
module Password {
  import opened Wrappers

  datatype Kind = Lower | Upper | Number

  const LOWER_CASE := "abcdefghijklmnopqrstuvwxyz"
  const UPPER_CASE := "ABCDEFGHIJKLMNOPQRSTUVWXYZ"
  const NUMBERS := "0123456789"

  function Alphabet(k: Kind): (s: string)
    ensures s != ""
  {
    match k
    case Lower => LOWER_CASE
    case Upper => UPPER_CASE
    case Number => NUMBERS
  }

  predicate Is(k: Kind, c: char) {
    match k
    case Lower => 'a' <= c <= 'z'
    case Upper => 'A' <= c <= 'Z'
    case Number => '0' <= c <= '9'
  }

  predicate IsAlphanumeric(c: char) {
    Is(Lower, c) || Is(Upper, c) || Is(Number, c)
  }

  lemma AlphabetIsOfKind(k: Kind, i: nat)
    requires i < |Alphabet(k)|
    ensures Is(k, Alphabet(k)[i])
  {
  }

  function First(k: Kind): char {
    match k
    case Lower => 'a'
    case Upper => 'A'
    case Number => '0'
  }

  /** An alphabet is the characters of its kind, in order from the first one. */
  lemma AlphabetInOrder(k: Kind, i: nat)
    requires i < |Alphabet(k)|
    ensures Alphabet(k)[i] as int == First(k) as int + i
    ensures |Alphabet(k)| == if k == Number then 10 else 26
  {
  }

  /** So any character of a kind can be drawn, and no other. */
  lemma AlphabetIsComplete(k: Kind, c: char)
    ensures Is(k, c) <==> c in Alphabet(k)
  {
    AlphabetInOrder(k, 0);
    hide Alphabet;
    if Is(k, c) {
      var i: nat := c as int - First(k) as int;
      AlphabetInOrder(k, i);
      assert Alphabet(k)[i] == c;
    }
    if i: nat :| i < |Alphabet(k)| && Alphabet(k)[i] == c {
      AlphabetIsOfKind(k, i);
    }
  }

  /** How many characters of a kind. */
  function Count(s: string, k: Kind): nat {
    if s == "" then 0 else Count(s[..|s| - 1], k) + if Is(k, s[|s| - 1]) then 1 else 0
  }

  lemma {:induction false} CountConcat(s: string, t: string, k: Kind)
    ensures Count(s + t, k) == Count(s, k) + Count(t, k)
  {
    if t == "" {
      assert s + t == s;
    } else {
      assert (s + t)[..|s + t| - 1] == s + t[..|t| - 1];
      CountConcat(s, t[..|t| - 1], k);
    }
  }

  lemma {:induction false} CountAll(s: string, k: Kind)
    requires forall c | c in s :: Is(k, c)
    ensures Count(s, k) == |s|
  {
    if s != "" {
      assert s[|s| - 1] in s;
      CountAll(s[..|s| - 1], k);
    }
  }

  lemma DropSame(front: string, before: string, after: string, c: char)
    requires multiset(front + [c]) == multiset(before + [c] + after)
    ensures multiset(front) == multiset(before + after)
  {
    assert multiset(front) + multiset{c} == multiset(before) + multiset(after) + multiset{c};
    forall x ensures multiset(front)[x] == multiset(before + after)[x] {
      assert (multiset(front) + multiset{c})[x] == (multiset(before) + multiset(after) + multiset{c})[x];
    }
  }

  lemma CountWithout(before: string, c: char, after: string, k: Kind)
    ensures Count(before + [c] + after, k) == Count(before + after, k) + Count([c], k)
  {
    CountConcat(before, after, k);
    CountConcat(before + [c], after, k);
    CountConcat(before, [c], k);
  }

  /** Counts depend on the characters, not on their order. */
  lemma {:induction false} CountPermuted(s: string, t: string, k: Kind)
    requires multiset(s) == multiset(t)
    ensures Count(s, k) == Count(t, k)
  {
    if s == "" {
      assert |multiset(t)| == |t|;
    } else {
      var front, c := s[..|s| - 1], s[|s| - 1];
      assert s == front + [c];
      assert c in multiset(t);
      var i :| 0 <= i < |t| && t[i] == c;
      var before, after := t[..i], t[i + 1..];
      assert t == before + [c] + after;
      DropSame(front, before, after, c);
      CountPermuted(front, before + after, k);
      CountWithout(before, c, after, k);
      CountConcat(front, [c], k);
    }
  }

  /** Three stretches of the password, one of each kind, give the minimum counts. */
  lemma CountStretches(s: string, lower: nat, upper: nat, numbers: nat)
    requires lower + upper + numbers <= |s|
    requires forall c | c in s[..lower] :: Is(Lower, c)
    requires forall c | c in s[lower..lower + upper] :: Is(Upper, c)
    requires forall c | c in s[lower + upper..lower + upper + numbers] :: Is(Number, c)
    ensures Count(s, Lower) >= lower && Count(s, Upper) >= upper && Count(s, Number) >= numbers
  {
    hide Count, Is;
    CountStretch(s, 0, lower, Lower);
    CountStretch(s, lower, upper, Upper);
    CountStretch(s, lower + upper, numbers, Number);
  }

  lemma CountStretch(s: string, from: nat, n: nat, k: Kind)
    requires from + n <= |s|
    requires forall c | c in s[from..from + n] :: Is(k, c)
    ensures Count(s, k) >= n
  {
    var a, b, c := s[..from], s[from..from + n], s[from + n..];
    assert s == a + b + c;
    CountConcat(a + b, c, k);
    CountConcat(a, b, k);
    CountAll(b, k);
  }

  /** Puts `n` random characters of a kind at `from`; false where the index is out of range. */
  method Place(password: array<char>, from: int, n: int, k: Kind) returns (ok: bool)
    modifies password
    ensures ok <==> (n > 0 ==> 0 <= from && from + n <= password.Length)
    ensures forall i | 0 <= i < password.Length ::
              if ok && from <= i < from + n then Is(k, password[i])
              else ok ==> password[i] == old(password[i])
  {
    var i := 0;
    while i < n
      invariant 0 <= i && (i <= n || i == 0)
      invariant i > 0 ==> 0 <= from && from + i <= password.Length
      invariant forall j | 0 <= j < password.Length ::
                  if from <= j < from + i then Is(k, password[j]) else password[j] == old(password[j])
    {
      if !(0 <= from + i < password.Length) {
        return false;
      }
      var c: nat :| c < |Alphabet(k)|;
      AlphabetIsOfKind(k, c);
      password[from + i] := Alphabet(k)[c];
      i := i + 1;
    }
    ok := true;
  }

  /** Random characters of random kinds up to the end; false where the index is out of range. */
  method Fill(password: array<char>, from: int) returns (ok: bool)
    modifies password
    ensures ok <==> from >= 0
    ensures ok ==> forall i | 0 <= i < password.Length ::
                     if from <= i then IsAlphanumeric(password[i]) else password[i] == old(password[i])
  {
    var i := from;
    while i < password.Length
      invariant from <= i && (i > from ==> from >= 0)
      invariant forall j | 0 <= j < password.Length ::
                  if from <= j < i then IsAlphanumeric(password[j]) else password[j] == old(password[j])
    {
      if i < 0 {
        return false;
      }
      var k: Kind :| true;
      var c: nat :| c < |Alphabet(k)|;
      AlphabetIsOfKind(k, c);
      password[i] := Alphabet(k)[c];
      i := i + 1;
    }
    ok := true;
  }

  /** The library shuffle: swaps each position with one not after it. */
  method Shuffle(a: array<char>)
    modifies a
    ensures multiset(a[..]) == multiset(old(a[..]))
  {
    var i := a.Length - 1;
    while i > 0
      invariant i < a.Length
      invariant multiset(a[..]) == multiset(old(a[..]))
    {
      var j: nat :| j <= i;
      a[i], a[j] := a[j], a[i];
      i := i - 1;
    }
  }

  /** When no index is out of range, negative minimums included. */
  predicate Fits(length: int, minLower: int, minUpper: int, minNumbers: int) {
    && 0 <= minLower <= length
    && (minUpper > 0 ==> minLower + minUpper <= length)
    && (minNumbers > 0 ==> 0 <= minLower + minUpper && minLower + minUpper + minNumbers <= length)
    && 0 <= minLower + minUpper + minNumbers
  }

  predicate AllAlphanumeric(s: string) {
    forall i | 0 <= i < |s| :: IsAlphanumeric(s[i])
  }

  lemma AlphanumericPermuted(s: string, t: string)
    requires multiset(s) == multiset(t) && AllAlphanumeric(s)
    ensures AllAlphanumeric(t)
  {
    forall i | 0 <= i < |t| ensures IsAlphanumeric(t[i]) {
      assert t[i] in multiset(s);
    }
  }

  /** Before the shuffle: no byte is left unset, and the stretches are in place. */
  method Compose(password: array<char>, minLower: int, minUpper: int, minNumbers: int) returns (ok: bool)
    modifies password
    ensures ok <==> Fits(password.Length, minLower, minUpper, minNumbers)
    ensures ok ==> AllAlphanumeric(password[..])
    ensures ok && minUpper >= 0 && minNumbers >= 0 ==>
              && Count(password[..], Lower) >= minLower
              && Count(password[..], Upper) >= minUpper
              && Count(password[..], Number) >= minNumbers
  {
    ok := Place(password, 0, minLower, Lower);
    if !ok {
      return;
    }
    ok := Place(password, minLower, minUpper, Upper);
    if !ok {
      return;
    }
    ok := Place(password, minLower + minUpper, minNumbers, Number);
    if !ok {
      return;
    }
    ok := Fill(password, minLower + minUpper + minNumbers);
    if ok && minUpper >= 0 && minNumbers >= 0 {
      CountStretches(password[..], minLower, minUpper, minNumbers);
    }
  }

  /**
   None where a length or an index is out of range. Otherwise the length is as asked, every character is
   a letter or a digit, and with non-negative minimums the shuffled password still has each of them.
   */
  method GeneratePassword(length: int, minLower: int, minUpper: int, minNumbers: int)
    returns (r: Option<string>)
    ensures r.Some? <==> Fits(length, minLower, minUpper, minNumbers)
    ensures r.Some? ==> |r.value| == length && AllAlphanumeric(r.value)
    ensures r.Some? && minUpper >= 0 && minNumbers >= 0 ==>
              && Count(r.value, Lower) >= minLower
              && Count(r.value, Upper) >= minUpper
              && Count(r.value, Number) >= minNumbers
  {
    if length < 0 {
      return None;
    }
    var password := new char[length];
    var ok := Compose(password, minLower, minUpper, minNumbers);
    if !ok {
      return None;
    }
    ghost var composed := password[..];
    Shuffle(password);
    AlphanumericPermuted(composed, password[..]);
    forall k ensures Count(password[..], k) == Count(composed, k) {
      CountPermuted(composed, password[..], k);
    }
    r := Some(password[..]);
  }
}
