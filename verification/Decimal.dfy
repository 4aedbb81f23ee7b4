/** Decimal text: what strconv.Itoa and strconv.ParseInt (base 10, 32 bits) do. */
module Decimal {
  import opened Wrappers

  const ZERO := '0' as int

  function DigitChar(d: nat): char
    requires d < 10
  {
    ('0' as int + d) as char
  }

  predicate IsDigit(c: char) {
    '0' <= c <= '9'
  }

  predicate AllDigits(s: string) {
    forall i :: 0 <= i < |s| ==> IsDigit(s[i])
  }

  function Itoa(n: nat): string {
    if n < 10 then [DigitChar(n)] else Itoa(n / 10) + [DigitChar(n % 10)]
  }

  function Value(s: string): nat
    requires AllDigits(s)
  {
    if s == "" then 0
    else
      assert IsDigit(s[|s| - 1]);
      Value(s[..|s| - 1]) * 10 + (s[|s| - 1] as int - ZERO)
  }

  const INT32_LIMIT := 0x8000_0000

  /** A sign is allowed, digits are required, and the value must fit in 32 bits. */
  function ParseInt32(s: string): Option<int> {
    var negative := s != "" && s[0] == '-';
    var body := if s != "" && (s[0] == '-' || s[0] == '+') then s[1..] else s;
    if body == "" || !AllDigits(body) then None
    else
      var v: int := if negative then -(Value(body) as int) else Value(body);
      if -INT32_LIMIT <= v < INT32_LIMIT then Some(v) else None
  }

  lemma {:induction false} ItoaIsDigits(n: nat)
    ensures Itoa(n) != "" && AllDigits(Itoa(n))
    ensures Value(Itoa(n)) == n
  {
    if n < 10 {
      assert Itoa(n)[..0] == "";
    } else {
      ItoaIsDigits(n / 10);
      assert Itoa(n)[..|Itoa(n)| - 1] == Itoa(n / 10);
    }
  }

  /** Printing and parsing round-trip exactly for the numbers that fit. */
  lemma ParseItoa(n: nat)
    ensures ParseInt32(Itoa(n)) == if n < INT32_LIMIT then Some(n) else None
  {
    ItoaIsDigits(n);
    assert IsDigit(Itoa(n)[0]);
  }

  /** What is parsed: digits with or without a sign, if the number fits ... */
  lemma ParsesNumbers(digits: string)
    requires digits != "" && AllDigits(digits)
    ensures ParseInt32(digits) == ParseInt32("+" + digits)
                               == if Value(digits) < INT32_LIMIT then Some(Value(digits)) else None
    ensures ParseInt32("-" + digits) == if Value(digits) <= INT32_LIMIT then Some(-(Value(digits) as int)) else None
  {
    assert IsDigit(digits[0]);
    assert ("+" + digits)[1..] == digits && ("-" + digits)[1..] == digits;
  }

  /** ... and nothing else. */
  lemma ParsesNothingElse(s: string)
    requires ParseInt32(s).Some?
    ensures exists digits :: digits != "" && AllDigits(digits) && s in {digits, "+" + digits, "-" + digits}
  {
    if s[0] == '-' || s[0] == '+' {
      assert s == [s[0]] + s[1..];
      assert AllDigits(s[1..]);
    } else {
      assert AllDigits(s);
    }
  }

  /** Zeros in front do not count. */
  lemma {:induction false} LeadingZero(s: string)
    requires AllDigits(s)
    ensures AllDigits("0" + s) && Value("0" + s) == Value(s)
  {
    if s == "" {
      assert ("0" + s)[..0] == "" && "0" + s == "0";
    } else {
      LeadingZero(s[..|s| - 1]);
      assert ("0" + s)[..|s|] == "0" + s[..|s| - 1];
    }
  }

  function Pow10(k: nat): nat {
    if k == 0 then 1 else 10 * Pow10(k - 1)
  }

  /** A number below 10^k prints in at most k digits, and not in fewer than its size needs. */
  lemma {:induction false} ItoaLength(n: nat, k: nat)
    requires k >= 1
    ensures n < Pow10(k) <==> |Itoa(n)| <= k
  {
    if n >= 10 && k >= 2 {
      ItoaLength(n / 10, k - 1);
      assert n < 10 * Pow10(k - 1) <==> n / 10 < Pow10(k - 1);
    } else if n >= 10 {
      assert |Itoa(n / 10)| >= 1 by {
        ItoaIsDigits(n / 10);
      }
      assert Pow10(1) == 10 * Pow10(0);
    } else {
      PowGrows(k);
    }
  }

  lemma {:induction false} PowGrows(k: nat)
    requires k >= 1
    ensures Pow10(k) >= 10
  {
    if k > 1 {
      PowGrows(k - 1);
    }
  }
}
