/** Substrings. */
module GoStrings {
  predicate OccursAt(s: string, part: string, i: int) {
    0 <= i <= |s| - |part| && s[i..i + |part|] == part
  }

  predicate Contains(s: string, part: string) {
    exists i :: 0 <= i <= |s| - |part| && OccursAt(s, part, i)
  }

  /** A part occurs in a string exactly when the string is the part with something before and after it. */
  lemma ContainsIff(s: string, part: string)
    ensures Contains(s, part) <==> exists before, after :: s == before + part + after
  {
    if Contains(s, part) {
      var i :| 0 <= i <= |s| - |part| && OccursAt(s, part, i);
      assert s == s[..i] + part + s[i + |part|..];
    }
    if before, after :| s == before + part + after {
      assert OccursAt(s, part, |before|);
    }
  }

  predicate ContainsAny(s: string, parts: seq<string>) {
    exists i :: 0 <= i < |parts| && Contains(s, parts[i])
  }

  /** Whether any of the variants occurs in the string. */
  method AnyOfSubstr(testString: string, variants: seq<string>) returns (found: bool)
    ensures found == ContainsAny(testString, variants)
  {
    for i := 0 to |variants|
      invariant forall j :: 0 <= j < i ==> !Contains(testString, variants[j])
    {
      if Contains(testString, variants[i]) {
        return true;
      }
    }
    found := false;
  }
}
