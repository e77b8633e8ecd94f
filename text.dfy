/**
 * The string operations the storefront relies on, restricted to ASCII:
 * `toLowerCase`, the regular-expression class `\s`, and `includes`.
 */
module Text {

  predicate IsUpper(c: char) {
    'A' <= c <= 'Z'
  }

  function LowerChar(c: char): char {
    if IsUpper(c) then (c as int + 32) as char else c
  }

  /** `s.toLowerCase()` for ASCII letters; every other character is kept. */
  function Lower(s: string): string {
    seq(|s|, i requires 0 <= i < |s| => LowerChar(s[i]))
  }

  predicate NoUpper(s: string) {
    forall i :: 0 <= i < |s| ==> !IsUpper(s[i])
  }

  /** The ASCII members of `\s`: space, tab, line feed, vertical tab, form feed, carriage return. */
  predicate IsSpace(c: char) {
    c == ' ' || c == '\t' || c == '\n' || c == '\r' || c as int == 11 || c as int == 12
  }

  predicate NoSpace(s: string) {
    forall i :: 0 <= i < |s| ==> !IsSpace(s[i])
  }

  /** `s.includes(sub)`: `sub` occurs somewhere in `s` as a contiguous piece. */
  function Includes(s: string, sub: string): bool
    decreases |s|
  {
    sub <= s || (s != [] && Includes(s[1..], sub))
  }

  /** Lower-casing leaves nothing to lower-case, and a string without upper-case letters is its own lower case. */
  lemma LowerFacts(s: string)
    ensures NoUpper(Lower(s))
    ensures NoUpper(s) ==> Lower(s) == s
    ensures NoSpace(s) ==> NoSpace(Lower(s))
  {
  }

  /** Lower-casing twice is lower-casing once. */
  lemma LowerIdempotent(s: string)
    ensures Lower(Lower(s)) == Lower(s)
  {
    LowerFacts(s);
    LowerFacts(Lower(s));
  }

  /** `sub` sits in `s` starting at position `i`. */
  predicate OccursAt(s: string, sub: string, i: int) {
    0 <= i && i + |sub| <= |s| && s[i..i + |sub|] == sub
  }

  /** `Includes` agrees with the positional reading: some window of `s` equals `sub`. */
  lemma {:induction false} IncludesIffWindow(s: string, sub: string)
    ensures Includes(s, sub) <==> exists i :: OccursAt(s, sub, i)
    decreases |s|
  {
    if sub <= s {
      assert s[0..0 + |sub|] == sub;
      assert OccursAt(s, sub, 0);
    } else if s == [] {
      assert |sub| > 0;
    } else {
      IncludesIffWindow(s[1..], sub);
      if Includes(s[1..], sub) {
        var i :| OccursAt(s[1..], sub, i);
        assert s[1..][i..i + |sub|] == s[i + 1..i + 1 + |sub|];
        assert OccursAt(s, sub, i + 1);
      } else {
        forall i | 0 <= i && i + |sub| <= |s|
          ensures !OccursAt(s, sub, i)
        {
          if i == 0 {
            assert s[..|sub|] == s[0..0 + |sub|];
          } else {
            assert s[i..i + |sub|] == s[1..][i - 1..i - 1 + |sub|];
            assert !OccursAt(s[1..], sub, i - 1);
          }
        }
      }
    }
  }

  /** Every string contains the empty search text and itself. */
  lemma IncludesTrivial(s: string)
    ensures Includes(s, "")
    ensures Includes(s, s)
  {
  }
}
