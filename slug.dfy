/**
 * The slug rule shared by product creation, shop registration and the seller products API:
 * `name.toLowerCase().replace(/\s+/g, "-")`. The three places write the same expression, so the
 * model defines it once.
 */
module Slug {
  import opened Text

  /** The longest tail of `s` that does not start with whitespace. */
  function DropSpaces(s: string): (r: string)
    ensures |r| <= |s|
    ensures r == [] || !IsSpace(r[0])
    ensures r == s[|s| - |r|..]
    ensures forall i :: 0 <= i < |s| - |r| ==> IsSpace(s[i])
    decreases |s|
  {
    if s != [] && IsSpace(s[0]) then DropSpaces(s[1..]) else s
  }

  /** `s.replace(/\s+/g, "-")`: the scan replaces each maximal whitespace run, taken greedily, by one "-". */
  function ReplaceSpaceRuns(s: string): string
    decreases |s|
  {
    if s == [] then []
    else if IsSpace(s[0]) then "-" + ReplaceSpaceRuns(DropSpaces(s[1..]))
    else [s[0]] + ReplaceSpaceRuns(s[1..])
  }

  function Slugify(name: string): string {
    ReplaceSpaceRuns(Lower(name))
  }

  /** The characters that are neither whitespace nor "-", in order. */
  function Letters(s: string): string
    decreases |s|
  {
    if s == [] then []
    else if IsSpace(s[0]) || s[0] == '-' then Letters(s[1..])
    else [s[0]] + Letters(s[1..])
  }

  lemma {:induction false} ReplaceKeepsNoUpper(s: string)
    requires NoUpper(s)
    ensures NoUpper(ReplaceSpaceRuns(s))
    decreases |s|
  {
    if s != [] {
      if IsSpace(s[0]) {
        var t := DropSpaces(s[1..]);
        assert forall i :: 0 <= i < |t| ==> t[i] == s[1..][|s[1..]| - |t| + i];
        ReplaceKeepsNoUpper(t);
      } else {
        ReplaceKeepsNoUpper(s[1..]);
      }
    }
  }

  lemma {:induction false} ReplaceLeavesNoSpace(s: string)
    ensures NoSpace(ReplaceSpaceRuns(s))
    decreases |s|
  {
    if s != [] {
      if IsSpace(s[0]) {
        ReplaceLeavesNoSpace(DropSpaces(s[1..]));
      } else {
        ReplaceLeavesNoSpace(s[1..]);
      }
    }
  }

  lemma {:induction false} ReplaceIdentityWithoutSpace(s: string)
    requires NoSpace(s)
    ensures ReplaceSpaceRuns(s) == s
    decreases |s|
  {
    if s != [] {
      assert !IsSpace(s[0]);
      ReplaceIdentityWithoutSpace(s[1..]);
      assert s == [s[0]] + s[1..];
    }
  }

  lemma {:induction false} LettersOfDropSpaces(s: string)
    ensures Letters(DropSpaces(s)) == Letters(s)
    decreases |s|
  {
    if s != [] && IsSpace(s[0]) {
      LettersOfDropSpaces(s[1..]);
    }
  }

  lemma {:induction false} ReplaceKeepsLetters(s: string)
    ensures Letters(ReplaceSpaceRuns(s)) == Letters(s)
    decreases |s|
  {
    if s != [] {
      if IsSpace(s[0]) {
        var t := DropSpaces(s[1..]);
        ReplaceKeepsLetters(t);
        LettersOfDropSpaces(s[1..]);
        assert ("-" + ReplaceSpaceRuns(t))[1..] == ReplaceSpaceRuns(t);
      } else {
        ReplaceKeepsLetters(s[1..]);
        assert ([s[0]] + ReplaceSpaceRuns(s[1..]))[1..] == ReplaceSpaceRuns(s[1..]);
      }
    }
  }

  /** A slug carries no whitespace and no upper-case ASCII letter. */
  lemma SlugIsClean(name: string)
    ensures NoSpace(Slugify(name))
    ensures NoUpper(Slugify(name))
  {
    LowerFacts(name);
    ReplaceLeavesNoSpace(Lower(name));
    ReplaceKeepsNoUpper(Lower(name));
  }

  /** Applying the rule to a slug changes nothing. */
  lemma SlugIdempotent(name: string)
    ensures Slugify(Slugify(name)) == Slugify(name)
  {
    var s := Slugify(name);
    SlugIsClean(name);
    LowerFacts(s);
    ReplaceIdentityWithoutSpace(s);
  }

  /** Apart from the dashes, the slug holds exactly the name's non-whitespace characters, lower-cased, in order. */
  lemma SlugKeepsLetters(name: string)
    ensures Letters(Slugify(name)) == Letters(Lower(name))
  {
    ReplaceKeepsLetters(Lower(name));
  }

  /**
   * A word followed by a whitespace run becomes the word, one "-", and the slug of what follows the run:
   * the run is maximal because `rest` does not start with whitespace.
   */
  lemma {:induction false} RunBecomesOneDash(word: string, run: string, rest: string)
    requires NoSpace(word)
    requires run != [] && forall i :: 0 <= i < |run| ==> IsSpace(run[i])
    requires rest == [] || !IsSpace(rest[0])
    ensures ReplaceSpaceRuns(word + run + rest) == word + "-" + ReplaceSpaceRuns(rest)
    decreases |word|
  {
    var s := word + run + rest;
    if word == [] {
      assert s == run + rest;
      assert s[1..] == run[1..] + rest;
      DropRun(run[1..], rest);
      assert ReplaceSpaceRuns(s) == "-" + ReplaceSpaceRuns(rest);
      assert word + "-" + ReplaceSpaceRuns(rest) == "-" + ReplaceSpaceRuns(rest);
    } else {
      var tail := word[1..] + run + rest;
      assert s == [word[0]] + tail;
      assert s[0] == word[0] && s[1..] == tail;
      RunBecomesOneDash(word[1..], run, rest);
      assert ReplaceSpaceRuns(s) == [word[0]] + ReplaceSpaceRuns(tail);
      assert word + "-" + ReplaceSpaceRuns(rest) == [word[0]] + (word[1..] + "-" + ReplaceSpaceRuns(rest));
    }
  }

  lemma {:induction false} DropRun(run: string, rest: string)
    requires forall i :: 0 <= i < |run| ==> IsSpace(run[i])
    requires rest == [] || !IsSpace(rest[0])
    ensures DropSpaces(run + rest) == rest
    decreases |run|
  {
    if run != [] {
      assert (run + rest)[1..] == run[1..] + rest;
      DropRun(run[1..], rest);
    } else {
      assert run + rest == rest;
    }
  }
}
