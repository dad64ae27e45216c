/** Case-insensitive text comparison, as the ride searches and the sort-order
    parameter use it. Case folding is ASCII only. */
module Text {

  function LowerChar(c: char): char {
    if 'A' <= c <= 'Z' then (c as int - 'A' as int + 'a' as int) as char else c
  }

  function Lower(s: string): string {
    seq(|s|, i requires 0 <= i < |s| => LowerChar(s[i]))
  }

  /** Equality ignoring case. */
  predicate EqualsIgnoreCase(a: string, b: string) {
    Lower(a) == Lower(b)
  }

  predicate StartsWithIgnoreCase(s: string, prefix: string) {
    |prefix| <= |s| && Lower(s[..|prefix|]) == Lower(prefix)
  }

  /** An unanchored, case-insensitive search for `pattern` in `s`, trying
      each start position in turn. */
  function ContainsIgnoreCase(s: string, pattern: string): bool
    decreases |s|
  {
    StartsWithIgnoreCase(s, pattern) || (|s| > 0 && ContainsIgnoreCase(s[1..], pattern))
  }

  /** Reference definition: `pattern` occurs, ignoring case, at offset i of s. */
  ghost predicate OccursAt(s: string, pattern: string, i: int) {
    0 <= i && i + |pattern| <= |s| && Lower(s[i..i + |pattern|]) == Lower(pattern)
  }

  /** The search succeeds exactly when the pattern occurs somewhere. */
  lemma {:induction false} ContainsIffOccurs(s: string, pattern: string)
    ensures ContainsIgnoreCase(s, pattern) <==> exists i :: OccursAt(s, pattern, i)
    decreases |s|
  {
    if |s| > 0 {
      ContainsIffOccurs(s[1..], pattern);
    }
    if StartsWithIgnoreCase(s, pattern) {
      assert s[0..|pattern|] == s[..|pattern|];
      assert OccursAt(s, pattern, 0);
    } else if |s| > 0 && ContainsIgnoreCase(s[1..], pattern) {
      var j :| OccursAt(s[1..], pattern, j);
      assert s[1..][j..j + |pattern|] == s[j + 1..j + 1 + |pattern|];
      assert OccursAt(s, pattern, j + 1);
    }
    forall i | OccursAt(s, pattern, i)
      ensures ContainsIgnoreCase(s, pattern)
    {
      if i == 0 {
        assert s[0..|pattern|] == s[..|pattern|];
      } else {
        assert s[1..][i - 1..i - 1 + |pattern|] == s[i..i + |pattern|];
        assert OccursAt(s[1..], pattern, i - 1);
      }
    }
  }

  /** The empty pattern is found in every string. */
  lemma EmptyPatternMatchesAll(s: string)
    ensures ContainsIgnoreCase(s, "")
  {
    assert Lower(s[..0]) == Lower("");
  }

  /** Only the case-folded pattern matters: patterns that differ in case
      find the same strings. */
  lemma {:induction false} PatternCaseIrrelevant(s: string, p: string, q: string)
    requires Lower(p) == Lower(q)
    ensures ContainsIgnoreCase(s, p) == ContainsIgnoreCase(s, q)
    decreases |s|
  {
    assert |p| == |Lower(p)| == |Lower(q)| == |q|;
    assert StartsWithIgnoreCase(s, p) == StartsWithIgnoreCase(s, q);
    if |s| > 0 {
      PatternCaseIrrelevant(s[1..], p, q);
    }
  }

  /** "asc" ignoring case is exactly the eight spellings a/A, s/S, c/C. */
  lemma AscIgnoringCase(o: string)
    ensures EqualsIgnoreCase("asc", o) <==>
      |o| == 3 && (o[0] == 'a' || o[0] == 'A') && (o[1] == 's' || o[1] == 'S') && (o[2] == 'c' || o[2] == 'C')
  {
    assert Lower("asc") == "asc";
    if |o| == 3 {
      if (o[0] == 'a' || o[0] == 'A') && (o[1] == 's' || o[1] == 'S') && (o[2] == 'c' || o[2] == 'C') {
        assert Lower(o) == "asc";
      }
      if Lower(o) == "asc" {
        assert Lower(o)[0] == 'a' && Lower(o)[1] == 's' && Lower(o)[2] == 'c';
        LowerCharInverse(o[0], 'a');
        LowerCharInverse(o[1], 's');
        LowerCharInverse(o[2], 'c');
      }
    }
  }

  /** The only characters that fold to a lower-case letter are that letter
      and its upper-case form. */
  lemma LowerCharInverse(c: char, l: char)
    requires 'a' <= l <= 'z' && LowerChar(c) == l
    ensures c == l || c as int == l as int - 'a' as int + 'A' as int
  {
  }
}
