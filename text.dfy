/**
 * String helpers the source takes from Python's str: lower(), `in`,
 * rfind() and replace(). Strings are sequences of characters; lower() is
 * modelled on the ASCII letters only.
 */
module Text {
  function LowerChar(c: char): char
  {
    if 'A' <= c <= 'Z' then (c as int - 'A' as int + 'a' as int) as char else c
  }

  /** str.lower() on ASCII letters: same length, every letter made lower case. */
  function Lower(s: string): (r: string)
    ensures |r| == |s| && forall i :: 0 <= i < |s| ==> r[i] == LowerChar(s[i])
  {
    seq(|s|, i requires 0 <= i < |s| => LowerChar(s[i]))
  }

  /** str.startswith(prefix) */
  predicate StartsWith(s: string, prefix: string)
  {
    |prefix| <= |s| && s[..|prefix|] == prefix
  }

  /** Lower-casing twice changes nothing more. */
  lemma LowerIdempotent(s: string)
    ensures Lower(Lower(s)) == Lower(s)
  {
    assert forall i :: 0 <= i < |s| ==> LowerChar(LowerChar(s[i])) == LowerChar(s[i]);
  }

  /** pat occurs in s starting at index i. */
  predicate OccursAt(s: string, pat: string, i: int)
  {
    0 <= i && i + |pat| <= |s| && s[i..i + |pat|] == pat
  }

  /** `pat in s` */
  predicate Contains(s: string, pat: string)
  {
    exists i | 0 <= i <= |s| - |pat| :: OccursAt(s, pat, i)
  }

  function RFindFrom(s: string, pat: string, i: int): (r: int)
    requires -1 <= i <= |s| - |pat|
    ensures -1 <= r <= i
    ensures r >= 0 ==> OccursAt(s, pat, r)
    ensures forall j :: r < j <= i ==> !OccursAt(s, pat, j)
    decreases i + 1
  {
    if i < 0 then -1
    else if s[i..i + |pat|] == pat then i
    else RFindFrom(s, pat, i - 1)
  }

  /** str.rfind(pat): the last index where pat occurs, -1 when it does not occur. */
  function RFind(s: string, pat: string): (r: int)
    ensures r >= -1
    ensures r >= 0 ==> OccursAt(s, pat, r)
    ensures forall j :: r < j ==> !OccursAt(s, pat, j)
    ensures r == -1 <==> !Contains(s, pat)
  {
    if |s| < |pat| then -1 else RFindFrom(s, pat, |s| - |pat|)
  }

  /** str.replace(pat, rep): every occurrence, scanning left to right without overlaps. */
  function ReplaceAll(s: string, pat: string, rep: string): string
    requires |pat| > 0
    decreases |s|
  {
    if |s| < |pat| then s
    else if s[..|pat|] == pat then rep + ReplaceAll(s[|pat|..], pat, rep)
    else [s[0]] + ReplaceAll(s[1..], pat, rep)
  }

  /** Where pat does not occur, replace changes nothing. */
  lemma {:induction false} ReplaceAbsent(s: string, pat: string, rep: string)
    requires |pat| > 0 && !Contains(s, pat)
    ensures ReplaceAll(s, pat, rep) == s
    decreases |s|
  {
    if |s| >= |pat| {
      assert !OccursAt(s, pat, 0);
      assert !Contains(s[1..], pat) by {
        forall i | 0 <= i <= |s[1..]| - |pat|
          ensures !OccursAt(s[1..], pat, i)
        {
          assert s[1..][i..i + |pat|] == s[i + 1..i + 1 + |pat|];
          assert !OccursAt(s, pat, i + 1);
        }
      }
      ReplaceAbsent(s[1..], pat, rep);
    }
  }

  /** Replacing a pattern by itself is the identity. */
  lemma {:induction false} ReplaceBySelf(s: string, pat: string)
    requires |pat| > 0
    ensures ReplaceAll(s, pat, pat) == s
    decreases |s|
  {
    if |s| >= |pat| {
      if s[..|pat|] == pat {
        ReplaceBySelf(s[|pat|..], pat);
        assert s == pat + s[|pat|..];
      } else {
        ReplaceBySelf(s[1..], pat);
        assert s == [s[0]] + s[1..];
      }
    }
  }

  /** Text without the pattern's first character passes through replace untouched. */
  lemma {:induction false} ReplaceAfterPlain(a: string, t: string, pat: string, rep: string)
    requires |pat| > 0 && pat[0] !in a
    ensures ReplaceAll(a + t, pat, rep) == a + ReplaceAll(t, pat, rep)
    decreases |a|
  {
    if a != [] {
      var at := a + t;
      assert at[1..] == a[1..] + t;
      ReplaceAfterPlain(a[1..], t, pat, rep);
      if |at| < |pat| {
        assert ReplaceAll(t, pat, rep) == t;
      } else {
        assert at[..|pat|] != pat by {
          assert at[..|pat|][0] == a[0];
        }
        calc {
          ReplaceAll(at, pat, rep);
          [a[0]] + ReplaceAll(a[1..] + t, pat, rep);
          [a[0]] + (a[1..] + ReplaceAll(t, pat, rep));
          { assert a == [a[0]] + a[1..]; }
          a + ReplaceAll(t, pat, rep);
        }
      }
    } else {
      assert a + t == t;
    }
  }

  /** An occurrence after text without the pattern's first character is the first one replaced; the scan then carries on after it. */
  lemma ReplaceAt(a: string, pat: string, b: string, rep: string)
    requires |pat| > 0 && pat[0] !in a
    ensures ReplaceAll(a + pat + b, pat, rep) == a + rep + ReplaceAll(b, pat, rep)
  {
    assert a + pat + b == a + (pat + b);
    ReplaceAfterPlain(a, pat + b, pat, rep);
    assert (pat + b)[..|pat|] == pat && (pat + b)[|pat|..] == b;
  }

  /** A text with one occurrence of the pattern between plain parts gets exactly that occurrence replaced. */
  lemma ReplaceOne(a: string, pat: string, b: string, rep: string)
    requires |pat| > 0 && pat[0] !in a && pat[0] !in b
    ensures ReplaceAll(a + pat + b, pat, rep) == a + rep + b
  {
    assert a + pat + b == a + (pat + b);
    ReplaceAfterPlain(a, pat + b, pat, rep);
    assert (pat + b)[..|pat|] == pat && (pat + b)[|pat|..] == b;
    ReplaceAfterPlain(b, [], pat, rep);
    assert b + [] == b;
  }
}
