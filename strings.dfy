/** The string operations the core uses: Python's `str.replace`,
    `str.lower` and `str(int)`, with the facts about them the rest needs. */
module Strings {

  predicate StartsWith(s: string, prefix: string)
  {
    |prefix| <= |s| && s[..|prefix|] == prefix
  }

  /** `pat` occurs somewhere in `s` (Python's `pat in s`). */
  predicate Occurs(pat: string, s: string)
    decreases |s|
  {
    StartsWith(s, pat) || (|s| > 0 && Occurs(pat, s[1..]))
  }

  /** Python's `s.replace(pat, rep)`: every non-overlapping occurrence of
      `pat`, scanning left to right, becomes `rep`.  An empty `pat` matches
      before every character and at the end. */
  function ReplaceAll(s: string, pat: string, rep: string): string
  {
    if pat == "" then InsertEverywhere(s, rep) else ReplaceNonEmpty(s, pat, rep)
  }

  function InsertEverywhere(s: string, rep: string): string
    decreases |s|
  {
    if s == "" then rep else rep + [s[0]] + InsertEverywhere(s[1..], rep)
  }

  function ReplaceNonEmpty(s: string, pat: string, rep: string): string
    requires pat != ""
    decreases |s|
  {
    if s == "" then ""
    else if StartsWith(s, pat) then rep + ReplaceNonEmpty(s[|pat|..], pat, rep)
    else [s[0]] + ReplaceNonEmpty(s[1..], pat, rep)
  }

  /** With no occurrence of `pat`, replacing changes nothing. */
  lemma {:induction false} ReplaceAllAbsent(s: string, pat: string, rep: string)
    requires pat != "" && !Occurs(pat, s)
    ensures ReplaceAll(s, pat, rep) == s
    decreases |s|
  {
    if s != "" {
      ReplaceAllAbsent(s[1..], pat, rep);
      assert [s[0]] + s[1..] == s;
    }
  }

  /** A prefix that does not contain the first character of `pat` is copied
      unchanged. */
  lemma ReplaceAllSkip(a: string, t: string, pat: string, rep: string)
    requires pat != "" && pat[0] !in a
    ensures ReplaceAll(a + t, pat, rep) == a + ReplaceAll(t, pat, rep)
  {
    ReplaceNonEmptySkip(a, t, pat, rep);
  }

  lemma {:induction false} ReplaceNonEmptySkip(a: string, t: string, pat: string, rep: string)
    requires pat != "" && pat[0] !in a
    ensures ReplaceNonEmpty(a + t, pat, rep) == a + ReplaceNonEmpty(t, pat, rep)
    decreases |a|
  {
    if a != "" {
      var s := a + t;
      assert s[0] == a[0];
      assert !StartsWith(s, pat) by {
        if |pat| <= |s| {
          assert s[..|pat|][0] == a[0];
        }
      }
      assert s[1..] == a[1..] + t;
      ReplaceNonEmptySkip(a[1..], t, pat, rep);
      assert ReplaceNonEmpty(s, pat, rep) == [a[0]] + (a[1..] + ReplaceNonEmpty(t, pat, rep));
      assert [a[0]] + a[1..] == a;
    } else {
      assert a + t == t;
    }
  }

  /** A single occurrence of `pat`, after a prefix free of its first
      character and before a suffix free of it, is replaced by `rep`. */
  lemma ReplaceAllOnce(a: string, pat: string, b: string, rep: string)
    requires pat != "" && pat[0] !in a && !Occurs(pat, b)
    ensures ReplaceAll(a + pat + b, pat, rep) == a + rep + b
  {
    assert a + pat + b == a + (pat + b);
    ReplaceAllSkip(a, pat + b, pat, rep);
    assert StartsWith(pat + b, pat);
    assert (pat + b)[|pat|..] == b;
    ReplaceAllAbsent(b, pat, rep);
  }

  // ---------------------------------------------------------------------
  // Placeholders of the form {{NAME}}

  predicate BraceFree(s: string)
  {
    forall i :: 0 <= i < |s| ==> s[i] != '{' && s[i] != '}'
  }

  /** A template placeholder: `{{`, a name without braces, `}}`. */
  predicate Token(p: string)
  {
    |p| >= 4 && p[0] == '{' && p[1] == '{' && p[|p| - 2] == '}' && p[|p| - 1] == '}'
    && BraceFree(p[2..|p| - 2])
  }

  /** A pattern whose first character is missing from `s` does not occur in it. */
  lemma {:induction false} FirstCharAbsent(pat: string, s: string)
    requires pat != "" && pat[0] !in s
    ensures !Occurs(pat, s)
    decreases |s|
  {
    assert |pat| <= |s| ==> s[..|pat|][0] != pat[0];
    if s != "" {
      FirstCharAbsent(pat, s[1..]);
    }
  }

  /** `pat` sits at position `i` of `s`. */
  predicate OccursAtIndex(pat: string, s: string, i: nat)
  {
    i + |pat| <= |s| && s[i..i + |pat|] == pat
  }

  /** A pattern that sits at no position of `s` does not occur in it. */
  lemma {:induction false} AbsentByWindows(pat: string, s: string)
    requires forall i: nat :: !OccursAtIndex(pat, s, i)
    ensures !Occurs(pat, s)
    decreases |s|
  {
    assert !OccursAtIndex(pat, s, 0);
    if s != "" {
      var t := s[1..];
      forall i: nat
        ensures !OccursAtIndex(pat, t, i)
      {
        assert !OccursAtIndex(pat, s, i + 1);
        if i + |pat| <= |t| {
          assert t[i..i + |pat|] == s[i + 1..i + 1 + |pat|];
        }
      }
      AbsentByWindows(pat, t);
    }
  }

  /** A placeholder never occurs in text without braces. */
  lemma TokenAbsentFromBraceFree(q: string, s: string)
    requires Token(q) && BraceFree(s)
    ensures !Occurs(q, s)
  {
    FirstCharAbsent(q, s);
  }

  /** Where the braces of `a + p + b` are, when only `p` has any. */
  lemma BracePositions(a: string, p: string, b: string, k: nat)
    requires Token(p) && BraceFree(a) && BraceFree(b) && k < |a + p + b|
    ensures (a + p + b)[k] == '{' ==> k == |a| || k == |a| + 1
    ensures (a + p + b)[k] == '}' ==> k == |a| + |p| - 2 || k == |a| + |p| - 1
  {
    var s := a + p + b;
    if k < |a| {
      assert s[k] == a[k];
    } else if k < |a| + |p| {
      assert s[k] == p[k - |a|];
      if 2 <= k - |a| < |p| - 2 {
        assert p[k - |a|] == p[2..|p| - 2][k - |a| - 2];
      }
    } else {
      assert s[k] == b[k - |a| - |p|];
    }
  }

  /** A placeholder other than `p` does not occur in `a + p + b` when `a` and
      `b` have no braces. */
  lemma OtherTokenAbsent(q: string, a: string, p: string, b: string)
    requires Token(q) && Token(p) && q != p && BraceFree(a) && BraceFree(b)
    ensures !Occurs(q, a + p + b)
  {
    forall i: nat
      ensures !OccursAtIndex(q, a + p + b, i)
    {
      OtherTokenNotAt(q, a, p, b, i);
    }
    AbsentByWindows(q, a + p + b);
  }

  /** The window of `a + p + b` at one position is not `q`: only the braces
      of `p` can line up with those of `q`, and then the window is `p`. */
  lemma OtherTokenNotAt(q: string, a: string, p: string, b: string, i: nat)
    requires Token(q) && Token(p) && q != p && BraceFree(a) && BraceFree(b)
    ensures !OccursAtIndex(q, a + p + b, i)
  {
    var s := a + p + b;
    if i + |q| <= |s| {
      var w := s[i..i + |q|];
      var n := |q|;
      assert w[0] == s[i] && w[1] == s[i + 1] && w[n - 2] == s[i + n - 2] && w[n - 1] == s[i + n - 1];
      BracePositions(a, p, b, i);
      if s[i] != '{' {
        assert w[0] != q[0];
      } else if i != |a| {
        BracePositions(a, p, b, i + 1);
        assert w[1] != q[1];
      } else if s[i + n - 1] != '}' {
        assert w[n - 1] != q[n - 1];
      } else {
        BracePositions(a, p, b, i + n - 1);
        BracePositions(a, p, b, i + n - 2);
        if n == |p| {
          assert w == p;
        } else {
          assert w[n - 2] != q[n - 2];
        }
      }
    }
  }

  // ---------------------------------------------------------------------
  // Case and numbers

  function LowerChar(c: char): char
  {
    if 'A' <= c <= 'Z' then (c as int - 'A' as int + 'a' as int) as char else c
  }

  /** Python's `str.lower` on ASCII letters; other characters are kept. */
  function Lower(s: string): string
  {
    seq(|s|, i requires 0 <= i < |s| => LowerChar(s[i]))
  }

  lemma LowerFacts(s: string)
    ensures |Lower(s)| == |s|
    ensures forall i :: 0 <= i < |s| && 'A' <= s[i] <= 'Z' ==> Lower(s)[i] as int == s[i] as int + 32
    ensures forall i :: 0 <= i < |s| && !('A' <= s[i] <= 'Z') ==> Lower(s)[i] == s[i]
    ensures forall i :: 0 <= i < |s| ==> !('A' <= Lower(s)[i] <= 'Z')
    ensures Lower(Lower(s)) == Lower(s)
    ensures (forall i :: 0 <= i < |s| ==> !('A' <= s[i] <= 'Z')) ==> Lower(s) == s
  {
  }

  function DigitChar(d: nat): (c: char)
    requires d < 10
    ensures '0' <= c <= '9'
  {
    ('0' as int + d) as char
  }

  /** Python's `str(n)` for a non-negative integer: decimal digits and no
      leading zero. */
  function NatToString(n: nat): (r: string)
    ensures 1 <= |r|
    ensures n >= 10 ==> 2 <= |r|
    ensures forall i :: 0 <= i < |r| ==> '0' <= r[i] <= '9'
    ensures |r| > 1 ==> r[0] != '0'
    decreases n
  {
    if n < 10 then [DigitChar(n)] else NatToString(n / 10) + [DigitChar(n % 10)]
  }

  /** Python's `int(s)` on a string of decimal digits: the value the digits
      denote, most significant first. */
  function DecimalValue(s: string): int
    decreases |s|
  {
    if s == "" then 0 else 10 * DecimalValue(s[..|s| - 1]) + (s[|s| - 1] as int - '0' as int)
  }

  /** `str(n)` denotes `n`: reading the digits back gives the number. */
  lemma {:induction false} NatToStringValue(n: nat)
    ensures DecimalValue(NatToString(n)) == n
    decreases n
  {
    var s := NatToString(n);
    if n >= 10 {
      assert s[..|s| - 1] == NatToString(n / 10);
      NatToStringValue(n / 10);
    } else {
      assert s[..0] == "";
    }
  }

  /** Different numbers are written differently. */
  lemma {:induction false} NatToStringInjective(m: nat, n: nat)
    requires m != n
    ensures NatToString(m) != NatToString(n)
    decreases m + n
  {
    if m >= 10 && n >= 10 {
      var sm, sn := NatToString(m), NatToString(n);
      assert sm[..|sm| - 1] == NatToString(m / 10);
      assert sn[..|sn| - 1] == NatToString(n / 10);
      if m / 10 != n / 10 {
        NatToStringInjective(m / 10, n / 10);
      } else {
        assert m % 10 != n % 10;
        assert sm[|sm| - 1] == DigitChar(m % 10) && sn[|sn| - 1] == DigitChar(n % 10);
      }
    } else if m < 10 && n < 10 {
      assert NatToString(m)[0] == DigitChar(m) && NatToString(n)[0] == DigitChar(n);
    }
  }

  lemma NatToStringBraceFree(n: nat)
    ensures BraceFree(NatToString(n))
  {
  }
}
