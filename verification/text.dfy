/** The string operations the permission reader uses: Python's `str.strip()` with no
    argument, `str.lower()` restricted to ASCII, and `re.search` with a literal pattern,
    which is substring containment. */
module Text {

  /** The characters Python's `str.isspace` accepts, which `str.strip()` removes. */
  predicate IsSpace(c: char)
  {
    || ('\t' <= c <= '\r')
    || ('\U{1c}' <= c <= '\U{1f}')
    || c == ' '
    || c == '\U{85}'
    || c == '\U{a0}'
    || c == '\U{1680}'
    || ('\U{2000}' <= c <= '\U{200a}')
    || c == '\U{2028}'
    || c == '\U{2029}'
    || c == '\U{202f}'
    || c == '\U{205f}'
    || c == '\U{3000}'
  }

  /** The number of whitespace characters `s` starts with. */
  function LeadingSpace(s: string): (n: nat)
    ensures n <= |s|
    ensures forall k :: 0 <= k < n ==> IsSpace(s[k])
    ensures n < |s| ==> !IsSpace(s[n])
    decreases |s|
  {
    if |s| == 0 || !IsSpace(s[0]) then 0 else 1 + LeadingSpace(s[1..])
  }

  /** The number of whitespace characters `s` ends with. */
  function TrailingSpace(s: string): (n: nat)
    ensures n <= |s|
    ensures forall k :: |s| - n <= k < |s| ==> IsSpace(s[k])
    ensures n < |s| ==> !IsSpace(s[|s| - n - 1])
    decreases |s|
  {
    if |s| == 0 || !IsSpace(s[|s| - 1]) then 0 else 1 + TrailingSpace(s[..|s| - 1])
  }

  /** `r` is `s` with its whitespace borders removed: an infix of `s` preceded and followed
      only by whitespace, which neither starts nor ends with whitespace. */
  ghost predicate StripsTo(s: string, r: string)
  {
    && (r == "" || (!IsSpace(r[0]) && !IsSpace(r[|r| - 1])))
    && exists lo :: StrippedAt(s, lo, r)
  }

  /** `r` sits in `s` at position `lo`, and everything of `s` outside it is whitespace. */
  ghost predicate StrippedAt(s: string, lo: int, r: string)
  {
    && 0 <= lo <= |s| - |r|
    && s[lo..lo + |r|] == r
    && (forall k :: 0 <= k < lo ==> IsSpace(s[k]))
    && (forall k :: lo + |r| <= k < |s| ==> IsSpace(s[k]))
  }

  /** Python's `s.strip()`. */
  function Strip(s: string): (r: string)
    ensures StripsTo(s, r)
  {
    var lo := LeadingSpace(s);
    var rest := s[lo..];
    var hi := lo + |rest| - TrailingSpace(rest);
    assert StrippedAt(s, lo, s[lo..hi]) by {
      forall k | hi <= k < |s| ensures IsSpace(s[k]) {
        assert s[k] == rest[k - lo];
      }
    }
    assert hi > lo ==> !IsSpace(s[hi - 1]) by {
      if hi > lo {
        assert s[hi - 1] == rest[|rest| - TrailingSpace(rest) - 1];
      }
    }
    s[lo..hi]
  }

  /** A stripped result is empty exactly when `s` is all whitespace. */
  lemma StrippedEmptyIff(s: string, lo: int, r: string)
    requires StrippedAt(s, lo, r)
    requires r == "" || !IsSpace(r[0])
    ensures r == "" <==> forall k :: 0 <= k < |s| ==> IsSpace(s[k])
  {
    if r != "" {
      assert s[lo] == r[0];
    }
  }

  /** Stripping has exactly one possible result. */
  lemma StripsToUnique(s: string, r1: string, r2: string)
    requires StripsTo(s, r1) && StripsTo(s, r2)
    ensures r1 == r2
  {
    var i1 :| StrippedAt(s, i1, r1);
    var i2 :| StrippedAt(s, i2, r2);
    StrippedEmptyIff(s, i1, r1);
    StrippedEmptyIff(s, i2, r2);
    if r1 != "" {
      assert s[i1] == r1[0] && s[i2] == r2[0];
      assert s[i1 + |r1| - 1] == r1[|r1| - 1] && s[i2 + |r2| - 1] == r2[|r2| - 1];
      assert !IsSpace(s[i1]) && !IsSpace(s[i2]);
      assert !IsSpace(s[i1 + |r1| - 1]) && !IsSpace(s[i2 + |r2| - 1]);
      assert i1 == i2;
      assert |r1| == |r2|;
    }
  }

  /** ASCII lower-casing of one character; every other character is left as it is. */
  function LowerChar(c: char): char
  {
    if 'A' <= c <= 'Z' then (c as int - 'A' as int + 'a' as int) as char else c
  }

  /** Python's `s.lower()` on the ASCII letters. */
  function Lower(s: string): string
  {
    seq(|s|, k requires 0 <= k < |s| => LowerChar(s[k]))
  }

  /** `pat` occurs somewhere in `s`. */
  ghost predicate Occurs(pat: string, s: string)
  {
    exists i :: 0 <= i <= |s| && pat <= s[i..]
  }

  /** `re.search(pat, s)` succeeds, for a pattern with no regular-expression metacharacters:
      the leftmost-first scan of `s` for `pat`. */
  function Contains(s: string, pat: string): (found: bool)
    ensures found <==> Occurs(pat, s)
    decreases |s|
  {
    if pat <= s then
      assert s[0..] == s;
      true
    else if |s| == 0 then
      false
    else
      var found := Contains(s[1..], pat);
      assert found ==> Occurs(pat, s) by {
        if found {
          var i :| 0 <= i <= |s[1..]| && pat <= s[1..][i..];
          assert s[1..][i..] == s[i + 1..];
        }
      }
      assert Occurs(pat, s) ==> found by {
        if Occurs(pat, s) {
          var i :| 0 <= i <= |s| && pat <= s[i..];
          assert i != 0 by { assert s[0..] == s; }
          assert s[1..][i - 1..] == s[i..];
        }
      }
      found
  }

  /** The number of times `c` occurs in `s`. */
  function Occurrences(c: char, s: string): nat
    decreases |s|
  {
    if |s| == 0 then 0 else Occurrences(c, s[..|s| - 1]) + (if s[|s| - 1] == c then 1 else 0)
  }

  /** Counting distributes over concatenation. */
  lemma {:induction false} OccurrencesAppend(c: char, a: string, b: string)
    ensures Occurrences(c, a + b) == Occurrences(c, a) + Occurrences(c, b)
    decreases |b|
  {
    if |b| == 0 {
      assert a + b == a;
    } else {
      assert (a + b)[..|a + b| - 1] == a + b[..|b| - 1];
      OccurrencesAppend(c, a, b[..|b| - 1]);
    }
  }
}
