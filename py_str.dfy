/**
 * The few Python `str` operations that `clean_json_string` relies on, over
 * `string` (= `seq<char>`): substring membership (`p in s`), deletion of every
 * occurrence (`s.replace(p, "")`) and trimming (`s.strip()`), together with the
 * subsequence relation used to say that these operations only delete characters.
 */
module PyStr {

  /** Python's `str.isspace` on one character: the code points whose Unicode
      bidirectional class is WS, B or S, or whose category is Zs. */
  predicate IsWhitespace(c: char) {
    var n := c as int;
    (0x09 <= n <= 0x0D) || (0x1C <= n <= 0x20) || n == 0x85 || n == 0xA0 ||
    n == 0x1680 || (0x2000 <= n <= 0x200A) || n == 0x2028 || n == 0x2029 ||
    n == 0x202F || n == 0x205F || n == 0x3000
  }

  /** The ASCII blanks (space, tab, line feed, vertical tab, form feed, carriage
      return) are whitespace, and no visible ASCII character is: trimming never
      removes a backtick, a letter, a digit or a JSON delimiter. */
  lemma WhitespaceClasses(c: char)
    ensures c == ' ' || '\t' <= c <= '\r' ==> IsWhitespace(c)
    ensures IsWhitespace(c) ==> !('!' <= c <= '~')
  {
  }

  /** Every character of `t` is whitespace. */
  predicate AllWhitespace(t: string) {
    forall k :: 0 <= k < |t| ==> IsWhitespace(t[k])
  }

  /** Python's `p in s`: `p` occurs in `s` at some position (the empty string occurs everywhere). */
  predicate Contains(s: string, p: string)
    ensures p <= s ==> Contains(s, p)
    ensures Contains(s, p) ==> |p| <= |s|
    decreases |s|
  {
    p <= s || (|s| > 0 && Contains(s[1..], p))
  }

  /** `Contains` agrees with the position-based reading of `p in s`: some
      suffix of `s` starts with `p`. */
  lemma {:induction false} ContainsIffOccurrence(s: string, p: string)
    ensures Contains(s, p) <==> exists i :: 0 <= i <= |s| && p <= s[i..]
    decreases |s|
  {
    if p <= s {
      assert s[0..] == s;
    } else if |s| > 0 {
      ContainsIffOccurrence(s[1..], p);
      if Contains(s[1..], p) {
        var i :| 0 <= i <= |s[1..]| && p <= s[1..][i..];
        assert s[1..][i..] == s[i + 1..];
      }
      if exists i :: 0 <= i <= |s| && p <= s[i..] {
        var i :| 0 <= i <= |s| && p <= s[i..];
        assert i != 0 by { assert s[0..] == s; }
        assert s[1..][i - 1..] == s[i..];
      }
    } else {
      forall i | 0 <= i <= |s| ensures !(p <= s[i..]) {
        assert s[i..] == s;
      }
    }
  }

  /** Python's `s.replace(p, "")`: scanning left to right, every non-overlapping
      occurrence of `p` is deleted. Python also accepts an empty `p`; no caller here uses one. */
  function DeleteAll(s: string, p: string): (r: string)
    requires p != []
    ensures |r| <= |s|
    decreases |s|
  {
    if |s| == 0 then []
    else if p <= s then DeleteAll(s[|p|..], p)
    else [s[0]] + DeleteAll(s[1..], p)
  }

  /** What remains of `s` after Python's `lstrip()`: a suffix of `s`, everything
      before it is whitespace, and it does not begin with whitespace. */
  function StripLeading(s: string): (r: string)
    ensures |r| <= |s| && r == s[|s| - |r|..]
    ensures AllWhitespace(s[..|s| - |r|])
    ensures r == [] || !IsWhitespace(r[0])
    decreases |s|
  {
    if |s| > 0 && IsWhitespace(s[0]) then StripLeading(s[1..]) else s
  }

  /** What remains of `s` after Python's `rstrip()`: a prefix of `s`, everything
      after it is whitespace, and it does not end with whitespace. */
  function StripTrailing(s: string): (r: string)
    ensures r <= s
    ensures AllWhitespace(s[|r|..])
    ensures r == [] || !IsWhitespace(r[|r| - 1])
    decreases |s|
  {
    if |s| > 0 && IsWhitespace(s[|s| - 1]) then StripTrailing(s[..|s| - 1]) else s
  }

  /** Python's `s.strip()`: what is left neither begins nor ends with
      whitespace (StripIsSlice says what was removed). */
  function Strip(s: string): (r: string)
    ensures |r| <= |s|
    ensures r == [] || (!IsWhitespace(r[0]) && !IsWhitespace(r[|r| - 1]))
  {
    StripTrailing(StripLeading(s))
  }

  /** `strip()` returns the slice `s[i..j]` of `s` once all leading and all
      trailing whitespace is cut off: everything outside the slice is whitespace. */
  lemma StripIsSlice(s: string) returns (i: nat, j: nat)
    ensures i <= j <= |s| && Strip(s) == s[i..j]
    ensures AllWhitespace(s[..i]) && AllWhitespace(s[j..])
  {
    var lead := StripLeading(s);
    var r := StripTrailing(lead);
    i := |s| - |lead|;
    j := i + |r|;
    PrefixOfSuffix(s, i, r);
    assert s[j..] == lead[|r|..];
  }

  /** A prefix `r` of the suffix `s[i..]` is the slice `s[i..i + |r|]`. */
  lemma PrefixOfSuffix(s: string, i: nat, r: string)
    requires i <= |s| && r <= s[i..]
    ensures i + |r| <= |s| && r == s[i..i + |r|]
  {
    assert s[i..][..|r|] == s[i..i + |r|];
  }

  /** `a` is obtained from `b` by deleting characters (not necessarily adjacent ones). */
  predicate IsSubsequence(a: string, b: string)
    decreases |b|
  {
    a == [] || (b != [] && ((a[0] == b[0] && IsSubsequence(a[1..], b[1..])) || IsSubsequence(a, b[1..])))
  }

  // ---------------------------------------------------------------------------
  // Substring membership
  // ---------------------------------------------------------------------------

  /** An occurrence in a suffix is an occurrence in the whole string. */
  lemma {:induction false} ContainsInSuffix(s: string, k: nat, p: string)
    requires k <= |s| && Contains(s[k..], p)
    ensures Contains(s, p)
    decreases k
  {
    if k > 0 {
      assert s[1..][k - 1..] == s[k..];
      ContainsInSuffix(s[1..], k - 1, p);
    }
  }

  /** An occurrence in a prefix is an occurrence in the whole string. */
  lemma {:induction false} ContainsInPrefix(s: string, j: nat, p: string)
    requires j <= |s| && Contains(s[..j], p)
    ensures Contains(s, p)
    decreases |s|
  {
    if p <= s[..j] {
      assert p <= s;
    } else {
      assert s[..j][1..] == s[1..][..j - 1];
      ContainsInPrefix(s[1..], j - 1, p);
    }
  }

  /** An occurrence in a slice is an occurrence in the whole string; so a
      string free of `p` has no slice containing `p`. */
  lemma ContainsInSlice(s: string, i: nat, j: nat, p: string)
    requires i <= j <= |s| && Contains(s[i..j], p)
    ensures Contains(s, p)
  {
    assert s[i..][..j - i] == s[i..j];
    ContainsInPrefix(s[i..], j - i, p);
    ContainsInSuffix(s, i, p);
  }

  /** Wherever `p + q` occurs, `p` occurs. */
  lemma {:induction false} ContainsExtension(s: string, p: string, q: string)
    requires Contains(s, p + q)
    ensures Contains(s, p)
    decreases |s|
  {
    if p + q <= s {
      assert (p + q)[..|p|] == p;
      assert p <= s;
    } else {
      ContainsExtension(s[1..], p, q);
    }
  }

  // ---------------------------------------------------------------------------
  // Deleting every occurrence
  // ---------------------------------------------------------------------------

  /** `replace(p, "")` changes the string exactly when `p` occurs in it; when it
      does, the result is strictly shorter. */
  lemma {:induction false} DeleteAllChangesIffContains(s: string, p: string)
    requires p != []
    ensures DeleteAll(s, p) == s <==> !Contains(s, p)
    ensures Contains(s, p) ==> |DeleteAll(s, p)| < |s|
    decreases |s|
  {
    if |s| == 0 {
    } else if p <= s {
      assert |DeleteAll(s, p)| <= |s| - |p|;
    } else {
      DeleteAllChangesIffContains(s[1..], p);
      var r := DeleteAll(s, p);
      assert r == [s[0]] + DeleteAll(s[1..], p);
      assert r == s <==> DeleteAll(s[1..], p) == s[1..] by {
        if r == s { assert r[1..] == s[1..]; }
      }
    }
  }

  /** Once `p` is deleted, deleting it again changes nothing, provided no new
      occurrence was formed (the case for the fences, see CleanJson). */
  lemma DeleteAllIdempotentWhenClean(s: string, p: string)
    requires p != [] && !Contains(DeleteAll(s, p), p)
    ensures DeleteAll(DeleteAll(s, p), p) == DeleteAll(s, p)
  {
    DeleteAllChangesIffContains(DeleteAll(s, p), p);
  }

  // ---------------------------------------------------------------------------
  // Subsequences
  // ---------------------------------------------------------------------------

  /** A subsequence is no longer than the string it comes from. */
  lemma {:induction false} SubsequenceLength(a: string, b: string)
    requires IsSubsequence(a, b)
    ensures |a| <= |b|
    decreases |b|
  {
    if a != [] {
      if a[0] == b[0] && IsSubsequence(a[1..], b[1..]) {
        SubsequenceLength(a[1..], b[1..]);
      } else {
        SubsequenceLength(a, b[1..]);
      }
    }
  }

  /** Every prefix is a subsequence. */
  lemma {:induction false} PrefixIsSubsequence(b: string, j: nat)
    requires j <= |b|
    ensures IsSubsequence(b[..j], b)
    decreases j
  {
    if j > 0 {
      assert b[..j][1..] == b[1..][..j - 1];
      PrefixIsSubsequence(b[1..], j - 1);
    }
  }

  /** A subsequence of a suffix is a subsequence of the whole string. */
  lemma {:induction false} SubsequenceOfSuffix(a: string, b: string, k: nat)
    requires k <= |b| && IsSubsequence(a, b[k..])
    ensures IsSubsequence(a, b)
    decreases k
  {
    if k > 0 {
      assert b[1..][k - 1..] == b[k..];
      SubsequenceOfSuffix(a, b[1..], k - 1);
    }
  }

  /** Every slice is a subsequence. */
  lemma SliceIsSubsequence(b: string, i: nat, j: nat)
    requires i <= j <= |b|
    ensures IsSubsequence(b[i..j], b)
  {
    assert b[i..][..j - i] == b[i..j];
    PrefixIsSubsequence(b[i..], j - i);
    SubsequenceOfSuffix(b[i..j], b, i);
  }

  /** Deleting characters twice is deleting characters. */
  lemma {:induction false} SubsequenceTransitive(a: string, b: string, c: string)
    requires IsSubsequence(a, b) && IsSubsequence(b, c)
    ensures IsSubsequence(a, c)
    decreases |c|
  {
    if a != [] {
      if IsSubsequence(b, c[1..]) {
        SubsequenceTransitive(a, b, c[1..]);
      } else if a[0] == b[0] && IsSubsequence(a[1..], b[1..]) {
        SubsequenceTransitive(a[1..], b[1..], c[1..]);
      } else {
        SubsequenceTransitive(a, b[1..], c[1..]);
      }
    }
  }

  /** `replace(p, "")` only deletes characters. */
  lemma {:induction false} DeleteAllIsSubsequence(s: string, p: string)
    requires p != []
    ensures IsSubsequence(DeleteAll(s, p), s)
    decreases |s|
  {
    if |s| == 0 {
    } else if p <= s {
      DeleteAllIsSubsequence(s[|p|..], p);
      SubsequenceOfSuffix(DeleteAll(s, p), s, |p|);
    } else {
      DeleteAllIsSubsequence(s[1..], p);
      var r := DeleteAll(s, p);
      assert r[0] == s[0] && r[1..] == DeleteAll(s[1..], p);
    }
  }

  // ---------------------------------------------------------------------------
  // Trimming
  // ---------------------------------------------------------------------------

  /** `strip()` only deletes characters. */
  lemma StripIsSubsequence(s: string)
    ensures IsSubsequence(Strip(s), s)
  {
    var i, j := StripIsSlice(s);
    SliceIsSubsequence(s, i, j);
  }

  /** A string free of `p` stays free of it when stripped. */
  lemma StripKeepsAbsence(s: string, p: string)
    requires !Contains(s, p)
    ensures !Contains(Strip(s), p)
  {
    var i, j := StripIsSlice(s);
    if Contains(Strip(s), p) {
      ContainsInSlice(s, i, j, p);
    }
  }

  /** A string that neither begins nor ends with whitespace is left alone by
      `strip()`; in particular `strip()` is idempotent. */
  lemma StripFixesTrimmed(s: string)
    requires s == [] || (!IsWhitespace(s[0]) && !IsWhitespace(s[|s| - 1]))
    ensures Strip(s) == s
  {
    assert StripLeading(s) == s;
  }

  lemma StripIdempotent(s: string)
    ensures Strip(Strip(s)) == Strip(s)
  {
    StripFixesTrimmed(Strip(s));
  }
}
