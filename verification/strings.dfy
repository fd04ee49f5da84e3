/** The pieces of Python's `str` behaviour the pipeline relies on:
    `replace`, `strip`, `"\n".join`, `split("\n")`, and `str(int)` for
    page numbers. */
module Strings {

  // ---------------------------------------------------------------------------
  // Occurrences of a pattern
  // ---------------------------------------------------------------------------

  predicate StartsWith(s: string, p: string) {
    |p| <= |s| && s[..|p|] == p
  }

  /** `p` occurs in `s` starting at index `i`. */
  predicate OccursAt(s: string, p: string, i: nat) {
    i + |p| <= |s| && s[i..i + |p|] == p
  }

  /** Python's `p in s`. */
  predicate Contains(s: string, p: string) {
    exists i: nat | i <= |s| :: OccursAt(s, p, i)
  }

  lemma OccursAtZero(s: string, p: string)
    ensures OccursAt(s, p, 0) <==> StartsWith(s, p)
  {
    if |p| <= |s| {
      assert s[0..|p|] == s[..|p|];
    }
  }

  /** An occurrence in the tail of a string is an occurrence in the string, one further on. */
  lemma OccursAtShift(c: char, t: string, p: string, i: nat)
    ensures OccursAt([c] + t, p, i + 1) <==> OccursAt(t, p, i)
  {
    if i + |p| <= |t| {
      assert ([c] + t)[i + 1..i + 1 + |p|] == t[i..i + |p|];
    }
  }

  /** An occurrence in a suffix `s[k..]` is an occurrence in `s`. */
  lemma OccursInSuffix(s: string, k: nat, p: string, i: nat)
    requires k <= |s|
    requires OccursAt(s[k..], p, i)
    ensures OccursAt(s, p, k + i)
  {
    assert s[k..][i..i + |p|] == s[k + i..k + i + |p|];
  }

  /** An occurrence in a slice `s[lo..hi]` is an occurrence in `s`. */
  lemma OccursInSlice(s: string, lo: nat, hi: nat, p: string, i: nat)
    requires lo <= hi <= |s|
    requires OccursAt(s[lo..hi], p, i)
    ensures OccursAt(s, p, lo + i)
  {
    forall k | 0 <= k < |p|
      ensures s[lo + i + k] == p[k]
    {
      assert p[k] == s[lo..hi][i + k];
    }
    assert s[lo + i..lo + i + |p|] == p;
  }

  // ---------------------------------------------------------------------------
  // str.replace(old, new)
  // ---------------------------------------------------------------------------

  /** Python's `s.replace(pat, rep)` for a non-empty `pat`: scans left to
      right and replaces every leftmost, non-overlapping occurrence. */
  function ReplaceAll(s: string, pat: string, rep: string): (r: string)
    requires |pat| > 0
    ensures |rep| == 0 ==> |r| <= |s|
    decreases |s|
  {
    if |s| == 0 then []
    else if StartsWith(s, pat) then rep + ReplaceAll(s[|pat|..], pat, rep)
    else [s[0]] + ReplaceAll(s[1..], pat, rep)
  }

  /** Replacing a pattern that does not occur leaves the string as it is. */
  lemma {:induction false} ReplaceAbsent(s: string, pat: string, rep: string)
    requires |pat| > 0
    requires !Contains(s, pat)
    ensures ReplaceAll(s, pat, rep) == s
    decreases |s|
  {
    if |s| > 0 {
      OccursAtZero(s, pat);
      assert !StartsWith(s, pat);
      forall i: nat | OccursAt(s[1..], pat, i)
        ensures false
      {
        OccursInSuffix(s, 1, pat, i);
      }
      ReplaceAbsent(s[1..], pat, rep);
      assert s == [s[0]] + s[1..];
    }
  }

  /** When no occurrence of `pat` starts inside `x`, the replacement of
      `x + t` leaves `x` alone and works on `t` only. */
  lemma {:induction false} ReplaceAfterClearPrefix(x: string, t: string, pat: string, rep: string)
    requires |pat| > 0
    requires forall i: nat :: i < |x| ==> !OccursAt(x + t, pat, i)
    ensures ReplaceAll(x + t, pat, rep) == x + ReplaceAll(t, pat, rep)
    decreases |x|
  {
    if |x| > 0 {
      var s := x + t;
      OccursAtZero(s, pat);
      assert !StartsWith(s, pat);
      assert s[1..] == x[1..] + t;
      forall i: nat | i < |x[1..]|
        ensures !OccursAt(x[1..] + t, pat, i)
      {
        assert s == [s[0]] + (x[1..] + t);
        OccursAtShift(s[0], x[1..] + t, pat, i);
      }
      ReplaceAfterClearPrefix(x[1..], t, pat, rep);
      assert ReplaceAll(s, pat, rep) == [s[0]] + ReplaceAll(s[1..], pat, rep);
      assert s[0] == x[0];
      assert x == [x[0]] + x[1..];
      assert x + ReplaceAll(t, pat, rep) == [x[0]] + (x[1..] + ReplaceAll(t, pat, rep));
    } else {
      assert x + t == t;
    }
  }

  // ---------------------------------------------------------------------------
  // str.strip()
  // ---------------------------------------------------------------------------

  /** Python's `str.isspace()` on one character: the ASCII whitespace and
      separators U+0009..U+000D, U+001C..U+001F, U+0020, plus the Unicode
      spaces U+0085, U+00A0, U+1680, U+2000..U+200A, U+2028, U+2029,
      U+202F, U+205F and U+3000. */
  predicate IsSpace(c: char) {
    || ('\U{0009}' <= c <= '\U{000D}')
    || ('\U{001C}' <= c <= '\U{0020}')
    || c == '\U{0085}' || c == '\U{00A0}' || c == '\U{1680}'
    || ('\U{2000}' <= c <= '\U{200A}')
    || c == '\U{2028}' || c == '\U{2029}' || c == '\U{202F}'
    || c == '\U{205F}' || c == '\U{3000}'
  }

  predicate AllSpace(s: string) {
    forall i :: 0 <= i < |s| ==> IsSpace(s[i])
  }

  /** No whitespace at either end. */
  predicate Trimmed(s: string) {
    |s| > 0 ==> !IsSpace(s[0]) && !IsSpace(s[|s| - 1])
  }

  /** The length of the run of whitespace starting at index `i`. */
  function SpaceRunFrom(s: string, i: nat): (n: nat)
    requires i <= |s|
    ensures i + n <= |s|
    ensures forall k :: i <= k < i + n ==> IsSpace(s[k])
    ensures i + n < |s| ==> !IsSpace(s[i + n])
    decreases |s| - i
  {
    if i < |s| && IsSpace(s[i]) then 1 + SpaceRunFrom(s, i + 1) else 0
  }

  /** The length of the run of whitespace ending just before index `j`. */
  function SpaceRunBefore(s: string, j: nat): (n: nat)
    requires j <= |s|
    ensures n <= j
    ensures forall k :: j - n <= k < j ==> IsSpace(s[k])
    ensures n < j ==> !IsSpace(s[j - n - 1])
    decreases j
  {
    if j > 0 && IsSpace(s[j - 1]) then 1 + SpaceRunBefore(s, j - 1) else 0
  }

  /** A whitespace run is as long as its first non-whitespace character allows. */
  lemma SpaceRunFromIs(s: string, i: nat, m: nat)
    requires i + m <= |s|
    requires forall k :: i <= k < i + m ==> IsSpace(s[k])
    requires i + m < |s| ==> !IsSpace(s[i + m])
    ensures SpaceRunFrom(s, i) == m
  {
  }

  lemma SpaceRunBeforeIs(s: string, j: nat, m: nat)
    requires m <= j <= |s|
    requires forall k :: j - m <= k < j ==> IsSpace(s[k])
    requires m < j ==> !IsSpace(s[j - m - 1])
    ensures SpaceRunBefore(s, j) == m
  {
  }

  /** Python's `s.strip()`: the slice of `s` whose outside is all
      whitespace and whose ends are not. */
  function Strip(s: string): (r: string)
    ensures Trimmed(r)
    ensures var i := SpaceRunFrom(s, 0);
      && i + |r| <= |s| && r == s[i..i + |r|]
      && (forall k :: 0 <= k < i ==> IsSpace(s[k]))
      && (forall k :: i + |r| <= k < |s| ==> IsSpace(s[k]))
  {
    var i := SpaceRunFrom(s, 0);
    if i == |s| then []
    else
      var j := |s| - SpaceRunBefore(s, |s|);
      s[i..j]
  }

  /** Stripping a string with no whitespace at its ends changes nothing. */
  lemma StripTrimmed(s: string)
    requires Trimmed(s)
    ensures Strip(s) == s
  {
    SpaceRunFromIs(s, 0, 0);
    SpaceRunBeforeIs(s, |s|, 0);
  }

  /** Surrounding whitespace is exactly what `strip` removes. */
  lemma StripPadded(pre: string, b: string, post: string)
    requires AllSpace(pre) && AllSpace(post) && Trimmed(b)
    ensures Strip(pre + b + post) == b
  {
    var s := pre + b + post;
    if |b| > 0 {
      assert s == pre + (b + post);
      LeadingRunOfPadded(pre, b + post);
      TrailingRunOfPadded(pre + b, post);
      assert s[|pre|..|pre| + |b|] == b;
    } else {
      assert s == pre + post + [];
      AllSpaceConcat(pre, post);
      LeadingRunOfPadded(pre + post, []);
    }
  }

  lemma AllSpaceConcat(a: string, c: string)
    requires AllSpace(a) && AllSpace(c)
    ensures AllSpace(a + c)
  {
    forall k | 0 <= k < |a + c|
      ensures IsSpace((a + c)[k])
    {
      if k >= |a| {
        assert (a + c)[k] == c[k - |a|];
      }
    }
  }

  /** Whitespace in front of a text that does not start with whitespace is
      the whole leading run. */
  lemma LeadingRunOfPadded(pre: string, rest: string)
    requires AllSpace(pre)
    requires |rest| > 0 ==> !IsSpace(rest[0])
    ensures SpaceRunFrom(pre + rest, 0) == |pre|
  {
    var s := pre + rest;
    forall k | 0 <= k < |pre|
      ensures IsSpace(s[k])
    {
      assert s[k] == pre[k];
    }
    SpaceRunFromIs(s, 0, |pre|);
  }

  /** Whitespace after a text that does not end in whitespace is the whole
      trailing run. */
  lemma TrailingRunOfPadded(rest: string, post: string)
    requires AllSpace(post)
    requires |rest| > 0 ==> !IsSpace(rest[|rest| - 1])
    ensures SpaceRunBefore(rest + post, |rest + post|) == |post|
  {
    var s := rest + post;
    forall k | |rest| <= k < |s|
      ensures IsSpace(s[k])
    {
      assert s[k] == post[k - |rest|];
    }
    SpaceRunBeforeIs(s, |s|, |post|);
  }

  // ---------------------------------------------------------------------------
  // "\n".join(texts) and text.split("\n")
  // ---------------------------------------------------------------------------

  /** Python's `"\n".join(texts)`. */
  function JoinLines(texts: seq<string>): (r: string)
    ensures |texts| == 1 ==> r == texts[0]
    ensures |texts| == 0 ==> r == ""
  {
    if |texts| == 0 then ""
    else if |texts| == 1 then texts[0]
    else texts[0] + "\n" + JoinLines(texts[1..])
  }

  /** The number of newlines in `s`. */
  function NewlineCount(s: string): nat {
    if |s| == 0 then 0 else (if s[0] == '\n' then 1 else 0) + NewlineCount(s[1..])
  }

  /** Python's `s.split("\n")`: never empty, one piece more than there are newlines. */
  function SplitLines(s: string): (r: seq<string>)
    ensures |r| >= 1
    ensures |r| == NewlineCount(s) + 1
    decreases |s|
  {
    if |s| == 0 then [""]
    else if s[0] == '\n' then [""] + SplitLines(s[1..])
    else
      var rest := SplitLines(s[1..]);
      [[s[0]] + rest[0]] + rest[1..]
  }

  /** A piece without a newline followed by `"\n"` splits off as one piece. */
  lemma {:induction false} SplitLinesPiece(x: string, sep: string, rest: string)
    requires '\n' !in x
    requires sep == "\n" || sep == ""
    ensures sep == "\n" ==> SplitLines(x + sep + rest) == [x] + SplitLines(rest)
    ensures sep == "" && rest == "" ==> SplitLines(x) == [x]
    decreases |x|
  {
    if |x| > 0 {
      var s := x + sep + rest;
      assert s[0] == x[0];
      assert s[1..] == x[1..] + sep + rest;
      SplitLinesPiece(x[1..], sep, rest);
      assert x == [x[0]] + x[1..];
    } else {
      if sep == "\n" {
        assert x + sep + rest == ['\n'] + rest;
        assert (['\n'] + rest)[1..] == rest;
      }
    }
  }

  /** Joining newline-free lines and splitting again gives back the lines:
      the join loses nothing and adds nothing. */
  lemma {:induction false} SplitJoinLines(texts: seq<string>)
    requires |texts| > 0
    requires forall i :: 0 <= i < |texts| ==> '\n' !in texts[i]
    ensures SplitLines(JoinLines(texts)) == texts
    decreases |texts|
  {
    if |texts| == 1 {
      SplitLinesPiece(texts[0], "", "");
    } else {
      var rest := texts[1..];
      assert JoinLines(texts) == texts[0] + "\n" + JoinLines(rest);
      assert '\n' !in texts[0];
      SplitLinesPiece(texts[0], "\n", JoinLines(rest));
      assert forall i :: 0 <= i < |rest| ==> '\n' !in rest[i] by {
        forall i | 0 <= i < |rest|
          ensures '\n' !in rest[i]
        {
          assert rest[i] == texts[i + 1];
        }
      }
      SplitJoinLines(rest);
      assert texts == [texts[0]] + rest;
    }
  }

  // ---------------------------------------------------------------------------
  // str(n) for natural numbers
  // ---------------------------------------------------------------------------

  predicate IsDigit(c: char) {
    '0' <= c <= '9'
  }

  predicate AllDigits(s: string) {
    forall i :: 0 <= i < |s| ==> IsDigit(s[i])
  }

  function DigitChar(d: nat): (c: char)
    requires d < 10
    ensures IsDigit(c)
  {
    ['0', '1', '2', '3', '4', '5', '6', '7', '8', '9'][d]
  }

  function DigitValue(c: char): (d: nat)
    requires IsDigit(c)
    ensures d < 10
  {
    (c as int - '0' as int) as nat
  }

  /** Python's `str(n)` for `n >= 0`: decimal digits, no leading zero. */
  function Decimal(n: nat): (r: string)
    ensures |r| > 0 && AllDigits(r)
    ensures |r| > 1 ==> r[0] != '0'
  {
    if n < 10 then [DigitChar(n)]
    else Decimal(n / 10) + [DigitChar(n % 10)]
  }

  /** Python's `int(s)` on a string of decimal digits. */
  function DecimalValue(s: string): nat
    requires AllDigits(s)
  {
    if |s| == 0 then 0
    else 10 * DecimalValue(s[..|s| - 1]) + DigitValue(s[|s| - 1])
  }

  /** Reading back the decimal text of `n` gives `n`. */
  lemma {:induction false} DecimalRoundTrip(n: nat)
    ensures DecimalValue(Decimal(n)) == n
  {
    var s := Decimal(n);
    if n < 10 {
      assert s[..|s| - 1] == [];
    } else {
      DecimalRoundTrip(n / 10);
      assert s[..|s| - 1] == Decimal(n / 10);
    }
  }
}
