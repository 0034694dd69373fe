/**
 * The few string operations the annotation protocol relies on, with Python's
 * meaning: substring search (`pat in s`, `str.split`), `str(n)` for a
 * non-negative integer, and `str.lower` restricted to ASCII letters.
 */
module Text {
  import opened Wrappers

  /** `pat` occurs in `s` starting at index `i`. */
  ghost predicate OccursAt(s: string, pat: string, i: nat) {
    i + |pat| <= |s| && s[i..i + |pat|] == pat
  }

  /** Character-by-character comparison of `pat[k..]` with `s[i + k..]`. */
  predicate MatchesFrom(s: string, pat: string, i: nat, k: nat)
    decreases |pat| - k
  {
    if k >= |pat| then i + |pat| <= |s|
    else i + k < |s| && s[i + k] == pat[k] && MatchesFrom(s, pat, i, k + 1)
  }

  lemma {:induction false} MatchesFromIff(s: string, pat: string, i: nat, k: nat)
    requires k <= |pat|
    ensures MatchesFrom(s, pat, i, k) <==> (i + |pat| <= |s| && s[i + k..i + |pat|] == pat[k..])
    decreases |pat| - k
  {
    if k < |pat| {
      MatchesFromIff(s, pat, i, k + 1);
      if i + |pat| <= |s| {
        assert s[i + k..i + |pat|] == [s[i + k]] + s[i + k + 1..i + |pat|];
        assert pat[k..] == [pat[k]] + pat[k + 1..];
      }
    }
  }

  lemma MatchesIffOccurs(s: string, pat: string, i: nat)
    ensures MatchesFrom(s, pat, i, 0) <==> OccursAt(s, pat, i)
  {
    MatchesFromIff(s, pat, i, 0);
  }

  /** The first index at or after `i` where `pat` occurs in `s` (Python's `s.find(pat, i)`). */
  function IndexFrom(s: string, pat: string, i: nat): (r: Option<nat>)
    ensures r.Some? ==> i <= r.value && OccursAt(s, pat, r.value)
    ensures r.Some? ==> forall j :: i <= j < r.value ==> !OccursAt(s, pat, j)
    ensures r.None? ==> forall j :: i <= j ==> !OccursAt(s, pat, j)
    decreases |s| - i
  {
    MatchesIffOccurs(s, pat, i);
    if i + |pat| > |s| then None
    else if MatchesFrom(s, pat, i, 0) then Some(i)
    else IndexFrom(s, pat, i + 1)
  }

  function IndexOf(s: string, pat: string): Option<nat> {
    IndexFrom(s, pat, 0)
  }

  /** Python's `pat in s` for strings. */
  predicate Contains(s: string, pat: string) {
    IndexOf(s, pat).Some?
  }

  lemma ContainsIff(s: string, pat: string)
    ensures Contains(s, pat) <==> exists i :: OccursAt(s, pat, i)
  {
    if !Contains(s, pat) {
      forall i ensures !OccursAt(s, pat, i) { }
    }
  }

  lemma OccursContains(s: string, pat: string, i: nat)
    requires OccursAt(s, pat, i)
    ensures Contains(s, pat)
  {
    ContainsIff(s, pat);
  }

  lemma ContainsInfix(a: string, b: string, c: string, pat: string)
    requires Contains(b, pat)
    ensures Contains(a + b + c, pat)
  {
    ContainsIff(b, pat);
    var i: nat :| OccursAt(b, pat, i);
    assert (a + b + c)[|a| + i..|a| + i + |pat|] == b[i..i + |pat|];
    OccursContains(a + b + c, pat, |a| + i);
  }

  /** Every occurrence of `c` in `s` is at index `q`. */
  ghost predicate OnlyAt(s: string, c: char, q: nat) {
    forall i :: 0 <= i < |s| && i != q ==> s[i] != c
  }

  /**
   * An occurrence of a pattern is pinned down by a character the text has at
   * only one index: the pattern's copy of it must sit there.
   */
  lemma {:induction false} AnchoredOccurrence(s: string, pat: string, c: char, q: nat, m: nat, p: nat)
    requires OnlyAt(s, c, q) && m < |pat| && pat[m] == c
    requires OccursAt(s, pat, p)
    ensures p + m == q
  {
    assert s[p..p + |pat|][m] == s[p + m];
  }

  /** The j-th character of a slice is the character at its start plus j. */
  lemma SliceAt(a: string, i: int, n: int, j: int)
    ensures 0 <= i && 0 <= j < n && i + n <= |a| ==> a[i..i + n][j] == a[i + j]
  {
  }

  lemma TailAt(s: string, j: int)
    ensures 1 <= j < |s| ==> s[1..][j - 1] == s[j]
  {
  }

  /** An occurrence in `h + t` that starts at or after `t` is an occurrence in `t`. */
  lemma OccurrenceAfter(h: string, t: string, pat: string, p: nat)
    requires OccursAt(h + t, pat, p) && p >= |h|
    ensures OccursAt(t, pat, p - |h|)
  {
    assert (h + t)[p..p + |pat|] == t[p - |h|..p - |h| + |pat|];
  }

  /**
   * An occurrence in `h + t` that starts inside `h` stays inside `h` when the
   * pattern holds the first character of `t` nowhere past its own start.
   */
  lemma NoOccurrenceAcross(h: string, t: string, pat: string, p: nat)
    requires |t| > 0 && |pat| > 0 && t[0] !in pat[1..]
    requires OccursAt(h + t, pat, p) && p < |h|
    ensures OccursAt(h, pat, p)
  {
    var a := h + t;
    if p + |pat| > |h| {
      SliceAt(a, p, |pat|, |h| - p);
      TailAt(pat, |h| - p);
      assert false;
    }
    assert a[p..p + |pat|] == h[p..p + |pat|];
  }

  /** A pattern whose first character the prefix `x` lacks occurs in `x + y` only if it occurs in `y`. */
  lemma NotContainsAfterPrefix(x: string, y: string, pat: string)
    requires |pat| > 0 && pat[0] !in x && !Contains(y, pat)
    ensures !Contains(x + y, pat)
  {
    if Contains(x + y, pat) {
      ContainsIff(x + y, pat);
      var p: nat :| OccursAt(x + y, pat, p);
      SliceAt(x + y, p, |pat|, 0);
      if p >= |x| {
        OccurrenceAfter(x, y, pat, p);
      }
    }
  }

  /**
   * In `h + m + s`, where neither `h` nor `s` holds the pattern, the pattern
   * occurs only where the middle's single copy of its character c puts it:
   * at offset k0 of the middle. The middle's first character does not recur
   * in the pattern, and its last k characters are not the pattern's first.
   */
  lemma OnlyOccurrence(h: string, m: string, s: string, pat: string, c: char, k0: nat, k: nat, p: nat)
    requires k < |pat| && |m| > 0 && m[0] !in pat[1..]
    requires pat[k] == c && k0 + k < |m| && OnlyAt(m, c, k0 + k)
    requires forall i :: |m| - k <= i < |m| ==> m[i] != pat[0]
    requires !Contains(h, pat) && !Contains(s, pat)
    requires OccursAt(h + m + s, pat, p)
    ensures p == |h| + k0
  {
    var a := h + m + s;
    if p < |h| {
      assert a == h + (m + s);
      NoOccurrenceAcross(h, m + s, pat, p);
    } else if p >= |h| + |m| {
      OccurrenceAfter(h + m, s, pat, p);
    } else {
      SliceAt(a, p, |pat|, k);
      SliceAt(a, p, |pat|, 0);
    }
  }

  /** The text before the first `sep`, or all of `t`: Python's `t.split(sep)[0]`. */
  function Before(t: string, sep: string): (r: string)
    requires |sep| > 0
    ensures r <= t
    ensures |r| < |t| ==> OccursAt(t, sep, |r|)
    ensures forall j :: 0 <= j < |r| ==> !OccursAt(t, sep, j)
  {
    match IndexOf(t, sep)
    case Some(j) => t[..j]
    case None => t
  }

  /** A character placed once between two texts that lack it occurs only there. */
  lemma OnlyAtAround(x: string, c: char, y: string)
    requires c !in x && c !in y
    ensures OnlyAt(x + [c] + y, c, |x|)
  {
    var s := x + [c] + y;
    forall i | 0 <= i < |s| && i != |x| ensures s[i] != c {
      if i < |x| {
        assert s[i] == x[i];
      } else {
        assert s[i] == y[i - |x| - 1];
      }
    }
  }

  /** With no separator in the text, `split(sep)[0]` is the whole text. */
  lemma BeforeAbsent(t: string, sep: string)
    requires |sep| > 0 && !Contains(t, sep)
    ensures Before(t, sep) == t
  {
  }

  /** When `h` lacks `pat` and `t` starts with it, with no overlap back into `h`, the first `pat` of `h + t` starts `t`. */
  lemma FirstOccurrenceAt(h: string, t: string, pat: string)
    requires |pat| > 0 && pat <= t && t[0] !in pat[1..] && !Contains(h, pat)
    ensures IndexOf(h + t, pat) == Some(|h|)
  {
    var a := h + t;
    assert OccursAt(a, pat, |h|) by {
      assert a[|h|..|h| + |pat|] == t[..|pat|];
    }
    var found := IndexOf(a, pat);
    if found.value < |h| {
      NoOccurrenceAcross(h, t, pat, found.value);
      OccursContains(h, pat, found.value);
    }
  }

  /** The text after the first `sep`: Python's `t.split(sep)[1]` up to the next `sep`; `None` when `sep` is absent (IndexError). */
  function SecondField(t: string, sep: string): (r: Option<string>)
    requires |sep| > 0
    ensures r.None? <==> !Contains(t, sep)
  {
    match IndexOf(t, sep)
    case Some(i) => Some(Before(t[i + |sep|..], sep))
    case None => None
  }

  predicate IsDigit(c: char) { '0' <= c <= '9' }

  function DigitChar(d: nat): (c: char)
    requires d < 10
    ensures IsDigit(c)
  {
    "0123456789"[d]
  }

  /** Python's `str(n)` for a non-negative integer: its decimal digits, most significant first. */
  function NatToString(n: nat): (r: string)
    ensures |r| > 0
    ensures forall i :: 0 <= i < |r| ==> IsDigit(r[i])
  {
    if n < 10 then [DigitChar(n)] else NatToString(n / 10) + [DigitChar(n % 10)]
  }

  /** Python's `str` of an integer: a minus sign before the digits of a negative one. */
  function IntToString(n: int): (r: string)
    ensures |r| > 0
    ensures n >= 0 ==> r == NatToString(n)
    ensures n < 0 ==> r[0] == '-' && r[1..] == NatToString(-n)
  {
    if n < 0 then "-" + NatToString(-n) else NatToString(n)
  }

  /** The inverse of NatToString: the value of a string of decimal digits. */
  function ParseNat(s: string): nat
    requires forall i :: 0 <= i < |s| ==> IsDigit(s[i])
  {
    if s == [] then 0
    else
      assert IsDigit(s[|s| - 1]);
      10 * ParseNat(s[..|s| - 1]) + (s[|s| - 1] as int - '0' as int)
  }

  lemma {:induction false} ParseNatToString(n: nat)
    ensures ParseNat(NatToString(n)) == n
  {
    if n >= 10 {
      var s := NatToString(n);
      assert s[..|s| - 1] == NatToString(n / 10);
      ParseNatToString(n / 10);
    }
  }

  /** Distinct numbers print differently. */
  lemma NatToStringInjective(m: nat, n: nat)
    requires NatToString(m) == NatToString(n)
    ensures m == n
  {
    ParseNatToString(m);
    ParseNatToString(n);
  }

  lemma FirstSpace(d: string, rest: string)
    requires forall i :: 0 <= i < |d| ==> IsDigit(d[i])
    ensures (d + " " + rest)[|d|] == ' '
    ensures forall i :: 0 <= i < |d| ==> (d + " " + rest)[i] != ' '
  {
  }

  /** Two digit strings, each followed by a space, agree up to their ends only if they are equal. */
  lemma DigitsThenSpace(d1: string, d2: string, rest1: string, rest2: string)
    requires forall i :: 0 <= i < |d1| ==> IsDigit(d1[i])
    requires forall i :: 0 <= i < |d2| ==> IsDigit(d2[i])
    requires d1 + " " + rest1 == d2 + " " + rest2
    ensures d1 == d2
  {
    var a, b := d1 + " " + rest1, d2 + " " + rest2;
    FirstSpace(d1, rest1);
    FirstSpace(d2, rest2);
    if |d1| == |d2| {
      assert d1 == a[..|d1|] && d2 == b[..|d2|];
    }
  }

  /** `(d + " " + rest).split(' ')[0]` is the digit string `d`. */
  lemma BeforeSpaceAfterDigits(d: string, rest: string)
    requires forall i :: 0 <= i < |d| ==> IsDigit(d[i])
    ensures Before(d + " " + rest, " ") == d
  {
    var t := d + " " + rest;
    var r := Before(t, " ");
    FirstSpace(d, rest);
    assert OccursAt(t, " ", |d|) by {
      assert t[|d|..|d| + 1] == [t[|d|]];
    }
    forall k | 0 <= k < |d| ensures !OccursAt(t, " ", k) {
      assert t[k..k + 1][0] == t[k];
    }
    assert r == t[..|r|];
  }

  /** Cutting a digit field at a later separator, then at its first space, leaves the digits. */
  lemma DigitsBeforeSpace(d: string, rest: string, sep: string)
    requires |sep| > 0 && !IsDigit(sep[0]) && sep[0] != ' '
    requires forall i :: 0 <= i < |d| ==> IsDigit(d[i])
    ensures Before(Before(d + " " + rest, sep), " ") == d
  {
    var t := d + " " + rest;
    var u := Before(t, sep);
    if |u| <= |d| {
      SliceAt(t, |u|, |sep|, 0);
      assert false;
    }
    assert u == d + " " + u[|d| + 1..] by {
      assert u[..|d| + 1] == t[..|d| + 1];
    }
    BeforeSpaceAfterDigits(d, u[|d| + 1..]);
  }

  /** A pattern longer than the text never occurs in it. */
  lemma NotContainsLonger(s: string, pat: string)
    requires |pat| > |s|
    ensures !Contains(s, pat)
  {
    ContainsIff(s, pat);
  }

  /** A pattern with a character the text lacks never occurs in it. */
  lemma NotContainsMissing(s: string, pat: string, c: char)
    requires c in pat && c !in s
    ensures !Contains(s, pat)
  {
    var m :| 0 <= m < |pat| && pat[m] == c;
    forall p: nat ensures !OccursAt(s, pat, p) {
      if p + |pat| <= |s| {
        assert s[p..p + |pat|][m] == s[p + m];
      }
    }
    ContainsIff(s, pat);
  }

  /** `c` occurs in `a + [c] + b + t` only at index |a|. */
  lemma OnlyAtSplit(a: string, c: char, b: string, t: string)
    requires c !in a && c !in b && c !in t
    ensures OnlyAt(a + [c] + b + t, c, |a|)
  {
    var s := a + [c] + b + t;
    forall i | 0 <= i < |s| && i != |a| ensures s[i] != c {
      if i < |a| {
        assert s[i] == a[i];
      } else if i < |a| + 1 + |b| {
        assert s[i] == b[i - |a| - 1];
      } else {
        assert s[i] == t[i - |a| - 1 - |b|];
      }
    }
  }

  /**
   * A pattern whose copy of c, at offset m, would have to sit on the only c
   * of `a + [c] + b + t`, and which then does not fit or differs from the
   * text at its offset j, does not occur.
   */
  lemma NotContainsAnchored(a: string, c: char, b: string, t: string, pat: string, m: nat, j: nat)
    requires c !in a && c !in b && c !in t
    requires m < |pat| && pat[m] == c && j < |pat|
    requires m <= |a| && |a| - m + |pat| <= |a + [c] + b + t| ==> (a + [c] + b + t)[|a| - m + j] != pat[j]
    ensures !Contains(a + [c] + b + t, pat)
  {
    var s := a + [c] + b + t;
    OnlyAtSplit(a, c, b, t);
    forall p: nat ensures !OccursAt(s, pat, p) {
      if p + m == |a| && p + |pat| <= |s| {
        assert s[p..p + |pat|][j] == s[p + j];
      } else if OccursAt(s, pat, p) {
        AnchoredOccurrence(s, pat, c, |a|, m, p);
      }
    }
    ContainsIff(s, pat);
  }

  /** A pattern holding twice a character that `a + [c] + b + t` holds once does not occur. */
  lemma NotContainsTwice(a: string, c: char, b: string, t: string, pat: string, m1: nat, m2: nat)
    requires c !in a && c !in b && c !in t
    requires m1 < m2 < |pat| && pat[m1] == c && pat[m2] == c
    ensures !Contains(a + [c] + b + t, pat)
  {
    var s := a + [c] + b + t;
    OnlyAtSplit(a, c, b, t);
    forall p: nat ensures !OccursAt(s, pat, p) {
      if OccursAt(s, pat, p) {
        AnchoredOccurrence(s, pat, c, |a|, m1, p);
        AnchoredOccurrence(s, pat, c, |a|, m2, p);
      }
    }
    ContainsIff(s, pat);
  }

  /** As `NotContainsAnchored`, for a text `a + [c] + b + [c] + d` holding c twice: the pattern fails at either place. */
  lemma NotContainsAnchoredTwice(a: string, c: char, b: string, d: string, pat: string, m: nat, j1: nat, j2: nat)
    requires c !in a && c !in b && c !in d
    requires m < |pat| && pat[m] == c && j1 < |pat| && j2 < |pat|
    requires m <= |a| && |a| - m + |pat| <= |a + [c] + b + [c] + d| ==> (a + [c] + b + [c] + d)[|a| - m + j1] != pat[j1]
    requires m <= |a| + 1 + |b| && |a| + 1 + |b| - m + |pat| <= |a + [c] + b + [c] + d| ==>
               (a + [c] + b + [c] + d)[|a| + 1 + |b| - m + j2] != pat[j2]
    ensures !Contains(a + [c] + b + [c] + d, pat)
  {
    var s := a + [c] + b + [c] + d;
    var q1, q2 := |a|, |a| + 1 + |b|;
    assert s[q1] == c && s[q2] == c;
    forall i | 0 <= i < |s| && i != q1 && i != q2 ensures s[i] != c {
      if i < q1 {
        assert s[i] == a[i];
      } else if i < q2 {
        assert s[i] == b[i - q1 - 1];
      } else {
        assert s[i] == d[i - q2 - 1];
      }
    }
    forall p: nat ensures !OccursAt(s, pat, p) {
      if p + |pat| <= |s| {
        assert s[p..p + |pat|][m] == s[p + m];
        if p + m == q1 {
          assert s[p..p + |pat|][j1] == s[p + j1];
        } else if p + m == q2 {
          assert s[p..p + |pat|][j2] == s[p + j2];
        }
      }
    }
    ContainsIff(s, pat);
  }

  /** Every text contains itself. */
  lemma ContainsSelf(s: string)
    ensures Contains(s, s)
  {
    assert s[0..|s|] == s;
    OccursContains(s, s, 0);
  }

  /** Python's `str.lower` on the ASCII letters; other characters are left alone. */
  function LowerChar(c: char): (r: char)
    ensures 'A' <= c <= 'Z' ==> 'a' <= r <= 'z' && r as int - c as int == 32
    ensures !('A' <= c <= 'Z') ==> r == c
  {
    if 'A' <= c <= 'Z' then (c as int + 32) as char else c
  }

  function Lower(s: string): (r: string)
    ensures |r| == |s|
    ensures forall i :: 0 <= i < |s| ==> r[i] == LowerChar(s[i])
  {
    if s == [] then [] else [LowerChar(s[0])] + Lower(s[1..])
  }
}
