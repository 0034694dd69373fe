/**
 * Backslash escaping of annotation text before it is used as a search
 * pattern on the server, and its removal.
 *
 * The neuron-manipulation script escapes only parentheses; the housekeeping
 * script escapes `()[]?+`. Both are the same loop over a character set,
 * modelled once with the set as a parameter.
 */
module Escapes {
  const Backslash: char := '\\'

  /** Default character set of `add_escapes` in the neuron-manipulation script. */
  const ParenChars: string := "()"

  /** Default character set of `add_escapes` inside `purge_unused_annotations`. */
  const RegexChars: string := "()[]?+"

  /** Python's `s.replace(c, rep)` for a one-character `c`. */
  function Replace(s: string, c: char, rep: string): string {
    if s == [] then [] else (if s[0] == c then rep else [s[0]]) + Replace(s[1..], c, rep)
  }

  lemma {:induction false} ReplaceConcat(a: string, b: string, c: char, rep: string)
    ensures Replace(a + b, c, rep) == Replace(a, c, rep) + Replace(b, c, rep)
  {
    if a == [] {
      assert a + b == b;
    } else {
      assert (a + b)[0] == a[0];
      assert (a + b)[1..] == a[1..] + b;
      ReplaceConcat(a[1..], b, c, rep);
    }
  }

  /** The specification of escaping: a backslash before every character of `chars`, all else unchanged. */
  function Escaped(s: string, chars: string): string {
    if s == [] then []
    else (if s[0] in chars then [Backslash, s[0]] else [s[0]]) + Escaped(s[1..], chars)
  }

  /** How many characters of `s` belong to `chars`. */
  function CountIn(s: string, chars: string): nat {
    if s == [] then 0 else (if s[0] in chars then 1 else 0) + CountIn(s[1..], chars)
  }

  /** The specification of `remove_escapes`: `s` with every backslash dropped. */
  function Unescaped(s: string): string {
    if s == [] then [] else (if s[0] == Backslash then [] else [s[0]]) + Unescaped(s[1..])
  }

  ghost predicate Distinct(chars: string) {
    forall i, j :: 0 <= i < j < |chars| ==> chars[i] != chars[j]
  }

  /** Escaping adds exactly one character per escaped character. */
  lemma {:induction false} EscapedLength(s: string, chars: string)
    ensures |Escaped(s, chars)| == |s| + CountIn(s, chars)
  {
    if s != [] {
      EscapedLength(s[1..], chars);
    }
  }

  lemma {:induction false} EscapedConcat(a: string, b: string, chars: string)
    ensures Escaped(a + b, chars) == Escaped(a, chars) + Escaped(b, chars)
  {
    if a == [] {
      assert a + b == b;
    } else {
      assert (a + b)[0] == a[0];
      assert (a + b)[1..] == a[1..] + b;
      EscapedConcat(a[1..], b, chars);
    }
  }

  /** Text free of the escaped characters is left as it is. */
  lemma {:induction false} EscapedIdentity(s: string, chars: string)
    requires forall i :: 0 <= i < |s| ==> s[i] !in chars
    ensures Escaped(s, chars) == s
  {
    if s != [] {
      EscapedIdentity(s[1..], chars);
    }
  }

  /** Removing backslashes undoes escaping, provided the text had none to begin with. */
  lemma {:induction false} UnescapeEscaped(s: string, chars: string)
    requires Backslash !in s
    ensures Unescaped(Escaped(s, chars)) == s
  {
    if s != [] {
      var head := if s[0] in chars then [Backslash, s[0]] else [s[0]];
      assert s[0] != Backslash;
      assert Unescaped([s[0]]) == [s[0]] by {
        assert [s[0]][1..] == [];
      }
      assert Unescaped(head) == [s[0]] by {
        if s[0] in chars { assert head[1..] == [s[0]]; }
      }
      UnescapedConcat(head, Escaped(s[1..], chars));
      UnescapeEscaped(s[1..], chars);
    }
  }

  lemma {:induction false} UnescapedConcat(a: string, b: string)
    ensures Unescaped(a + b) == Unescaped(a) + Unescaped(b)
  {
    if a == [] {
      assert a + b == b;
    } else {
      assert (a + b)[0] == a[0];
      assert (a + b)[1..] == a[1..] + b;
      UnescapedConcat(a[1..], b);
    }
  }

  lemma {:induction false} UnescapedHasNoBackslash(s: string)
    ensures Backslash !in Unescaped(s)
  {
    if s != [] {
      UnescapedHasNoBackslash(s[1..]);
    }
  }

  lemma {:induction false} UnescapedIdentity(s: string)
    requires Backslash !in s
    ensures Unescaped(s) == s
  {
    if s != [] {
      UnescapedIdentity(s[1..]);
    }
  }

  /** Python's `s.replace('\\', '')` is the specification of remove_escapes, and it shortens any text holding a backslash. */
  lemma {:induction false} ReplaceBackslashIsUnescaped(s: string)
    ensures Replace(s, Backslash, []) == Unescaped(s)
    ensures Backslash in s ==> |Unescaped(s)| < |s|
    ensures |Unescaped(s)| <= |s|
  {
    if s != [] {
      ReplaceBackslashIsUnescaped(s[1..]);
    }
  }

  /**
   * One `replace` of the loop in add_escapes: escaping one more character `c`
   * on top of an already escaped text is the same as escaping both at once,
   * as long as `c` is new and is not the backslash itself.
   */
  lemma {:induction false} ReplaceExtendsEscape(s: string, chars: string, c: char)
    requires c != Backslash && c !in chars
    ensures Replace(Escaped(s, chars), c, [Backslash, c]) == Escaped(s, chars + [c])
  {
    if s != [] {
      var head := if s[0] in chars then [Backslash, s[0]] else [s[0]];
      ReplaceConcat(head, Escaped(s[1..], chars), c, [Backslash, c]);
      ReplaceExtendsEscape(s[1..], chars, c);
      if s[0] in chars {
        assert Replace(head, c, [Backslash, c]) == head by {
          assert head[1..] == [s[0]];
        }
      }
    }
  }

  /** Text without parentheses is left alone by the parenthesis escape. */
  lemma EscapedParenFree(s: string)
    requires '(' !in s && ')' !in s
    ensures Escaped(s, ParenChars) == s
  {
    forall i | 0 <= i < |s| ensures s[i] !in ParenChars {
      assert s[i] != '(' && s[i] != ')';
    }
    EscapedIdentity(s, ParenChars);
  }

  /** Escaping text after a parenthesis-free part escapes that text alone. */
  lemma EscapedAfterFree(a: string, y: string)
    requires '(' !in a && ')' !in a
    ensures Escaped(a + y, ParenChars) == a + Escaped(y, ParenChars)
  {
    EscapedParenFree(a);
    EscapedConcat(a, y, ParenChars);
  }

  /** Escaping text between two parenthesis-free parts escapes the text alone. */
  lemma EscapedBetween(a: string, x: string, t: string, y: string)
    requires '(' !in a && ')' !in a && '(' !in t && ')' !in t
    ensures Escaped(a + x + t + y, ParenChars) == a + (Escaped(x, ParenChars) + (t + Escaped(y, ParenChars)))
  {
    assert a + x + t + y == a + (x + (t + y));
    EscapedAfterFree(a, x + (t + y));
    EscapedConcat(x, t + y, ParenChars);
    EscapedAfterFree(t, y);
  }

  /** Escaping `a(c)e` with parenthesis-free parts backslashes exactly the two parentheses. */
  lemma EscapedParenthesised(a: string, c: string, e: string)
    requires '(' !in a && ')' !in a && '(' !in c && ')' !in c && '(' !in e && ')' !in e
    ensures Escaped(a + "(" + c + ")" + e, ParenChars) == a + "\\(" + c + "\\)" + e
  {
    EscapedParenFree(a);
    EscapedParenFree(c);
    EscapedParenFree(e);
    var x1 := a + "(";
    EscapedSnoc(a, "(", "\\(");
    var x2 := x1 + c;
    EscapedConcat(x1, c, ParenChars);
    var x3 := x2 + ")";
    EscapedSnoc(x2, ")", "\\)");
    EscapedConcat(x3, e, ParenChars);
  }

  /** A parenthesis appended to `x` is escaped after the escape of `x`. */
  lemma EscapedSnoc(x: string, p: string, q: string)
    requires (p == "(" && q == "\\(") || (p == ")" && q == "\\)")
    ensures Escaped(x + p, ParenChars) == Escaped(x, ParenChars) + q
  {
    EscapedConcat(x, p, ParenChars);
    assert p[0] in ParenChars && p[1..] == [];
  }

  /**
   * `add_escapes`: for each character of `chars`, replace every occurrence of
   * it with backslash-character. With a character set that lists distinct
   * characters and not the backslash (both sets the source uses qualify),
   * the result is the one-pass escape of `s`.
   */
  method AddEscapes(s: string, chars: string) returns (r: string)
    ensures Backslash !in chars && Distinct(chars) ==> r == Escaped(s, chars)
  {
    r := s;
    EscapedIdentity(s, []);
    for i := 0 to |chars|
      invariant Backslash !in chars && Distinct(chars) ==> r == Escaped(s, chars[..i])
    {
      if Backslash !in chars && Distinct(chars) {
        ReplaceExtendsEscape(s, chars[..i], chars[i]);
        assert chars[..i] + [chars[i]] == chars[..i + 1];
      }
      r := Replace(r, chars[i], [Backslash, chars[i]]);
    }
    assert chars[..|chars|] == chars;
  }

  /**
   * `remove_escapes`: while a backslash remains, replace all backslashes by
   * nothing. The result is the text with every backslash removed.
   */
  method RemoveEscapes(s: string) returns (r: string)
    ensures r == Unescaped(s)
    ensures Backslash !in r
  {
    r := s;
    while Backslash in r
      invariant Unescaped(r) == Unescaped(s)
      decreases |r|
    {
      ReplaceBackslashIsUnescaped(r);
      UnescapedHasNoBackslash(r);
      UnescapedIdentity(Unescaped(r));
      r := Replace(r, Backslash, []);
    }
    UnescapedIdentity(r);
  }

  /** With no backslash in the input, add_escapes followed by remove_escapes gives the input back. */
  method EscapeRoundTrip(s: string, chars: string) returns (t: string)
    requires Backslash !in s
    ensures Backslash !in chars && Distinct(chars) ==> t == s
  {
    var e := AddEscapes(s, chars);
    t := RemoveEscapes(e);
    if Backslash !in chars && Distinct(chars) {
      UnescapeEscaped(s, chars);
    }
  }
}
