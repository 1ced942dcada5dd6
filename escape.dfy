/**
  The `crlfEscape` and `quotesEscape` template helpers, which are literal
  substitutions: `crlfEscape` writes each line feed as `\n` and each carriage
  return as `\r`, and `quotesEscape` writes each double quote as `\"`.
  Backslashes already in the text are left as they are, by both.
 */
module Escape {

  /** How many times `c` occurs in `s`. */
  function Count(s: string, c: char): nat {
    if s == [] then 0 else (if s[0] == c then 1 else 0) + Count(s[1..], c)
  }

  lemma {:induction false} CountAppend(a: string, b: string, c: char)
    ensures Count(a + b, c) == Count(a, c) + Count(b, c)
    decreases |a|
  {
    if a != [] {
      assert (a + b)[0] == a[0];
      assert (a + b)[1..] == a[1..] + b;
      CountAppend(a[1..], b, c);
    } else {
      assert a + b == b;
    }
  }

  /**
    `strings.Replace(s, pattern, rep, -1)` for a one-character `pattern`:
    every occurrence of `pattern`, left to right, becomes `rep`; the string grows by
    `|rep| - 1` per occurrence and holds no character that neither `rep` nor
    the rest of `s` supplies, so no `pattern` is left unless `rep` has one.
   */
  function ReplaceAll(s: string, pattern: char, rep: string): (r: string)
    ensures |r| == |s| + Count(s, pattern) * (|rep| - 1)
    ensures forall c :: c in r ==> c in rep || (c in s && c != pattern)
    decreases |s|
  {
    if s == [] then []
    else (if s[0] == pattern then rep else [s[0]]) + ReplaceAll(s[1..], pattern, rep)
  }

  /** Replacing in a concatenation replaces in each part: the substitution keeps the order of the text. */
  lemma {:induction false} ReplaceAllAppend(a: string, b: string, pattern: char, rep: string)
    ensures ReplaceAll(a + b, pattern, rep) == ReplaceAll(a, pattern, rep) + ReplaceAll(b, pattern, rep)
    decreases |a|
  {
    if a != [] {
      assert (a + b)[0] == a[0];
      assert (a + b)[1..] == a[1..] + b;
      ReplaceAllAppend(a[1..], b, pattern, rep);
    } else {
      assert a + b == b;
    }
  }

  /** A string without `pattern` is left as it is. */
  lemma {:induction false} ReplaceAllAbsent(s: string, pattern: char, rep: string)
    requires pattern !in s
    ensures ReplaceAll(s, pattern, rep) == s
    decreases |s|
  {
    if s != [] {
      ReplaceAllAbsent(s[1..], pattern, rep);
    }
  }

  /**
    How often `c` occurs after the substitution: every `pattern` is gone and
    contributes the occurrences of `c` in `rep`; every other character of `s`
    stays as it was.
   */
  lemma {:induction false} ReplaceAllCount(s: string, pattern: char, rep: string, c: char)
    ensures Count(ReplaceAll(s, pattern, rep), c)
         == (if c == pattern then 0 else Count(s, c)) + Count(s, pattern) * Count(rep, c)
    decreases |s|
  {
    if s != [] {
      var head := if s[0] == pattern then rep else [s[0]];
      var tail := ReplaceAll(s[1..], pattern, rep);
      CountAppend(head, tail, c);
      ReplaceAllCount(s[1..], pattern, rep, c);
      var k := Count(s[1..], pattern);
      if s[0] == pattern {
        assert Count(s, pattern) == k + 1;
        assert (k + 1) * Count(rep, c) == Count(rep, c) + k * Count(rep, c);
      } else {
        assert Count(s, pattern) == k;
        assert Count(head, c) == if s[0] == c then 1 else 0;
      }
    }
  }

  /** A character other than `pattern`, and not in `rep`, occurs as often after the substitution as before. */
  lemma ReplaceAllKeeps(s: string, pattern: char, rep: string, c: char)
    requires c != pattern && c !in rep
    ensures Count(ReplaceAll(s, pattern, rep), c) == Count(s, c)
  {
    ReplaceAllCount(s, pattern, rep, c);
    CountAbsent(rep, c);
  }

  lemma {:induction false} CountAbsent(s: string, c: char)
    requires c !in s
    ensures Count(s, c) == 0
    decreases |s|
  {
    if s != [] {
      CountAbsent(s[1..], c);
    }
  }

  /** `crlfEscape`: each line feed becomes the two characters `\n`, then each carriage return `\r`. */
  function CrlfEscape(q: string): (r: string)
    ensures '\n' !in r && '\r' !in r
  {
    ReplaceAll(ReplaceAll(q, '\n', "\\n"), '\r', "\\r")
  }

  /**
    `quotesEscape`: each double quote becomes `\"`, so the text grows by one
    character per quote and holds no character but those of `q` and the
    backslash and quote it writes.
   */
  function QuotesEscape(q: string): (r: string)
    ensures |r| == |q| + Count(q, '"')
    ensures forall c :: c in r ==> c == '\\' || c == '"' || c in q
  {
    ReplaceAll(q, '"', "\\\"")
  }

  /** What `crlfEscape` makes of one character. */
  function EscapeCrlfChar(c: char): string {
    if c == '\n' then "\\n" else if c == '\r' then "\\r" else [c]
  }

  /** A one-pass, character-by-character reference for `crlfEscape`. */
  function EscapeCrlfEach(q: string): string
    decreases |q|
  {
    if q == [] then [] else EscapeCrlfChar(q[0]) + EscapeCrlfEach(q[1..])
  }

  /**
    The two passes of `crlfEscape` do what one simultaneous substitution does:
    the `\n` the first pass writes holds no carriage return for the second
    pass to change.
   */
  lemma {:induction false} CrlfEscapeIsPerCharacter(q: string)
    ensures CrlfEscape(q) == EscapeCrlfEach(q)
    decreases |q|
  {
    if q != [] {
      var head := if q[0] == '\n' then "\\n" else [q[0]];
      var rest := ReplaceAll(q[1..], '\n', "\\n");
      assert ReplaceAll(q, '\n', "\\n") == head + rest;
      ReplaceAllAppend(head, rest, '\r', "\\r");
      if q[0] == '\n' {
        ReplaceAllAbsent(head, '\r', "\\r");
      } else {
        assert ReplaceAll(head, '\r', "\\r") == EscapeCrlfChar(q[0]);
      }
      CrlfEscapeIsPerCharacter(q[1..]);
    }
  }

  /**
    `crlfEscape` in numbers: the result has no line feed or carriage return,
    is one character longer per line feed and carriage return of `q`, keeps
    every other character (other than `\`, `n` and `r`, which it writes)
    as often as `q` has it, and leaves a string without either as it is.
   */
  lemma CrlfEscapeCounts(q: string, c: char)
    requires c !in "\n\r\\nr"
    ensures |CrlfEscape(q)| == |q| + Count(q, '\n') + Count(q, '\r')
    ensures Count(CrlfEscape(q), c) == Count(q, c)
    ensures '\n' !in q && '\r' !in q ==> CrlfEscape(q) == q
  {
    var once := ReplaceAll(q, '\n', "\\n");
    ReplaceAllKeeps(q, '\n', "\\n", '\r');
    ReplaceAllKeeps(q, '\n', "\\n", c);
    ReplaceAllKeeps(once, '\r', "\\r", c);
    if '\n' !in q && '\r' !in q {
      ReplaceAllAbsent(q, '\n', "\\n");
      ReplaceAllAbsent(q, '\r', "\\r");
    }
  }

  /** `crlfEscape` of a concatenation is the concatenation of the escaped parts. */
  lemma CrlfEscapeAppend(a: string, b: string)
    ensures CrlfEscape(a + b) == CrlfEscape(a) + CrlfEscape(b)
  {
    ReplaceAllAppend(a, b, '\n', "\\n");
    ReplaceAllAppend(ReplaceAll(a, '\n', "\\n"), ReplaceAll(b, '\n', "\\n"), '\r', "\\r");
  }

  /** Reads `\n` and `\r` back as a line feed and a carriage return; every other character stays. */
  function UnescapeCrlf(s: string): string
    decreases |s|
  {
    if s == [] then []
    else if |s| >= 2 && s[0] == '\\' && s[1] == 'n' then ['\n'] + UnescapeCrlf(s[2..])
    else if |s| >= 2 && s[0] == '\\' && s[1] == 'r' then ['\r'] + UnescapeCrlf(s[2..])
    else [s[0]] + UnescapeCrlf(s[1..])
  }

  /** On text without backslashes `crlfEscape` loses nothing: unescaping gives the text back. */
  lemma {:induction false} UnescapeCrlfEscape(q: string)
    requires '\\' !in q
    ensures UnescapeCrlf(CrlfEscape(q)) == q
    decreases |q|
  {
    CrlfEscapeIsPerCharacter(q);
    if q != [] {
      var e := EscapeCrlfEach(q);
      assert e == EscapeCrlfChar(q[0]) + EscapeCrlfEach(q[1..]);
      CrlfEscapeIsPerCharacter(q[1..]);
      UnescapeCrlfEscape(q[1..]);
      if q[0] == '\n' || q[0] == '\r' {
        assert e[2..] == EscapeCrlfEach(q[1..]);
      } else {
        assert e[1..] == EscapeCrlfEach(q[1..]);
      }
    }
  }

  /**
    Every double quote in the output of `quotesEscape` is escaped: the
    character before it is a backslash.
   */
  lemma {:induction false} QuotesEscapeEscapesAll(q: string)
    ensures forall i :: 0 <= i < |QuotesEscape(q)| && QuotesEscape(q)[i] == '"' ==> 0 < i && QuotesEscape(q)[i - 1] == '\\'
    decreases |q|
  {
    if q != [] {
      var head := if q[0] == '"' then "\\\"" else [q[0]];
      var rest := QuotesEscape(q[1..]);
      assert QuotesEscape(q) == head + rest;
      QuotesEscapeEscapesAll(q[1..]);
      assert rest == [] || rest[0] != '"';
      forall i | 0 <= i < |head + rest| && (head + rest)[i] == '"'
        ensures 0 < i && (head + rest)[i - 1] == '\\'
      {
        if i >= |head| {
          assert rest[i - |head|] == '"';
        }
      }
    }
  }

  /**
    `quotesEscape` in numbers: one character longer per double quote of `q`,
    every character other than `"` and `\` as often as in `q`, and the
    identity on text without double quotes.
   */
  lemma QuotesEscapeCounts(q: string, c: char)
    requires c != '"' && c != '\\'
    ensures |QuotesEscape(q)| == |q| + Count(q, '"')
    ensures Count(QuotesEscape(q), c) == Count(q, c)
    ensures Count(QuotesEscape(q), '"') == Count(q, '"')
    ensures Count(QuotesEscape(q), '\\') == Count(q, '\\') + Count(q, '"')
    ensures '"' !in q ==> QuotesEscape(q) == q
  {
    ReplaceAllKeeps(q, '"', "\\\"", c);
    ReplaceAllCount(q, '"', "\\\"", '"');
    assert Count("\\\"", '"') == 1;
    ReplaceAllCount(q, '"', "\\\"", '\\');
    assert Count("\\\"", '\\') == 1;
    if '"' !in q {
      ReplaceAllAbsent(q, '"', "\\\"");
    }
  }

  /** `quotesEscape` of a concatenation is the concatenation of the escaped parts. */
  lemma QuotesEscapeAppend(a: string, b: string)
    ensures QuotesEscape(a + b) == QuotesEscape(a) + QuotesEscape(b)
  {
    ReplaceAllAppend(a, b, '"', "\\\"");
  }

  /** Reads `\"` back as a double quote; every other character stays. */
  function UnescapeQuotes(s: string): string
    decreases |s|
  {
    if s == [] then []
    else if |s| >= 2 && s[0] == '\\' && s[1] == '"' then ['"'] + UnescapeQuotes(s[2..])
    else [s[0]] + UnescapeQuotes(s[1..])
  }

  /**
    `quotesEscape` loses nothing: unescaping gives any text back. A backslash
    of `q` is never read as the start of an escape, since what follows it in
    the output is never a bare quote.
   */
  lemma {:induction false} UnescapeQuotesEscape(q: string)
    ensures UnescapeQuotes(QuotesEscape(q)) == q
    decreases |q|
  {
    if q != [] {
      var head := if q[0] == '"' then "\\\"" else [q[0]];
      var rest := QuotesEscape(q[1..]);
      var e := QuotesEscape(q);
      assert e == head + rest;
      UnescapeQuotesEscape(q[1..]);
      assert rest == [] || rest[0] != '"';
      if q[0] == '"' {
        assert e[2..] == rest;
      } else {
        assert e[1..] == rest;
      }
    }
  }

  /**
    `quotesEscape` leaves backslashes alone: text that ends in a backslash
    still ends in one, so it can escape a quote placed after the value.
   */
  lemma QuotesEscapeKeepsTrailingBackslash(q: string)
    requires |q| > 0 && q[|q| - 1] == '\\'
    ensures |QuotesEscape(q)| > 0 && QuotesEscape(q)[|QuotesEscape(q)| - 1] == '\\'
  {
    var init := q[..|q| - 1];
    assert q == init + ['\\'];
    QuotesEscapeAppend(init, ['\\']);
    assert QuotesEscape(['\\']) == ['\\'];
  }
}
