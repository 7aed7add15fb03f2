/** String helpers over `seq<char>`: concatenation of pieces, joining with a
    separator, Python's `str.split`, `str.replace('"', '\\"')` and the
    first-letter lower-casing the generator applies to method and signal names. */
module Text {

  /** The concatenation of all pieces, in order (Python's `''.join`). */
  function Concat(xs: seq<string>): string
  {
    if xs == [] then "" else Concat(xs[..|xs| - 1]) + xs[|xs| - 1]
  }

  lemma {:induction false} ConcatAppend(a: seq<string>, b: seq<string>)
    ensures Concat(a + b) == Concat(a) + Concat(b)
    decreases |b|
  {
    if b == [] {
      assert a + b == a;
    } else {
      var b' := b[..|b| - 1];
      assert (a + b)[..|a + b| - 1] == a + b';
      ConcatAppend(a, b');
    }
  }

  lemma ConcatSplit(xs: seq<string>, t: nat)
    requires t <= |xs|
    ensures Concat(xs) == Concat(xs[..t]) + Concat(xs[t..])
  {
    ConcatAppend(xs[..t], xs[t..]);
    assert xs[..t] + xs[t..] == xs;
  }

  /** `sep.join(xs)`: the pieces with `sep` between neighbours and nowhere else. */
  function Join(sep: string, xs: seq<string>): string
  {
    if xs == [] then ""
    else if |xs| == 1 then xs[0]
    else Join(sep, xs[..|xs| - 1]) + sep + xs[|xs| - 1]
  }

  lemma JoinSnoc(sep: string, xs: seq<string>, x: string)
    ensures Join(sep, xs + [x]) == (if xs == [] then x else Join(sep, xs) + sep + x)
  {
    assert (xs + [x])[..|xs + [x]| - 1] == xs;
  }

  lemma {:induction false} JoinAppend(sep: string, a: seq<string>, b: seq<string>)
    ensures Join(sep, a + b) == if a == [] then Join(sep, b)
                                else if b == [] then Join(sep, a)
                                else Join(sep, a) + sep + Join(sep, b)
    decreases |b|
  {
    if a == [] {
      assert a + b == b;
    } else if b == [] {
      assert a + b == a;
    } else {
      var b', x := b[..|b| - 1], b[|b| - 1];
      assert b == b' + [x];
      assert a + b == (a + b') + [x];
      JoinSnoc(sep, a + b', x);
      JoinSnoc(sep, b', x);
      if b' != [] {
        JoinAppend(sep, a, b');
        var ja, jb := Join(sep, a), Join(sep, b');
        calc {
          Join(sep, a + b);
          Join(sep, a + b') + sep + x;
          ja + sep + jb + sep + x;
          { ConcatAssoc5(ja, sep, jb, sep, x); }
          ja + sep + (jb + sep + x);
          ja + sep + Join(sep, b);
        }
      } else {
        assert a + b' == a;
      }
    }
  }

  /** A join ends with its last piece. */
  lemma JoinEndsWithLast(sep: string, xs: seq<string>)
    requires xs != []
    ensures EndsWith(Join(sep, xs), xs[|xs| - 1])
  {
  }

  lemma EndsWithLastChar(s: string, t: string)
    requires |t| > 0 && EndsWith(s, t)
    ensures s[|s| - 1] == t[|t| - 1]
  {
    assert s[|s| - |t|..][|t| - 1] == s[|s| - 1];
  }

  lemma Assoc3(p: string, q: string, r: string)
    ensures p + (q + r) == p + q + r
  {
  }

  lemma Assoc4(p: string, q: string, r: string, t: string)
    ensures p + q + r + t == p + (q + r + t)
  {
  }

  lemma ConcatAssoc5(p: string, q: string, r: string, s: string, t: string)
    ensures p + q + r + s + t == p + q + (r + s + t)
  {
  }

  predicate StartsWith(s: string, prefix: string)
  {
    |prefix| <= |s| && s[..|prefix|] == prefix
  }

  predicate EndsWith(s: string, suffix: string)
  {
    |suffix| <= |s| && s[|s| - |suffix|..] == suffix
  }

  /** Python's `s.split(c)`: the maximal pieces between occurrences of `c`;
      never empty, and with one more piece than there are occurrences. */
  function Split(s: string, c: char): (r: seq<string>)
    ensures |r| >= 1
    ensures forall i :: 0 <= i < |r| ==> c !in r[i]
  {
    if s == [] then [""]
    else
      var rest := Split(s[1..], c);
      if s[0] == c then [""] + rest
      else [[s[0]] + rest[0]] + rest[1..]
  }

  /** Joining the pieces of a split with the separator gives the string back. */
  lemma {:induction false} SplitJoin(s: string, c: char)
    ensures Join([c], Split(s, c)) == s
  {
    if s != [] {
      SplitJoin(s[1..], c);
      var rest := Split(s[1..], c);
      if s[0] == c {
        JoinCons([c], "", rest);
      } else {
        JoinHeadExtend([c], [s[0]], rest);
      }
    }
  }

  lemma {:induction false} JoinCons(sep: string, x: string, xs: seq<string>)
    requires xs != []
    ensures Join(sep, [x] + xs) == x + sep + Join(sep, xs)
    decreases |xs|
  {
    if |xs| == 1 {
      assert [x] + xs == [x] + [xs[0]];
    } else {
      var xs' := xs[..|xs| - 1];
      assert ([x] + xs)[..|[x] + xs| - 1] == [x] + xs';
      JoinCons(sep, x, xs');
    }
  }

  lemma {:induction false} JoinHeadExtend(sep: string, h: string, xs: seq<string>)
    requires xs != []
    ensures Join(sep, [h + xs[0]] + xs[1..]) == h + Join(sep, xs)
    decreases |xs|
  {
    if |xs| == 1 {
    } else {
      var xs' := xs[..|xs| - 1];
      var ys := [h + xs[0]] + xs[1..];
      assert ys[..|ys| - 1] == [h + xs'[0]] + xs'[1..];
      assert ys[|ys| - 1] == xs[|xs| - 1];
      JoinHeadExtend(sep, h, xs');
      assert Join(sep, ys) == h + Join(sep, xs') + sep + xs[|xs| - 1];
      assert Join(sep, xs) == Join(sep, xs') + sep + xs[|xs| - 1];
    }
  }

  /** `s.count(c)`. */
  function Count(s: string, c: char): nat
  {
    if s == [] then 0 else Count(s[..|s| - 1], c) + (if s[|s| - 1] == c then 1 else 0)
  }

  /** `s.replace('"', '\\"')`: every double quote gets a backslash in front. */
  function EscapeQuotes(s: string): (r: string)
    ensures |r| == |s| + Count(s, '"')
  {
    if s == [] then ""
    else EscapeQuotes(s[..|s| - 1]) + (if s[|s| - 1] == '"' then "\\\"" else [s[|s| - 1]])
  }

  /** How a C compiler reads back the body of a string literal in which
      every backslash starts a `\"` escape: `\"` is a quote and every other
      character stands for itself. C's other escapes, `\\` among them, are
      not modelled, so this reader is exact only on such text. */
  function UnescapeQuotes(s: string): string
    decreases |s|
  {
    if s == [] then ""
    else if |s| >= 2 && s[|s| - 2] == '\\' && s[|s| - 1] == '"' then UnescapeQuotes(s[..|s| - 2]) + "\""
    else UnescapeQuotes(s[..|s| - 1]) + [s[|s| - 1]]
  }

  /** The string literal written for a piece without backslashes reads
      back as the piece. Only then does every backslash of the escaped text
      start a `\"` escape. */
  lemma {:induction false} UnescapeEscape(s: string)
    requires '\\' !in s
    ensures UnescapeQuotes(EscapeQuotes(s)) == s
  {
    if s != [] {
      var init, c := s[..|s| - 1], s[|s| - 1];
      assert s == init + [c];
      UnescapeEscape(init);
      var e := EscapeQuotes(init);
      if c == '"' {
        var r := e + "\\\"";
        assert r[|r| - 2] == '\\' && r[|r| - 1] == '"';
        assert r[..|r| - 2] == e;
      } else {
        var r := e + [c];
        assert r[|r| - 1] == c;
        assert r[..|r| - 1] == e;
      }
    }
  }

  /** A backslash is not escaped: a piece ending in one is written as `"a\"`,
      whose closing quote C reads as an escaped quote, so the literal does
      not end there. */
  lemma BackslashEscapesClosingQuote()
    ensures var literal := "\"" + EscapeQuotes("a\\") + "\"";
            literal == "\"a\\\"" && literal[|literal| - 2] == '\\'
  {
    assert EscapeQuotes("a") == "a" by {
      assert "a"[..0] == "";
    }
    assert "a\\"[..1] == "a";
  }

  /** `s[:1].lower() + s[1:]`, for ASCII letters. */
  function LowerFirst(s: string): (r: string)
    ensures |r| == |s|
    ensures |s| > 0 ==> r[1..] == s[1..]
    ensures |s| > 0 && !('A' <= s[0] <= 'Z') ==> r == s
    ensures |s| > 0 && 'A' <= s[0] <= 'Z' ==> r[0] == (s[0] as int + 32) as char && 'a' <= r[0] <= 'z'
  {
    if s == [] then ""
    else if 'A' <= s[0] <= 'Z' then [(s[0] as int + 32) as char] + s[1..]
    else s
  }
}
