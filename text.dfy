/** The Python string operations the two scripts use: `str.split(c)`, `c.join(...)`,
    `str.strip(chars)` and `str.strip()`. Strings are sequences of Unicode scalar values. */
module Text {

  /** Number of occurrences of `c` in `s`. */
  function Count(s: string, c: char): nat
  {
    if s == [] then 0 else (if s[0] == c then 1 else 0) + Count(s[1..], c)
  }

  /** A character occurs in a string exactly when its count is positive. */
  lemma {:induction false} CountPositive(s: string, c: char)
    ensures Count(s, c) > 0 <==> c in s
  {
    if s != [] {
      CountPositive(s[1..], c);
      assert s == [s[0]] + s[1..];
    }
  }

  /** Python's `s.split(sep)` for a one-character separator: every separator ends a piece,
      so k separators give k + 1 pieces, and empty pieces are kept. */
  function SplitOn(s: string, sep: char): (pieces: seq<string>)
    ensures |pieces| == Count(s, sep) + 1
    ensures forall i :: 0 <= i < |pieces| ==> sep !in pieces[i]
    decreases |s|
  {
    if s == [] then [""]
    else
      var rest := SplitOn(s[1..], sep);
      if s[0] == sep then [""] + rest
      else [[s[0]] + rest[0]] + rest[1..]
  }

  /** Python's `sep.join(pieces)`. */
  function Join(pieces: seq<string>, sep: char): string
  {
    if |pieces| == 0 then ""
    else if |pieces| == 1 then pieces[0]
    else pieces[0] + [sep] + Join(pieces[1..], sep)
  }

  /** Joining the pieces of a split gives back the string that was split. */
  lemma {:induction false} JoinSplitOn(s: string, sep: char)
    ensures Join(SplitOn(s, sep), sep) == s
    decreases |s|
  {
    if s != [] {
      var rest := SplitOn(s[1..], sep);
      JoinSplitOn(s[1..], sep);
      if s[0] == sep {
        JoinEmptyFirst(rest, sep);
      } else {
        JoinGlueFirst(s[0], rest, sep);
      }
      assert s == [s[0]] + s[1..];
    }
  }

  /** An empty first piece contributes only the separator that follows it. */
  lemma JoinEmptyFirst(rest: seq<string>, sep: char)
    requires |rest| >= 1
    ensures Join([""] + rest, sep) == [sep] + Join(rest, sep)
  {
    assert ([""] + rest)[1..] == rest;
  }

  /** A character glued onto the first piece comes first in the join. */
  lemma JoinGlueFirst(c: char, rest: seq<string>, sep: char)
    requires |rest| >= 1
    ensures Join([[c] + rest[0]] + rest[1..], sep) == [c] + Join(rest, sep)
  {
    var pieces := [[c] + rest[0]] + rest[1..];
    if |rest| == 1 {
      assert pieces == [[c] + rest[0]];
    } else {
      assert pieces[1..] == rest[1..];
      assert Join(rest, sep) == rest[0] + [sep] + Join(rest[1..], sep);
    }
  }

  /** Splitting a string that starts with a separator-free prefix `a`: `a` glues onto the
      first piece of the rest. */
  lemma {:induction false} SplitOnPrefix(a: string, rest: string, sep: char)
    requires sep !in a
    ensures SplitOn(a + rest, sep) == [a + SplitOn(rest, sep)[0]] + SplitOn(rest, sep)[1..]
    decreases |a|
  {
    if a != [] {
      SplitOnPrefix(a[1..], rest, sep);
      assert (a + rest)[1..] == a[1..] + rest;
      assert (a + rest)[0] == a[0];
      assert [a[0]] + (a[1..] + SplitOn(rest, sep)[0]) == a + SplitOn(rest, sep)[0];
    } else {
      var pieces := SplitOn(rest, sep);
      assert a + rest == rest;
      assert a + pieces[0] == pieces[0];
      assert pieces == [pieces[0]] + pieces[1..];
    }
  }

  /** Splitting a join of separator-free pieces gives back the pieces. */
  lemma {:induction false} SplitOnJoin(pieces: seq<string>, sep: char)
    requires |pieces| > 0
    requires forall i :: 0 <= i < |pieces| ==> sep !in pieces[i]
    ensures SplitOn(Join(pieces, sep), sep) == pieces
    decreases |pieces|
  {
    if |pieces| == 1 {
      SplitOnPrefix(pieces[0], "", sep);
      assert pieces[0] + "" == pieces[0];
      assert pieces == [pieces[0]];
    } else {
      var tail := Join(pieces[1..], sep);
      SplitOnJoin(pieces[1..], sep);
      SplitOnPrefix(pieces[0], [sep] + tail, sep);
      assert pieces[0] + [sep] + tail == pieces[0] + ([sep] + tail);
      assert ([sep] + tail)[1..] == tail;
      var after := SplitOn([sep] + tail, sep);
      assert after == [""] + SplitOn(tail, sep);
      assert after[0] == "" && after[1..] == pieces[1..];
      assert pieces[0] + "" == pieces[0];
      assert pieces == [pieces[0]] + pieces[1..];
    }
  }

  /** Python's `s.lstrip(chars)`: drops the longest prefix made of characters in `cs`. */
  function LStripChars(s: string, cs: set<char>): (r: string)
    ensures |r| <= |s| && r == s[|s| - |r|..]
    ensures forall k :: 0 <= k < |s| - |r| ==> s[k] in cs
    ensures r == [] || r[0] !in cs
    decreases |s|
  {
    if s != [] && s[0] in cs then LStripChars(s[1..], cs) else s
  }

  /** Python's `s.rstrip(chars)`: drops the longest suffix made of characters in `cs`. */
  function RStripChars(s: string, cs: set<char>): (r: string)
    ensures |r| <= |s| && r == s[..|r|]
    ensures forall k :: |r| <= k < |s| ==> s[k] in cs
    ensures r == [] || r[|r| - 1] !in cs
    decreases |s|
  {
    if s != [] && s[|s| - 1] in cs then RStripChars(s[..|s| - 1], cs) else s
  }

  /** Python's `s.strip(chars)`: drops leading and trailing characters in `cs`; the interior
      is untouched. */
  function StripChars(s: string, cs: set<char>): (r: string)
    ensures |r| <= |s|
    ensures r == [] || (r[0] !in cs && r[|r| - 1] !in cs)
  {
    RStripChars(LStripChars(s, cs), cs)
  }

  /** `x` with no stripped character at either edge, wrapped in stripped characters:
      `StripChars` returns exactly `x`. With `StripChars`' own ensures this says that
      it removes the edge characters in `cs` and nothing else. */
  lemma {:induction false} StripCharsExact(p: string, x: string, q: string, cs: set<char>)
    requires forall k :: 0 <= k < |p| ==> p[k] in cs
    requires forall k :: 0 <= k < |q| ==> q[k] in cs
    requires x == [] || (x[0] !in cs && x[|x| - 1] !in cs)
    ensures StripChars(p + x + q, cs) == x
  {
    if x == [] {
      assert p + x + q == p + q;
      forall k | 0 <= k < |p + q| ensures (p + q)[k] in cs {
        if k >= |p| { assert (p + q)[k] == q[k - |p|]; }
      }
      StripAllStripped(p + q, cs);
    } else {
      LStripOfPrefix(p, x + q, cs);
      assert p + x + q == p + (x + q);
      RStripOfSuffix(x, q, cs);
    }
  }

  /** A string made only of stripped characters strips to nothing. */
  lemma StripAllStripped(s: string, cs: set<char>)
    requires forall k :: 0 <= k < |s| ==> s[k] in cs
    ensures StripChars(s, cs) == []
  {
  }

  /** `LStripChars` drops a prefix of stripped characters and stops at the first kept one. */
  lemma {:induction false} LStripOfPrefix(p: string, y: string, cs: set<char>)
    requires forall k :: 0 <= k < |p| ==> p[k] in cs
    requires y != [] && y[0] !in cs
    ensures LStripChars(p + y, cs) == y
    decreases |p|
  {
    if p == [] {
      assert p + y == y;
    } else {
      assert (p + y)[1..] == p[1..] + y;
      LStripOfPrefix(p[1..], y, cs);
    }
  }

  /** `RStripChars` drops a suffix of stripped characters and stops at the last kept one. */
  lemma {:induction false} RStripOfSuffix(y: string, q: string, cs: set<char>)
    requires forall k :: 0 <= k < |q| ==> q[k] in cs
    requires y != [] && y[|y| - 1] !in cs
    ensures RStripChars(y + q, cs) == y
    decreases |q|
  {
    if q == [] {
      assert y + q == y;
    } else {
      assert (y + q)[..|y + q| - 1] == y + q[..|q| - 1];
      RStripOfSuffix(y, q[..|q| - 1], cs);
    }
  }

  /** The characters Python's `str.isspace` accepts, which `str.strip()` removes. */
  const Whitespace: set<char> := {
    '\t', '\n', '\U{B}', '\U{C}', '\r', '\U{1C}', '\U{1D}', '\U{1E}', '\U{1F}', ' ',
    '\U{85}', '\U{A0}', '\U{1680}',
    '\U{2000}', '\U{2001}', '\U{2002}', '\U{2003}', '\U{2004}', '\U{2005}', '\U{2006}',
    '\U{2007}', '\U{2008}', '\U{2009}', '\U{200A}',
    '\U{2028}', '\U{2029}', '\U{202F}', '\U{205F}', '\U{3000}'
  }

  /** Python's `s.strip()`: `StripChars` over the whitespace characters. */
  function Strip(s: string): (r: string)
    ensures |r| <= |s|
    ensures r == [] || (r[0] !in Whitespace && r[|r| - 1] !in Whitespace)
  {
    StripChars(s, Whitespace)
  }

  /** Stripping keeps the word and drops the spaces around it. */
  lemma StripExample()
    ensures Strip(" USA ") == "USA"
  {
    StripCharsExact(" ", "USA", " ", Whitespace);
    assert " " + "USA" + " " == " USA ";
  }
}
