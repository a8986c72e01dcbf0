/** String helpers shared by the Python and JavaScript parts: prefix and substring tests,
    whitespace trimming, and code-point ordering with a sort over a set of strings. */
module Strings {

  predicate StartsWith(s: string, prefix: string) {
    |prefix| <= |s| && s[..|prefix|] == prefix
  }

  predicate EndsWith(s: string, suffix: string) {
    |suffix| <= |s| && s[|s| - |suffix|..] == suffix
  }

  /** Python `sub in s` and JavaScript `s.includes(sub)`. */
  predicate Contains(s: string, sub: string) {
    exists i :: 0 <= i <= |s| - |sub| && StartsWith(s[i..], sub)
  }

  /** The characters Python's `str.strip()` removes (`str.isspace`). */
  predicate PySpace(c: char) {
    c == ' ' || ('\t' <= c <= '\r') || ('\U{1c}' <= c <= '\U{1f}') || c == '\U{85}'
    || c == '\U{a0}' || c == '\U{1680}' || ('\U{2000}' <= c <= '\U{200a}')
    || c == '\U{2028}' || c == '\U{2029}' || c == '\U{202f}' || c == '\U{205f}' || c == '\U{3000}'
  }

  /** The characters of JavaScript's `\s` class, which `String.prototype.trim` also removes. */
  predicate JsSpace(c: char) {
    c == ' ' || ('\t' <= c <= '\r') || c == '\U{a0}' || c == '\U{1680}'
    || ('\U{2000}' <= c <= '\U{200a}') || c == '\U{2028}' || c == '\U{2029}'
    || c == '\U{202f}' || c == '\U{205f}' || c == '\U{3000}' || c == '\U{feff}'
  }

  predicate AllSpace(s: string, space: char -> bool) {
    forall i :: 0 <= i < |s| ==> space(s[i])
  }

  /** Drops the leading spaces. */
  function TrimStart(s: string, space: char -> bool): string {
    if s != [] && space(s[0]) then TrimStart(s[1..], space) else s
  }

  /** Drops the trailing spaces. */
  function TrimEnd(s: string, space: char -> bool): string {
    if s != [] && space(s[|s| - 1]) then TrimEnd(s[..|s| - 1], space) else s
  }

  /** What `TrimStart` drops is a run of spaces, and what remains does not start with one. */
  lemma {:induction false} TrimStartSpec(s: string, space: char -> bool)
    ensures var r := TrimStart(s, space);
      |r| <= |s| && r == s[|s| - |r|..] && AllSpace(s[..|s| - |r|], space)
      && (r != [] ==> !space(r[0]))
    decreases |s|
  {
    if s != [] && space(s[0]) {
      TrimStartSpec(s[1..], space);
      var r := TrimStart(s, space);
      assert s[..|s| - |r|] == [s[0]] + s[1..][..|s| - 1 - |r|];
    }
  }

  /** What `TrimEnd` drops is a run of spaces, and what remains does not end with one. */
  lemma {:induction false} TrimEndSpec(s: string, space: char -> bool)
    ensures var r := TrimEnd(s, space);
      |r| <= |s| && r == s[..|r|] && AllSpace(s[|r|..], space)
      && (r != [] ==> !space(r[|r| - 1]))
    decreases |s|
  {
    if s != [] && space(s[|s| - 1]) {
      var s0 := s[..|s| - 1];
      TrimEndSpec(s0, space);
      var r := TrimEnd(s, space);
      assert s[|r|..] == s0[|r|..] + [s[|s| - 1]];
    }
  }

  /** Removes leading and trailing whitespace. */
  function Trim(s: string, space: char -> bool): string {
    TrimEnd(TrimStart(s, space), space)
  }

  /** The bounds of the slice that trimming keeps: it lies between a run of leading and a
      run of trailing spaces, and neither starts nor ends with a space. */
  lemma TrimBounds(s: string, space: char -> bool) returns (i: int, j: int)
    ensures 0 <= i <= j <= |s| && Trim(s, space) == s[i..j]
    ensures AllSpace(s[..i], space) && AllSpace(s[j..], space)
    ensures i < j ==> !space(s[i]) && !space(s[j - 1])
  {
    var t := TrimStart(s, space);
    var r := TrimEnd(t, space);
    TrimStartSpec(s, space);
    TrimEndSpec(t, space);
    i, j := |s| - |t|, |s| - |t| + |r|;
    assert r == s[i..j];
    assert s[j..] == t[|r|..];
  }

  /** The trimmed string is the slice of the input between a run of leading and a run
      of trailing spaces, and neither starts nor ends with a space. */
  lemma TrimSlice(s: string, space: char -> bool)
    ensures exists i, j ::
      (0 <= i <= j <= |s| && Trim(s, space) == s[i..j] && AllSpace(s[..i], space) && AllSpace(s[j..], space))
    ensures Trim(s, space) != [] ==> !space(Trim(s, space)[0]) && !space(Trim(s, space)[|Trim(s, space)| - 1])
  {
    var i, j := TrimBounds(s, space);
    var r := Trim(s, space);
    assert r != [] ==> r[0] == s[i] && r[|r| - 1] == s[j - 1];
  }

  /** Python `s.strip()`. */
  function PyStrip(s: string): string {
    Trim(s, PySpace)
  }

  // ----------------------------------------------------------------
  // Code-point order on strings (Python's `<` on `str`).
  // ----------------------------------------------------------------

  predicate StrLt(a: string, b: string)
    decreases |a|
  {
    if a == [] then b != []
    else if b == [] then false
    else if a[0] != b[0] then a[0] < b[0]
    else StrLt(a[1..], b[1..])
  }

  lemma {:induction false} StrLtIrreflexive(a: string)
    ensures !StrLt(a, a)
    decreases |a|
  {
    if a != [] {
      StrLtIrreflexive(a[1..]);
    }
  }

  lemma {:induction false} StrLtTransitive(a: string, b: string, c: string)
    requires StrLt(a, b) && StrLt(b, c)
    ensures StrLt(a, c)
    decreases |a|
  {
    if a != [] && b != [] && c != [] && a[0] == b[0] == c[0] {
      StrLtTransitive(a[1..], b[1..], c[1..]);
    }
  }

  lemma {:induction false} StrLtTotal(a: string, b: string)
    requires a != b
    ensures StrLt(a, b) || StrLt(b, a)
    decreases |a|
  {
    if a != [] && b != [] && a[0] == b[0] {
      assert a == [a[0]] + a[1..] && b == [b[0]] + b[1..];
      StrLtTotal(a[1..], b[1..]);
    }
  }

  /** Strictly ascending in code-point order. */
  predicate StrictlyAscending(r: seq<string>) {
    forall i, j :: 0 <= i < j < |r| ==> StrLt(r[i], r[j])
  }

  /** A common prefix keeps the order of what follows it. */
  lemma {:induction false} StrLtPrefix(p: string, a: string, b: string)
    requires StrLt(a, b)
    ensures StrLt(p + a, p + b)
    decreases |p|
  {
    if p == [] {
      assert p + a == a && p + b == b;
    } else {
      StrLtPrefix(p[1..], a, b);
      assert (p + a)[1..] == p[1..] + a && (p + b)[1..] == p[1..] + b;
    }
  }

  predicate IsLeast(m: string, s: set<string>) {
    m in s && forall y :: y in s && y != m ==> StrLt(m, y)
  }

  lemma {:induction false} LeastExists(s: set<string>)
    requires s != {}
    ensures exists m :: IsLeast(m, s)
    decreases s
  {
    var x :| x in s;
    if s != {x} {
      LeastExists(s - {x});
      var m :| IsLeast(m, s - {x});
      if StrLt(x, m) {
        forall y | y in s && y != x
          ensures StrLt(x, y)
        {
          if y != m {
            StrLtTransitive(x, m, y);
          }
        }
        assert IsLeast(x, s);
      } else {
        StrLtTotal(x, m);
        assert IsLeast(m, s);
      }
    } else {
      assert IsLeast(x, s);
    }
  }

  lemma LeastUnique(s: set<string>)
    ensures forall a, b :: IsLeast(a, s) && IsLeast(b, s) ==> a == b
  {
    forall a, b | IsLeast(a, s) && IsLeast(b, s)
      ensures a == b
    {
      if a != b {
        StrLtTransitive(a, b, a);
        StrLtIrreflexive(a);
      }
    }
  }

  /** The strings of a set in ascending code-point order: the least one first. */
  function SortedSet(s: set<string>): (r: seq<string>)
    ensures StrictlyAscending(r)
    ensures forall x :: x in s <==> x in r
    ensures |r| == |s|
    decreases s
  {
    if s == {} then []
    else
      LeastExists(s);
      LeastUnique(s);
      var m :| IsLeast(m, s);
      [m] + SortedSet(s - {m})
  }

  /** Two strictly ascending sequences holding the same strings are the same sequence. */
  lemma {:induction false} AscendingUnique(a: seq<string>, b: seq<string>)
    requires StrictlyAscending(a) && StrictlyAscending(b)
    requires forall x :: x in a <==> x in b
    ensures a == b
    decreases |a|
  {
    assert b != [] ==> b[0] in b;
    if a != [] {
      assert a[0] in a;
      assert b != [];
      if a[0] != b[0] {
        assert a[0] in b && b[0] in a;
        var j :| 0 <= j < |b| && b[j] == a[0];
        var i :| 0 <= i < |a| && a[i] == b[0];
        assert StrLt(b[0], a[0]) && StrLt(a[0], b[0]);
        StrLtTransitive(a[0], b[0], a[0]);
        StrLtIrreflexive(a[0]);
      }
      forall x
        ensures x in a[1..] <==> x in b[1..]
      {
        if x in a[1..] {
          var i :| 1 <= i < |a| && a[i] == x;
          assert StrLt(a[0], a[i]);
          StrLtIrreflexive(a[0]);
          assert x in a && x in b;
          var j :| 0 <= j < |b| && b[j] == x;
          assert j != 0;
        }
        if x in b[1..] {
          var j :| 1 <= j < |b| && b[j] == x;
          assert StrLt(b[0], b[j]);
          StrLtIrreflexive(b[0]);
          assert x in b && x in a;
          var i :| 0 <= i < |a| && a[i] == x;
          assert i != 0;
        }
      }
      AscendingUnique(a[1..], b[1..]);
      assert a == [a[0]] + a[1..] && b == [b[0]] + b[1..];
    }
  }

  /** Python `sorted(...)` of a collection of distinct strings: ascending by code point.
      JavaScript's default `Array.prototype.sort()` compares UTF-16 code units instead, and
      orders names the same way only while the first difference never sets a character
      above U+FFFF against one in U+E000..U+FFFF. */
  method SortStrings(s: set<string>) returns (r: seq<string>)
    ensures r == SortedSet(s)
    ensures StrictlyAscending(r)
    ensures forall x :: x in s <==> x in r
    ensures |r| == |s|
  {
    r := [];
    var rest := s;
    while rest != {}
      invariant StrictlyAscending(r)
      invariant forall x :: x in s <==> x in r || x in rest
      invariant forall x :: x in r ==> x !in rest
      invariant forall i, y :: 0 <= i < |r| && y in rest ==> StrLt(r[i], y)
      invariant |r| + |rest| == |s|
      decreases rest
    {
      LeastExists(rest);
      var m :| IsLeast(m, rest);
      r := r + [m];
      rest := rest - {m};
    }
    AscendingUnique(r, SortedSet(s));
  }
}
