/**
 * The few operations of Python's `str` that the scraper and the chart
 * builders rely on: whitespace stripping, case mapping, `find`, `count`,
 * slicing with negative indices and `str(int)`.
 */
module Text {

  /** Python's `str.isspace()` for one character. */
  predicate IsSpace(c: char) {
    c == ' ' || ('\t' <= c <= '\r') || ('\U{1C}' <= c <= '\U{1F}') || c == '\U{85}' || c == '\U{A0}'
    || c == '\U{1680}' || ('\U{2000}' <= c <= '\U{200A}') || c == '\U{2028}' || c == '\U{2029}'
    || c == '\U{202F}' || c == '\U{205F}' || c == '\U{3000}'
  }

  /** `s.lstrip()`: drops the leading whitespace. */
  function LStrip(s: string): (r: string)
    ensures |r| <= |s| && r == s[|s| - |r|..]
    ensures r == [] || !IsSpace(r[0])
    ensures forall i :: 0 <= i < |s| - |r| ==> IsSpace(s[i])
  {
    if s == [] || !IsSpace(s[0]) then s else LStrip(s[1..])
  }

  /** `s.rstrip()`: drops the trailing whitespace. */
  function RStrip(s: string): (r: string)
    ensures |r| <= |s| && r == s[..|r|]
    ensures r == [] || !IsSpace(r[|r| - 1])
    ensures forall i :: |r| <= i < |s| ==> IsSpace(s[i])
  {
    if s == [] || !IsSpace(s[|s| - 1]) then s else RStrip(s[..|s| - 1])
  }

  /** `s.strip()`. */
  function Strip(s: string): (r: string)
    ensures |r| <= |s|
    ensures r == [] || (!IsSpace(r[0]) && !IsSpace(r[|r| - 1]))
  {
    RStrip(LStrip(s))
  }

  /** A character that is not whitespace survives stripping of a string that contains it. */
  lemma {:induction false} StripKeepsNonSpace(s: string, i: nat)
    requires i < |s| && !IsSpace(s[i])
    ensures Strip(s) != []
  {
    var l := LStrip(s);
    assert |s| - |l| <= i;
    assert l[i - (|s| - |l|)] == s[i];
    var r := RStrip(l);
    assert i - (|s| - |l|) < |r|;
  }

  /**
   * Python's `str.lower()` on the Latin-1 range: A-Z and the accented
   * capitals U+00C0..U+00DE (except the multiplication sign) move up by 32.
   */
  function LowerChar(c: char): (r: char)
    ensures IsSpace(r) <==> IsSpace(c)
  {
    if ('A' <= c <= 'Z') || ('\U{C0}' <= c <= '\U{DE}' && c != '\U{D7}') then (c as int + 32) as char else c
  }

  /**
   * Python's `str.upper()` on one Latin-1 character. a-z and U+00E0..U+00FE
   * (except the division sign) move down by 32, undoing LowerChar. Three
   * letters have their capital outside that pattern: the sharp s U+00DF
   * becomes the two letters "SS", the micro sign U+00B5 the Greek capital
   * mu U+039C, and y with diaeresis U+00FF the capital U+0178.
   */
  function UpperChar(c: char): (r: string)
    ensures 1 <= |r| <= 2 && (|r| == 2 <==> c == '\U{DF}')
    ensures forall i :: 0 <= i < |r| ==> (IsSpace(r[i]) <==> IsSpace(c))
  {
    if c == '\U{DF}' then "SS"
    else if c == '\U{B5}' then "\U{39C}"
    else if c == '\U{FF}' then "\U{178}"
    else if ('a' <= c <= 'z') || ('\U{E0}' <= c <= '\U{FE}' && c != '\U{F7}') then [(c as int - 32) as char]
    else [c]
  }

  function Lower(s: string): (r: string)
    ensures |r| == |s| && forall i :: 0 <= i < |s| ==> r[i] == LowerChar(s[i])
  {
    seq(|s|, i requires 0 <= i < |s| => LowerChar(s[i]))
  }

  /**
   * Python's `str.upper()`: the upper case of each character, in order. It
   * keeps the length, one character for one, unless the text has a sharp s.
   */
  function Upper(s: string): (r: string)
    ensures |s| <= |r| <= 2 * |s|
    ensures '\U{DF}' !in s ==> |r| == |s| && forall i :: 0 <= i < |s| ==> [r[i]] == UpperChar(s[i])
    ensures '\U{DF}' in s ==> |r| > |s|
  {
    if s == [] then []
    else
      var r := UpperChar(s[0]) + Upper(s[1..]);
      assert forall i :: 1 <= i < |s| ==> s[1..][i - 1] == s[i];
      assert '\U{DF}' in s <==> s[0] == '\U{DF}' || '\U{DF}' in s[1..];
      r
  }

  /** Upper-casing a concatenation upper-cases each part. */
  lemma {:induction false} UpperAppend(a: string, b: string)
    ensures Upper(a + b) == Upper(a) + Upper(b)
  {
    if a == [] {
      assert a + b == b;
    } else {
      assert (a + b)[0] == a[0] && (a + b)[1..] == a[1..] + b;
      UpperAppend(a[1..], b);
      assert Upper(a + b) == UpperChar(a[0]) + Upper(a[1..] + b);
    }
  }

  /** Upper-casing undoes a lower-casing: `s.lower().upper() == s.upper()`. */
  lemma {:induction false} UpperOfLower(s: string)
    ensures Upper(Lower(s)) == Upper(s)
  {
    if s != [] {
      assert Lower(s)[1..] == Lower(s[1..]);
      assert UpperChar(LowerChar(s[0])) == UpperChar(s[0]);
      UpperOfLower(s[1..]);
    }
  }

  /** `sub` occurs in `s` starting at index `i`. */
  predicate OccursAt(s: string, sub: string, i: int) {
    0 <= i && i + |sub| <= |s| && s[i..i + |sub|] == sub
  }

  function FindFrom(s: string, sub: string, i: nat): (r: int)
    requires i <= |s|
    decreases |s| - i
    ensures r == -1 || (i <= r && OccursAt(s, sub, r))
    ensures forall j :: i <= j && (r == -1 || j < r) ==> !OccursAt(s, sub, j)
  {
    if i + |sub| > |s| then -1
    else if s[i..i + |sub|] == sub then i
    else if i == |s| then -1
    else FindFrom(s, sub, i + 1)
  }

  /** Python's `s.find(sub)`: the lowest index where `sub` occurs, or -1. */
  function Find(s: string, sub: string): (r: int)
    ensures r == -1 || OccursAt(s, sub, r)
    ensures forall j :: 0 <= j && (r == -1 || j < r) ==> !OccursAt(s, sub, j)
  {
    FindFrom(s, sub, 0)
  }

  function CountFrom(s: string, sub: string, i: nat): nat
    requires |sub| > 0 && i <= |s|
    decreases |s| - i
  {
    if i + |sub| > |s| then 0
    else if s[i..i + |sub|] == sub then 1 + CountFrom(s, sub, i + |sub|)
    else CountFrom(s, sub, i + 1)
  }

  /**
   * Python's `s.count(sub)`: the number of non-overlapping occurrences,
   * found left to right; `len(s) + 1` for the empty `sub`.
   */
  function Count(s: string, sub: string): nat {
    if |sub| == 0 then |s| + 1 else CountFrom(s, sub, 0)
  }

  lemma {:induction false} CountFromBound(s: string, sub: string, i: nat)
    requires |sub| > 0 && i <= |s|
    decreases |s| - i
    ensures CountFrom(s, sub, i) * |sub| <= |s| - i
  {
    if i + |sub| > |s| {
    } else if s[i..i + |sub|] == sub {
      CountFromBound(s, sub, i + |sub|);
    } else {
      CountFromBound(s, sub, i + 1);
    }
  }

  lemma {:induction false} CountFromFind(s: string, sub: string, i: nat)
    requires |sub| > 0 && i <= |s|
    decreases |s| - i
    ensures CountFrom(s, sub, i) > 0 <==> FindFrom(s, sub, i) >= 0
  {
    if i + |sub| > |s| {
    } else if s[i..i + |sub|] == sub {
    } else {
      CountFromFind(s, sub, i + 1);
    }
  }

  /** Non-overlapping occurrences of a non-empty `sub` cover at most `|s|` characters. */
  lemma CountBound(s: string, sub: string)
    requires |sub| > 0
    ensures Count(s, sub) * |sub| <= |s|
  {
    CountFromBound(s, sub, 0);
  }

  /** `count` finds something exactly when `find` does. */
  lemma CountPositiveIffFound(s: string, sub: string)
    requires |sub| > 0
    ensures Count(s, sub) > 0 <==> Find(s, sub) >= 0
  {
    CountFromFind(s, sub, 0);
  }

  /** Normalises a Python slice bound against the length `n`. */
  function SliceBound(i: int, n: nat): (r: nat)
    ensures r <= n
    ensures 0 <= i <= n ==> r == i
    ensures -(n as int) <= i < 0 ==> r == n + i
  {
    if i < 0 then (if i + n < 0 then 0 else i + n) else if i > n then n else i
  }

  /** Python's `s[a:b]`, negative bounds counting from the end. */
  function PySlice(s: string, a: int, b: int): (r: string)
    ensures |r| <= |s|
  {
    var lo := SliceBound(a, |s|);
    var hi := SliceBound(b, |s|);
    if lo < hi then s[lo..hi] else []
  }

  function Digit(d: nat): char
    requires d < 10
  {
    "0123456789"[d]
  }

  function NatToString(n: nat): (r: string)
    ensures |r| >= 1
    ensures n >= 10 <==> |r| >= 2
    ensures r[0] != '-'
  {
    if n < 10 then [Digit(n)] else NatToString(n / 10) + [Digit(n % 10)]
  }

  /** Python's `str(i)` for an integer. */
  function IntToString(i: int): (r: string)
    ensures |r| >= 1 && (r[0] == '-' <==> i < 0)
  {
    if i < 0 then "-" + NatToString(-i) else NatToString(i)
  }

  lemma {:induction false} NatToStringInjective(n: nat, m: nat)
    requires NatToString(n) == NatToString(m)
    ensures n == m
  {
    if n >= 10 && m >= 10 {
      var a, b := NatToString(n), NatToString(m);
      assert a[|a| - 1] == b[|b| - 1];
      assert Digit(n % 10) == Digit(m % 10);
      assert a[..|a| - 1] == NatToString(n / 10);
      assert b[..|b| - 1] == NatToString(m / 10);
      NatToStringInjective(n / 10, m / 10);
    } else if n < 10 && m < 10 {
      assert Digit(n) == Digit(m);
    }
  }

  /** Distinct years get distinct keys in the rendered menu and chart titles. */
  lemma IntToStringInjective(i: int, j: int)
    requires IntToString(i) == IntToString(j)
    ensures i == j
  {
    if i < 0 && j < 0 {
      assert NatToString(-i) == IntToString(i)[1..];
      assert NatToString(-j) == IntToString(j)[1..];
      NatToStringInjective(-i, -j);
    } else if i >= 0 && j >= 0 {
      NatToStringInjective(i, j);
    }
  }
}
