/**
 * The JavaScript string built-ins the portal's rules rely on, over Dafny strings
 * (sequences of Unicode scalar values): the `\s` class and `trim()`, the length of
 * `split(/\s+/)`, `toLowerCase()`, `includes()`, `.length` in UTF-16 code units,
 * and the decimal rendering of a number inside a template literal.
 */
module Strings {

  /** ECMAScript WhiteSpace and LineTerminator code points: what `\s` matches and `trim()` removes. */
  predicate IsSpace(c: char) {
    c == '\t' || c == '\n' || c == '\U{000B}' || c == '\U{000C}' || c == '\r' || c == ' '
    || c == '\U{00A0}' || c == '\U{1680}' || ('\U{2000}' <= c <= '\U{200A}')
    || c == '\U{2028}' || c == '\U{2029}' || c == '\U{202F}' || c == '\U{205F}'
    || c == '\U{3000}' || c == '\U{FEFF}'
  }

  ghost predicate AllSpace(s: string) {
    forall i :: 0 <= i < |s| ==> IsSpace(s[i])
  }

  // ---------------------------------------------------------------- trim()

  function TrimStart(s: string): string {
    if s != [] && IsSpace(s[0]) then TrimStart(s[1..]) else s
  }

  function TrimEnd(s: string): string {
    if s != [] && IsSpace(s[|s| - 1]) then TrimEnd(s[..|s| - 1]) else s
  }

  /** `s.trim()`: `s` without its leading and trailing whitespace. */
  function Trim(s: string): string {
    TrimEnd(TrimStart(s))
  }

  /** JavaScript's `!s.trim()`: the text is empty or whitespace only. */
  predicate IsBlank(s: string) {
    Trim(s) == []
  }

  /** `trimStart()` removes an all-whitespace prefix and stops at a non-whitespace character. */
  lemma {:induction false} TrimStartSpec(s: string)
    ensures var r := TrimStart(s);
      |r| <= |s| && r == s[|s| - |r|..] && AllSpace(s[..|s| - |r|]) && (r == [] || !IsSpace(r[0]))
  {
    if s != [] && IsSpace(s[0]) {
      TrimStartSpec(s[1..]);
      var r := TrimStart(s[1..]);
      assert s[..|s| - |r|] == [s[0]] + s[1..][..|s| - 1 - |r|];
    }
  }

  /** `trimEnd()` removes an all-whitespace suffix and stops at a non-whitespace character. */
  lemma {:induction false} TrimEndSpec(s: string)
    ensures var r := TrimEnd(s);
      |r| <= |s| && r == s[..|r|] && AllSpace(s[|r|..]) && (r == [] || !IsSpace(r[|r| - 1]))
  {
    if s != [] && IsSpace(s[|s| - 1]) {
      TrimEndSpec(s[..|s| - 1]);
      var r := TrimEnd(s[..|s| - 1]);
      assert s[|r|..] == s[..|s| - 1][|r|..] + [s[|s| - 1]];
    }
  }

  /** `r` is `s` with the all-whitespace prefix `s[..i]` and an all-whitespace suffix removed. */
  ghost predicate Framed(s: string, r: string, i: int) {
    0 <= i <= |s| - |r| && r == s[i..i + |r|] && AllSpace(s[..i]) && AllSpace(s[i + |r|..])
  }

  /**
   * `trim()` removes exactly the leading and trailing whitespace: what is left is a
   * slice of `s` between two all-whitespace pieces, and starts and ends with a
   * non-whitespace character unless it is empty, which happens only for blank text.
   */
  lemma TrimSpec(s: string)
    ensures exists i :: Framed(s, Trim(s), i)
    ensures Trim(s) == [] || (!IsSpace(Trim(s)[0]) && !IsSpace(Trim(s)[|Trim(s)| - 1]))
    ensures IsBlank(s) <==> AllSpace(s)
  {
    var t := TrimStart(s);
    var r := TrimEnd(t);
    TrimStartSpec(s);
    TrimEndSpec(t);
    var i := |s| - |t|;
    assert Trim(s) == r;
    assert s[i + |r|..] == t[|r|..];
    assert Framed(s, r, i);
    if r == [] {
      assert s == s[..i] + s[i..];
    } else {
      assert s[i] == r[0];
    }
  }

  // ------------------------------------------------- words and split(/\s+/)

  /**
   * Number of maximal runs in `s` of characters whose whitespace class is `space`.
   * `after` says whether the character just before `s` already belongs to such a run.
   */
  function Runs(s: string, space: bool, after: bool): nat
  {
    if s == [] then 0
    else (if IsSpace(s[0]) == space && !after then 1 else 0) + Runs(s[1..], space, IsSpace(s[0]) == space)
  }

  /** The number of words of `s`: maximal runs of non-whitespace characters. */
  function WordCount(s: string): nat {
    Runs(s, false, false)
  }

  /** `s.split(/\s+/).length`: one piece more than there are whitespace runs (so `""` gives 1). */
  function SplitLength(s: string): (n: nat)
    ensures n >= 1
  {
    1 + Runs(s, true, false)
  }

  lemma {:induction false} NoRunsIffAllOther(s: string, space: bool, after: bool)
    requires !after
    ensures Runs(s, space, after) == 0 <==> forall i :: 0 <= i < |s| ==> IsSpace(s[i]) != space
  {
    if s != [] {
      if IsSpace(s[0]) == space {
        assert Runs(s, space, after) >= 1;
      } else {
        NoRunsIffAllOther(s[1..], space, false);
        assert forall i :: 1 <= i < |s| ==> s[i] == s[1..][i - 1];
      }
    }
  }

  /** A text is blank exactly when it has no words. */
  lemma BlankIffNoWords(s: string)
    ensures IsBlank(s) <==> WordCount(s) == 0
  {
    TrimSpec(s);
    NoRunsIffAllOther(s, false, false);
  }

  /** Word runs and whitespace runs alternate; in a text that ends inside a word they differ by the leading run. */
  lemma {:induction false} RunsAlternate(s: string, w: bool)
    requires s != [] && !IsSpace(s[|s| - 1])
    ensures Runs(s, false, w) == Runs(s, true, !w) + (if w then 0 else 1)
  {
    if |s| > 1 {
      RunsAlternate(s[1..], !IsSpace(s[0]));
    }
  }

  lemma {:induction false} TrimStartKeepsWords(s: string)
    ensures Runs(TrimStart(s), false, false) == Runs(s, false, false)
  {
    if s != [] && IsSpace(s[0]) {
      TrimStartKeepsWords(s[1..]);
    }
  }

  lemma {:induction false} TrailingSpaceKeepsWords(s: string, c: char, after: bool)
    requires IsSpace(c)
    ensures Runs(s + [c], false, after) == Runs(s, false, after)
  {
    if s != [] {
      assert (s + [c])[1..] == s[1..] + [c];
      TrailingSpaceKeepsWords(s[1..], c, !IsSpace(s[0]));
    }
  }

  lemma {:induction false} TrimEndKeepsWords(s: string)
    ensures Runs(TrimEnd(s), false, false) == Runs(s, false, false)
  {
    if s != [] && IsSpace(s[|s| - 1]) {
      TrimEndKeepsWords(s[..|s| - 1]);
      assert s == s[..|s| - 1] + [s[|s| - 1]];
      TrailingSpaceKeepsWords(s[..|s| - 1], s[|s| - 1], false);
    }
  }

  /** Trimming does not change the number of words. */
  lemma TrimKeepsWords(s: string)
    ensures WordCount(Trim(s)) == WordCount(s)
  {
    TrimStartKeepsWords(s);
    TrimEndKeepsWords(TrimStart(s));
  }

  /**
   * On a text that is not blank, `text.trim().split(/\s+/).length` is its number of words.
   * (On a blank text it is 1, which is why the source guards it.)
   */
  lemma SplitLengthCountsWords(s: string)
    requires !IsBlank(s)
    ensures SplitLength(Trim(s)) == WordCount(s)
  {
    var t := Trim(s);
    TrimSpec(s);
    TrimKeepsWords(s);
    RunsAlternate(t, false);
  }

  /** Appending text never lowers the number of words. */
  lemma {:induction false} AppendKeepsWords(s: string, t: string, after: bool)
    ensures Runs(s + t, false, after) >= Runs(s, false, after)
  {
    if s != [] {
      assert (s + t)[1..] == s[1..] + t;
      AppendKeepsWords(s[1..], t, !IsSpace(s[0]));
    }
  }

  // ------------------------------------------------------------ toLowerCase()

  /** `toLowerCase()` on one character, for Latin A-Z and the Cyrillic capitals U+0400-U+042F. */
  function ToLowerChar(c: char): char {
    if 'A' <= c <= 'Z' then (c as int + 32) as char
    else if '\U{0410}' <= c <= '\U{042F}' then (c as int + 32) as char
    else if '\U{0400}' <= c <= '\U{040F}' then (c as int + 80) as char
    else c
  }

  function ToLower(s: string): string {
    seq(|s|, i requires 0 <= i < |s| => ToLowerChar(s[i]))
  }

  /** Lower-casing is idempotent. */
  lemma LowerIdempotent(s: string)
    ensures ToLower(ToLower(s)) == ToLower(s)
  {
  }

  /** Lower-casing commutes with concatenation. */
  lemma LowerAppend(s: string, t: string)
    ensures ToLower(s + t) == ToLower(s) + ToLower(t)
  {
    assert forall i :: 0 <= i < |s + t| ==> ToLower(s + t)[i] == (ToLower(s) + ToLower(t))[i];
  }

  /** A string of lower-case Cyrillic letters is a fixed point of lower-casing. */
  lemma LowerCyrillicFixed(w: string)
    requires forall i :: 0 <= i < |w| ==> '\U{0430}' <= w[i] <= '\U{044F}'
    ensures ToLower(w) == w
  {
  }

  // ------------------------------------------------------------- includes()

  /** `w` occurs in `s` as a contiguous substring. */
  ghost predicate Contains(s: string, w: string) {
    exists i :: OccursAt(s, w, i)
  }

  /** `w` occurs in `s` starting at position `i`. */
  ghost predicate OccursAt(s: string, w: string, i: int) {
    0 <= i <= |s| - |w| && s[i..i + |w|] == w
  }

  /** `s.includes(w)`: tries every start position from the left. */
  function Includes(s: string, w: string): bool
    decreases |s|
  {
    if |w| > |s| then false
    else if s[..|w|] == w then true
    else Includes(s[1..], w)
  }

  /** An occurrence past the first position is an occurrence in the tail. */
  lemma OccursAtShift(s: string, w: string, i: int)
    requires s != [] && 1 <= i
    ensures OccursAt(s, w, i) <==> OccursAt(s[1..], w, i - 1)
  {
    if 0 <= i - 1 <= |s[1..]| - |w| {
      assert s[1..][i - 1..i - 1 + |w|] == s[i..i + |w|];
    }
  }

  /** `includes` answers whether `w` occurs somewhere in `s`. */
  lemma {:induction false} IncludesIffContains(s: string, w: string)
    ensures Includes(s, w) <==> Contains(s, w)
    decreases |s|
  {
    if |w| > |s| {
    } else if s[..|w|] == w {
      assert OccursAt(s, w, 0);
    } else {
      IncludesIffContains(s[1..], w);
      if Contains(s, w) {
        var i :| OccursAt(s, w, i);
        assert i != 0;
        OccursAtShift(s, w, i);
      }
      if Contains(s[1..], w) {
        var i :| OccursAt(s[1..], w, i);
        OccursAtShift(s, w, i + 1);
      }
    }
  }

  /** Any string contains the empty string. */
  lemma ContainsEmpty(s: string)
    ensures Contains(s, "")
  {
    assert OccursAt(s, "", 0);
  }

  /** An occurrence survives appending more text. */
  lemma ContainsAppend(s: string, t: string, w: string)
    requires Contains(s, w)
    ensures Contains(s + t, w)
  {
    var i :| OccursAt(s, w, i);
    assert OccursAt(s + t, w, i);
  }

  /** Every character of an occurring word is a character of the text. */
  lemma ContainsKeepsChar(s: string, w: string, c: char)
    requires Contains(s, w) && c in w
    ensures c in s
  {
    var i :| OccursAt(s, w, i);
    var j :| 0 <= j < |w| && w[j] == c;
    assert s[i + j] == s[i..i + |w|][j];
  }

  /** Lower-casing maps an occurrence of `w` in `s` to an occurrence of lower-cased `w`. */
  lemma LowerKeepsContains(s: string, w: string)
    requires Contains(s, w)
    ensures Contains(ToLower(s), ToLower(w))
  {
    var i :| OccursAt(s, w, i);
    assert ToLower(s)[i..i + |w|] == ToLower(w);
    assert OccursAt(ToLower(s), ToLower(w), i);
  }

  // ---------------------------------------------------------------- .length

  /** `s.length` in JavaScript: UTF-16 code units, two for a code point above U+FFFF. */
  function Utf16Length(s: string): (n: nat)
    ensures |s| <= n <= 2 * |s|
    ensures n == |s| <==> forall i :: 0 <= i < |s| ==> s[i] as int <= 0xFFFF
  {
    if s == [] then 0
    else
      var n := (if s[0] as int > 0xFFFF then 2 else 1) + Utf16Length(s[1..]);
      assert forall i :: 1 <= i < |s| ==> s[i] == s[1..][i - 1];
      n
  }

  // --------------------------------------------------------- `${n}` of a nat

  function Digit(d: nat): (c: char)
    requires d < 10
    ensures '0' <= c <= '9'
  {
    ('0' as int + d) as char
  }

  function DigitValue(c: char): int {
    c as int - '0' as int
  }

  /** The decimal rendering of a non-negative number, without leading zeros. */
  function NatToString(n: nat): string {
    if n < 10 then [Digit(n)] else NatToString(n / 10) + [Digit(n % 10)]
  }

  /** The rendering is a non-empty string of digits without a leading zero. */
  lemma {:induction false} NatToStringDigits(n: nat)
    ensures var s := NatToString(n);
      |s| >= 1 && (forall i :: 0 <= i < |s| ==> '0' <= s[i] <= '9') && (|s| > 1 ==> s[0] != '0')
  {
    if n >= 10 {
      NatToStringDigits(n / 10);
    }
  }

  /** The number a string of decimal digits denotes. */
  function DecimalValue(s: string): int {
    if s == [] then 0 else 10 * DecimalValue(s[..|s| - 1]) + DigitValue(s[|s| - 1])
  }

  /** Reading back the rendered digits gives the number. */
  lemma {:induction false} NatToStringRoundTrip(n: nat)
    ensures DecimalValue(NatToString(n)) == n
  {
    if n >= 10 {
      NatToStringRoundTrip(n / 10);
      var s := NatToString(n);
      assert s[..|s| - 1] == NatToString(n / 10);
    }
  }
}
