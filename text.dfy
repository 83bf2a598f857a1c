/**
 * The .NET string operations the listings provider relies on, on `seq<char>`:
 * ordinal-ignore-case comparison, `char.IsWhiteSpace`, `string.Replace`,
 * `string.TrimStart(char)` and `string.Join`.
 */
module Text {
  import opened Wrappers

  /** The upper-case mapping of ordinal-ignore-case comparison, for ASCII letters. */
  function UpperChar(c: char): char {
    if 'a' <= c <= 'z' then (c as int - 32) as char else c
  }

  /** `s` with every character upper-cased. */
  function Fold(s: string): string {
    seq(|s|, i requires 0 <= i < |s| => UpperChar(s[i]))
  }

  /** `string.Equals(a, b, StringComparison.OrdinalIgnoreCase)` on non-null strings. */
  predicate EqualsIgnoreCase(a: string, b: string) {
    Fold(a) == Fold(b)
  }

  /** The same comparison on nullable strings: null is equal to null only. */
  predicate OptEqualsIgnoreCase(a: Option<string>, b: Option<string>) {
    match (a, b)
    case (None, None) => true
    case (Some(x), Some(y)) => EqualsIgnoreCase(x, y)
    case _ => false
  }

  /** `x == y` for an ordinal comparison, `EqualsIgnoreCase` for an ignore-case one. */
  predicate Matches(x: string, y: string, ignoreCase: bool) {
    if ignoreCase then EqualsIgnoreCase(x, y) else x == y
  }

  /** Two characters compare equal under the chosen comparison. */
  predicate CharMatches(a: char, b: char, ignoreCase: bool) {
    if ignoreCase then UpperChar(a) == UpperChar(b) else a == b
  }

  /** `pat` occurs in `s` at index `i`. */
  predicate OccursAt(s: string, pat: string, i: int, ignoreCase: bool) {
    0 <= i && i + |pat| <= |s| && Matches(s[i..i + |pat|], pat, ignoreCase)
  }

  /** `s.IndexOf(pat, comparison) != -1`. */
  predicate Occurs(s: string, pat: string, ignoreCase: bool) {
    exists i | 0 <= i <= |s| - |pat| :: OccursAt(s, pat, i, ignoreCase)
  }

  /** `s.StartsWith(p, StringComparison.OrdinalIgnoreCase)`. */
  predicate StartsWithIgnoreCase(s: string, p: string) {
    OccursAt(s, p, 0, true)
  }

  /** `s.EndsWith(p, StringComparison.OrdinalIgnoreCase)`. */
  predicate EndsWithIgnoreCase(s: string, p: string) {
    OccursAt(s, p, |s| - |p|, true)
  }

  /** `char.IsWhiteSpace`: the Unicode space, line and paragraph separators and U+0009..U+000D, U+0085. */
  predicate IsWhiteSpace(c: char) {
    c == ' ' || '\t' <= c <= '\r' || c == '\U{0085}' || c == '\U{00A0}' || c == '\U{1680}'
    || '\U{2000}' <= c <= '\U{200A}' || c == '\U{2028}' || c == '\U{2029}' || c == '\U{202F}'
    || c == '\U{205F}' || c == '\U{3000}'
  }

  /** Every character of `s` is white space (true of the empty string). */
  predicate IsBlank(s: string) {
    forall i | 0 <= i < |s| :: IsWhiteSpace(s[i])
  }

  /** `string.IsNullOrWhiteSpace`. */
  predicate IsNullOrWhiteSpace(s: Option<string>) {
    s.None? || IsBlank(s.value)
  }

  /** `string.IsNullOrEmpty`. */
  predicate IsNullOrEmpty(s: Option<string>) {
    s.None? || s.value == []
  }

  /** `s.TrimStart(c)`: the longest suffix of `s` that does not start with `c`. */
  function TrimStart(s: string, c: char): (r: string)
    ensures |r| <= |s| && r == s[|s| - |r|..]
    ensures r == [] || r[0] != c
    ensures forall i | 0 <= i < |s| - |r| :: s[i] == c
    decreases |s|
  {
    if |s| > 0 && s[0] == c then TrimStart(s[1..], c) else s
  }

  /** `s.TrimStart()`: the longest suffix of `s` that does not start with white space. */
  function TrimWhiteStart(s: string): (r: string)
    ensures |r| <= |s| && r == s[|s| - |r|..]
    ensures r == [] || !IsWhiteSpace(r[0])
    ensures forall i | 0 <= i < |s| - |r| :: IsWhiteSpace(s[i])
    decreases |s|
  {
    if |s| > 0 && IsWhiteSpace(s[0]) then TrimWhiteStart(s[1..]) else s
  }

  /** `s.TrimEnd()`: the longest prefix of `s` that does not end with white space. */
  function TrimWhiteEnd(s: string): (r: string)
    ensures |r| <= |s| && r == s[..|r|]
    ensures r == [] || !IsWhiteSpace(r[|r| - 1])
    ensures forall i | |r| <= i < |s| :: IsWhiteSpace(s[i])
    decreases |s|
  {
    if |s| > 0 && IsWhiteSpace(s[|s| - 1]) then TrimWhiteEnd(s[..|s| - 1]) else s
  }

  /** `s.Trim()`: white space removed from both ends. */
  function Trim(s: string): string {
    TrimWhiteEnd(TrimWhiteStart(s))
  }

  lemma {:induction false} TrimWhiteStartPadded(pad: string, x: string)
    requires IsBlank(pad) && (x == [] || !IsWhiteSpace(x[0]))
    ensures TrimWhiteStart(pad + x) == x
    decreases |pad|
  {
    if pad != [] {
      assert (pad + x)[1..] == pad[1..] + x;
      TrimWhiteStartPadded(pad[1..], x);
    } else {
      assert pad + x == x;
    }
  }

  lemma {:induction false} TrimWhiteEndPadded(x: string, pad: string)
    requires IsBlank(pad) && (x == [] || !IsWhiteSpace(x[|x| - 1]))
    ensures TrimWhiteEnd(x + pad) == x
    decreases |pad|
  {
    if pad != [] {
      var n := |pad| - 1;
      assert (x + pad)[..|x + pad| - 1] == x + pad[..n];
      TrimWhiteEndPadded(x, pad[..n]);
    } else {
      assert x + pad == x;
    }
  }

  /**
   * `Trim` takes off exactly white-space padding: a text that neither starts
   * nor ends with white space comes back unchanged, whatever blank padding
   * surrounds it.
   */
  lemma TrimPadded(before: string, x: string, after: string)
    requires IsBlank(before) && IsBlank(after)
    requires x != [] && !IsWhiteSpace(x[0]) && !IsWhiteSpace(x[|x| - 1])
    ensures Trim(before + x + after) == x
  {
    assert before + x + after == before + (x + after);
    TrimWhiteStartPadded(before, x + after);
    TrimWhiteEndPadded(x, after);
  }

  /**
   * `s.Replace(pat, rep, comparison)`: one left-to-right pass that replaces every
   * non-overlapping occurrence of `pat`. .NET throws for an empty `pat`.
   */
  function Replace(s: string, pat: string, rep: string, ignoreCase: bool): string
    requires pat != []
    decreases |s|
  {
    if |pat| <= |s| && Matches(s[..|pat|], pat, ignoreCase) then
      rep + Replace(s[|pat|..], pat, rep, ignoreCase)
    else if s == [] then []
    else [s[0]] + Replace(s[1..], pat, rep, ignoreCase)
  }

  /** `string.Join(sep, xs)`. */
  function Join(sep: string, xs: seq<string>): string {
    if |xs| == 0 then ""
    else if |xs| == 1 then xs[0]
    else xs[0] + sep + Join(sep, xs[1..])
  }

  lemma MatchesFirstChar(x: string, y: string, ignoreCase: bool)
    requires |x| == |y| > 0 && Matches(x, y, ignoreCase)
    ensures CharMatches(x[0], y[0], ignoreCase)
  {
    if ignoreCase {
      assert Fold(x)[0] == Fold(y)[0];
    }
  }

  /** A string in which `pat` does not occur is left as it is by `Replace`. */
  lemma {:induction false} ReplaceWithoutOccurrence(s: string, pat: string, rep: string, ignoreCase: bool)
    requires pat != [] && !Occurs(s, pat, ignoreCase)
    ensures Replace(s, pat, rep, ignoreCase) == s
    decreases |s|
  {
    if s != [] {
      assert !OccursAt(s, pat, 0, ignoreCase);
      if |pat| <= |s| {
        assert s[..|pat|] == s[0..0 + |pat|];
      }
      if Occurs(s[1..], pat, ignoreCase) {
        var i :| 0 <= i <= |s[1..]| - |pat| && OccursAt(s[1..], pat, i, ignoreCase);
        assert s[1..][i..i + |pat|] == s[i + 1..i + 1 + |pat|];
        assert OccursAt(s, pat, i + 1, ignoreCase);
        assert false;
      }
      ReplaceWithoutOccurrence(s[1..], pat, rep, ignoreCase);
    }
  }

  /**
   * When no character of `x` can start `pat`, the only occurrence of `pat` in
   * `x + pat` is the trailing one, and `Replace` turns it into `rep`.
   */
  lemma {:induction false} ReplaceTrailingPattern(x: string, pat: string, rep: string, ignoreCase: bool)
    requires pat != []
    requires forall i | 0 <= i < |x| :: !CharMatches(x[i], pat[0], ignoreCase)
    ensures Replace(x + pat, pat, rep, ignoreCase) == x + rep
    decreases |x|
  {
    var s := x + pat;
    if x == [] {
      assert s == pat && s[..|pat|] == pat && s[|pat|..] == [];
      assert Matches(s[..|pat|], pat, ignoreCase);
    } else {
      if Matches(s[..|pat|], pat, ignoreCase) {
        MatchesFirstChar(s[..|pat|], pat, ignoreCase);
        assert false;
      }
      assert s[0] == x[0] && s[1..] == x[1..] + pat;
      assert forall i | 0 <= i < |x[1..]| :: x[1..][i] == x[i + 1];
      ReplaceTrailingPattern(x[1..], pat, rep, ignoreCase);
      assert Replace(s, pat, rep, ignoreCase) == [x[0]] + Replace(x[1..] + pat, pat, rep, ignoreCase);
      assert x == [x[0]] + x[1..];
    }
  }
  /** When no character of `s` can start `pat`, `pat` does not occur in `s`. */
  lemma NoStartNoOccurrence(s: string, pat: string, ignoreCase: bool)
    requires pat != []
    requires forall i | 0 <= i < |s| :: !CharMatches(s[i], pat[0], ignoreCase)
    ensures !Occurs(s, pat, ignoreCase)
  {
    forall i | 0 <= i <= |s| - |pat|
      ensures !OccursAt(s, pat, i, ignoreCase)
    {
      if OccursAt(s, pat, i, ignoreCase) {
        MatchesFirstChar(s[i..i + |pat|], pat, ignoreCase);
      }
    }
  }

  /**
   * Replacing a single character by nothing removes every occurrence of it
   * and keeps every other character.
   */
  lemma {:induction false} ReplaceCharByNothing(s: string, c: char)
    ensures var r := Replace(s, [c], "", false);
      |r| <= |s| && forall x :: x in r <==> x in s && x != c
    decreases |s|
  {
    if s != [] {
      ReplaceCharByNothing(s[1..], c);
      assert s[..1] == [s[0]];
      assert forall x :: x in s <==> x == s[0] || x in s[1..];
    }
  }

  /** Removing one character works piecewise: the other characters keep their order. */
  lemma {:induction false} ReplaceCharByNothingConcat(a: string, b: string, c: char)
    ensures Replace(a + b, [c], "", false) == Replace(a, [c], "", false) + Replace(b, [c], "", false)
    decreases |a|
  {
    if a == [] {
      assert a + b == b;
    } else {
      assert (a + b)[..1] == a[..1] && (a + b)[1..] == a[1..] + b;
      ReplaceCharByNothingConcat(a[1..], b, c);
    }
  }
}
