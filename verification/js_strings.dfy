/**
 * The JavaScript string built-ins that the home page relies on, stated over
 * `string` (a sequence of Unicode scalar values): counting the matches of a
 * one-character global regular expression, `String.prototype.split` with a
 * one-character separator, `Array.prototype.join`, `String.prototype.trimEnd`
 * and the `length` property, which counts UTF-16 code units.
 */
module JsStrings {

  /** The number of occurrences of `c` in `s`: `(s.match(/c/g) || []).length`. */
  function Count(s: string, c: char): nat
  {
    if s == [] then 0 else (if s[0] == c then 1 else 0) + Count(s[1..], c)
  }

  /** The match count is the multiplicity of `c` in `s`, and it adds up over concatenation. */
  lemma {:induction false} CountIsMultiplicity(s: string, c: char)
    ensures Count(s, c) == multiset(s)[c]
  {
    if s != [] {
      CountIsMultiplicity(s[1..], c);
      assert s == [s[0]] + s[1..];
    }
  }

  lemma CountAppend(a: string, b: string, c: char)
    ensures Count(a + b, c) == Count(a, c) + Count(b, c)
  {
    CountIsMultiplicity(a, c);
    CountIsMultiplicity(b, c);
    CountIsMultiplicity(a + b, c);
  }

  lemma {:induction false} CountZero(s: string, c: char)
    ensures Count(s, c) == 0 <==> c !in s
  {
    if s != [] {
      CountZero(s[1..], c);
      assert s == [s[0]] + s[1..];
    }
  }

  /**
   * `parts.join(c)`: the first part comes first, and joining parts free of
   * the separator puts exactly one separator between neighbours.
   */
  function Join(parts: seq<string>, c: char): (r: string)
    ensures |parts| > 0 ==> parts[0] <= r
    ensures (forall i :: 0 <= i < |parts| ==> c !in parts[i]) ==>
      Count(r, c) == if parts == [] then 0 else |parts| - 1
  {
    if parts == [] then []
    else
      CountZero(parts[0], c);
      if |parts| == 1 then parts[0]
      else
        var rest := Join(parts[1..], c);
        CountAppend(parts[0] + [c], rest, c);
        CountAppend(parts[0], [c], c);
        parts[0] + [c] + rest
  }

  /**
   * `s.split(c)`: the maximal pieces of `s` between occurrences of `c`; the
   * empty string splits into one empty piece.
   */
  function SplitOn(s: string, c: char): (parts: seq<string>)
    ensures |parts| == Count(s, c) + 1
    ensures forall i :: 0 <= i < |parts| ==> c !in parts[i]
  {
    if s == [] then [[]]
    else
      var rest := SplitOn(s[1..], c);
      if s[0] == c then [[]] + rest
      else [[s[0]] + rest[0]] + rest[1..]
  }

  /** Splitting and joining again gives back the original string. */
  lemma {:induction false} JoinSplit(s: string, c: char)
    ensures Join(SplitOn(s, c), c) == s
  {
    if s != [] {
      var rest := SplitOn(s[1..], c);
      JoinSplit(s[1..], c);
      if s[0] == c {
        assert SplitOn(s, c)[1..] == rest;
      } else {
        var parts := SplitOn(s, c);
        assert parts[1..] == rest[1..];
        if |rest| == 1 {
          assert Join(parts, c) == [s[0]] + rest[0];
        } else {
          assert Join(parts, c) == [s[0]] + rest[0] + [c] + Join(rest[1..], c);
        }
        assert s == [s[0]] + s[1..];
      }
    }
  }

  /** A string without the separator splits into itself alone. */
  lemma SplitWithoutSeparator(s: string, c: char)
    requires c !in s
    ensures SplitOn(s, c) == [s]
  {
    CountZero(s, c);
    JoinSplit(s, c);
  }

  /**
   * A string with exactly one separator splits into the text before it and
   * the text after it, neither of which contains the separator.
   */
  lemma SplitAtOnlySeparator(s: string, c: char)
    requires Count(s, c) == 1
    ensures var parts := SplitOn(s, c);
      |parts| == 2 && s == parts[0] + [c] + parts[1] && c !in parts[0] && c !in parts[1]
  {
    var parts := SplitOn(s, c);
    JoinSplit(s, c);
    assert Join(parts[1..], c) == parts[1];
  }

  /**
   * The characters `trimEnd` removes: ECMAScript WhiteSpace (tab, vertical
   * tab, form feed, space, no-break space, the byte order mark and every
   * Unicode space separator) and LineTerminator (line feed, carriage return,
   * line and paragraph separators).
   */
  predicate IsWhiteSpace(ch: char)
  {
    || '\U{0009}' <= ch <= '\U{000D}'
    || ch == '\U{0020}' || ch == '\U{00A0}' || ch == '\U{1680}'
    || '\U{2000}' <= ch <= '\U{200A}'
    || ch == '\U{2028}' || ch == '\U{2029}' || ch == '\U{202F}' || ch == '\U{205F}'
    || ch == '\U{3000}' || ch == '\U{FEFF}'
  }

  /**
   * `s.trimEnd()`: the longest prefix of `s` that does not end in white
   * space; everything cut off is white space.
   */
  function TrimEnd(s: string): (r: string)
    ensures r <= s
    ensures forall i :: |r| <= i < |s| ==> IsWhiteSpace(s[i])
    ensures r == [] || !IsWhiteSpace(r[|r| - 1])
  {
    if s != [] && IsWhiteSpace(s[|s| - 1]) then TrimEnd(s[..|s| - 1]) else s
  }

  /** Trimming twice trims no more than trimming once. */
  lemma TrimEndIdempotent(s: string)
    ensures TrimEnd(TrimEnd(s)) == TrimEnd(s)
  {
  }

  /** The number of UTF-16 code units of `s`: JavaScript's `s.length`. */
  function Utf16Length(s: string): (n: nat)
    ensures |s| <= n <= 2 * |s|
    ensures n == 0 <==> s == []
  {
    if s == [] then 0
    else (if s[0] as int > 0xFFFF then 2 else 1) + Utf16Length(s[1..])
  }
}
