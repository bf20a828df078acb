/**
 * Python's `str.strip()` (no argument) and `str.splitlines()`, restricted to
 * what the price fetcher needs: the first line of the stripped page text.
 *
 * Whitespace is exactly the set of characters for which Python's
 * `str.isspace()` holds; line breaks are exactly the boundaries that
 * `str.splitlines()` splits on (with "\r\n" taken as one boundary).
 */
module TextLines {
  import opened Wrappers

  /** `c.isspace()` in Python 3. */
  predicate IsWhitespace(c: char)
  {
    || c == ' ' || c == '\t' || c == '\n' || c == '\r'
    || c == '\U{000B}' || c == '\U{000C}'
    || ('\U{001C}' <= c <= '\U{001F}')
    || c == '\U{0085}' || c == '\U{00A0}' || c == '\U{1680}'
    || ('\U{2000}' <= c <= '\U{200A}')
    || c == '\U{2028}' || c == '\U{2029}' || c == '\U{202F}' || c == '\U{205F}'
    || c == '\U{3000}'
  }

  /** A line boundary of `str.splitlines()`; every one of them is whitespace. */
  predicate IsLineBreak(c: char)
    ensures IsLineBreak(c) ==> IsWhitespace(c)
  {
    || c == '\n' || c == '\r'
    || c == '\U{000B}' || c == '\U{000C}'
    || c == '\U{001C}' || c == '\U{001D}' || c == '\U{001E}'
    || c == '\U{0085}' || c == '\U{2028}' || c == '\U{2029}'
  }

  predicate AllWhitespace(s: string)
  {
    forall i :: 0 <= i < |s| ==> IsWhitespace(s[i])
  }

  predicate HasNoLineBreak(s: string)
  {
    forall i :: 0 <= i < |s| ==> !IsLineBreak(s[i])
  }

  /** Length of the longest all-whitespace prefix of `s`. */
  function LeadingWhitespace(s: string): (n: nat)
    ensures n <= |s|
    ensures AllWhitespace(s[..n])
    ensures n < |s| ==> !IsWhitespace(s[n])
  {
    if s == [] || !IsWhitespace(s[0]) then 0
    else
      1 + LeadingWhitespace(s[1..])
  }

  /** Length of the longest all-whitespace suffix of `s`. */
  function TrailingWhitespace(s: string): (n: nat)
    ensures n <= |s|
    ensures AllWhitespace(s[|s| - n..])
    ensures n < |s| ==> !IsWhitespace(s[|s| - 1 - n])
  {
    if s == [] || !IsWhitespace(s[|s| - 1]) then 0
    else
      1 + TrailingWhitespace(s[..|s| - 1])
  }

  /**
   * `s.strip()`: `s` without its leading and trailing whitespace. The result
   * is the stretch of `s` that starts at the first non-whitespace character,
   * everything after it is whitespace, and it is empty exactly when `s` holds
   * nothing but whitespace.
   */
  function Strip(s: string): (r: string)
    ensures |r| <= |s|
    ensures r == [] <==> AllWhitespace(s)
    ensures r != [] ==> !IsWhitespace(r[0]) && !IsWhitespace(r[|r| - 1])
    ensures LeadingWhitespace(s) + |r| <= |s|
    ensures r == s[LeadingWhitespace(s)..LeadingWhitespace(s) + |r|]
    ensures AllWhitespace(s[LeadingWhitespace(s) + |r|..])
  {
    var lead := LeadingWhitespace(s);
    if lead == |s| then
      assert s[..lead] == s;
      []
    else
      var trail := TrailingWhitespace(s);
      assert trail < |s| - lead;
      s[lead..|s| - trail]
  }

  lemma StripIsIdempotent(s: string)
    ensures Strip(Strip(s)) == Strip(s)
  {
    var r := Strip(s);
    if r != [] {
      assert LeadingWhitespace(r) == 0;
      assert r[0..0 + |r|] == r;
    }
  }

  /** Index of the first line break in `s`, or `|s|` when there is none. */
  function LineEnd(s: string): (n: nat)
    ensures n <= |s|
    ensures HasNoLineBreak(s[..n])
    ensures n < |s| ==> IsLineBreak(s[n])
  {
    if s == [] || IsLineBreak(s[0]) then 0
    else
      1 + LineEnd(s[1..])
  }

  /** What follows the line break at `LineEnd(s)`: "\r\n" counts as one break. */
  function AfterBreak(s: string): (rest: string)
    requires LineEnd(s) < |s|
    ensures |rest| < |s|
  {
    var n := LineEnd(s);
    if s[n] == '\r' && n + 1 < |s| && s[n + 1] == '\n' then s[n + 2..] else s[n + 1..]
  }

  /**
   * `s.splitlines()`: the lines of `s` without their line breaks. An empty
   * string has no lines, a final line break does not open an empty last line.
   */
  function SplitLines(s: string): (lines: seq<string>)
    ensures |lines| == 0 <==> s == []
    ensures s != [] ==> lines[0] == s[..LineEnd(s)]
    ensures forall k :: 0 <= k < |lines| ==> HasNoLineBreak(lines[k])
    decreases |s|
  {
    if s == [] then []
    else
      var n := LineEnd(s);
      if n == |s| then [s]
      else [s[..n]] + SplitLines(AfterBreak(s))
  }

  function Concat(lines: seq<string>): string
  {
    if lines == [] then [] else lines[0] + Concat(lines[1..])
  }

  /** `s` with every line-break character deleted. */
  function RemoveLineBreaks(s: string): string
  {
    if s == [] then []
    else (if IsLineBreak(s[0]) then [] else [s[0]]) + RemoveLineBreaks(s[1..])
  }

  lemma {:induction false} RemoveLineBreaksAppend(a: string, b: string)
    ensures RemoveLineBreaks(a + b) == RemoveLineBreaks(a) + RemoveLineBreaks(b)
  {
    if a != [] {
      assert (a + b)[1..] == a[1..] + b;
      RemoveLineBreaksAppend(a[1..], b);
    } else {
      assert a + b == b;
    }
  }

  lemma {:induction false} RemoveLineBreaksOfLine(s: string)
    requires HasNoLineBreak(s)
    ensures RemoveLineBreaks(s) == s
  {
    if s != [] {
      assert HasNoLineBreak(s[1..]) by {
        forall i | 0 <= i < |s[1..]| ensures !IsLineBreak(s[1..][i]) {
          assert s[1..][i] == s[i + 1];
        }
      }
      RemoveLineBreaksOfLine(s[1..]);
    }
  }

  /** The one or two characters of a line break leave nothing behind. */
  lemma RemoveLineBreaksOfBreak(b: string)
    requires 1 <= |b| <= 2 && IsLineBreak(b[0]) && IsLineBreak(b[|b| - 1])
    ensures RemoveLineBreaks(b) == []
  {
    if |b| == 2 {
      assert b[1..][1..] == [];
    }
  }

  /**
   * Splitting into lines loses nothing but the line breaks: joining the lines
   * back without separators gives `s` with its line breaks deleted.
   */
  lemma {:induction false} SplitLinesKeepsEveryOtherCharacter(s: string)
    ensures Concat(SplitLines(s)) == RemoveLineBreaks(s)
    decreases |s|
  {
    if s != [] {
      var n := LineEnd(s);
      if n == |s| {
        assert s[..n] == s;
        assert SplitLines(s) == [s];
        assert Concat([s]) == s + Concat([]);
        RemoveLineBreaksOfLine(s);
      } else {
        var rest := AfterBreak(s);
        var k := |s| - |rest|;
        assert rest == s[k..];
        var line, brk := s[..n], s[n..k];
        assert s == line + brk + rest;
        calc {
          Concat(SplitLines(s));
          Concat([line] + SplitLines(rest));
          { assert ([line] + SplitLines(rest))[1..] == SplitLines(rest); }
          line + Concat(SplitLines(rest));
          { SplitLinesKeepsEveryOtherCharacter(rest); RemoveLineBreaksOfLine(line); }
          RemoveLineBreaks(line) + RemoveLineBreaks(rest);
          { RemoveLineBreaksOfBreak(brk); }
          RemoveLineBreaks(line) + RemoveLineBreaks(brk) + RemoveLineBreaks(rest);
          { RemoveLineBreaksAppend(line, brk); }
          RemoveLineBreaks(line + brk) + RemoveLineBreaks(rest);
          { RemoveLineBreaksAppend(line + brk, rest); }
          RemoveLineBreaks(line + brk + rest);
        }
      }
    }
  }

  /**
   * `raw.strip().splitlines()[0]`, with the `IndexError` raised for text that
   * strips to nothing returned as `None`. A first line is never empty, holds
   * no line break, starts where the stripped text starts and runs up to its
   * first line break or its end.
   */
  function FirstLine(raw: string): (r: Option<string>)
    ensures r.None? <==> AllWhitespace(raw)
    ensures r.Some? ==>
      var t := Strip(raw);
      && r.value != []
      && HasNoLineBreak(r.value)
      && !IsWhitespace(r.value[0])
      && |r.value| <= |t|
      && r.value == t[..|r.value|]
      && (|r.value| == |t| || IsLineBreak(t[|r.value|]))
  {
    var lines := SplitLines(Strip(raw));
    if |lines| == 0 then None else Some(lines[0])
  }

  /**
   * The first line of a page text made of whitespace padding, the price text
   * `t` (no surrounding whitespace, no line break), a line break and anything
   * else is exactly `t`.
   */
  lemma FirstLineOfPaddedText(pad: string, t: string, rest: string)
    requires AllWhitespace(pad)
    requires t != [] && !IsWhitespace(t[0]) && !IsWhitespace(t[|t| - 1])
    requires HasNoLineBreak(t)
    ensures FirstLine(pad + t + "\n" + rest) == Some(t)
  {
    var raw := pad + t + "\n" + rest;
    var e := |pad| + |t|;
    forall i | 0 <= i < |pad| ensures IsWhitespace(raw[i]) {
      assert raw[i] == pad[i];
    }
    forall i | 0 <= i < |t| ensures raw[|pad| + i] == t[i] {
    }
    assert raw[e] == '\n';
    var lead := LeadingWhitespace(raw);
    assert lead == |pad|;
    var s := Strip(raw);
    forall i | lead + |s| <= i < |raw| ensures IsWhitespace(raw[i]) {
      assert raw[lead + |s|..][i - (lead + |s|)] == raw[i];
    }
    assert !IsWhitespace(raw[e - 1]);
    assert |s| >= |t|;
    forall i | 0 <= i < |t| ensures s[i] == t[i] && !IsLineBreak(s[i]) {
      assert s[i] == raw[|pad| + i];
    }
    assert |s| == |t| || s[|t|] == '\n';
    var v := FirstLine(raw).value;
    forall i | 0 <= i < |v| ensures v[i] == s[i] {
    }
    assert |v| == |t|;
    assert v == t;
  }
}
