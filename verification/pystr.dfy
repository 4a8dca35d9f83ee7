/** The handful of Python `str` methods the core relies on: `strip`, `rstrip`,
    `split`, `replace` and `str(int)`. */
module PyStr {

  /** `c.isspace()` in Python 3: the ASCII whitespace, the information
      separators U+001C..U+001F, and the Unicode space separators. */
  predicate IsSpace(c: char) {
    || c == ' '
    || ('\t' <= c <= '\r')
    || ('\U{1C}' <= c <= '\U{1F}')
    || c == '\U{85}' || c == '\U{A0}' || c == '\U{1680}'
    || ('\U{2000}' <= c <= '\U{200A}')
    || c == '\U{2028}' || c == '\U{2029}' || c == '\U{202F}' || c == '\U{205F}' || c == '\U{3000}'
  }

  /** `s.lstrip(chars)` where `p` says which characters are stripped. */
  function LStripBy(s: string, p: char -> bool): (r: string)
    ensures |r| <= |s| && r == s[|s| - |r|..]
    ensures forall k :: 0 <= k < |s| - |r| ==> p(s[k])
    ensures |r| > 0 ==> !p(r[0])
    decreases |s|
  {
    if |s| > 0 && p(s[0]) then LStripBy(s[1..], p) else s
  }

  /** `s.rstrip(chars)` where `p` says which characters are stripped. */
  function RStripBy(s: string, p: char -> bool): (r: string)
    ensures |r| <= |s| && r == s[..|r|]
    ensures forall k :: |r| <= k < |s| ==> p(s[k])
    ensures |r| > 0 ==> !p(r[|r| - 1])
    decreases |s|
  {
    if |s| > 0 && p(s[|s| - 1]) then RStripBy(s[..|s| - 1], p) else s
  }

  /** `s.strip(chars)`: the longest infix of `s` that neither starts nor ends
      with a stripped character. */
  function StripBy(s: string, p: char -> bool): (r: string)
    ensures |r| <= |s|
    ensures var i := |s| - |LStripBy(s, p)|;
      && i + |r| <= |s| && r == s[i..i + |r|]
      && (forall k :: 0 <= k < i ==> p(s[k]))
      && (forall k :: i + |r| <= k < |s| ==> p(s[k]))
    ensures |r| > 0 ==> !p(r[0]) && !p(r[|r| - 1])
  {
    var l := LStripBy(s, p);
    var r := RStripBy(l, p);
    StripByFrame(s, l, r, p);
    r
  }

  lemma StripByFrame(s: string, l: string, r: string, p: char -> bool)
    requires |l| <= |s| && l == s[|s| - |l|..]
    requires forall k :: 0 <= k < |s| - |l| ==> p(s[k])
    requires |l| > 0 ==> !p(l[0])
    requires |r| <= |l| && r == l[..|r|]
    requires forall k :: |r| <= k < |l| ==> p(l[k])
    requires |r| > 0 ==> !p(r[|r| - 1])
    ensures var i := |s| - |l|;
      && i + |r| <= |s| && r == s[i..i + |r|]
      && (forall k :: i + |r| <= k < |s| ==> p(s[k]))
    ensures |r| > 0 ==> !p(r[0])
  {
    var i := |s| - |l|;
    assert r == s[i..i + |r|];
    assert forall k :: i + |r| <= k < |s| ==> s[k] == l[k - i];
    if |r| > 0 {
      assert r[0] == l[0];
    }
  }

  /** `s.strip()` with no argument. */
  function Strip(s: string): string {
    StripBy(s, IsSpace)
  }

  /** `"\n".join(parts)` generalised to any separator. */
  function Join(parts: seq<string>, sep: char): string
    requires |parts| >= 1
  {
    if |parts| == 1 then parts[0] else parts[0] + [sep] + Join(parts[1..], sep)
  }

  /** `s.split(sep)` for a one-character separator: never an empty list, no
      piece contains the separator, and joining the pieces gives `s` back. */
  function Split(s: string, sep: char): (r: seq<string>)
    ensures |r| >= 1
    ensures forall i :: 0 <= i < |r| ==> sep !in r[i]
    ensures Join(r, sep) == s
    decreases |s|
  {
    if |s| == 0 then [""]
    else
      var rest := Split(s[1..], sep);
      if s[0] == sep then
        assert [s[0]] + Join(rest, sep) == s;
        [""] + rest
      else
        var r := [[s[0]] + rest[0]] + rest[1..];
        assert r[1..] == rest[1..];
        assert Join(r, sep) == [s[0]] + Join(rest, sep) by {
          if |rest| > 1 {
            assert rest == [rest[0]] + rest[1..];
          }
        }
        r
  }

  /** The last element of `s.split("\n")`: the text after the last newline. */
  function LastLine(s: string): (r: string)
    ensures '\n' !in r
    ensures |r| <= |s| && r == s[|s| - |r|..]
    ensures |r| == |s| || s[|s| - |r| - 1] == '\n'
  {
    var parts := Split(s, '\n');
    LastPieceIsSuffix(parts, '\n');
    parts[|parts| - 1]
  }

  lemma {:induction false} LastPieceIsSuffix(parts: seq<string>, sep: char)
    requires |parts| >= 1
    ensures var s, r := Join(parts, sep), parts[|parts| - 1];
      |r| <= |s| && r == s[|s| - |r|..] && (|r| == |s| || s[|s| - |r| - 1] == sep)
  {
    if |parts| > 1 {
      LastPieceIsSuffix(parts[1..], sep);
    }
  }

  /** A text without newlines that does not start or end with whitespace is
      its own last line once stripped, even with trailing whitespace appended. */
  lemma SingleLineIsLastLine(line: string, trailer: string)
    requires '\n' !in line
    requires |line| > 0 && !IsSpace(line[0]) && !IsSpace(line[|line| - 1])
    requires forall k :: 0 <= k < |trailer| ==> IsSpace(trailer[k])
    ensures LastLine(Strip(line + trailer)) == line
  {
    StripFrame("", line, trailer, IsSpace);
    assert "" + line + trailer == line + trailer;
    assert Strip(line + trailer) == line;
    SplitWithoutSeparator(line, '\n');
    assert Split(line, '\n') == [line];
  }

  /** Stripping removes exactly a frame of stripped characters around a
      middle part that neither starts nor ends with one. */
  lemma StripFrame(front: string, middle: string, back: string, p: char -> bool)
    requires forall k :: 0 <= k < |front| ==> p(front[k])
    requires forall k :: 0 <= k < |back| ==> p(back[k])
    requires |middle| > 0 && !p(middle[0]) && !p(middle[|middle| - 1])
    ensures StripBy(front + middle + back, p) == middle
  {
    LStripStopsAt(front, middle + back, p);
    assert front + middle + back == front + (middle + back);
    RStripStopsAt(middle, back, p);
  }

  lemma {:induction false} LStripStopsAt(front: string, rest: string, p: char -> bool)
    requires forall k :: 0 <= k < |front| ==> p(front[k])
    requires |rest| > 0 && !p(rest[0])
    ensures LStripBy(front + rest, p) == rest
    decreases |front|
  {
    if |front| == 0 {
      assert front + rest == rest;
    } else {
      assert (front + rest)[1..] == front[1..] + rest;
      LStripStopsAt(front[1..], rest, p);
    }
  }

  lemma {:induction false} RStripStopsAt(line: string, trailer: string, p: char -> bool)
    requires |line| > 0 && !p(line[|line| - 1])
    requires forall k :: 0 <= k < |trailer| ==> p(trailer[k])
    ensures RStripBy(line + trailer, p) == line
    decreases |trailer|
  {
    if |trailer| == 0 {
      assert line + trailer == line;
    } else {
      var t := trailer[..|trailer| - 1];
      assert (line + trailer)[..|line + trailer| - 1] == line + t;
      RStripStopsAt(line, t, p);
    }
  }

  lemma {:induction false} SplitWithoutSeparator(s: string, sep: char)
    requires sep !in s
    ensures Split(s, sep) == [s]
    decreases |s|
  {
    if |s| > 0 {
      SplitWithoutSeparator(s[1..], sep);
      assert [s[0]] + s[1..] == s;
    }
  }

  /** Python's `s.replace(pat, rep)` for a non-empty pattern: occurrences are
      found left to right and do not overlap. */
  function ReplaceAll(s: string, pat: string, rep: string): string
    requires |pat| > 0
    decreases |s|
  {
    if |s| == 0 then ""
    else if pat <= s then rep + ReplaceAll(s[|pat|..], pat, rep)
    else [s[0]] + ReplaceAll(s[1..], pat, rep)
  }

  predicate IsDigit(c: char) {
    '0' <= c <= '9'
  }

  /** The number a string of decimal digits denotes. */
  function DecimalValue(s: string): nat
    requires forall k :: 0 <= k < |s| ==> IsDigit(s[k])
  {
    if |s| == 0 then 0
    else
      var c := s[|s| - 1];
      assert IsDigit(c);
      DecimalValue(s[..|s| - 1]) * 10 + (c as int - '0' as int)
  }

  /** `str(n)` for a non-negative integer: canonical decimal digits. */
  function NatToString(n: nat): (r: string)
    ensures |r| >= 1
    ensures forall k :: 0 <= k < |r| ==> IsDigit(r[k])
    ensures DecimalValue(r) == n
    ensures r[0] == '0' ==> n == 0
  {
    var d := ['0' + (n % 10) as char];
    if n < 10 then d
    else
      var r := NatToString(n / 10) + d;
      assert r[..|r| - 1] == NatToString(n / 10);
      r
  }
}
