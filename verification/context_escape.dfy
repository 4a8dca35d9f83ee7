/** `CloudflareREPL.load_context`: turning a context payload into a line of
    Python that binds `context`. A string payload goes into a `"""` literal,
    a list or dict payload into a `'…'` literal holding its JSON text. */
module ContextEscape {
  import opened Basics
  import PyStr
  import opened PyLiteral

  /** The payload as the host holds it: a `str`, or a list/dict given by the
      text `json.dumps` produced for it. */
  datatype ContextPayload = Text(s: string) | Structured(json: string)

  /** `s.replace("\\", "\\\\")`: the first pass of both escapes. */
  function DoubleBackslashes(s: string): string {
    PyStr.ReplaceAll(s, "\\", "\\\\")
  }

  /** The string escape as the source writes it: backslashes doubled, then
      each non-overlapping `"""` rewritten as `\"\"\"`. */
  function EscapeStringAsWritten(s: string): string {
    PyStr.ReplaceAll(DoubleBackslashes(s), TripleQuote, "\\\"\\\"\\\"")
  }

  /** The corrected string escape: backslashes doubled, then every `"`
      written as `\"`, so no quote in the body can meet the delimiter. */
  function EscapeString(s: string): string {
    PyStr.ReplaceAll(DoubleBackslashes(s), "\"", "\\\"")
  }

  /** The JSON escape: backslashes doubled, then every `'` written as `\'`. */
  function EscapeJson(j: string): string {
    PyStr.ReplaceAll(DoubleBackslashes(j), "'", "\\'")
  }

  // ----- one-pass reference definitions -----

  /** One pass that escapes each backslash and each `q`. */
  function EscapeEach(s: string, q: char): string
    decreases |s|
  {
    if |s| == 0 then ""
    else if s[0] == '\\' then "\\\\" + EscapeEach(s[1..], q)
    else if s[0] == q then ['\\', q] + EscapeEach(s[1..], q)
    else [s[0]] + EscapeEach(s[1..], q)
  }

  /** One pass that escapes each backslash and each `"""` met left to right. */
  function EscapeTriples(s: string): string
    decreases |s|
  {
    if |s| == 0 then ""
    else if StartsWithTriple(s) then "\\\"\\\"\\\"" + EscapeTriples(s[3..])
    else if s[0] == '\\' then "\\\\" + EscapeTriples(s[1..])
    else [s[0]] + EscapeTriples(s[1..])
  }

  lemma DoubleBackslashesStep(s: string)
    requires |s| > 0
    ensures DoubleBackslashes(s) == (if s[0] == '\\' then "\\\\" else [s[0]]) + DoubleBackslashes(s[1..])
  {
  }

  lemma {:induction false} ReplaceCharDistributes(a: string, b: string, q: char, r: string)
    ensures PyStr.ReplaceAll(a + b, [q], r) == PyStr.ReplaceAll(a, [q], r) + PyStr.ReplaceAll(b, [q], r)
    decreases |a|
  {
    if |a| > 0 {
      assert (a + b)[1..] == a[1..] + b;
      ReplaceCharDistributes(a[1..], b, q, r);
    } else {
      assert a + b == b;
    }
  }

  /** The source's two `replace` passes with a one-character pattern `q`
      amount to escaping each backslash and each `q` in one pass. */
  lemma {:induction false} TwoPassesAreOnePass(s: string, q: char)
    requires q != '\\'
    ensures PyStr.ReplaceAll(DoubleBackslashes(s), [q], ['\\', q]) == EscapeEach(s, q)
    decreases |s|
  {
    if |s| > 0 {
      var head := if s[0] == '\\' then "\\\\" else [s[0]];
      DoubleBackslashesStep(s);
      ReplaceCharDistributes(head, DoubleBackslashes(s[1..]), q, ['\\', q]);
      TwoPassesAreOnePass(s[1..], q);
      if s[0] == '\\' {
        assert PyStr.ReplaceAll(head, [q], ['\\', q]) == "\\\\";
      }
    }
  }

  lemma DoubleBackslashesKeepsTriple(s: string)
    ensures StartsWithTriple(DoubleBackslashes(s)) <==> StartsWithTriple(s)
  {
    if |s| >= 1 {
      DoubleBackslashesStep(s);
      if s[0] == '"' {
        var d1 := DoubleBackslashes(s[1..]);
        assert DoubleBackslashes(s) == "\"" + d1;
        if |s| >= 2 {
          DoubleBackslashesStep(s[1..]);
          if s[1] == '"' {
            var d2 := DoubleBackslashes(s[2..]);
            assert d1 == "\"" + d2;
            if |s| >= 3 {
              DoubleBackslashesStep(s[2..]);
            }
          }
        }
      }
    }
  }

  /** The source's string escape is the one-pass `EscapeTriples`. */
  lemma {:induction false} AsWrittenIsEscapeTriples(s: string)
    ensures EscapeStringAsWritten(s) == EscapeTriples(s)
    decreases |s|
  {
    if |s| > 0 {
      var d := DoubleBackslashes(s);
      DoubleBackslashesKeepsTriple(s);
      TriplePrefix(d);
      DoubleBackslashesStep(s);
      if StartsWithTriple(s) {
        DoubleBackslashesStep(s[1..]);
        DoubleBackslashesStep(s[2..]);
        assert s[1..][1..][1..] == s[3..];
        assert d == TripleQuote + DoubleBackslashes(s[3..]);
        assert d[3..] == DoubleBackslashes(s[3..]);
        AsWrittenIsEscapeTriples(s[3..]);
      } else if s[0] == '\\' {
        var d1 := d[1..];
        var rep := "\\\"\\\"\\\"";
        assert d1 == "\\" + DoubleBackslashes(s[1..]);
        TriplePrefix(d1);
        assert d1[1..] == DoubleBackslashes(s[1..]);
        assert PyStr.ReplaceAll(d, TripleQuote, rep) == "\\" + PyStr.ReplaceAll(d1, TripleQuote, rep);
        assert PyStr.ReplaceAll(d1, TripleQuote, rep) == "\\" + PyStr.ReplaceAll(d1[1..], TripleQuote, rep);
        AsWrittenIsEscapeTriples(s[1..]);
      } else {
        assert d[1..] == DoubleBackslashes(s[1..]);
        AsWrittenIsEscapeTriples(s[1..]);
      }
    }
  }

  // ----- what the escaped bodies mean to Python -----

  /** Unescaping `\\` and `\q` in an `EscapeEach` body gives the text back. */
  lemma {:induction false} UnescapeEscapeEach(s: string, q: char)
    requires q == '"' || q == '\''
    ensures Unescape(EscapeEach(s, q)) == Some(s)
    decreases |s|
  {
    if |s| > 0 {
      var e := EscapeEach(s, q);
      UnescapeEscapeEach(s[1..], q);
      if s[0] == '\\' || s[0] == q {
        assert e[2..] == EscapeEach(s[1..], q);
      } else {
        assert e[1..] == EscapeEach(s[1..], q);
      }
      assert [s[0]] + s[1..] == s;
    }
  }

  /** Every `"` of an `EscapeEach(s, '"')` body is escaped, so the `"""`
      literal holding it ends exactly at the delimiter placed after it. */
  lemma {:induction false} LongLiteralOfEscapeEach(s: string, tail: string)
    ensures LexLong(EscapeEach(s, '"') + TripleQuote + tail) == Some((s, tail))
    decreases |s|
  {
    var t := EscapeEach(s, '"') + TripleQuote + tail;
    if |s| == 0 {
      assert t == TripleQuote + tail;
    } else {
      LongLiteralOfEscapeEach(s[1..], tail);
      var rest := EscapeEach(s[1..], '"') + TripleQuote + tail;
      if s[0] == '\\' || s[0] == '"' {
        assert t[2..] == rest;
      } else {
        assert t[1..] == rest;
      }
      assert [s[0]] + s[1..] == s;
    }
  }

  /** The same for a `q`-delimited one-line literal, when the text holds no
      line end. */
  lemma {:induction false} ShortLiteralOfEscapeEach(q: char, s: string, tail: string)
    requires q == '"' || q == '\''
    requires forall k :: 0 <= k < |s| ==> !IsLineEnd(s[k])
    ensures LexShort(q, EscapeEach(s, q) + [q] + tail) == Some((s, tail))
    decreases |s|
  {
    var t := EscapeEach(s, q) + [q] + tail;
    if |s| == 0 {
      assert t == [q] + tail;
    } else {
      ShortLiteralOfEscapeEach(q, s[1..], tail);
      var rest := EscapeEach(s[1..], q) + [q] + tail;
      if s[0] == '\\' || s[0] == q {
        assert t[2..] == rest;
      } else {
        assert t[1..] == rest;
      }
      assert [s[0]] + s[1..] == s;
    }
  }

  /** An `EscapeTriples` body starts with a bare `"` exactly when the text
      starts with a `"` that does not open a `"""`. */
  lemma EscapeTriplesHead(s: string)
    requires |s| > 0
    ensures |EscapeTriples(s)| > 0
    ensures EscapeTriples(s)[0] == '"' <==> s[0] == '"' && !StartsWithTriple(s)
    ensures EscapeTriples(s)[0] == '"' ==> EscapeTriples(s) == "\"" + EscapeTriples(s[1..])
  {
  }

  lemma EscapeTriplesNeverStartsWithTriple(s: string)
    ensures !StartsWithTriple(EscapeTriples(s))
  {
    var e := EscapeTriples(s);
    if |s| > 0 && e[0] == '"' {
      EscapeTriplesHead(s);
      if |s| > 1 {
        EscapeTriplesHead(s[1..]);
        if e[1] == '"' {
          assert EscapeTriples(s[1..])[0] == '"';
          if |s| > 2 {
            EscapeTriplesHead(s[2..]);
            assert s[1..][1..] == s[2..];
          }
        }
      }
    }
  }

  lemma UnescapeEscapedQuote(r: string)
    ensures Unescape("\\\"" + r) == (match Unescape(r) case Some(v) => Some("\"" + v) case None => None)
  {
    assert ("\\\"" + r)[2..] == r;
  }

  lemma ScanEscapedQuote(r: string)
    ensures HasUnescapedTriple("\\\"" + r) == HasUnescapedTriple(r)
  {
    assert ("\\\"" + r)[2..] == r;
  }

  // ----- the properties of the source's string escape -----

  /** Unescaping `\\` and `\"` in the source's escaped body recovers the
      original string, for every string. */
  lemma {:induction false} UnescapeRecoversAsWritten(s: string)
    ensures Unescape(EscapeStringAsWritten(s)) == Some(s)
  {
    AsWrittenIsEscapeTriples(s);
    UnescapeEscapeTriples(s);
  }

  lemma {:induction false} UnescapeEscapeTriples(s: string)
    ensures Unescape(EscapeTriples(s)) == Some(s)
    decreases |s|
  {
    if |s| > 0 {
      if StartsWithTriple(s) {
        UnescapeEscapeTriples(s[3..]);
        UnescapeTripleStep(s);
      } else {
        UnescapeEscapeTriples(s[1..]);
        UnescapeCharStep(s);
      }
    }
  }

  lemma UnescapeTripleStep(s: string)
    requires StartsWithTriple(s)
    requires Unescape(EscapeTriples(s[3..])) == Some(s[3..])
    ensures Unescape(EscapeTriples(s)) == Some(s)
  {
    var r := EscapeTriples(s[3..]);
    var e1 := "\\\"" + r;
    var e2 := "\\\"" + e1;
    var e3 := "\\\"" + e2;
    assert EscapeTriples(s) == e3;
    UnescapeEscapedQuote(r);
    UnescapeEscapedQuote(e1);
    UnescapeEscapedQuote(e2);
    assert "\"" + ("\"" + ("\"" + s[3..])) == s;
  }

  lemma UnescapeCharStep(s: string)
    requires |s| > 0 && !StartsWithTriple(s)
    requires Unescape(EscapeTriples(s[1..])) == Some(s[1..])
    ensures Unescape(EscapeTriples(s)) == Some(s)
  {
    var r := EscapeTriples(s[1..]);
    if s[0] == '\\' {
      assert EscapeTriples(s) == "\\\\" + r;
      UnescapeBackslashHead(r);
    } else {
      assert EscapeTriples(s) == [s[0]] + r;
      UnescapePlainHead(s[0], r);
    }
    assert [s[0]] + s[1..] == s;
  }

  lemma UnescapeBackslashHead(r: string)
    ensures Unescape("\\\\" + r) == (match Unescape(r) case Some(v) => Some("\\" + v) case None => None)
  {
    assert ("\\\\" + r)[2..] == r;
  }

  lemma UnescapePlainHead(c: char, r: string)
    requires c != '\\'
    ensures Unescape([c] + r) == (match Unescape(r) case Some(v) => Some([c] + v) case None => None)
  {
    assert ([c] + r)[1..] == r;
  }

  /** The source's escaped body never holds three consecutive `"` that are
      not part of an escape. */
  lemma {:induction false} NoUnescapedTripleAsWritten(s: string)
    ensures !HasUnescapedTriple(EscapeStringAsWritten(s))
  {
    AsWrittenIsEscapeTriples(s);
    NoUnescapedTripleInEscapeTriples(s);
  }

  lemma {:induction false} NoUnescapedTripleInEscapeTriples(s: string)
    ensures !HasUnescapedTriple(EscapeTriples(s))
    decreases |s|
  {
    if |s| > 0 {
      if StartsWithTriple(s) {
        NoUnescapedTripleInEscapeTriples(s[3..]);
        ScanTripleStep(s);
      } else {
        NoUnescapedTripleInEscapeTriples(s[1..]);
        ScanCharStep(s);
      }
    }
  }

  lemma ScanTripleStep(s: string)
    requires StartsWithTriple(s)
    requires !HasUnescapedTriple(EscapeTriples(s[3..]))
    ensures !HasUnescapedTriple(EscapeTriples(s))
  {
    var r := EscapeTriples(s[3..]);
    var e1 := "\\\"" + r;
    var e2 := "\\\"" + e1;
    var e3 := "\\\"" + e2;
    assert EscapeTriples(s) == e3;
    ScanEscapedQuote(r);
    ScanEscapedQuote(e1);
    ScanEscapedQuote(e2);
  }

  lemma ScanCharStep(s: string)
    requires |s| > 0 && !StartsWithTriple(s)
    requires !HasUnescapedTriple(EscapeTriples(s[1..]))
    ensures !HasUnescapedTriple(EscapeTriples(s))
  {
    var r := EscapeTriples(s[1..]);
    EscapeTriplesNeverStartsWithTriple(s);
    if s[0] == '\\' {
      assert EscapeTriples(s) == "\\\\" + r;
      ScanBackslashHead(r);
    } else {
      assert EscapeTriples(s) == [s[0]] + r;
      ScanPlainHead(s[0], r);
    }
  }

  lemma ScanBackslashHead(r: string)
    ensures HasUnescapedTriple("\\\\" + r) == HasUnescapedTriple(r)
  {
    assert ("\\\\" + r)[2..] == r;
  }

  lemma ScanPlainHead(c: char, r: string)
    requires c != '\\' && !StartsWithTriple([c] + r)
    ensures HasUnescapedTriple([c] + r) == HasUnescapedTriple(r)
  {
    assert ([c] + r)[1..] == r;
  }

  /** Yet a body ending in `"` merges with the closing delimiter: for `a"`
      the literal `"""a""""` closes after `a` and leaves a stray `"`, so the
      generated line does not bind the payload. */
  lemma TrailingQuoteClosesEarly()
    ensures EscapeStringAsWritten("a\"") == "a\""
    ensures LexLong(EscapeStringAsWritten("a\"") + TripleQuote) == Some(("a", "\""))
  {
    AsWrittenIsEscapeTriples("a\"");
    assert EscapeTriples("") == "";
    assert EscapeTriples("\"") == "\"" + EscapeTriples("");
    assert "a\""[1..] == "\"";
    assert EscapeTriples("a\"") == "a" + EscapeTriples("\"");
    var t := "a\"\"\"\"";
    assert "a\"" + TripleQuote == t;
    assert !StartsWithTriple(t) && t[0] != '\\';
    var u := t[1..];
    assert u == "\"\"\"\"";
    assert StartsWithTriple(u);
    assert u[3..] == "\"";
    assert LexLong(u) == Some(("", "\""));
    assert LexLong(t) == Some(([t[0]] + "", "\""));
    assert [t[0]] + "" == "a";
  }

  /** Worse, for `a""` the literal `"""a"""""` closes after `a` and the
      leftover `""` is an empty literal, which Python joins to it: the line
      silently binds `a`. */
  lemma TwoTrailingQuotesAreDropped()
    ensures EscapeStringAsWritten("a\"\"") == "a\"\""
    ensures LexLong(EscapeStringAsWritten("a\"\"") + TripleQuote) == Some(("a", "\"\""))
    ensures LexShort('"', "\"\""[1..]) == Some(("", ""))
  {
    AsWrittenIsEscapeTriples("a\"\"");
    assert EscapeTriples("") == "";
    assert "\""[1..] == "";
    assert EscapeTriples("\"") == "\"" + EscapeTriples("");
    assert "\"\""[1..] == "\"";
    assert EscapeTriples("\"\"") == "\"" + EscapeTriples("\"");
    assert "a\"\""[1..] == "\"\"";
    assert EscapeTriples("a\"\"") == "a" + EscapeTriples("\"\"");
    var t := "a\"\"\"\"\"";
    assert "a\"\"" + TripleQuote == t;
    assert !StartsWithTriple(t) && t[0] != '\\';
    var u := t[1..];
    assert u == "\"\"\"\"\"";
    assert StartsWithTriple(u);
    assert u[3..] == "\"\"";
    assert LexLong(u) == Some(("", "\"\""));
    assert LexLong(t) == Some(([t[0]] + "", "\"\""));
    assert [t[0]] + "" == "a";
  }

  // ----- where the source's string escape does read back -----

  /** `s` does not end in `"`. */
  predicate NoTrailingQuote(s: string) {
    |s| == 0 || s[|s| - 1] != '"'
  }

  /** The source's escaped body of a text that does not end in `"` reads back
      as the text, and the `"""` literal ends exactly at the delimiter placed
      after it. */
  lemma {:induction false} LongLiteralOfEscapeTriples(s: string, tail: string)
    requires NoTrailingQuote(s)
    ensures LexLong(EscapeTriples(s) + TripleQuote + tail) == Some((s, tail))
    decreases |s|
  {
    if |s| == 0 {
      assert EscapeTriples(s) + TripleQuote + tail == TripleQuote + tail;
    } else if StartsWithTriple(s) {
      assert |s[3..]| > 0 ==> s[3..][|s[3..]| - 1] == s[|s| - 1];
      LongLiteralOfEscapeTriples(s[3..], tail);
      LongTripleStep(s, tail);
    } else {
      assert |s[1..]| > 0 ==> s[1..][|s[1..]| - 1] == s[|s| - 1];
      LongLiteralOfEscapeTriples(s[1..], tail);
      LongCharStep(s, tail);
    }
  }

  lemma LongTripleStep(s: string, tail: string)
    requires StartsWithTriple(s)
    requires LexLong(EscapeTriples(s[3..]) + TripleQuote + tail) == Some((s[3..], tail))
    ensures LexLong(EscapeTriples(s) + TripleQuote + tail) == Some((s, tail))
  {
    var r := EscapeTriples(s[3..]) + TripleQuote + tail;
    var e1 := "\\\"" + r;
    var e2 := "\\\"" + e1;
    var e3 := "\\\"" + e2;
    assert EscapeTriples(s) + TripleQuote + tail == e3;
    LexLongEscapedQuote(r);
    LexLongEscapedQuote(e1);
    LexLongEscapedQuote(e2);
    assert "\"" + ("\"" + ("\"" + s[3..])) == s;
  }

  lemma LongCharStep(s: string, tail: string)
    requires |s| > 0 && !StartsWithTriple(s) && NoTrailingQuote(s)
    requires LexLong(EscapeTriples(s[1..]) + TripleQuote + tail) == Some((s[1..], tail))
    ensures LexLong(EscapeTriples(s) + TripleQuote + tail) == Some((s, tail))
  {
    var t := TripleQuote + tail;
    Associate(EscapeTriples(s), TripleQuote, tail);
    Associate(EscapeTriples(s[1..]), TripleQuote, tail);
    if s[0] == '\\' {
      LongBackslashStep(s, t, s[1..], tail);
    } else {
      EscapedBodyDoesNotOpenWithTriple(s, t);
      LongPlainStep(s, t, s[1..], tail);
    }
    HeadAndTail(s);
  }

  lemma Associate(a: string, b: string, c: string)
    ensures a + b + c == a + (b + c)
  {
  }

  lemma HeadAndTail(s: string)
    requires |s| > 0
    ensures [s[0]] + s[1..] == s
  {
  }

  lemma LongBackslashStep(s: string, t: string, v: string, after: string)
    requires |s| > 0 && s[0] == '\\'
    requires LexLong(EscapeTriples(s[1..]) + t) == Some((v, after))
    ensures LexLong(EscapeTriples(s) + t) == Some(("\\" + v, after))
  {
    var r := EscapeTriples(s[1..]) + t;
    assert EscapeTriples(s) + t == "\\\\" + r;
    LexLongBackslashHead(r);
  }

  lemma LongPlainStep(s: string, t: string, v: string, after: string)
    requires |s| > 0 && s[0] != '\\' && !StartsWithTriple(s)
    requires !StartsWithTriple(EscapeTriples(s) + t)
    requires LexLong(EscapeTriples(s[1..]) + t) == Some((v, after))
    ensures LexLong(EscapeTriples(s) + t) == Some(([s[0]] + v, after))
  {
    var r := EscapeTriples(s[1..]) + t;
    assert EscapeTriples(s) == [s[0]] + EscapeTriples(s[1..]);
    assert EscapeTriples(s) + t == [s[0]] + r;
    LexLongPlainHead(s[0], r);
  }

  /** A non-empty text that does not end in `"` has an escaped body that does
      not start with `"""`, whatever follows it. */
  lemma EscapedBodyDoesNotOpenWithTriple(s: string, t: string)
    requires |s| > 0 && NoTrailingQuote(s)
    ensures !StartsWithTriple(EscapeTriples(s) + t)
  {
    var e := EscapeTriples(s);
    EscapeTriplesHead(s);
    if e[0] == '"' {
      assert |s| > 1;
      var e1 := EscapeTriples(s[1..]);
      EscapeTriplesHead(s[1..]);
      assert (e + t)[1] == e1[0];
      if e1[0] == '"' {
        assert s[1] == '"' && |s| > 2;
        assert s[2] != '"';
        assert s[1..][1..] == s[2..];
        EscapeTriplesHead(s[2..]);
        assert (e + t)[2] == EscapeTriples(s[2..])[0];
      }
    }
  }

  lemma LexLongEscapedQuote(r: string)
    ensures LexLong("\\\"" + r) == (match LexLong(r) case Some((v, a)) => Some(("\"" + v, a)) case None => None)
  {
    assert ("\\\"" + r)[2..] == r;
  }

  lemma LexLongBackslashHead(r: string)
    ensures LexLong("\\\\" + r) == (match LexLong(r) case Some((v, a)) => Some(("\\" + v, a)) case None => None)
  {
    assert ("\\\\" + r)[2..] == r;
  }

  lemma LexLongPlainHead(c: char, r: string)
    requires c != '\\' && !StartsWithTriple([c] + r)
    ensures LexLong([c] + r) == (match LexLong(r) case Some((v, a)) => Some(([c] + v, a)) case None => None)
  {
    assert ([c] + r)[1..] == r;
  }

  /** The source's whole string escape, for a payload that does not end in
      `"`. */
  lemma AsWrittenLiteralRoundTrip(s: string, tail: string)
    requires NoTrailingQuote(s)
    ensures LexLong(EscapeStringAsWritten(s) + TripleQuote + tail) == Some((s, tail))
  {
    AsWrittenIsEscapeTriples(s);
    LongLiteralOfEscapeTriples(s, tail);
  }

  // ----- the corrected string escape and the JSON escape -----

  /** With the corrected escape the `"""` literal reads back as the original
      string and ends exactly at its closing delimiter, for every string. */
  lemma TextLiteralRoundTrip(s: string, tail: string)
    ensures LexLong(EscapeString(s) + TripleQuote + tail) == Some((s, tail))
  {
    TwoPassesAreOnePass(s, '"');
    LongLiteralOfEscapeEach(s, tail);
  }

  /** A JSON text on one line, escaped and put between `'` quotes, reads back
      as the same JSON text and ends at the closing quote. */
  lemma JsonLiteralRoundTrip(j: string, tail: string)
    requires forall k :: 0 <= k < |j| ==> !IsLineEnd(j[k])
    ensures LexShort('\'', EscapeJson(j) + "'" + tail) == Some((j, tail))
    ensures Unescape(EscapeJson(j)) == Some(j)
  {
    TwoPassesAreOnePass(j, '\'');
    ShortLiteralOfEscapeEach('\'', j, tail);
    UnescapeEscapeEach(j, '\'');
  }

  const TextPrefix: string := "context = \"\"\""
  const JsonPrefix: string := "import json; context = json.loads('"

  // ----- characters the escapes pass through -----

  /** Both escapes copy every character other than a backslash or `"`, so
      the escaped body holds NUL or `\r` exactly when the string does. */
  lemma {:induction false} EscapeTriplesKeeps(s: string, c: char)
    requires c != '\\' && c != '"'
    ensures c in EscapeTriples(s) <==> c in s
    decreases |s|
  {
    if |s| > 0 {
      EscapeTriplesKeeps(s[if StartsWithTriple(s) then 3 else 1..], c);
      if StartsWithTriple(s) {
        assert s == s[..3] + s[3..];
        assert s[..3] == TripleQuote;
      } else {
        assert s == [s[0]] + s[1..];
      }
    }
  }

  lemma {:induction false} EscapeEachKeeps(s: string, q: char, c: char)
    requires c != '\\' && c != q
    ensures c in EscapeEach(s, q) <==> c in s
    decreases |s|
  {
    if |s| > 0 {
      EscapeEachKeeps(s[1..], q, c);
      assert s == [s[0]] + s[1..];
    }
  }

  /** The `"""` line around `body` is safe source text exactly when the body is. */
  lemma FramedSourceSafe(body: string)
    ensures SourceSafe(TextPrefix + body + TripleQuote) <==> SourceSafe(body)
  {
  }

  /** The Python line `load_context` runs. A string payload goes into a
      `"""` literal whose body unescapes to the payload and holds no
      unescaped `"""`. The line is safe source text exactly when the payload
      is, and then the literal reads back as the payload if the payload does
      not end in `"`. A one-line JSON text is bound by a `'…'` literal whose
      value is that text, passed to `json.loads`. */
  function ContextCode(p: ContextPayload): (code: string)
    ensures p.Text? ==>
      && |code| >= |TextPrefix| + 3
      && code[..|TextPrefix|] == TextPrefix
      && code[|code| - 3..] == TripleQuote
      && Unescape(code[|TextPrefix|..|code| - 3]) == Some(p.s)
      && !HasUnescapedTriple(code[|TextPrefix|..|code| - 3])
    ensures p.Text? ==> (SourceSafe(code) <==> SourceSafe(p.s))
    ensures p.Text? && SourceSafe(p.s) && NoTrailingQuote(p.s) ==>
      LexLong(code[|TextPrefix|..]) == Some((p.s, ""))
    ensures p.Structured? && (forall k :: 0 <= k < |p.json| ==> !IsLineEnd(p.json[k])) ==>
      && JsonPrefix <= code
      && LexShort('\'', code[|JsonPrefix|..]) == Some((p.json, ")"))
  {
    match p
    case Text(s) =>
      AsWrittenLine(s);
      TextPrefix + EscapeStringAsWritten(s) + TripleQuote
    case Structured(j) =>
      var body := EscapeJson(j) + "')";
      assert (forall k :: 0 <= k < |j| ==> !IsLineEnd(j[k])) ==> LexShort('\'', body) == Some((j, ")")) by {
        if forall k :: 0 <= k < |j| ==> !IsLineEnd(j[k]) {
          JsonLiteralRoundTrip(j, ")");
          assert EscapeJson(j) + "'" + ")" == body;
        }
      }
      assert (JsonPrefix + body)[|JsonPrefix|..] == body;
      JsonPrefix + body
  }

  /** What the source's `"""` line for a string payload means. */
  lemma AsWrittenLine(s: string)
    ensures var escaped := EscapeStringAsWritten(s);
      var code := TextPrefix + escaped + TripleQuote;
      && |code| >= |TextPrefix| + 3
      && code[..|TextPrefix|] == TextPrefix
      && code[|code| - 3..] == TripleQuote
      && code[|TextPrefix|..|code| - 3] == escaped
      && Unescape(escaped) == Some(s)
      && !HasUnescapedTriple(escaped)
      && (SourceSafe(code) <==> SourceSafe(s))
      && (NoTrailingQuote(s) ==> LexLong(code[|TextPrefix|..]) == Some((s, "")))
  {
    var escaped := EscapeStringAsWritten(s);
    var code := TextPrefix + escaped + TripleQuote;
    UnescapeRecoversAsWritten(s);
    NoUnescapedTripleAsWritten(s);
    AsWrittenSourceSafe(s);
    assert code[..|TextPrefix|] == TextPrefix;
    assert code[|TextPrefix|..|code| - 3] == escaped;
    assert code[|TextPrefix|..] == escaped + TripleQuote + "";
    if NoTrailingQuote(s) {
      AsWrittenLiteralRoundTrip(s, "");
    }
  }

  lemma AsWrittenSourceSafe(s: string)
    ensures SourceSafe(TextPrefix + EscapeStringAsWritten(s) + TripleQuote) <==> SourceSafe(s)
  {
    AsWrittenIsEscapeTriples(s);
    EscapeTriplesKeeps(s, '\0');
    EscapeTriplesKeeps(s, '\r');
    FramedSourceSafe(EscapeStringAsWritten(s));
  }

  /** The context line with the corrected string escape: the line is safe
      source text exactly when the payload is, and then the `"""` literal
      reads back as the payload, whatever quotes it ends in. */
  function CorrectedContextCode(p: ContextPayload): (code: string)
    ensures p.Text? ==> TextPrefix <= code && (SourceSafe(code) <==> SourceSafe(p.s))
    ensures p.Text? && SourceSafe(p.s) ==> LexLong(code[|TextPrefix|..]) == Some((p.s, ""))
    ensures p.Structured? ==> code == ContextCode(p)
  {
    match p
    case Text(s) =>
      var body := EscapeString(s) + TripleQuote;
      TextLiteralRoundTrip(s, "");
      TwoPassesAreOnePass(s, '"');
      EscapeEachKeeps(s, '"', '\0');
      EscapeEachKeeps(s, '"', '\r');
      FramedSourceSafe(EscapeString(s));
      assert TextPrefix + body == TextPrefix + EscapeString(s) + TripleQuote;
      assert body + "" == body;
      assert (TextPrefix + body)[|TextPrefix|..] == body;
      TextPrefix + body
    case Structured(_) => ContextCode(p)
  }
}
