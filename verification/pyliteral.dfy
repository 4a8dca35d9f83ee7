/** How Python's tokenizer reads the body of a non-raw `str` literal: which
    quote ends it and what value its escapes denote. Used to state what the
    generated code means, without running Python. */
module PyLiteral {
  import opened Basics

  /** The value of the two-character escape `\c`. `None` for the
      multi-character escapes (octal, `\x`, `\N{…}`, `\u`, `\U`), which this
      model does not read. An unrecognised escape keeps both characters;
      a backslash before a newline continues the line. */
  function EscapeValue(c: char): Option<string> {
    if c == '\n' then Some("")
    else if c == '\\' then Some("\\")
    else if c == '\'' then Some("'")
    else if c == '"' then Some("\"")
    else if c == 'a' then Some("\U{7}")
    else if c == 'b' then Some("\U{8}")
    else if c == 'f' then Some("\U{C}")
    else if c == 'n' then Some("\n")
    else if c == 'r' then Some("\r")
    else if c == 't' then Some("\t")
    else if c == 'v' then Some("\U{B}")
    else if ('0' <= c <= '7') || c == 'x' || c == 'N' || c == 'u' || c == 'U' then None
    else Some(['\\', c])
  }

  predicate IsLineEnd(c: char) {
    c == '\n' || c == '\r'
  }

  const TripleQuote: string := "\"\"\""

  /** Python refuses source text holding NUL, and reads `\r\n` and a lone
      `\r` as `\n` before it tokenizes. The lexers below read the text as
      given, so they agree with Python on text that holds neither. */
  predicate SourceSafe(s: string) {
    '\0' !in s && '\r' !in s
  }

  /** `s` starts with three `"`. */
  predicate StartsWithTriple(s: string) {
    |s| >= 3 && s[0] == '"' && s[1] == '"' && s[2] == '"'
  }

  lemma TriplePrefix(s: string)
    ensures TripleQuote <= s <==> StartsWithTriple(s)
  {
    if StartsWithTriple(s) {
      assert s[..3] == TripleQuote;
    }
  }

  /** The value of a literal body read to its end, escapes processed;
      `None` if the body ends in a lone backslash or holds an escape the
      model does not read. */
  function Unescape(body: string): Option<string>
    decreases |body|
  {
    if |body| == 0 then Some("")
    else if body[0] == '\\' then
      if |body| == 1 then None
      else
        match (EscapeValue(body[1]), Unescape(body[2..]))
        case (Some(v), Some(rest)) => Some(v + rest)
        case _ => None
    else
      match Unescape(body[1..])
      case Some(rest) => Some([body[0]] + rest)
      case None => None
  }

  /** True when scanning the body of a `"""` literal meets three quotes that
      are not part of an escape, which is where the tokenizer ends it. */
  predicate HasUnescapedTriple(body: string)
    decreases |body|
  {
    if |body| == 0 then false
    else if body[0] == '\\' && |body| >= 2 then HasUnescapedTriple(body[2..])
    else if StartsWithTriple(body) then true
    else HasUnescapedTriple(body[1..])
  }

  /** Reads a `"""` literal whose opening delimiter has been consumed:
      the literal's value and the text after its closing delimiter, or
      `None` if it never closes. */
  function LexLong(t: string): Option<(string, string)>
    decreases |t|
  {
    if |t| == 0 then None
    else if StartsWithTriple(t) then Some(("", t[3..]))
    else if t[0] == '\\' then
      if |t| == 1 then None
      else
        match (EscapeValue(t[1]), LexLong(t[2..]))
        case (Some(v), Some((rest, after))) => Some((v + rest, after))
        case _ => None
    else
      match LexLong(t[1..])
      case Some((rest, after)) => Some(([t[0]] + rest, after))
      case None => None
  }

  /** Reads a one-line literal delimited by `q` (`'` or `"`), opening quote
      consumed: a line end before the closing quote leaves it unterminated. */
  function LexShort(q: char, t: string): Option<(string, string)>
    decreases |t|
  {
    if |t| == 0 || IsLineEnd(t[0]) then None
    else if t[0] == q then Some(("", t[1..]))
    else if t[0] == '\\' then
      if |t| == 1 then None
      else
        match (EscapeValue(t[1]), LexShort(q, t[2..]))
        case (Some(v), Some((rest, after))) => Some((v + rest, after))
        case _ => None
    else
      match LexShort(q, t[1..])
      case Some((rest, after)) => Some(([t[0]] + rest, after))
      case None => None
  }

  /** A text with no backslash, no quote `q` and no line end is its own
      literal body: it reads back unchanged and ends at the next `q`. */
  lemma {:induction false} PlainShortLiteral(q: char, body: string, tail: string)
    requires !IsLineEnd(q)
    requires forall k :: 0 <= k < |body| ==> body[k] != '\\' && body[k] != q && !IsLineEnd(body[k])
    ensures LexShort(q, body + [q] + tail) == Some((body, tail))
    decreases |body|
  {
    var t := body + [q] + tail;
    if |body| == 0 {
      assert t == [q] + tail;
    } else {
      assert t[1..] == body[1..] + [q] + tail;
      PlainShortLiteral(q, body[1..], tail);
      assert [body[0]] + body[1..] == body;
    }
  }
}
