/** The base64 alphabet and padding of section 4 of RFC 4648, as
    `base64.b64encode` writes it and `base64.b64decode` reads it back. */
module Base64 {
  import opened Basics

  type sextet = x: int | 0 <= x < 64

  /** The 65-character subset: A-Z, a-z, 0-9, '+', '/' and the pad '='. */
  predicate IsBase64Char(c: char) {
    || ('A' <= c <= 'Z') || ('a' <= c <= 'z') || ('0' <= c <= '9')
    || c == '+' || c == '/' || c == '='
  }

  /** Table 1 of RFC 4648: the character for a 6-bit value. */
  function IndexToChar(i: sextet): (c: char)
    ensures IsBase64Char(c) && c != '='
  {
    if i < 26 then ('A' as int + i) as char
    else if i < 52 then ('a' as int + i - 26) as char
    else if i < 62 then ('0' as int + i - 52) as char
    else if i == 62 then '+'
    else '/'
  }

  /** The inverse of Table 1; `None` for the pad and every other character. */
  function CharToIndex(c: char): (r: Option<sextet>)
    ensures r.Some? ==> IndexToChar(r.value) == c
  {
    if 'A' <= c <= 'Z' then Some(c as int - 'A' as int)
    else if 'a' <= c <= 'z' then Some(c as int - 'a' as int + 26)
    else if '0' <= c <= '9' then Some(c as int - '0' as int + 52)
    else if c == '+' then Some(62)
    else if c == '/' then Some(63)
    else None
  }

  lemma CharToIndexOfIndexToChar(i: sextet)
    ensures CharToIndex(IndexToChar(i)) == Some(i)
  {
  }

  /** Three octets as four characters. */
  function EncodeBlock(b0: byte, b1: byte, b2: byte): string {
    var n := b0 * 65536 + b1 * 256 + b2;
    [IndexToChar(n / 262144), IndexToChar((n / 4096) % 64), IndexToChar((n / 64) % 64), IndexToChar(n % 64)]
  }

  /** `base64.b64encode(bs).decode()`: four characters for every three
      octets, the final group padded with '=' to a multiple of four. */
  function Encode(bs: seq<byte>): (r: string)
    ensures |r| == (|bs| + 2) / 3 * 4
    ensures forall k :: 0 <= k < |r| ==> IsBase64Char(r[k])
    decreases |bs|
  {
    if |bs| == 0 then ""
    else if |bs| == 1 then
      [IndexToChar(bs[0] / 4), IndexToChar((bs[0] % 4) * 16), '=', '=']
    else if |bs| == 2 then
      [IndexToChar(bs[0] / 4), IndexToChar((bs[0] % 4) * 16 + bs[1] / 16), IndexToChar((bs[1] % 16) * 4), '=']
    else
      var blk, rest := EncodeBlock(bs[0], bs[1], bs[2]), Encode(bs[3..]);
      assert (|bs| + 2) / 3 * 4 == (|bs[3..]| + 2) / 3 * 4 + 4;
      assert forall k :: 0 <= k < 4 ==> IsBase64Char(blk[k]);
      blk + rest
  }

  /** Four 6-bit values as three octets. */
  function DecodeBlock(i0: sextet, i1: sextet, i2: sextet, i3: sextet): seq<byte> {
    var n := i0 * 262144 + i1 * 4096 + i2 * 64 + i3;
    [n / 65536, (n / 256) % 256, n % 256]
  }

  /** Three 6-bit values (18 bits, the last two ignored) as two octets. */
  function DecodeTwo(i0: sextet, i1: sextet, i2: sextet): seq<byte> {
    var j0, j1, j2: int := i0, i1, i2;
    [j0 * 4 + j1 / 16, (j1 % 16) * 16 + j2 / 4]
  }

  /** Two 6-bit values (12 bits, the last four ignored) as one octet. */
  function DecodeOne(i0: sextet, i1: sextet): seq<byte> {
    var j0, j1: int := i0, i1;
    [j0 * 4 + j1 / 16]
  }

  /** Decodes one final group of four characters, which may end in one or
      two pad characters. */
  function DecodeLastGroup(c0: char, c1: char, c2: char, c3: char): Option<seq<byte>> {
    match (CharToIndex(c0), CharToIndex(c1), CharToIndex(c2), CharToIndex(c3))
    case (Some(i0), Some(i1), Some(i2), Some(i3)) => Some(DecodeBlock(i0, i1, i2, i3))
    case (Some(i0), Some(i1), Some(i2), None) =>
      if c3 == '=' then Some(DecodeTwo(i0, i1, i2)) else None
    case (Some(i0), Some(i1), None, None) =>
      if c2 == '=' && c3 == '=' then Some(DecodeOne(i0, i1)) else None
    case _ => None
  }

  /** `base64.b64decode(s)` on text drawn from the alphabet: groups of four
      characters, padding only in the last group. Any other input is
      rejected with `None`. */
  function Decode(s: string): Option<seq<byte>>
    decreases |s|
  {
    if |s| == 0 then Some([])
    else if |s| < 4 then None
    else if |s| == 4 then DecodeLastGroup(s[0], s[1], s[2], s[3])
    else
      match (CharToIndex(s[0]), CharToIndex(s[1]), CharToIndex(s[2]), CharToIndex(s[3]))
      case (Some(i0), Some(i1), Some(i2), Some(i3)) =>
        (match Decode(s[4..])
         case Some(rest) => Some(DecodeBlock(i0, i1, i2, i3) + rest)
         case None => None)
      case _ => None
  }

  lemma BlockRoundTrip(b0: byte, b1: byte, b2: byte)
    ensures var n := b0 * 65536 + b1 * 256 + b2;
      DecodeBlock(n / 262144, (n / 4096) % 64, (n / 64) % 64, n % 64) == [b0, b1, b2]
  {
    var n := b0 * 65536 + b1 * 256 + b2;
    var a := n / 64;
    var b := a / 64;
    assert n == a * 64 + n % 64;
    assert a == b * 64 + a % 64;
    assert b == (b / 64) * 64 + b % 64;
    assert b == n / 4096 && b / 64 == n / 262144;
    var m := (n / 262144) * 262144 + ((n / 4096) % 64) * 4096 + ((n / 64) % 64) * 64 + n % 64;
    assert m == n;
    var c := n / 256;
    assert n == c * 256 + b2;
    assert c == b0 * 256 + b1;
    assert c / 256 == b0 && c % 256 == b1;
    assert n / 65536 == c / 256;
  }

  lemma PartialRoundTrip(b0: byte, b1: byte)
    ensures DecodeOne(b0 / 4, (b0 % 4) * 16) == [b0]
    ensures DecodeTwo(b0 / 4, (b0 % 4) * 16 + b1 / 16, (b1 % 16) * 4) == [b0, b1]
  {
  }

  lemma EncodeOneRoundTrip(b0: byte)
    ensures Decode(Encode([b0])) == Some([b0])
  {
    var e := Encode([b0]);
    PartialRoundTrip(b0, 0);
    CharToIndexOfIndexToChar(b0 / 4);
    CharToIndexOfIndexToChar((b0 % 4) * 16);
    assert CharToIndex(e[2]).None? && CharToIndex(e[3]).None?;
  }

  lemma EncodeTwoRoundTrip(b0: byte, b1: byte)
    ensures Decode(Encode([b0, b1])) == Some([b0, b1])
  {
    var e := Encode([b0, b1]);
    PartialRoundTrip(b0, b1);
    CharToIndexOfIndexToChar(b0 / 4);
    CharToIndexOfIndexToChar((b0 % 4) * 16 + b1 / 16);
    CharToIndexOfIndexToChar((b1 % 16) * 4);
    assert CharToIndex(e[3]).None?;
  }

  lemma EncodeBlockIndices(b0: byte, b1: byte, b2: byte)
    ensures var e, n := EncodeBlock(b0, b1, b2), b0 * 65536 + b1 * 256 + b2;
      && CharToIndex(e[0]) == Some(n / 262144) && CharToIndex(e[1]) == Some((n / 4096) % 64)
      && CharToIndex(e[2]) == Some((n / 64) % 64) && CharToIndex(e[3]) == Some(n % 64)
      && DecodeBlock(n / 262144, (n / 4096) % 64, (n / 64) % 64, n % 64) == [b0, b1, b2]
  {
    var n := b0 * 65536 + b1 * 256 + b2;
    BlockRoundTrip(b0, b1, b2);
    CharToIndexOfIndexToChar(n / 262144);
    CharToIndexOfIndexToChar((n / 4096) % 64);
    CharToIndexOfIndexToChar((n / 64) % 64);
    CharToIndexOfIndexToChar(n % 64);
  }

  /** A block of four alphabet characters that decodes to its octets. */
  lemma EncodeBlockDecodes(b0: byte, b1: byte, b2: byte)
    ensures var e := EncodeBlock(b0, b1, b2);
      && |e| == 4
      && (forall k :: 0 <= k < 4 ==> CharToIndex(e[k]).Some?)
      && DecodeBlock(CharToIndex(e[0]).value, CharToIndex(e[1]).value,
                     CharToIndex(e[2]).value, CharToIndex(e[3]).value) == [b0, b1, b2]
  {
    EncodeBlockIndices(b0, b1, b2);
  }

  /** A full group followed by more text decodes to the group's octets
      followed by the decoding of the rest. */
  lemma DecodeFullGroup(g: string, rest: string, octets: seq<byte>)
    requires |g| == 4
    requires forall k :: 0 <= k < 4 ==> CharToIndex(g[k]).Some?
    requires octets == DecodeBlock(CharToIndex(g[0]).value, CharToIndex(g[1]).value,
                                   CharToIndex(g[2]).value, CharToIndex(g[3]).value)
    requires Decode(rest).Some?
    ensures Decode(g + rest) == Some(octets + Decode(rest).value)
  {
    var s := g + rest;
    assert s[..4] == g && s[4..] == rest;
    assert CharToIndex(g[0]).Some? && CharToIndex(g[1]).Some? && CharToIndex(g[2]).Some? && CharToIndex(g[3]).Some?;
    if |rest| == 0 {
      assert s == g;
      assert octets + Decode(rest).value == octets;
    }
  }

  /** Decoding the embedded text reproduces the original octets exactly,
      for every octet sequence. */
  lemma {:induction false} DecodeEncode(bs: seq<byte>)
    ensures Decode(Encode(bs)) == Some(bs)
    decreases |bs|
  {
    if |bs| == 1 {
      EncodeOneRoundTrip(bs[0]);
      assert [bs[0]] == bs;
    } else if |bs| == 2 {
      EncodeTwoRoundTrip(bs[0], bs[1]);
      assert [bs[0], bs[1]] == bs;
    } else if |bs| >= 3 {
      DecodeEncode(bs[3..]);
      DecodeEncodeGroup(bs);
    }
  }

  /** One step of the round trip: a leading full group decodes back to its
      three octets. */
  lemma DecodeEncodeGroup(bs: seq<byte>)
    requires |bs| >= 3
    requires Decode(Encode(bs[3..])) == Some(bs[3..])
    ensures Decode(Encode(bs)) == Some(bs)
  {
    var blk := EncodeBlock(bs[0], bs[1], bs[2]);
    assert Encode(bs) == blk + Encode(bs[3..]);
    EncodeBlockDecodes(bs[0], bs[1], bs[2]);
    DecodeFullGroup(blk, Encode(bs[3..]), [bs[0], bs[1], bs[2]]);
    ThreeThenRest(bs);
  }

  lemma ThreeThenRest<T>(s: seq<T>)
    requires |s| >= 3
    ensures [s[0], s[1], s[2]] + s[3..] == s
  {
  }
}
