/**
 * Base64 with the standard alphabet and '=' padding, section 4 of RFC 4648, as used for the
 * `ct`, `iv` and `tag` fields of a cipher item (Node's `Buffer` "base64" and the browser's
 * `btoa`/`atob`). Encoding emits no line breaks.
 */
module Base64 {
  import opened Wrappers
  import opened Buffers

  const PadChar := '='

  /** The character that stands for the 6-bit value `v` (Table 1 of RFC 4648). */
  function Char(v: nat): (c: char)
    requires v < 64
    ensures c != PadChar
    ensures Value(c) == Some(v)
  {
    if v < 26 then ('A' as int + v) as char
    else if v < 52 then ('a' as int + (v - 26)) as char
    else if v < 62 then ('0' as int + (v - 52)) as char
    else if v == 62 then '+'
    else '/'
  }

  /** The 6-bit value of an alphabet character; None for any other character, '=' included. */
  function Value(c: char): (r: Option<nat>)
    ensures r.Some? ==> r.value < 64
    ensures c == PadChar ==> r == None
  {
    if 'A' <= c <= 'Z' then Some(c as int - 'A' as int)
    else if 'a' <= c <= 'z' then Some(c as int - 'a' as int + 26)
    else if '0' <= c <= '9' then Some(c as int - '0' as int + 52)
    else if c == '+' then Some(62)
    else if c == '/' then Some(63)
    else None
  }

  /** One full 24-bit group: three bytes become four characters. */
  function Quantum(b0: byte, b1: byte, b2: byte): string
  {
    [Char(b0 / 4), Char(b0 % 4 * 16 + b1 / 16), Char(b1 % 16 * 4 + b2 / 64), Char(b2 % 64)]
  }

  /** The final group of one or two bytes, padded with "==" or "=". */
  function Padded(b: Bytes): (s: string)
    requires 1 <= |b| <= 2
    ensures |s| == 4
  {
    if |b| == 1 then [Char(b[0] / 4), Char(b[0] % 4 * 16), PadChar, PadChar]
    else [Char(b[0] / 4), Char(b[0] % 4 * 16 + b[1] / 16), Char(b[1] % 16 * 4), PadChar]
  }

  /** The encoding of `b`: four characters per started group of three bytes, padded with '='. */
  function Encode(b: Bytes): (s: string)
    ensures |s| == 4 * ((|b| + 2) / 3)
    decreases |b|
  {
    if |b| == 0 then ""
    else if |b| < 3 then Padded(b)
    else Quantum(b[0], b[1], b[2]) + Encode(b[3..])
  }

  /** The first byte of a group: the six bits of `v0`, then the top two bits of `v1`. */
  function Hi(v0: nat, v1: nat): byte
    requires v0 < 64 && v1 < 64
  {
    v0 * 4 + v1 / 16
  }

  /** The second byte of a group: the low four bits of `v1`, then the top four bits of `v2`. */
  function Mid(v1: nat, v2: nat): byte
    requires v1 < 64 && v2 < 64
  {
    v1 % 16 * 16 + v2 / 4
  }

  /** The third byte of a group: the low two bits of `v2`, then the six bits of `v3`. */
  function Lo(v2: nat, v3: nat): byte
    requires v2 < 64 && v3 < 64
  {
    v2 % 4 * 64 + v3
  }

  /**
   * The bytes one four-character group encodes. Only the `last` group may end in "=" or "==";
   * the unused bits of a padded group are ignored.
   */
  function Group(c0: char, c1: char, c2: char, c3: char, last: bool): (r: Option<Bytes>)
    ensures r.Some? ==> 1 <= |r.value| <= 3 && (|r.value| < 3 ==> last)
  {
    var v0, v1, v2, v3 := Value(c0), Value(c1), Value(c2), Value(c3);
    if v0.None? || v1.None? then None
    else if last && c2 == PadChar && c3 == PadChar then Some([Hi(v0.value, v1.value)])
    else if last && v2.Some? && c3 == PadChar then Some([Hi(v0.value, v1.value), Mid(v1.value, v2.value)])
    else if v2.None? || v3.None? then None
    else Some([Hi(v0.value, v1.value), Mid(v1.value, v2.value), Lo(v2.value, v3.value)])
  }

  /**
   * The bytes `s` encodes, or None when `s` is not a sequence of four-character groups over the
   * alphabet whose last group may end in "=" or "==".
   */
  function Decode(s: string): (r: Option<Bytes>)
    ensures r.Some? ==> |s| % 4 == 0
    decreases |s|
  {
    if |s| == 0 then Some([])
    else if |s| < 4 then None
    else
      match Group(s[0], s[1], s[2], s[3], |s| == 4)
      case None => None
      case Some(g) =>
        if |g| < 3 then Some(g)
        else
          match Decode(s[4..])
          case None => None
          case Some(rest) => Some(g + rest)
  }

  /** The sextets of one or two bytes reassemble into those bytes. */
  lemma Reassemble(b0: byte, b1: byte)
    ensures Hi(b0 / 4, b0 % 4 * 16 + b1 / 16) == b0
    ensures Mid(b0 % 4 * 16 + b1 / 16, b1 % 16 * 4) == b1
  {
    assert (b0 % 4 * 16 + b1 / 16) / 16 == b0 % 4;
    assert (b0 % 4 * 16 + b1 / 16) % 16 == b1 / 16;
  }

  /** The sextets of a full group reassemble into its three bytes. */
  lemma ReassembleQuantum(b0: byte, b1: byte, b2: byte)
    ensures Mid(b0 % 4 * 16 + b1 / 16, b1 % 16 * 4 + b2 / 64) == b1
    ensures Lo(b1 % 16 * 4 + b2 / 64, b2 % 64) == b2
  {
    assert (b0 % 4 * 16 + b1 / 16) % 16 == b1 / 16;
    assert (b1 % 16 * 4 + b2 / 64) / 4 == b1 % 16;
    assert (b1 % 16 * 4 + b2 / 64) % 4 == b2 / 64;
  }

  /** A single byte, encoded as a group padded with "==", decodes to that byte. */
  lemma DecodeOneByte(b: Bytes)
    requires |b| == 1
    ensures Decode(Encode(b)) == Some(b)
  {
    Reassemble(b[0], 0);
    assert b == [b[0]];
  }

  /** Two bytes, encoded as a group padded with "=", decode to those bytes. */
  lemma DecodeTwoBytes(b: Bytes)
    requires |b| == 2
    ensures Decode(Encode(b)) == Some(b)
  {
    Reassemble(b[0], b[1]);
    assert b == [b[0], b[1]];
  }

  /** A full group followed by any decodable text decodes to its three bytes and the rest. */
  lemma DecodeQuantum(b0: byte, b1: byte, b2: byte, rest: string)
    requires Decode(rest).Some?
    ensures Decode(Quantum(b0, b1, b2) + rest) == Some([b0, b1, b2] + Decode(rest).value)
  {
    var s := Quantum(b0, b1, b2) + rest;
    assert s[4..] == rest;
    Reassemble(b0, b1);
    ReassembleQuantum(b0, b1, b2);
    assert Group(s[0], s[1], s[2], s[3], |s| == 4) == Some([b0, b1, b2]);
  }

  /** A sequence of at least three bytes is its first three followed by the rest. */
  lemma LeadingThree(b: Bytes)
    requires |b| >= 3
    ensures [b[0], b[1], b[2]] + b[3..] == b
  {
  }

  /** When the bytes after the first three round-trip, so does the whole sequence. */
  lemma DecodeLeadingQuantum(b: Bytes)
    requires |b| >= 3 && Decode(Encode(b[3..])) == Some(b[3..])
    ensures Decode(Encode(b)) == Some(b)
  {
    var rest := Encode(b[3..]);
    DecodeQuantum(b[0], b[1], b[2], rest);
    LeadingThree(b);
  }

  /** Decoding undoes encoding: `ub64(b64(u)) == u` and `atob(btoa(s)) == s`. */
  lemma {:induction false} DecodeEncode(b: Bytes)
    ensures Decode(Encode(b)) == Some(b)
    decreases |b|
  {
    if |b| == 1 {
      DecodeOneByte(b);
    } else if |b| == 2 {
      DecodeTwoBytes(b);
    } else if |b| >= 3 {
      DecodeEncode(b[3..]);
      DecodeLeadingQuantum(b);
    }
  }
}
