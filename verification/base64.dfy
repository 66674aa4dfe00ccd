/**
 * Base 64 encoding with the standard alphabet and '=' padding, section 4 of RFC 4648:
 * what java.util.Base64.getEncoder() produces. The decoder is the inverse that jjwt applies
 * to a Base64-encoded signing key before using its bytes as the HMAC key.
 */
module Base64 {
  import opened Wrappers
  import opened Text

  /** Table 1 of RFC 4648: A-Z, a-z, 0-9, '+', '/'. */
  function Symbol(i: int): (c: char)
    requires 0 <= i < 64
    ensures c != '='
  {
    if i < 26 then ('A' as int + i) as char
    else if i < 52 then ('a' as int + (i - 26)) as char
    else if i < 62 then ('0' as int + (i - 52)) as char
    else if i == 62 then '+'
    else '/'
  }

  /** The position of c in the alphabet, or -1 for a character outside it. */
  function SymbolIndex(c: char): (i: int)
    ensures -1 <= i < 64
    ensures 0 <= i ==> Symbol(i) == c
  {
    if 'A' <= c <= 'Z' then c as int - 'A' as int
    else if 'a' <= c <= 'z' then c as int - 'a' as int + 26
    else if '0' <= c <= '9' then c as int - '0' as int + 52
    else if c == '+' then 62
    else if c == '/' then 63
    else -1
  }

  lemma SymbolIndexOfSymbol(i: int)
    requires 0 <= i < 64
    ensures SymbolIndex(Symbol(i)) == i
  {
  }

  /** Three bytes become four symbols; a final one or two bytes are padded with '='. */
  function Encode(b: seq<byte>): (s: string)
    ensures |s| == 4 * ((|b| + 2) / 3)
    decreases |b|
  {
    if |b| == 0 then ""
    else if |b| == 1 then [Symbol(b[0] / 4), Symbol((b[0] % 4) * 16), '=', '=']
    else if |b| == 2 then
      [Symbol(b[0] / 4), Symbol((b[0] % 4) * 16 + b[1] / 16), Symbol((b[1] % 16) * 4), '=']
    else
      [Symbol(b[0] / 4), Symbol((b[0] % 4) * 16 + b[1] / 16),
       Symbol((b[1] % 16) * 4 + b[2] / 64), Symbol(b[2] % 64)] + Encode(b[3..])
  }

  /** One group of four characters; only the last group may carry padding. */
  function DecodeQuad(q: string, last: bool): Option<seq<byte>>
    requires |q| == 4
  {
    var i0, i1, i2, i3 := SymbolIndex(q[0]), SymbolIndex(q[1]), SymbolIndex(q[2]), SymbolIndex(q[3]);
    if i0 < 0 || i1 < 0 then None
    else if last && q[2] == '=' && q[3] == '=' then Some([i0 * 4 + i1 / 16])
    else if last && 0 <= i2 && q[3] == '=' then Some([i0 * 4 + i1 / 16, (i1 % 16) * 16 + i2 / 4])
    else if 0 <= i2 && 0 <= i3 then
      Some([i0 * 4 + i1 / 16, (i1 % 16) * 16 + i2 / 4, (i2 % 4) * 64 + i3])
    else None
  }

  /** Decoding of padded Base 64 text; None for text that is not a padded encoding. */
  function Decode(s: string): Option<seq<byte>>
    decreases |s|
  {
    if |s| == 0 then Some([])
    else if |s| < 4 then None
    else
      match DecodeQuad(s[..4], |s| == 4)
      case None => None
      case Some(head) =>
        match Decode(s[4..])
        case None => None
        case Some(tail) => Some(head + tail)
  }

  /** Every encoded character is an alphabet symbol or the padding character. */
  lemma {:induction false} EncodeAlphabet(b: seq<byte>)
    ensures forall k :: 0 <= k < |Encode(b)| ==> Encode(b)[k] == '=' || SymbolIndex(Encode(b)[k]) >= 0
    decreases |b|
  {
    if |b| >= 3 {
      EncodeAlphabet(b[3..]);
    }
  }

  lemma TripleRoundTrip(b0: byte, b1: byte, b2: byte)
    ensures (b0 / 4) * 4 + ((b0 % 4) * 16 + b1 / 16) / 16 == b0
    ensures (((b0 % 4) * 16 + b1 / 16) % 16) * 16 + ((b1 % 16) * 4 + b2 / 64) / 4 == b1
    ensures (((b1 % 16) * 4 + b2 / 64) % 4) * 64 + b2 % 64 == b2
  {
  }

  /** The four symbols of a full group decode to its three bytes. */
  lemma DecodeFullGroup(b0: byte, b1: byte, b2: byte, last: bool)
    ensures DecodeQuad([Symbol(b0 / 4), Symbol((b0 % 4) * 16 + b1 / 16),
                        Symbol((b1 % 16) * 4 + b2 / 64), Symbol(b2 % 64)], last) == Some([b0, b1, b2])
  {
    TripleRoundTrip(b0, b1, b2);
    SymbolIndexOfSymbol(b0 / 4);
    SymbolIndexOfSymbol((b0 % 4) * 16 + b1 / 16);
    SymbolIndexOfSymbol((b1 % 16) * 4 + b2 / 64);
    SymbolIndexOfSymbol(b2 % 64);
  }

  /** A final group holding two bytes decodes to them. */
  lemma DecodeTwoByteGroup(b0: byte, b1: byte)
    ensures DecodeQuad([Symbol(b0 / 4), Symbol((b0 % 4) * 16 + b1 / 16), Symbol((b1 % 16) * 4), '='], true)
            == Some([b0, b1])
  {
    TripleRoundTrip(b0, b1, 0);
    SymbolIndexOfSymbol(b0 / 4);
    SymbolIndexOfSymbol((b0 % 4) * 16 + b1 / 16);
    SymbolIndexOfSymbol((b1 % 16) * 4);
  }

  /** A final group holding one byte decodes to it. */
  lemma DecodeOneByteGroup(b0: byte)
    ensures DecodeQuad([Symbol(b0 / 4), Symbol((b0 % 4) * 16), '=', '='], true) == Some([b0])
  {
    TripleRoundTrip(b0, 0, 0);
    SymbolIndexOfSymbol(b0 / 4);
    SymbolIndexOfSymbol((b0 % 4) * 16);
  }

  /** Decoding proceeds group by group. */
  lemma DecodeGroupThen(q: string, rest: string, head: seq<byte>, tail: seq<byte>)
    requires |q| == 4
    requires DecodeQuad(q, |rest| == 0) == Some(head)
    requires Decode(rest) == Some(tail)
    ensures Decode(q + rest) == Some(head + tail)
  {
    var s := q + rest;
    assert s[..4] == q && s[4..] == rest;
  }

  lemma DecodeEncodeOneByte(b: seq<byte>)
    requires |b| == 1
    ensures Decode(Encode(b)) == Some(b)
  {
    var q := [Symbol(b[0] / 4), Symbol((b[0] % 4) * 16), '=', '='];
    assert Encode(b) == q + "";
    DecodeOneByteGroup(b[0]);
    assert [b[0]] == b;
    DecodeGroupThen(q, "", b, []);
    assert b + [] == b;
  }

  lemma DecodeEncodeTwoBytes(b: seq<byte>)
    requires |b| == 2
    ensures Decode(Encode(b)) == Some(b)
  {
    var q := [Symbol(b[0] / 4), Symbol((b[0] % 4) * 16 + b[1] / 16), Symbol((b[1] % 16) * 4), '='];
    assert Encode(b) == q + "";
    DecodeTwoByteGroup(b[0], b[1]);
    assert [b[0], b[1]] == b;
    DecodeGroupThen(q, "", b, []);
    assert b + [] == b;
  }

  lemma EncodeFullGroup(b: seq<byte>)
    requires |b| >= 3
    ensures Encode(b) == [Symbol(b[0] / 4), Symbol((b[0] % 4) * 16 + b[1] / 16),
                          Symbol((b[1] % 16) * 4 + b[2] / 64), Symbol(b[2] % 64)] + Encode(b[3..])
  {
  }

  lemma DecodeEncodeStep(b: seq<byte>, rest: string)
    requires |b| >= 3
    requires rest == Encode(b[3..])
    requires Decode(rest) == Some(b[3..])
    ensures Decode(Encode(b)) == Some(b)
  {
    var b0, b1, b2 := b[0], b[1], b[2];
    var q := [Symbol(b0 / 4), Symbol((b0 % 4) * 16 + b1 / 16),
              Symbol((b1 % 16) * 4 + b2 / 64), Symbol(b2 % 64)];
    EncodeFullGroup(b);
    assert Encode(b) == q + rest;
    DecodeFullGroup(b0, b1, b2, |rest| == 0);
    assert DecodeQuad(q, |rest| == 0) == Some([b0, b1, b2]);
    DecodeGroupThen(q, rest, [b0, b1, b2], b[3..]);
    assert [b0, b1, b2] + b[3..] == b;
  }

  /** Decoding undoes encoding: the key bytes jjwt recovers are the bytes that were encoded. */
  lemma {:induction false} DecodeEncode(b: seq<byte>)
    ensures Decode(Encode(b)) == Some(b)
    decreases |b|
  {
    if |b| == 1 {
      DecodeEncodeOneByte(b);
    } else if |b| == 2 {
      DecodeEncodeTwoBytes(b);
    } else if |b| >= 3 {
      DecodeEncode(b[3..]);
      DecodeEncodeStep(b, Encode(b[3..]));
    }
  }
}
