/** Go's base64.RawStdEncoding: the standard alphabet of section 4 of RFC 4648, without padding. */
module Base64 {
  import opened Wrappers
  import opened Bytes

  function CharOf(v: nat): (c: char)
    requires v < 64
    ensures SextetOf(c) == Some(v)
    ensures c != '$' && c != '\r' && c != '\n'
  {
    if v < 26 then ('A' as int + v) as char
    else if v < 52 then ('a' as int + v - 26) as char
    else if v < 62 then ('0' as int + v - 52) as char
    else if v == 62 then '+' else '/'
  }

  function SextetOf(c: char): (v: Option<nat>)
    ensures v.Some? ==> v.value < 64
  {
    if 'A' <= c <= 'Z' then Some(c as int - 'A' as int)
    else if 'a' <= c <= 'z' then Some(c as int - 'a' as int + 26)
    else if '0' <= c <= '9' then Some(c as int - '0' as int + 52)
    else if c == '+' then Some(62)
    else if c == '/' then Some(63)
    else None
  }

  function Encode(b: seq<Byte>): string {
    if |b| == 0 then ""
    else if |b| == 1 then [CharOf(b[0] / 4), CharOf(b[0] % 4 * 16)]
    else if |b| == 2 then [CharOf(b[0] / 4), CharOf(b[0] % 4 * 16 + b[1] / 16), CharOf(b[1] % 16 * 4)]
    else
      [CharOf(b[0] / 4), CharOf(b[0] % 4 * 16 + b[1] / 16), CharOf(b[1] % 16 * 4 + b[2] / 64), CharOf(b[2] % 64)]
      + Encode(b[3..])
  }

  /** The decoder skips line breaks. */
  function Significant(s: string): string {
    if s == "" then ""
    else if s[0] == '\r' || s[0] == '\n' then Significant(s[1..]) else [s[0]] + Significant(s[1..])
  }

  /** Bits beyond the last whole byte are ignored, as the decoder does unless told to be strict. */
  function DecodeSignificant(s: string): Option<seq<Byte>> {
    if s == "" then Some([])
    else if |s| == 1 || SextetOf(s[0]).None? || SextetOf(s[1]).None? then None
    else
      var v0, v1 := SextetOf(s[0]).value, SextetOf(s[1]).value;
      var b0: Byte := v0 * 4 + v1 / 16;
      if |s| == 2 then Some([b0])
      else if SextetOf(s[2]).None? then None
      else
        var v2 := SextetOf(s[2]).value;
        var b1: Byte := v1 % 16 * 16 + v2 / 4;
        if |s| == 3 then Some([b0, b1])
        else if SextetOf(s[3]).None? then None
        else match DecodeSignificant(s[4..])
          case None => None
          case Some(rest) => Some([b0, b1, v2 % 4 * 64 + SextetOf(s[3]).value] + rest)
  }

  function Decode(s: string): Option<seq<Byte>> { DecodeSignificant(Significant(s)) }

  lemma {:induction false} EncodedText(b: seq<Byte>)
    ensures '$' !in Encode(b) && Significant(Encode(b)) == Encode(b)
    decreases |b|
  {
    if |b| >= 3 {
      EncodedText(b[3..]);
      assert Encode(b)[4..] == Encode(b[3..]);
      SignificantFour(Encode(b));
    } else {
      SignificantShort(Encode(b));
    }
  }

  predicate Plain(s: string) { forall i :: 0 <= i < |s| ==> s[i] != '\r' && s[i] != '\n' }

  lemma SignificantFour(s: string)
    requires |s| >= 4 && Plain(s[..4]) && Significant(s[4..]) == s[4..]
    ensures Significant(s) == s
  {
    assert forall i :: 0 <= i < 4 ==> s[i] == s[..4][i];
    assert s[3..][1..] == s[4..] && s[2..][1..] == s[3..] && s[1..][1..] == s[2..];
    assert Significant(s[3..]) == s[3..];
    assert Significant(s[2..]) == s[2..];
    assert Significant(s[1..]) == s[1..];
  }

  lemma {:induction false} SignificantShort(s: string)
    requires Plain(s)
    ensures Significant(s) == s
  {
    if s != "" {
      assert forall i :: 0 <= i < |s[1..]| ==> s[1..][i] == s[i + 1];
      SignificantShort(s[1..]);
    }
  }

  /** Decoding undoes encoding, for every byte string. */
  lemma {:induction false} DecodeEncode(b: seq<Byte>)
    ensures Decode(Encode(b)) == Some(b)
  {
    EncodedText(b);
    DecodeEncodeSignificant(b);
  }

  lemma Recombine(b0: Byte, b1: Byte, b2: Byte)
    ensures b0 / 4 * 4 + (b0 % 4 * 16 + b1 / 16) / 16 == b0
    ensures (b0 % 4 * 16 + b1 / 16) % 16 * 16 + (b1 % 16 * 4 + b2 / 64) / 4 == b1
    ensures (b1 % 16 * 4 + b2 / 64) % 4 * 64 + b2 % 64 == b2
  {
  }

  /** Four characters spell three bytes, whatever follows. */
  lemma DecodeFour(b0: Byte, b1: Byte, b2: Byte, rest: string)
    ensures var s := [CharOf(b0 / 4), CharOf(b0 % 4 * 16 + b1 / 16), CharOf(b1 % 16 * 4 + b2 / 64), CharOf(b2 % 64)]
                     + rest;
            DecodeSignificant(s) == match DecodeSignificant(rest)
                                    case None => None
                                    case Some(bytes) => Some([b0, b1, b2] + bytes)
  {
    var s := [CharOf(b0 / 4), CharOf(b0 % 4 * 16 + b1 / 16), CharOf(b1 % 16 * 4 + b2 / 64), CharOf(b2 % 64)] + rest;
    assert s[4..] == rest;
    Recombine(b0, b1, b2);
  }

  lemma DecodeThree(b0: Byte, b1: Byte)
    ensures DecodeSignificant([CharOf(b0 / 4), CharOf(b0 % 4 * 16 + b1 / 16), CharOf(b1 % 16 * 4)]) == Some([b0, b1])
  {
    Recombine(b0, b1, 0);
  }

  lemma DecodeTwo(b0: Byte)
    ensures DecodeSignificant([CharOf(b0 / 4), CharOf(b0 % 4 * 16)]) == Some([b0])
  {
    Recombine(b0, 0, 0);
  }

  lemma {:induction false} DecodeEncodeSignificant(b: seq<Byte>)
    ensures DecodeSignificant(Encode(b)) == Some(b)
    decreases |b|
  {
    if |b| >= 3 {
      DecodeEncodeSignificant(b[3..]);
      DecodeFour(b[0], b[1], b[2], Encode(b[3..]));
      assert b == [b[0], b[1], b[2]] + b[3..];
    } else if |b| == 2 {
      DecodeThree(b[0], b[1]);
      assert b == [b[0], b[1]];
    } else if |b| == 1 {
      DecodeTwo(b[0]);
      assert b == [b[0]];
    }
  }
}
