/** The encoding of section 4 of RFC 4648, bit by bit: six bits to a letter. */
module Base64Bits {
  import opened Bytes
  import opened Base64

  /** Table 1 of RFC 4648: the digits 0 to 63. */
  const ALPHABET: string := From('A', 26) + From('a', 26) + From('0', 10) + "+/"

  function From(c: char, n: nat): string
    requires c as int + n <= 128
  {
    seq(n, i requires 0 <= i < n => (c as int + i) as char)
  }

  const OCTET: nat := 8
  const SEXTET: nat := 6

  /** The last `n` bits of a number, the highest first. */
  function Bits(v: nat, n: nat): seq<bool>
  {
    if n == 0 then [] else Bits(v / 2, n - 1) + [v % 2 == 1]
  }

  /** The bits of some numbers of `n` bits each. */
  function AllBits(vs: seq<nat>, n: nat): seq<bool> { if vs == [] then [] else Bits(vs[0], n) + AllBits(vs[1..], n) }

  /** The text is made of these digits. */
  predicate Spells(vs: seq<nat>, s: string) {
    |vs| == |s| && forall i :: 0 <= i < |vs| ==> vs[i] < 64 && s[i] == ALPHABET[vs[i]]
  }

  lemma CharIsLetter(v: nat)
    requires v < 64
    ensures CharOf(v) == ALPHABET[v]
  {
  }

  function Pow2(k: nat): nat { if k == 0 then 1 else 2 * Pow2(k - 1) }

  lemma Doubles(a: nat, b: nat)
    ensures a * (2 * b) == 2 * (a * b)
  {
  }

  lemma LastBit(half: nat, lo: nat)
    ensures (2 * half + lo) / 2 == half + lo / 2 && (2 * half + lo) % 2 == lo % 2
  {
  }

  /** A number written after another. */
  lemma {:induction false} BitsJoin(hi: nat, lo: nat, m: nat, k: nat)
    requires lo < Pow2(k)
    ensures Bits(hi * Pow2(k) + lo, m + k) == Bits(hi, m) + Bits(lo, k)
  {
    if k > 0 {
      Doubles(hi, Pow2(k - 1));
      LastBit(hi * Pow2(k - 1), lo);
      BitsJoin(hi, lo / 2, m, k - 1);
    }
  }

  lemma Cut(b: nat, hi: nat, lo: nat, m: nat, k: nat, p: nat)
    requires p == Pow2(k) && lo < p && b == hi * p + lo
    ensures Bits(b, m + k) == Bits(hi, m) + Bits(lo, k)
  {
    BitsJoin(hi, lo, m, k);
  }

  lemma Powers()
    ensures Pow2(2) == 4 && Pow2(4) == 16 && Pow2(SEXTET) == 64
  {
    assert Pow2(1) == 2 && Pow2(3) == 8 && Pow2(5) == 32;
  }

  type BitString = seq<bool>

  lemma FirstCut(b0: Byte, b1: Byte)
    ensures Bits(b0, OCTET) == Bits(b0 / 4, SEXTET) + Bits(b0 % 4, 2)
    ensures Bits(b0 % 4 * 16 + b1 / 16, SEXTET) == Bits(b0 % 4, 2) + Bits(b1 / 16, 4)
  {
    Powers();
    Cut(b0, b0 / 4, b0 % 4, SEXTET, 2, 4);
    Cut(b0 % 4 * 16 + b1 / 16, b0 % 4, b1 / 16, 2, 4, 16);
  }

  lemma SecondCut(b1: Byte, b2: Byte)
    ensures Bits(b1, OCTET) == Bits(b1 / 16, 4) + Bits(b1 % 16, 4)
    ensures Bits(b1 % 16 * 4 + b2 / 64, SEXTET) == Bits(b1 % 16, 4) + Bits(b2 / 64, 2)
  {
    Powers();
    Cut(b1, b1 / 16, b1 % 16, 4, 4, 16);
    Cut(b1 % 16 * 4 + b2 / 64, b1 % 16, b2 / 64, 4, 2, 4);
  }

  lemma LastCut(b2: Byte)
    ensures Bits(b2, OCTET) == Bits(b2 / 64, 2) + Bits(b2 % 64, SEXTET)
  {
    Powers();
    Cut(b2, b2 / 64, b2 % 64, 2, SEXTET, 64);
  }

  lemma Regroup(p: BitString, q: BitString, r: BitString, s: BitString, t: BitString, u: BitString)
    ensures (p + q) + (r + s) + (t + u) == p + (q + r) + (s + t) + u
  {
  }

  /** Three bytes and four digits have the same bits. */
  lemma SameBits(b0: Byte, b1: Byte, b2: Byte)
    ensures Bits(b0, OCTET) + Bits(b1, OCTET) + Bits(b2, OCTET)
         == Bits(b0 / 4, SEXTET) + Bits(b0 % 4 * 16 + b1 / 16, SEXTET) + Bits(b1 % 16 * 4 + b2 / 64, SEXTET)
            + Bits(b2 % 64, SEXTET)
  {
    FirstCut(b0, b1);
    SecondCut(b1, b2);
    LastCut(b2);
    Regroup(Bits(b0 / 4, SEXTET), Bits(b0 % 4, 2), Bits(b1 / 16, 4), Bits(b1 % 16, 4), Bits(b2 / 64, 2),
            Bits(b2 % 64, SEXTET));
  }

  function Zeros(n: nat): seq<bool> { seq(n, i => false) }

  lemma {:induction false} NoBits(n: nat)
    ensures Bits(0, n) == Zeros(n)
  {
    if n > 0 { NoBits(n - 1); }
  }

  lemma RegroupFive(p: BitString, q: BitString, r: BitString, s: BitString, t: BitString)
    ensures (p + q) + (r + s) + t == p + (q + r) + (s + t)
    ensures (p + q) + r == p + (q + r)
  {
  }

  lemma TwoDigits(b0: Byte)
    ensures Bits(b0, OCTET) + Zeros(4) == Bits(b0 / 4, SEXTET) + Bits(b0 % 4 * 16, SEXTET)
  {
    Powers();
    Cut(b0, b0 / 4, b0 % 4, SEXTET, 2, 4);
    Cut(b0 % 4 * 16, b0 % 4, 0, 2, 4, 16);
    NoBits(4);
    RegroupFive(Bits(b0 / 4, SEXTET), Bits(b0 % 4, 2), Zeros(4), [], []);
  }

  lemma ThreeDigits(b0: Byte, b1: Byte)
    ensures Bits(b0, OCTET) + Bits(b1, OCTET) + Zeros(2)
         == Bits(b0 / 4, SEXTET) + Bits(b0 % 4 * 16 + b1 / 16, SEXTET) + Bits(b1 % 16 * 4, SEXTET)
  {
    FirstCut(b0, b1);
    SecondCut(b1, 0);
    NoBits(2);
    RegroupFive(Bits(b0 / 4, SEXTET), Bits(b0 % 4, 2), Bits(b1 / 16, 4), Bits(b1 % 16, 4), Zeros(2));
  }

  lemma {:induction false} AllBitsAppend(vs: seq<nat>, more: seq<nat>, n: nat)
    ensures AllBits(vs + more, n) == AllBits(vs, n) + AllBits(more, n)
  {
    if vs == [] {
      assert [] + more == more;
    } else {
      AllBitsAppend(vs[1..], more, n);
      assert (vs + more)[1..] == vs[1..] + more;
      RegroupFive(Bits(vs[0], n), AllBits(vs[1..], n), AllBits(more, n), [], []);
    }
  }

  lemma AllBitsOne(v: nat, n: nat)
    ensures AllBits([v], n) == Bits(v, n)
  {
    assert AllBits([v][1..], n) == [];
  }

  lemma AllBitsTwo(v0: nat, v1: nat, n: nat)
    ensures AllBits([v0, v1], n) == Bits(v0, n) + Bits(v1, n)
  {
    AllBitsOne(v0, n);
    AllBitsOne(v1, n);
    AllBitsAppend([v0], [v1], n);
    assert [v0] + [v1] == [v0, v1];
  }

  lemma AllBitsThree(v0: nat, v1: nat, v2: nat, n: nat)
    ensures AllBits([v0, v1, v2], n) == Bits(v0, n) + Bits(v1, n) + Bits(v2, n)
  {
    AllBitsTwo(v0, v1, n);
    AllBitsOne(v2, n);
    AllBitsAppend([v0, v1], [v2], n);
    assert [v0, v1] + [v2] == [v0, v1, v2];
  }

  lemma AllBitsFour(v0: nat, v1: nat, v2: nat, v3: nat, n: nat)
    ensures AllBits([v0, v1, v2, v3], n) == Bits(v0, n) + Bits(v1, n) + Bits(v2, n) + Bits(v3, n)
  {
    AllBitsThree(v0, v1, v2, n);
    AllBitsOne(v3, n);
    AllBitsAppend([v0, v1, v2], [v3], n);
    assert [v0, v1, v2] + [v3] == [v0, v1, v2, v3];
  }

  /** The digits of the first three bytes, or of all of fewer. */
  function Digits(b: seq<Byte>): seq<nat> {
    if b == [] then []
    else if |b| == 1 then [b[0] / 4, b[0] % 4 * 16]
    else if |b| == 2 then [b[0] / 4, b[0] % 4 * 16 + b[1] / 16, b[1] % 16 * 4]
    else [b[0] / 4, b[0] % 4 * 16 + b[1] / 16, b[1] % 16 * 4 + b[2] / 64, b[2] % 64]
  }

  lemma OneByte(b: seq<Byte>)
    requires |b| == 1
    ensures AllBits(Digits(b), SEXTET) == AllBits(b, OCTET) + Zeros(4)
  {
    var vs := Digits(b);
    assert b == [b[0]];
    AllBitsOne(b[0], OCTET);
    AllBitsTwo(vs[0], vs[1], SEXTET);
    TwoDigits(b[0]);
  }

  lemma TwoAndThree(b: seq<nat>, vs: seq<nat>, fill: seq<bool>, m: nat, n: nat)
    requires |b| == 2 && |vs| == 3
    requires Bits(b[0], n) + Bits(b[1], n) + fill == Bits(vs[0], m) + Bits(vs[1], m) + Bits(vs[2], m)
    ensures AllBits(vs, m) == AllBits(b, n) + fill
  {
    assert b == [b[0], b[1]] && vs == [vs[0], vs[1], vs[2]];
    AllBitsTwo(b[0], b[1], n);
    AllBitsThree(vs[0], vs[1], vs[2], m);
  }

  lemma TwoBytes(b: seq<Byte>)
    requires |b| == 2
    ensures AllBits(Digits(b), SEXTET) == AllBits(b, OCTET) + Zeros(2)
  {
    ThreeDigits(b[0], b[1]);
    TwoAndThree(b, Digits(b), Zeros(2), SEXTET, OCTET);
  }

  lemma ThreeAndFour(b: seq<nat>, vs: seq<nat>, m: nat, n: nat)
    requires |b| == 3 && |vs| == 4
    requires Bits(b[0], n) + Bits(b[1], n) + Bits(b[2], n)
          == Bits(vs[0], m) + Bits(vs[1], m) + Bits(vs[2], m) + Bits(vs[3], m)
    ensures AllBits(vs, m) == AllBits(b, n)
  {
    assert b == [b[0], b[1], b[2]] && vs == [vs[0], vs[1], vs[2], vs[3]];
    AllBitsThree(b[0], b[1], b[2], n);
    AllBitsFour(vs[0], vs[1], vs[2], vs[3], m);
  }

  lemma ThreeBytes(b: seq<Byte>)
    requires |b| == 3
    ensures AllBits(Digits(b), SEXTET) == AllBits(b, OCTET)
  {
    SameBits(b[0], b[1], b[2]);
    ThreeAndFour(b, Digits(b), SEXTET, OCTET);
  }

  lemma FirstDigits(b: seq<Byte>)
    requires |b| >= 3
    ensures Digits(b[..3]) == Digits(b)
  {
  }

  /** How many zero bits fill up the last digit. */
  function Filling(n: nat): nat { if n % 3 == 0 then 0 else if n % 3 == 1 then 4 else 2 }

  lemma CharsSpell(vs: seq<nat>, s: string)
    requires |vs| == |s| && forall i :: 0 <= i < |vs| ==> vs[i] < 64 && s[i] == CharOf(vs[i])
    ensures Spells(vs, s)
  {
    forall i | 0 <= i < |vs| ensures vs[i] < 64 && s[i] == ALPHABET[vs[i]] { CharIsLetter(vs[i]); }
  }

  lemma OneByteSpelt(b: seq<Byte>)
    requires |b| == 1
    ensures Spells(Digits(b), Encode(b))
  {
    var vs := Digits(b);
    assert Encode(b) == [CharOf(vs[0]), CharOf(vs[1])];
    CharsSpell(vs, Encode(b));
  }

  lemma TwoBytesSpelt(b: seq<Byte>)
    requires |b| == 2
    ensures Spells(Digits(b), Encode(b))
  {
    var vs := Digits(b);
    assert Encode(b) == [CharOf(vs[0]), CharOf(vs[1]), CharOf(vs[2])];
    CharsSpell(vs, Encode(b));
  }

  lemma FourDigits(b: seq<Byte>)
    requires |b| >= 3
    ensures |Encode(b)| >= 4 && Encode(b)[4..] == Encode(b[3..]) && Spells(Digits(b), Encode(b)[..4])
  {
    var vs, s := Digits(b), Encode(b);
    assert s == [CharOf(vs[0]), CharOf(vs[1]), CharOf(vs[2]), CharOf(vs[3])] + Encode(b[3..]);
    CharsSpell(vs, s[..4]);
  }

  lemma SpellsAppend(vs: seq<nat>, ws: seq<nat>, s: string)
    requires |vs| <= |s| && Spells(vs, s[..|vs|]) && Spells(ws, s[|vs|..])
    ensures Spells(vs + ws, s)
  {
    assert s == s[..|vs|] + s[|vs|..];
  }

  lemma BitsAppend(vs: seq<nat>, ws: seq<nat>, a: seq<nat>, b: seq<nat>, fill: seq<bool>, m: nat, n: nat)
    requires AllBits(vs, m) == AllBits(a, n) && AllBits(ws, m) == AllBits(b, n) + fill
    ensures AllBits(vs + ws, m) == AllBits(a + b, n) + fill
  {
    AllBitsAppend(vs, ws, m);
    AllBitsAppend(a, b, n);
    RegroupFive(AllBits(a, n), AllBits(b, n), fill, [], []);
  }

  /** The encoding is the bytes' bits, six to a letter of the alphabet, the last filled up with zeros. */
  lemma {:induction false} EncodesBits(b: seq<Byte>) returns (vs: seq<nat>)
    ensures Spells(vs, Encode(b)) && AllBits(vs, SEXTET) == AllBits(b, OCTET) + Zeros(Filling(|b|))
    decreases |b|, 1
  {
    if |b| == 0 {
      vs := [];
    } else if |b| < 3 {
      vs := Digits(b);
      if |b| == 1 {
        OneByteSpelt(b);
        OneByte(b);
      } else {
        TwoBytesSpelt(b);
        TwoBytes(b);
      }
    } else {
      var rest, fill := EncodesRest(b);
      vs := Digits(b) + rest;
      FourDigits(b);
      FirstDigits(b);
      ThreeBytes(b[..3]);
      SpellsAppend(Digits(b), rest, Encode(b));
      BitsAppend(Digits(b), rest, b[..3], b[3..], fill, SEXTET, OCTET);
      assert b == b[..3] + b[3..];
    }
  }

  lemma {:induction false} EncodesRest(b: seq<Byte>) returns (rest: seq<nat>, fill: seq<bool>)
    requires |b| >= 3
    ensures Spells(rest, Encode(b[3..])) && AllBits(rest, SEXTET) == AllBits(b[3..], OCTET) + fill
    ensures fill == Zeros(Filling(|b|))
    decreases |b|, 0
  {
    var after := b[3..];
    FillingRest(|b|);
    rest := EncodesBits(after);
    fill := Zeros(Filling(|after|));
  }

  lemma FillingRest(n: nat)
    requires n >= 3
    ensures Filling(n - 3) == Filling(n)
  {
  }
}
