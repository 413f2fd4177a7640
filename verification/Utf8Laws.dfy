/** The bytes of a text against its characters: UTF-8 as section 3 of RFC 3629 defines it. */
module Utf8Laws {
  import opened Bytes
  import opened Utf8

  /** A Unicode scalar value: no surrogate. */
  predicate IsScalar(c: nat) { c < 0xD800 || 0xE000 <= c < 0x11_0000 }

  /** The encoding of one character. */
  function Encode(c: nat): (s: seq<Byte>)
    requires IsScalar(c)
    ensures 1 <= |s| <= 4
  {
    if c < 0x80 then [c]
    else if c < 0x800 then [0xC0 + c / 0x40, 0x80 + c % 0x40]
    else if c < 0x1_0000 then [0xE0 + c / 0x1000, 0x80 + c / 0x40 % 0x40, 0x80 + c % 0x40]
    else [0xF0 + c / 0x4_0000, 0x80 + c / 0x1000 % 0x40, 0x80 + c / 0x40 % 0x40, 0x80 + c % 0x40]
  }

  /** The first character of a text is read as it was encoded. */
  lemma ReadsBack(c: nat, rest: seq<Byte>)
    requires IsScalar(c)
    ensures var s := Encode(c) + rest; RuneWidth(s) == |Encode(c)| && !Invalid(s) && s[|Encode(c)|..] == rest
  {
    EncodesValidly(c);
    ReadsAny(Encode(c), rest);
  }

  /** The bytes a character may be encoded in: the shortest form, and no surrogates. */
  predicate IsValid(e: seq<Byte>) {
    && IsEncoding(e)
    && (|e| == 3 ==> (e[0] == 0xE0 ==> e[1] >= 0xA0) && (e[0] == 0xED ==> e[1] < 0xA0))
    && (|e| == 4 ==> e[0] < 0xF5 && (e[0] == 0xF0 ==> e[1] >= 0x90) && (e[0] == 0xF4 ==> e[1] < 0x90))
  }

  lemma EncodesValidly(c: nat)
    requires IsScalar(c)
    ensures IsValid(Encode(c))
  {
  }

  lemma ReadsAny(e: seq<Byte>, rest: seq<Byte>)
    requires IsValid(e)
    ensures var s := e + rest; RuneWidth(s) == |e| && !Invalid(s) && s[|e|..] == rest
  {
    var s := e + rest;
    assert forall i :: 0 <= i < |e| ==> s[i] == e[i];
  }

  lemma TwoBytes(a: int, b: int) returns (c: nat)
    requires 0xC2 <= a < 0xE0 && 0x80 <= b < 0xC0
    ensures IsScalar(c) && Encode(c) == [a, b]
  {
    c := (a - 0xC0) * 0x40 + (b - 0x80);
    assert c / 0x40 == a - 0xC0 && c % 0x40 == b - 0x80;
  }

  lemma ThreeBytes(a: int, b: int, d: int) returns (c: nat)
    requires 0xE0 <= a < 0xF0 && 0x80 <= b < 0xC0 && 0x80 <= d < 0xC0
    requires (a == 0xE0 ==> b >= 0xA0) && (a == 0xED ==> b < 0xA0)
    ensures IsScalar(c) && Encode(c) == [a, b, d]
  {
    c := (a - 0xE0) * 0x1000 + (b - 0x80) * 0x40 + (d - 0x80);
    assert c / 0x40 == (a - 0xE0) * 0x40 + (b - 0x80) && c % 0x40 == d - 0x80;
  }

  lemma FourBytes(a: int, b: int, d: int, e: int) returns (c: nat)
    requires 0xF0 <= a < 0xF5 && 0x80 <= b < 0xC0 && 0x80 <= d < 0xC0 && 0x80 <= e < 0xC0
    requires (a == 0xF0 ==> b >= 0x90) && (a == 0xF4 ==> b < 0x90)
    ensures IsScalar(c) && Encode(c) == [a, b, d, e]
  {
    c := (a - 0xF0) * 0x4_0000 + (b - 0x80) * 0x1000 + (d - 0x80) * 0x40 + (e - 0x80);
    assert c / 0x1000 == (a - 0xF0) * 0x40 + (b - 0x80);
    assert c / 0x40 == (a - 0xF0) * 0x1000 + (b - 0x80) * 0x40 + (d - 0x80) && c % 0x40 == e - 0x80;
  }

  /** A text that does not start with an invalid byte starts with a character. */
  lemma StartsWith(s: seq<Byte>) returns (c: nat)
    requires s != [] && !Invalid(s)
    ensures IsScalar(c) && Encode(c) == s[..RuneWidth(s)]
  {
    match RuneWidth(s) {
      case 1 => c := s[0];
      case 2 => c := TwoBytes(s[0], s[1]);
      case 3 => c := ThreeBytes(s[0], s[1], s[2]);
      case _ => c := FourBytes(s[0], s[1], s[2], s[3]);
    }
  }

  ghost predicate Starts(s: seq<Byte>, c: nat) { IsScalar(c) && Encode(c) <= s }

  /** A byte is invalid exactly if no character's encoding starts with it there. */
  lemma InvalidIff(s: seq<Byte>)
    requires s != []
    ensures !Invalid(s) <==> exists c :: Starts(s, c)
    ensures forall c :: Starts(s, c) ==> RuneWidth(s) == |Encode(c)|
  {
    if !Invalid(s) {
      var c := StartsWith(s);
      assert Starts(s, c);
    }
    forall c | Starts(s, c) ensures !Invalid(s) && RuneWidth(s) == |Encode(c)| {
      assert s == Encode(c) + s[|Encode(c)|..];
      ReadsBack(c, s[|Encode(c)|..]);
    }
  }

  // Texts

  predicate AllScalar(cs: seq<nat>) { forall i :: 0 <= i < |cs| ==> IsScalar(cs[i]) }

  function EncodeAll(cs: seq<nat>): seq<Byte>
    requires AllScalar(cs)
  {
    if cs == [] then [] else Encode(cs[0]) + EncodeAll(cs[1..])
  }

  ghost predicate Spells(cs: seq<nat>, s: seq<Byte>) { AllScalar(cs) && EncodeAll(cs) == s }

  lemma {:induction false} Spelling(s: seq<Byte>) returns (cs: seq<nat>)
    requires IsUtf8(s)
    ensures Spells(cs, s)
    decreases |s|
  {
    if s == [] {
      cs := [];
    } else {
      var c := StartsWith(s);
      var rest := Spelling(s[RuneWidth(s)..]);
      cs := [c] + rest;
      assert s == s[..RuneWidth(s)] + s[RuneWidth(s)..];
    }
  }

  /** Spelt-out characters are valid, and are counted one by one. */
  lemma {:induction false} Spelt(cs: seq<nat>)
    requires AllScalar(cs)
    ensures IsUtf8(EncodeAll(cs)) && RuneCount(EncodeAll(cs)) == |cs|
  {
    if cs != [] {
      Spelt(cs[1..]);
      ReadsBack(cs[0], EncodeAll(cs[1..]));
    }
  }

  /** A text is valid exactly if it spells characters, and then its runes are counted by them. */
  lemma Utf8Iff(s: seq<Byte>)
    ensures IsUtf8(s) <==> exists cs :: Spells(cs, s)
    ensures forall cs :: Spells(cs, s) ==> RuneCount(s) == |cs|
  {
    if IsUtf8(s) {
      var cs := Spelling(s);
      assert Spells(cs, s);
    }
    forall cs | Spells(cs, s) ensures IsUtf8(s) && RuneCount(s) == |cs| { Spelt(cs); }
  }

  /** The JSON encoder keeps every character, and puts U+FFFD for every byte that starts none. */
  lemma CoercesOne(s: seq<Byte>)
    requires s != []
    ensures forall c :: Starts(s, c) ==> Coerce(s) == Encode(c) + Coerce(s[|Encode(c)|..])
    ensures (forall c :: !Starts(s, c)) ==> Coerce(s) == Encode(0xFFFD) + Coerce(s[1..])
    ensures (forall c :: !Starts(s, c)) ==> RuneCount(s) == 1 + RuneCount(s[1..])
  {
    InvalidIff(s);
    forall c | Starts(s, c) ensures Coerce(s) == Encode(c) + Coerce(s[|Encode(c)|..]) {
      assert s[..|Encode(c)|] == Encode(c);
    }
  }

  /** What the encoder sends is valid. */
  lemma {:induction false} CoerceIsUtf8(s: seq<Byte>)
    ensures IsUtf8(Coerce(s))
    decreases |s|
  {
    if s != [] {
      var w := RuneWidth(s);
      CoerceIsUtf8(s[w..]);
      if Invalid(s) {
        assert REPLACEMENT == Encode(0xFFFD);
        ReadsBack(0xFFFD, Coerce(s[1..]));
      } else {
        var c := StartsWith(s);
        ReadsBack(c, Coerce(s[w..]));
      }
    }
  }

  // White space

  /** The white space of unicode.IsSpace. */
  predicate IsSpace(c: nat) {
    || 0x09 <= c <= 0x0D || c == 0x20 || c == 0x85 || c == 0xA0 || c == 0x1680 || 0x2000 <= c <= 0x200A
    || c == 0x2028 || c == 0x2029 || c == 0x202F || c == 0x205F || c == 0x3000
  }

  lemma SpaceStarts(c: nat, rest: seq<Byte>)
    requires IsScalar(c)
    ensures SpaceAtStart(Encode(c) + rest) == if IsSpace(c) then |Encode(c)| else 0
  {
    var s := Encode(c) + rest;
    assert forall i :: 0 <= i < |Encode(c)| ==> s[i] == Encode(c)[i];
  }

  /** One byte below 128, or a first byte that gives the length and bytes that go on. */
  predicate IsEncoding(e: seq<Byte>) {
    || (|e| == 1 && e[0] < 128)
    || (|e| == 2 && 0xC2 <= e[0] < 0xE0 && Continues(e[1]))
    || (|e| == 3 && 0xE0 <= e[0] < 0xF0 && Continues(e[1]) && Continues(e[2]))
    || (|e| == 4 && 0xF0 <= e[0] && Continues(e[1]) && Continues(e[2]) && Continues(e[3]))
  }

  /** The bytes before a character do not matter for whether it is white space. */
  lemma SpaceEndsAlone(front: seq<Byte>, e: seq<Byte>)
    requires IsEncoding(e)
    ensures SpaceAtEnd(front + e) == SpaceAtStart(e)
  {
    var s, n := front + e, |front + e|;
    assert s[n - 1] == e[|e| - 1];
    assert |e| >= 2 ==> s[n - 2] == e[|e| - 2];
    assert |e| >= 3 ==> s[n - 3] == e[|e| - 3];
  }

  lemma SpaceEnds(c: nat, front: seq<Byte>)
    requires IsScalar(c)
    ensures SpaceAtEnd(front + Encode(c)) == if IsSpace(c) then |Encode(c)| else 0
  {
    EncodesValidly(c);
    SpaceEndsAlone(front, Encode(c));
    SpaceStarts(c, []);
    assert Encode(c) + [] == Encode(c);
  }

  /** A run of white space. */
  ghost predicate Blank(s: seq<Byte>) { exists cs :: Spells(cs, s) && forall c :: c in cs ==> IsSpace(c) }

  lemma {:induction false} SpellsSnoc(cs: seq<nat>, c: nat)
    requires AllScalar(cs) && IsScalar(c)
    ensures EncodeAll(cs + [c]) == EncodeAll(cs) + Encode(c)
  {
    if cs == [] {
      assert [] + [c] == [c] && EncodeAll([c][1..]) == [];
    } else {
      SpellsSnoc(cs[1..], c);
      assert (cs + [c])[1..] == cs[1..] + [c];
    }
  }

  lemma BlankBefore(c: nat, s: seq<Byte>)
    requires IsScalar(c) && IsSpace(c) && Blank(s)
    ensures Blank(Encode(c) + s)
  {
    var cs :| Spells(cs, s) && forall d :: d in cs ==> IsSpace(d);
    assert ([c] + cs)[1..] == cs;
    assert Spells([c] + cs, Encode(c) + s);
  }

  lemma BlankAfter(s: seq<Byte>, c: nat)
    requires IsScalar(c) && IsSpace(c) && Blank(s)
    ensures Blank(s + Encode(c))
  {
    var cs :| Spells(cs, s) && forall d :: d in cs ==> IsSpace(d);
    SpellsSnoc(cs, c);
    assert Spells(cs + [c], s + Encode(c));
  }

  lemma NothingIsBlank()
    ensures Blank([])
  {
    assert Spells([], []);
  }

  /** The encoding of a space, as long as the trimmer takes it to be. */
  lemma SpaceOf(s: seq<Byte>) returns (c: nat)
    requires |s| == 1 ==> IsSpace1(s[0])
    requires |s| == 2 ==> IsSpace2(s[0], s[1])
    requires |s| == 3 ==> IsSpace3(s[0], s[1], s[2])
    requires 1 <= |s| <= 3
    ensures IsScalar(c) && IsSpace(c) && Encode(c) == s
  {
    match |s| {
      case 1 => c := s[0];
      case 2 => c := TwoBytes(s[0], s[1]);
      case _ => c := ThreeBytes(s[0], s[1], s[2]);
    }
  }

  lemma StartingSpace(s: seq<Byte>) returns (c: nat)
    requires SpaceAtStart(s) > 0
    ensures IsScalar(c) && IsSpace(c) && s == Encode(c) + s[SpaceAtStart(s)..]
  {
    var w := SpaceAtStart(s);
    c := SpaceOf(s[..w]);
    assert s == s[..w] + s[w..];
  }

  lemma EndingSpace(s: seq<Byte>) returns (c: nat)
    requires SpaceAtEnd(s) > 0
    ensures IsScalar(c) && IsSpace(c) && s == s[..|s| - SpaceAtEnd(s)] + Encode(c)
  {
    var k := |s| - SpaceAtEnd(s);
    c := SpaceOf(s[k..]);
    assert s == s[..k] + s[k..];
  }

  lemma Regroups(a: seq<Byte>, b: seq<Byte>, c: seq<Byte>)
    ensures a + (b + c) == a + b + c
  {
  }

  lemma {:induction false} TrimLeftIs(s: seq<Byte>) returns (before: seq<Byte>)
    ensures s == before + TrimLeft(s) && Blank(before) && SpaceAtStart(TrimLeft(s)) == 0
    decreases |s|
  {
    var w := SpaceAtStart(s);
    if w == 0 {
      before := [];
      NothingIsBlank();
    } else {
      var c := StartingSpace(s);
      var rest := TrimLeftIs(s[w..]);
      BlankBefore(c, rest);
      before := Encode(c) + rest;
      Regroups(Encode(c), rest, TrimLeft(s));
    }
  }

  lemma {:induction false} TrimRightIs(s: seq<Byte>) returns (after: seq<Byte>)
    ensures s == TrimRight(s) + after && Blank(after) && SpaceAtEnd(TrimRight(s)) == 0
    decreases |s|
  {
    var w := SpaceAtEnd(s);
    if w == 0 {
      after := [];
      NothingIsBlank();
    } else {
      var c := EndingSpace(s);
      var rest := TrimRightIs(s[..|s| - w]);
      BlankAfter(rest, c);
      after := rest + Encode(c);
      Regroups(TrimRight(s), rest, Encode(c));
    }
  }

  /** No white space at either end. */
  ghost predicate Bare(s: seq<Byte>) {
    forall c: nat, rest :: IsScalar(c) && IsSpace(c) ==> s != Encode(c) + rest && s != rest + Encode(c)
  }

  lemma BareIf(s: seq<Byte>)
    requires SpaceAtStart(s) == 0 && SpaceAtEnd(s) == 0
    ensures Bare(s)
  {
    forall c: nat, rest | IsScalar(c) && IsSpace(c) ensures s != Encode(c) + rest && s != rest + Encode(c) {
      SpaceStarts(c, rest);
      SpaceEnds(c, rest);
    }
  }

  lemma StartStays(s: seq<Byte>, t: seq<Byte>)
    requires t <= s && SpaceAtStart(s) == 0
    ensures SpaceAtStart(t) == 0
  {
  }

  lemma TrimmedIsBare(s: seq<Byte>, after: seq<Byte>)
    requires SpaceAtStart(s) == 0 && s == TrimRight(s) + after && SpaceAtEnd(TrimRight(s)) == 0
    ensures Bare(TrimRight(s))
  {
    assert TrimRight(s) <= s;
    StartStays(s, TrimRight(s));
    BareIf(TrimRight(s));
  }

  /** Trimming takes white space off both ends, all of it and nothing else. */
  lemma TrimSpaceIs(s: seq<Byte>) returns (before: seq<Byte>, after: seq<Byte>)
    ensures s == before + TrimSpace(s) + after && Blank(before) && Blank(after) && Bare(TrimSpace(s))
  {
    before := TrimLeftIs(s);
    after := TrimRightIs(TrimLeft(s));
    TrimmedIsBare(TrimLeft(s), after);
    Regroups(before, TrimSpace(s), after);
  }
}
