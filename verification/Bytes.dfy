/** Byte strings as Go sees them: UTF-8 runes counted, Unicode white space trimmed. */
module Bytes {
  type Byte = b: int | 0 <= b < 256

  function Concat<T>(parts: seq<seq<T>>): seq<T> {
    if parts == [] then [] else Concat(parts[..|parts| - 1]) + parts[|parts| - 1]
  }

  lemma {:induction false} ConcatAppend<T>(a: seq<seq<T>>, b: seq<seq<T>>)
    ensures Concat(a + b) == Concat(a) + Concat(b)
  {
    if b == [] {
      assert a + b == a;
    } else {
      ConcatAppend(a, b[..|b| - 1]);
      assert (a + b)[..|a + b| - 1] == a + b[..|b| - 1];
    }
  }

  predicate IsAscii(s: seq<Byte>) { forall i :: 0 <= i < |s| ==> s[i] < 128 }

  function Ascii(s: string): seq<Byte>
    requires forall i :: 0 <= i < |s| ==> s[i] < 128 as char
  {
    seq(|s|, i requires 0 <= i < |s| => s[i] as int)
  }

  // Runes

  predicate Continues(b: Byte) { 0x80 <= b < 0xC0 }

  /** The width utf8.DecodeRune reports: 1 for ASCII and for anything invalid. */
  function RuneWidth(s: seq<Byte>): (w: nat)
    requires s != []
    ensures 1 <= w <= |s|
    ensures s[0] < 128 ==> w == 1
  {
    if |s| >= 2 && 0xC2 <= s[0] < 0xE0 && Continues(s[1]) then 2
    else if |s| >= 3 && 0xE0 <= s[0] < 0xF0 && Continues(s[1]) && Continues(s[2])
      && (s[0] == 0xE0 ==> s[1] >= 0xA0) && (s[0] == 0xED ==> s[1] < 0xA0) then 3
    else if |s| >= 4 && 0xF0 <= s[0] < 0xF5 && Continues(s[1]) && Continues(s[2]) && Continues(s[3])
      && (s[0] == 0xF0 ==> s[1] >= 0x90) && (s[0] == 0xF4 ==> s[1] < 0x90) then 4
    else 1
  }

  /** utf8.RuneCountInString. */
  function RuneCount(s: seq<Byte>): (n: nat)
    ensures n <= |s|
    ensures IsAscii(s) ==> n == |s|
  {
    if s == [] then 0 else 1 + RuneCount(s[RuneWidth(s)..])
  }

  // White space

  predicate IsSpace1(a: Byte) { 9 <= a <= 13 || a == 32 }

  predicate IsSpace2(a: Byte, b: Byte) { a == 0xC2 && (b == 0x85 || b == 0xA0) }

  predicate IsSpace3(a: Byte, b: Byte, c: Byte) {
    || (a == 0xE1 && b == 0x9A && c == 0x80)
    || (a == 0xE2 && b == 0x80 && (0x80 <= c <= 0x8A || c == 0xA8 || c == 0xA9 || c == 0xAF))
    || (a == 0xE2 && b == 0x81 && c == 0x9F)
    || (a == 0xE3 && b == 0x80 && c == 0x80)
  }

  /** The width of the white-space character `s` starts with, 0 if it starts with none. */
  function SpaceAtStart(s: seq<Byte>): (w: nat)
    ensures w <= |s|
  {
    if |s| >= 1 && IsSpace1(s[0]) then 1
    else if |s| >= 2 && IsSpace2(s[0], s[1]) then 2
    else if |s| >= 3 && IsSpace3(s[0], s[1], s[2]) then 3
    else 0
  }

  function SpaceAtEnd(s: seq<Byte>): (w: nat)
    ensures w <= |s|
  {
    var n := |s|;
    if n >= 1 && IsSpace1(s[n - 1]) then 1
    else if n >= 2 && IsSpace2(s[n - 2], s[n - 1]) then 2
    else if n >= 3 && IsSpace3(s[n - 3], s[n - 2], s[n - 1]) then 3
    else 0
  }

  function TrimLeft(s: seq<Byte>): seq<Byte> {
    var w := SpaceAtStart(s);
    if w == 0 then s else TrimLeft(s[w..])
  }

  function TrimRight(s: seq<Byte>): seq<Byte> {
    var w := SpaceAtEnd(s);
    if w == 0 then s else TrimRight(s[..|s| - w])
  }

  /** strings.TrimSpace. */
  function TrimSpace(s: seq<Byte>): seq<Byte> { TrimRight(TrimLeft(s)) }
}
