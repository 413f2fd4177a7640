/** Splitting and decimal printing, as the Go and Lua standard libraries do them. */
module Text {
  import opened Wrappers

  /** The first index of `c` in `s`, as strings.Index and string.find give it. */
  function IndexOf<T(==)>(s: seq<T>, c: T): (r: Option<nat>)
    ensures r.None? <==> c !in s
    ensures r.Some? ==> r.value < |s| && s[r.value] == c && c !in s[..r.value]
  {
    if s == [] then None
    else if s[0] == c then Some(0)
    else match IndexOf(s[1..], c)
      case None => None
      case Some(i) => assert s[..i + 1] == [s[0]] + s[1..][..i]; Some(i + 1)
  }

  /** strings.Split on a one-element separator: always at least one piece. */
  function Split<T(==)>(s: seq<T>, sep: T): (r: seq<seq<T>>)
    ensures |r| >= 1
    ensures forall i :: 0 <= i < |r| ==> sep !in r[i]
  {
    match IndexOf(s, sep)
    case None => [s]
    case Some(i) => [s[..i]] + Split(s[i + 1..], sep)
  }

  /** Writing the pieces back with the separator between them. */
  function Join<T>(pieces: seq<seq<T>>, sep: T): seq<T>
    requires |pieces| >= 1
  {
    if |pieces| == 1 then pieces[0] else pieces[0] + [sep] + Join(pieces[1..], sep)
  }

  lemma {:induction false} FirstIndex<T>(a: seq<T>, sep: T, rest: seq<T>)
    requires sep !in a
    ensures IndexOf(a + [sep] + rest, sep) == Some(|a|)
  {
    if a == [] {
      assert (a + [sep] + rest)[0] == sep;
    } else {
      FirstIndex(a[1..], sep, rest);
      assert (a + [sep] + rest)[1..] == a[1..] + [sep] + rest;
    }
  }

  lemma SplitFirst<T>(a: seq<T>, sep: T, rest: seq<T>)
    requires sep !in a
    ensures Split(a + [sep] + rest, sep) == [a] + Split(rest, sep)
  {
    FirstIndex(a, sep, rest);
    var s := a + [sep] + rest;
    assert s[..|a|] == a && s[|a| + 1..] == rest;
  }

  lemma SplitNone<T>(s: seq<T>, sep: T)
    requires sep !in s
    ensures Split(s, sep) == [s]
  {
  }

  lemma TailFirst<T>(a: seq<T>, b: seq<T>, c: seq<T>, s: seq<T>)
    ensures a + s + b + s + c == a + s + (b + s + c)
  {
  }

  lemma SplitThree<T>(a: seq<T>, b: seq<T>, c: seq<T>, sep: T)
    requires sep !in a && sep !in b && sep !in c
    ensures Split(a + [sep] + b + [sep] + c, sep) == [a, b, c]
  {
    TailFirst(a, b, c, [sep]);
    SplitFirst(a, sep, b + [sep] + c);
    SplitFirst(b, sep, c);
    SplitNone(c, sep);
    Associates([a], [b], [c]);
  }

  /** Split and Join undo each other: separator-free pieces are exactly what Split returns. */
  lemma {:induction false} SplitJoin<T>(pieces: seq<seq<T>>, sep: T)
    requires |pieces| >= 1 && forall i :: 0 <= i < |pieces| ==> sep !in pieces[i]
    ensures Split(Join(pieces, sep), sep) == pieces
  {
    if |pieces| > 1 {
      SplitJoin(pieces[1..], sep);
      SplitFirst(pieces[0], sep, Join(pieces[1..], sep));
      assert pieces == [pieces[0]] + pieces[1..];
    }
  }

  lemma JoinCons<T>(first: seq<T>, rest: seq<seq<T>>, sep: T)
    requires |rest| >= 1
    ensures Join([first] + rest, sep) == first + [sep] + Join(rest, sep)
  {
    assert ([first] + rest)[1..] == rest;
  }

  lemma {:induction false} JoinSplit<T>(s: seq<T>, sep: T)
    ensures Join(Split(s, sep), sep) == s
    decreases |s|
  {
    match IndexOf(s, sep)
    case None =>
    case Some(i) =>
      JoinSplit(s[i + 1..], sep);
      assert Split(s, sep)[1..] == Split(s[i + 1..], sep);
      assert s == s[..i] + [sep] + s[i + 1..];
  }

  /** Splitting a text that arrives in two parts: only the last, unfinished piece is reopened. */
  lemma {:induction false} SplitAppend<T>(a: seq<T>, b: seq<T>, sep: T)
    ensures var p := Split(a, sep); Split(a + b, sep) == p[..|p| - 1] + Split(p[|p| - 1] + b, sep)
    decreases |a|
  {
    match IndexOf(a, sep)
    case None =>
      assert Split(a, sep)[..0] == [];
    case Some(i) =>
      var q := Split(a[i + 1..], sep);
      SplitAppend(a[i + 1..], b, sep);
      SplitAppendStep(a, b, sep, i);
      Assemble(a[..i], q, Split(q[|q| - 1] + b, sep));
  }

  lemma Assemble<T>(first: seq<T>, q: seq<seq<T>>, tail: seq<seq<T>>)
    requires |q| >= 1
    ensures var p := [first] + q; p[..|p| - 1] + tail == [first] + (q[..|q| - 1] + tail)
  {
  }

  lemma SplitAppendStep<T>(a: seq<T>, b: seq<T>, sep: T, i: nat)
    requires i < |a| && IndexOf(a, sep) == Some(i)
    ensures Split(a + b, sep) == [a[..i]] + Split(a[i + 1..] + b, sep)
    ensures Split(a, sep) == [a[..i]] + Split(a[i + 1..], sep)
  {
    SplitFirst(a[..i], sep, a[i + 1..] + b);
    CutThere(a, b, sep, i);
  }

  lemma CutThere<T>(a: seq<T>, b: seq<T>, sep: T, i: nat)
    requires i < |a| && a[i] == sep
    ensures a + b == a[..i] + [sep] + (a[i + 1..] + b)
  {
  }

  lemma TakeGrows<T>(a: seq<T>, s: seq<T>, i: nat)
    requires i < |s|
    ensures a + s[..i + 1] == a + s[..i] + [s[i]]
  {
  }

  lemma Associates<T>(a: seq<T>, b: seq<T>, c: seq<T>)
    ensures a + (b + c) == a + b + c
  {
  }

  /** The pieces that a separator ends, and what is left after the last one. */
  function Whole<T(==)>(s: seq<T>, sep: T): seq<seq<T>> { var p := Split(s, sep); p[..|p| - 1] }

  function Rest<T(==)>(s: seq<T>, sep: T): seq<T> { var p := Split(s, sep); p[|p| - 1] }

  lemma WholeAppend<T>(a: seq<T>, b: seq<T>, sep: T)
    ensures Whole(a + b, sep) == Whole(a, sep) + Whole(Rest(a, sep) + b, sep)
    ensures Rest(a + b, sep) == Rest(Rest(a, sep) + b, sep)
  {
    SplitAppend(a, b, sep);
  }
}

/** Decimal numerals: Go's %d and strconv.ParseUint, Lua's tonumber on digits. */
module Decimal {
  import opened Wrappers

  predicate IsDigit(c: char) { '0' <= c <= '9' }

  function Weight(c: char): nat
    requires IsDigit(c)
  {
    c as int - '0' as int
  }

  predicate IsNumeral(s: string) { s != [] && forall i :: 0 <= i < |s| ==> IsDigit(s[i]) }

  function Digit(d: nat): (c: char)
    requires d < 10
    ensures IsDigit(c)
  {
    ('0' as int + d) as char
  }

  function Print(n: nat): (s: string)
    ensures IsNumeral(s)
  {
    if n < 10 then [Digit(n)] else Print(n / 10) + [Digit(n % 10)]
  }

  function Value(s: string): nat
    requires forall i :: 0 <= i < |s| ==> IsDigit(s[i])
  {
    if s == [] then 0 else Value(s[..|s| - 1]) * 10 + Weight(s[|s| - 1])
  }

  lemma {:induction false} PrintValue(n: nat)
    ensures Value(Print(n)) == n
  {
    if n >= 10 {
      PrintValue(n / 10);
      var s := Print(n);
      assert s[..|s| - 1] == Print(n / 10);
    } else {
      assert Print(n)[..0] == [];
      assert Value(Print(n)) == Value(Print(n)[..0]) * 10 + n;
    }
  }

  /** strconv.ParseUint(s, 10, 32). */
  function ParseUint32(s: string): (r: Option<nat>)
    ensures r.Some? <==> IsNumeral(s) && Value(s) < 0x1_0000_0000
    ensures r.Some? ==> r.value == Value(s)
  {
    if IsNumeral(s) && Value(s) < 0x1_0000_0000 then Some(Value(s)) else None
  }

  lemma PrintInjective(a: nat, b: nat)
    requires Print(a) == Print(b)
    ensures a == b
  {
    PrintValue(a);
    PrintValue(b);
  }
}
