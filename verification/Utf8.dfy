/** What the JSON encoder makes of a string: every byte that is not part of a valid rune is replaced. */
module Utf8 {
  import opened Bytes

  /** U+FFFD. */
  const REPLACEMENT: seq<Byte> := [0xEF, 0xBF, 0xBD]

  predicate Invalid(s: seq<Byte>)
    requires s != []
  {
    s[0] >= 128 && RuneWidth(s) == 1
  }

  predicate IsUtf8(s: seq<Byte>) { s == [] || (!Invalid(s) && IsUtf8(s[RuneWidth(s)..])) }

  /** What the first rune becomes. */
  function Head(s: seq<Byte>): (r: seq<Byte>)
    requires s != []
    ensures |r| >= RuneWidth(s)
  {
    if Invalid(s) then REPLACEMENT else s[..RuneWidth(s)]
  }

  function Coerce(s: seq<Byte>): (r: seq<Byte>)
    ensures |r| >= |s|
  {
    if s == [] then [] else Head(s) + Coerce(s[RuneWidth(s)..])
  }

  /** A text that is not valid is changed. */
  lemma {:induction false} CoerceIff(s: seq<Byte>)
    ensures Coerce(s) == s <==> IsUtf8(s)
    ensures !IsUtf8(s) ==> |Coerce(s)| > |s|
  {
    if s != [] {
      var w := RuneWidth(s);
      CoerceIff(s[w..]);
      if Invalid(s) {
        assert |Coerce(s)| > |s|;
      } else {
        assert s == s[..w] + s[w..];
        assert Coerce(s)[w..] == Coerce(s[w..]);
      }
    }
  }

  /** No rune goes on across an ASCII byte. */
  lemma WidthBefore(a: seq<Byte>, c: Byte, b: seq<Byte>)
    requires a != [] && c < 128
    ensures var s, w := a + [c] + b, RuneWidth(a);
            RuneWidth(s) == w && Head(s) == Head(a) && s[w..] == a[w..] + [c] + b
  {
    var s := a + [c] + b;
    assert forall i :: 0 <= i < |a| ==> s[i] == a[i];
    assert s[|a|] == c;
    assert s[..RuneWidth(a)] == a[..RuneWidth(a)];
  }

  lemma Regroup(a: seq<Byte>, b: seq<Byte>, c: seq<Byte>, d: seq<Byte>)
    ensures a + (b + c + d) == a + b + c + d
  {
  }

  lemma {:induction false} CoerceAppend(a: seq<Byte>, c: Byte, b: seq<Byte>)
    requires c < 128
    ensures Coerce(a + [c] + b) == Coerce(a) + [c] + Coerce(b)
    decreases |a|
  {
    if a == [] {
      assert a + [c] + b == [c] + b && ([c] + b)[1..] == b;
    } else {
      var rest := a[RuneWidth(a)..];
      WidthBefore(a, c, b);
      CoerceAppend(rest, c, b);
      Regroup(Head(a), Coerce(rest), [c], Coerce(b));
    }
  }

  lemma {:induction false} CoerceAddsNone(s: seq<Byte>, c: Byte)
    requires c < 128 && c !in s
    ensures c !in Coerce(s)
  {
    if s != [] {
      CoerceAddsNone(s[RuneWidth(s)..], c);
    }
  }

  /** A changed text that still starts as it did is continued in the middle of a replacement. */
  lemma {:induction false} CoerceExtends(s: seq<Byte>)
    requires s <= Coerce(s) && |s| < |Coerce(s)|
    ensures Coerce(s)[|s|] == 0xBF || Coerce(s)[|s|] == 0xBD
    decreases |s|
  {
    var r, w := Coerce(s), RuneWidth(s);
    if Invalid(s) {
      assert forall i :: 0 <= i < |s| ==> r[i] == s[i];
      assert r[0] == 0xEF && r[1] == 0xBF && r[2] == 0xBD;
    } else {
      assert r[w..] == Coerce(s[w..]);
      assert s[w..] == r[..|s|][w..] == r[w..][..|s| - w];
      CoerceExtends(s[w..]);
    }
  }

  // Cutting and joining

  lemma InnerContinues(s: seq<Byte>)
    requires s != [] && !Invalid(s)
    ensures !Continues(s[0]) && forall i :: 1 <= i < RuneWidth(s) ==> Continues(s[i])
  {
  }

  lemma WidthKept(a: seq<Byte>, b: seq<Byte>)
    requires a != [] && !Invalid(a)
    ensures RuneWidth(a + b) == RuneWidth(a) && !Invalid(a + b)
  {
    assert forall i :: 0 <= i < |a| ==> (a + b)[i] == a[i];
  }

  lemma {:induction false} ConcatUtf8(a: seq<Byte>, b: seq<Byte>)
    requires IsUtf8(a)
    ensures IsUtf8(a + b) <==> IsUtf8(b)
    decreases |a|
  {
    if a == [] {
      assert a + b == b;
    } else {
      var w := RuneWidth(a);
      WidthKept(a, b);
      assert (a + b)[w..] == a[w..] + b;
      ConcatUtf8(a[w..], b);
    }
  }

  lemma WidthCut(s: seq<Byte>, k: nat)
    requires s != [] && !Invalid(s) && RuneWidth(s) <= k <= |s|
    ensures RuneWidth(s[..k]) == RuneWidth(s) && !Invalid(s[..k])
  {
    assert forall i :: 0 <= i < k ==> s[..k][i] == s[i];
  }

  /** A valid text cut where a rune starts gives two valid texts. */
  lemma {:induction false} CutUtf8(s: seq<Byte>, k: nat)
    requires IsUtf8(s) && k < |s| && !Continues(s[k])
    ensures IsUtf8(s[..k]) && IsUtf8(s[k..])
    decreases |s|
  {
    if k > 0 {
      var w := RuneWidth(s);
      InnerContinues(s);
      CutUtf8(s[w..], k - w);
      WidthCut(s, k);
      assert s[w..][..k - w] == s[..k][w..] && s[w..][k - w..] == s[k..];
    } else {
      assert s[k..] == s;
    }
  }

  predicate StartsRune(s: seq<Byte>) { s == [] || !Continues(s[0]) }

  /** What a cut anywhere leaves of a valid text: what is left of a rune, and a valid text. */
  ghost predicate CutFromUtf8(s: seq<Byte>) { exists n: nat :: CutAfter(s, n) }

  predicate CutAfter(s: seq<Byte>, n: nat) {
    n <= |s| && (forall i :: 0 <= i < n ==> Continues(s[i])) && IsUtf8(s[n..])
  }

  /** Such a rest is valid exactly if the cut fell where a rune starts. */
  lemma CutIff(s: seq<Byte>)
    requires CutFromUtf8(s)
    ensures IsUtf8(s) <==> StartsRune(s)
  {
    var n: nat :| CutAfter(s, n);
    if StartsRune(s) {
      assert n == 0 && s[0..] == s;
    }
  }

  lemma {:induction false} DropUtf8(s: seq<Byte>, k: nat)
    requires IsUtf8(s) && k <= |s|
    ensures CutFromUtf8(s[k..])
    decreases |s| - k
  {
    if k == |s| {
      assert CutAfter(s[k..], 0);
    } else if Continues(s[k]) {
      DropUtf8(s, k + 1);
      var n: nat :| CutAfter(s[k + 1..], n);
      assert s[k..][n + 1..] == s[k + 1..][n..];
      assert forall i :: 1 <= i < n + 1 ==> s[k..][i] == s[k + 1..][i - 1];
      assert CutAfter(s[k..], n + 1);
    } else {
      CutUtf8(s, k);
      assert s[k..][0..] == s[k..];
      assert CutAfter(s[k..], 0);
    }
  }

  lemma DropCut(s: seq<Byte>, k: nat)
    requires CutFromUtf8(s) && k <= |s|
    ensures CutFromUtf8(s[k..])
  {
    var n: nat :| CutAfter(s, n);
    if k <= n {
      assert s[k..][n - k..] == s[n..];
      assert CutAfter(s[k..], n - k);
    } else {
      DropUtf8(s[n..], k - n);
      assert s[n..][k - n..] == s[k..];
    }
  }

  lemma CutThen(a: seq<Byte>, b: seq<Byte>)
    requires CutFromUtf8(a) && IsUtf8(b)
    ensures CutFromUtf8(a + b)
  {
    var n: nat :| CutAfter(a, n);
    ConcatUtf8(a[n..], b);
    assert (a + b)[n..] == a[n..] + b;
    assert CutAfter(a + b, n);
  }

  // Trimming

  lemma {:induction false} TrimLeftUtf8(s: seq<Byte>)
    requires IsUtf8(s)
    ensures IsUtf8(TrimLeft(s))
  {
    var w := SpaceAtStart(s);
    if w > 0 {
      assert RuneWidth(s) == w;
      TrimLeftUtf8(s[w..]);
    }
  }

  lemma {:induction false} TrimRightUtf8(s: seq<Byte>)
    requires IsUtf8(s)
    ensures IsUtf8(TrimRight(s))
  {
    var w := SpaceAtEnd(s);
    if w > 0 {
      CutUtf8(s, |s| - w);
      TrimRightUtf8(s[..|s| - w]);
    }
  }
}
