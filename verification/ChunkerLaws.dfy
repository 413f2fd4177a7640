/** What the chunker promises: the greedy packing is the only one, it conserves the text, it is bounded. */
module ChunkerLaws {
  import Text
  import opened Bytes
  import opened Chunker

  // Splitting

  lemma {:induction false} JoinBlankCons(first: seq<Byte>, rest: seq<seq<Byte>>)
    requires rest != []
    ensures JoinBlank([first] + rest) == first + BLANK + JoinBlank(rest)
  {
    var all := [first] + rest;
    assert all[..|all| - 1] == [first] + rest[..|rest| - 1];
    if |rest| > 1 {
      JoinBlankCons(first, rest[..|rest| - 1]);
    }
  }

  /** Nothing but blank lines is lost by splitting. */
  lemma {:induction false} SplitBlankIsLossless(text: seq<Byte>)
    ensures JoinBlank(SplitBlank(text)) == text
    decreases |text|
  {
    var i := BlankAt(text);
    if i < |text| {
      SplitBlankIsLossless(text[i + 2..]);
      JoinBlankCons(text[..i], SplitBlank(text[i + 2..]));
      assert text == text[..i] + BLANK + text[i + 2..];
    }
  }

  /** No piece holds a blank line, and the blank line after a piece is the first there is. */
  lemma {:induction false} PiecesHoldNoBlank(text: seq<Byte>, j: nat, k: nat)
    requires j < |SplitBlank(text)|
    ensures !IsBlankAt(SplitBlank(text)[j], k)
    ensures j + 1 < |SplitBlank(text)| ==> !IsBlankAt(SplitBlank(text)[j] + [10], k)
    decreases |text|
  {
    var i := BlankAt(text);
    if i < |text| {
      if j > 0 {
        PiecesHoldNoBlank(text[i + 2..], j - 1, k);
      } else {
        assert k < i ==> !IsBlankAt(text, k);
      }
    } else {
      assert k < i ==> !IsBlankAt(text, k);
    }
  }

  ghost predicate HoldsNoBlank(s: seq<Byte>) { forall k: nat :: !IsBlankAt(s, k) }

  lemma BlankFirst(piece: seq<Byte>, rest: seq<Byte>)
    requires HoldsNoBlank(piece + [10])
    ensures SplitBlank(piece + [10, 10] + rest) == [piece] + SplitBlank(rest)
  {
    var text := piece + [10, 10] + rest;
    assert IsBlankAt(text, |piece|);
    forall k: nat | k < |piece| ensures !IsBlankAt(text, k) {
      assert !IsBlankAt(piece + [10], k);
    }
    assert BlankAt(text) == |piece|;
    assert text[..|piece|] == piece && text[|piece| + 2..] == rest;
  }

  /** What is left of one piece. */
  function ParagraphOf(piece: seq<Byte>): seq<seq<Byte>> {
    if TrimSpace(piece) == [] then [] else [TrimSpace(piece)]
  }

  lemma {:induction false} NonBlankCons(first: seq<Byte>, rest: seq<seq<Byte>>)
    ensures NonBlank([first] + rest) == (if first == [] then [] else [first]) + NonBlank(rest)
  {
    if rest == [] {
      assert [first] + rest == [first] && [first][..0] == [];
    } else {
      NonBlankCons(first, rest[..|rest| - 1]);
      assert ([first] + rest)[..|rest|] == [first] + rest[..|rest| - 1];
    }
  }

  /** A text's paragraphs are what is left of the piece before its first blank line, and those of what follows. */
  lemma ParagraphsCons(piece: seq<Byte>, rest: seq<Byte>)
    ensures HoldsNoBlank(piece + [10]) ==> Paragraphs(piece + [10, 10] + rest) == ParagraphOf(piece) + Paragraphs(rest)
    ensures HoldsNoBlank(piece) ==> Paragraphs(piece) == ParagraphOf(piece)
  {
    if HoldsNoBlank(piece + [10]) {
      BlankFirst(piece, rest);
      assert TrimAll([piece] + SplitBlank(rest)) == [TrimSpace(piece)] + TrimAll(SplitBlank(rest));
      NonBlankCons(TrimSpace(piece), TrimAll(SplitBlank(rest)));
    }
    if HoldsNoBlank(piece) {
      assert SplitBlank(piece) == [piece] && TrimAll([piece]) == [TrimSpace(piece)];
      NonBlankCons(TrimSpace(piece), []);
      assert [TrimSpace(piece)] + [] == [TrimSpace(piece)];
    }
  }

  // Trimming

  predicate EndsAscii(s: seq<Byte>) { s == [] || s[|s| - 1] < 128 }

  predicate Trimmed(p: seq<Byte>) { p != [] && SpaceAtStart(p) == 0 && SpaceAtEnd(p) == 0 }

  /** White space is trimmed from before trimmed text without touching it. */
  lemma {:induction false} TrimLeftBefore(x: seq<Byte>, p: seq<Byte>)
    requires EndsAscii(x) && p != [] && SpaceAtStart(p) == 0
    ensures TrimLeft(x + p) == TrimLeft(x) + p && EndsAscii(TrimLeft(x))
    decreases |x|
  {
    if x == [] {
      assert x + p == p;
    } else {
      var w := SpaceAtStart(x);
      assert SpaceAtStart(x + p) == w;
      if w > 0 {
        assert (x + p)[w..] == x[w..] + p;
        TrimLeftBefore(x[w..], p);
      }
    }
  }

  lemma NoSpaceAtEnd(x: seq<Byte>, p: seq<Byte>)
    requires EndsAscii(x) && p != [] && SpaceAtEnd(p) == 0
    ensures SpaceAtEnd(x + p) == 0
  {
    var s := x + p;
    assert s[|s| - 1] == p[|p| - 1];
    if |p| == 1 && x != [] {
      assert s[|s| - 2] == x[|x| - 1];
    } else if |p| >= 2 {
      assert s[|s| - 2] == p[|p| - 2];
      assert |s| >= 3 ==> s[|s| - 3] == if |p| >= 3 then p[|p| - 3] else x[|x| - 1];
    }
  }

  lemma TrimRightAfter(x: seq<Byte>, p: seq<Byte>)
    requires EndsAscii(x) && p != [] && SpaceAtEnd(p) == 0
    ensures TrimRight(x + p) == x + p
    ensures TrimRight(x + p + BLANK) == x + p
  {
    NoSpaceAtEnd(x, p);
    TrimRightNewline(x + p + [NEWLINE]);
    TrimRightNewline(x + p);
    assert x + p + [NEWLINE] + [NEWLINE] == x + p + BLANK;
  }

  lemma TrimRightNewline(s: seq<Byte>)
    ensures TrimRight(s + [NEWLINE]) == TrimRight(s)
  {
    assert (s + [NEWLINE])[..|s|] == s;
  }

  lemma {:induction false} TrimLeftStart(s: seq<Byte>)
    ensures SpaceAtStart(TrimLeft(s)) == 0
    decreases |s|
  {
    var w := SpaceAtStart(s);
    if w > 0 { TrimLeftStart(s[w..]); }
  }

  lemma {:induction false} TrimRightEnds(s: seq<Byte>)
    requires SpaceAtStart(s) == 0
    ensures SpaceAtStart(TrimRight(s)) == 0 && SpaceAtEnd(TrimRight(s)) == 0
    decreases |s|
  {
    var w := SpaceAtEnd(s);
    if w > 0 {
      assert SpaceAtStart(s[..|s| - w]) == 0;
      TrimRightEnds(s[..|s| - w]);
    }
  }

  lemma TrimSpaceTrims(s: seq<Byte>)
    ensures TrimSpace(s) == [] || Trimmed(TrimSpace(s))
  {
    TrimLeftStart(s);
    TrimRightEnds(TrimLeft(s));
  }

  lemma {:induction false} NonBlankKeeps(paras: seq<seq<Byte>>)
    ensures forall p :: p in NonBlank(paras) <==> p in paras && p != []
    ensures |NonBlank(paras)| <= |paras|
    ensures NonBlank(paras) == [] <==> forall p :: p in paras ==> p == []
  {
    if paras != [] {
      NonBlankKeeps(paras[..|paras| - 1]);
      assert paras == paras[..|paras| - 1] + [paras[|paras| - 1]];
    }
    assert NonBlank(paras) != [] ==> NonBlank(paras)[0] in NonBlank(paras);
  }

  lemma ParagraphsTrimmed(text: seq<Byte>)
    ensures forall p :: p in Paragraphs(text) ==> Trimmed(p)
  {
    var trimmed := TrimAll(SplitBlank(text));
    NonBlankKeeps(trimmed);
    forall p | p in trimmed && p != [] ensures Trimmed(p) {
      var i :| 0 <= i < |trimmed| && trimmed[i] == p;
      TrimSpaceTrims(SplitBlank(text)[i]);
    }
  }

  // The greedy packing

  ghost predicate Fits(groups: seq<Group>, size: nat, overlap: nat) {
    forall i, j :: 0 <= i < |groups| && 1 <= j < |groups[i]| ==> FitsAt(groups, i, j, size, overlap)
  }

  /** Paragraph `j` of segment `i` did not push the buffer past the size. */
  ghost predicate FitsAt(groups: seq<Group>, i: nat, j: nat, size: nat, overlap: nat)
    requires i < |groups| && j < |groups[i]|
  {
    |Carry(groups[..i], overlap)| + |Body(groups[i][..j])| + RuneCount(groups[i][j]) <= size
  }

  ghost predicate CutsOnlyWhenFull(groups: seq<Group>, size: nat, overlap: nat) {
    forall i :: 0 <= i < |groups| - 1 && groups[i + 1] != [] ==> CutAt(groups, i, size, overlap)
  }

  /** The first paragraph after segment `i` would have pushed it past the size. */
  ghost predicate CutAt(groups: seq<Group>, i: nat, size: nat, overlap: nat)
    requires i + 1 < |groups| && groups[i + 1] != []
  {
    |LastRaw(groups[..i + 1], overlap)| + RuneCount(groups[i + 1][0]) > size
  }

  ghost predicate NoneEmpty(groups: seq<Group>) { forall i :: 0 <= i < |groups| ==> groups[i] != [] }

  /** A division of the paragraphs, in order, into segments that are cut exactly when they must be. */
  ghost predicate IsPacking(groups: seq<Group>, paras: seq<seq<Byte>>, size: nat, overlap: nat) {
    && Concat(groups) == paras
    && NoneEmpty(groups)
    && Fits(groups, size, overlap)
    && CutsOnlyWhenFull(groups, size, overlap)
  }

  lemma PackingOpened(groups: seq<Group>, paras: seq<seq<Byte>>, p: seq<Byte>, size: nat, overlap: nat)
    requires IsPacking(groups, paras, size, overlap)
    requires groups == [] || |LastRaw(groups, overlap)| + RuneCount(p) > size
    ensures IsPacking(groups + [[p]], paras + [p], size, overlap)
  {
    var g := groups + [[p]];
    assert g[..|groups|] == groups;
    forall i, j | 0 <= i < |g| && 1 <= j < |g[i]| ensures FitsAt(g, i, j, size, overlap) {
      assert g[..i] == groups[..i] && FitsAt(groups, i, j, size, overlap);
    }
    forall i | 0 <= i < |g| - 1 && g[i + 1] != [] ensures CutAt(g, i, size, overlap) {
      assert g[..i + 1] == groups[..i + 1];
      if i < |groups| - 1 { assert CutAt(groups, i, size, overlap); } else { assert groups[..i + 1] == groups; }
    }
  }

  lemma RawSize(groups: seq<Group>, overlap: nat)
    requires groups != []
    ensures |LastRaw(groups, overlap)| == |Carry(groups[..|groups| - 1], overlap)| + |Body(groups[|groups| - 1])|
  {
  }

  lemma PackingLengthened(groups: seq<Group>, paras: seq<seq<Byte>>, p: seq<Byte>, size: nat, overlap: nat)
    requires IsPacking(groups, paras, size, overlap)
    requires groups != [] && |LastRaw(groups, overlap)| + RuneCount(p) <= size
    ensures IsPacking(Lengthen(groups, p), paras + [p], size, overlap)
  {
    var g, n := Lengthen(groups, p), |groups| - 1;
    assert g[..n] == groups[..n];
    RawSize(groups, overlap);
    assert g[n][..|groups[n]|] == groups[n];
    forall i, j | 0 <= i < |g| && 1 <= j < |g[i]| ensures FitsAt(g, i, j, size, overlap) {
      assert g[..i] == groups[..i];
      if i < n || j < |groups[n]| {
        assert FitsAt(groups, i, j, size, overlap);
        assert g[i][..j] == groups[i][..j];
      }
    }
    forall i | 0 <= i < |g| - 1 && g[i + 1] != [] ensures CutAt(g, i, size, overlap) {
      assert g[..i + 1] == groups[..i + 1] && CutAt(groups, i, size, overlap);
      assert g[i + 1][0] == groups[i + 1][0];
    }
    assert Concat(g) == Concat(groups[..n]) + (groups[n] + [p]);
  }

  lemma PackingStep(front: seq<seq<Byte>>, p: seq<Byte>, size: nat, overlap: nat)
    requires IsPacking(Groups(front, size, overlap), front, size, overlap)
    ensures IsPacking(Groups(front + [p], size, overlap), front + [p], size, overlap)
  {
    var g := Groups(front, size, overlap);
    GroupsUnfold(front, p, size, overlap);
    if g == [] || |LastRaw(g, overlap)| + RuneCount(p) > size {
      PackingOpened(g, front, p, size, overlap);
    } else {
      PackingLengthened(g, front, p, size, overlap);
    }
  }

  lemma {:induction false} GroupsIsPacking(paras: seq<seq<Byte>>, size: nat, overlap: nat)
    ensures IsPacking(Groups(paras, size, overlap), paras, size, overlap)
  {
    if paras != [] {
      var front, p := paras[..|paras| - 1], paras[|paras| - 1];
      GroupsIsPacking(front, size, overlap);
      PackingStep(front, p, size, overlap);
      assert front + [p] == paras;
    }
  }

  /** Taking the last paragraph off a packing leaves a packing. */
  lemma Shorten(groups: seq<Group>, paras: seq<seq<Byte>>, size: nat, overlap: nat) returns (front: seq<Group>)
    requires IsPacking(groups, paras, size, overlap) && paras != []
    ensures groups != [] && paras[|paras| - 1] == groups[|groups| - 1][|groups[|groups| - 1]| - 1]
    ensures IsPacking(front, paras[..|paras| - 1], size, overlap)
    ensures var p := paras[|paras| - 1];
            if front == [] || |LastRaw(front, overlap)| + RuneCount(p) > size
            then groups == front + [[p]] else groups == Lengthen(front, p)
  {
    var n := |groups| - 1;
    var last := groups[n];
    var p := last[|last| - 1];
    assert paras == Concat(groups[..n]) + last;
    assert paras[..|paras| - 1] == Concat(groups[..n]) + last[..|last| - 1];
    if |last| == 1 {
      front := groups[..n];
      assert last == [p] && groups == front + [[p]] && last[..0] == [];
      FrontPacks(groups, paras, size, overlap);
      if front != [] { assert CutAt(groups, n - 1, size, overlap); }
    } else {
      front := groups[..n] + [last[..|last| - 1]];
      assert last[..|last| - 1] + [p] == last;
      assert front[..n] == groups[..n] && Lengthen(front, p) == groups;
      RawSize(front, overlap);
      assert FitsAt(groups, n, |last| - 1, size, overlap);
      ShorterPacks(groups, front, size, overlap);
    }
  }

  lemma FrontPacks(groups: seq<Group>, paras: seq<seq<Byte>>, size: nat, overlap: nat)
    requires IsPacking(groups, paras, size, overlap) && groups != []
    ensures IsPacking(groups[..|groups| - 1], Concat(groups[..|groups| - 1]), size, overlap)
  {
    var f := groups[..|groups| - 1];
    forall i, j | 0 <= i < |f| && 1 <= j < |f[i]| ensures FitsAt(f, i, j, size, overlap) {
      assert f[..i] == groups[..i] && FitsAt(groups, i, j, size, overlap);
    }
    forall i | 0 <= i < |f| - 1 && f[i + 1] != [] ensures CutAt(f, i, size, overlap) {
      assert f[..i + 1] == groups[..i + 1] && CutAt(groups, i, size, overlap);
    }
  }

  lemma SamePrefix(front: seq<Group>, groups: seq<Group>, n: nat, i: nat)
    requires i <= n <= |front| && n <= |groups| && front[..n] == groups[..n]
    ensures front[..i] == groups[..i] && (i < n ==> front[i] == groups[i])
  {
    assert front[..i] == front[..n][..i] && groups[..i] == groups[..n][..i];
    assert i < n ==> front[i] == front[..n][i] && groups[i] == groups[..n][i];
  }

  lemma ShorterFits(groups: seq<Group>, front: seq<Group>, size: nat, overlap: nat)
    requires groups != [] && Fits(groups, size, overlap)
    requires |front| == |groups| && front[..|groups| - 1] == groups[..|groups| - 1]
    requires |groups[|groups| - 1]| > 1 && front[|groups| - 1] == groups[|groups| - 1][..|groups[|groups| - 1]| - 1]
    ensures Fits(front, size, overlap)
  {
    forall i, j | 0 <= i < |front| && 1 <= j < |front[i]| ensures FitsAt(front, i, j, size, overlap) {
      SamePrefix(front, groups, |groups| - 1, i);
      assert front[i][..j] == groups[i][..j];
      assert FitsAt(groups, i, j, size, overlap);
    }
  }

  lemma ShorterCuts(groups: seq<Group>, front: seq<Group>, size: nat, overlap: nat)
    requires groups != [] && CutsOnlyWhenFull(groups, size, overlap) && NoneEmpty(groups)
    requires |front| == |groups| && front[..|groups| - 1] == groups[..|groups| - 1]
    requires |groups[|groups| - 1]| > 1 && front[|groups| - 1] == groups[|groups| - 1][..|groups[|groups| - 1]| - 1]
    ensures CutsOnlyWhenFull(front, size, overlap)
  {
    forall i | 0 <= i < |front| - 1 && front[i + 1] != [] ensures CutAt(front, i, size, overlap) {
      SamePrefix(front, groups, |groups| - 1, i + 1);
      assert CutAt(groups, i, size, overlap);
    }
  }

  lemma ShorterPacks(groups: seq<Group>, front: seq<Group>, size: nat, overlap: nat)
    requires NoneEmpty(groups) && Fits(groups, size, overlap) && CutsOnlyWhenFull(groups, size, overlap)
    requires groups != [] && |front| == |groups| && front[..|groups| - 1] == groups[..|groups| - 1]
    requires |groups[|groups| - 1]| > 1 && front[|groups| - 1] == groups[|groups| - 1][..|groups[|groups| - 1]| - 1]
    ensures IsPacking(front, Concat(front), size, overlap)
  {
    var n := |groups| - 1;
    ShorterFits(groups, front, size, overlap);
    ShorterCuts(groups, front, size, overlap);
    forall i | 0 <= i < |front| ensures front[i] != [] {
      SamePrefix(front, groups, n, i);
    }
  }

  lemma SomethingPacked(groups: seq<Group>)
    requires NoneEmpty(groups)
    ensures Concat(groups) == [] <==> groups == []
  {
    if groups != [] {
      assert groups[|groups| - 1] != [];
    }
  }

  /** There is exactly one greedy packing, and it is the one the chunker makes. */
  lemma {:induction false} PackingIsUnique(groups: seq<Group>, paras: seq<seq<Byte>>, size: nat, overlap: nat)
    ensures IsPacking(groups, paras, size, overlap) <==> groups == Groups(paras, size, overlap)
    decreases |paras|
  {
    GroupsIsPacking(paras, size, overlap);
    if IsPacking(groups, paras, size, overlap) {
      if paras == [] {
        SomethingPacked(groups);
      } else {
        var front := Shorten(groups, paras, size, overlap);
        PackingIsUnique(front, paras[..|paras| - 1], size, overlap);
      }
    }
  }

  // What comes out

  lemma TrimSegment(carry: seq<Byte>, front: seq<Byte>, last: seq<Byte>)
    requires EndsAscii(carry) && EndsAscii(front) && Trimmed(last) && SpaceAtStart(front + last + BLANK) == 0
    ensures TrimSpace(carry + (front + last + BLANK)) == TrimLeft(carry) + (front + last)
  {
    TrimLeftBefore(carry, front + last + BLANK);
    TrimTail(TrimLeft(carry), front, last);
  }

  lemma TrimTail(x: seq<Byte>, front: seq<Byte>, last: seq<Byte>)
    requires EndsAscii(x) && EndsAscii(front) && last != [] && SpaceAtEnd(last) == 0
    ensures TrimRight(x + (front + last + BLANK)) == x + (front + last)
  {
    var y := x + front;
    assert EndsAscii(y);
    Regroup(x, front, last, BLANK);
    TrimRightAfter(y, last);
  }

  lemma Regroup<T>(a: seq<T>, b: seq<T>, c: seq<T>, d: seq<T>)
    ensures a + b + c + d == a + (b + c + d)
    ensures a + b + c == a + (b + c)
  {
  }

  /** Everything of a joined group but its last paragraph. */
  function Lead(paras: Group): (r: seq<Byte>)
    requires paras != []
    ensures EndsAscii(r) && JoinBlank(paras) == r + paras[|paras| - 1]
  {
    if |paras| == 1 then [] else JoinBlank(paras[..|paras| - 1]) + BLANK
  }

  /**
   * The text of a segment: what is left of the carry, then every paragraph whole and in order, a
   * blank line between. It is not empty and ends with a paragraph.
   */
  lemma SegmentText(groups: seq<Group>, overlap: nat)
    requires groups != [] && groups[|groups| - 1] != [] && forall p :: p in groups[|groups| - 1] ==> Trimmed(p)
    ensures var n := |groups| - 1;
            TrimSpace(LastRaw(groups, overlap)) == TrimLeft(Carry(groups[..n], overlap)) + JoinBlank(groups[n])
    ensures JoinBlank(groups[|groups| - 1]) != []
  {
    var n := |groups| - 1;
    var last := groups[n];
    assert last[|last| - 1] in last;
    BodyJoins(last);
    JoinStarts(last);
    TrimSegment(Carry(groups[..n], overlap), Lead(last), last[|last| - 1]);
  }

  lemma {:induction false} BodyJoins(paras: Group)
    requires paras != []
    ensures Body(paras) == JoinBlank(paras) + BLANK
  {
    if |paras| > 1 {
      BodyJoins(paras[..|paras| - 1]);
    } else {
      assert paras[..0] == [];
    }
  }

  lemma {:induction false} JoinStarts(paras: Group)
    requires paras != [] && forall p :: p in paras ==> Trimmed(p)
    ensures JoinBlank(paras) != [] && SpaceAtStart(JoinBlank(paras)) == 0
    ensures SpaceAtStart(JoinBlank(paras) + BLANK) == 0
  {
    if |paras| > 1 {
      JoinStarts(paras[..|paras| - 1]);
      StartKept(JoinBlank(paras[..|paras| - 1]), BLANK + paras[|paras| - 1]);
      assert JoinBlank(paras) == JoinBlank(paras[..|paras| - 1]) + (BLANK + paras[|paras| - 1]);
    } else {
      assert JoinBlank(paras) == paras[0] && paras[0] in paras;
    }
    StartKept(JoinBlank(paras), BLANK);
  }

  lemma StartKept(s: seq<Byte>, t: seq<Byte>)
    requires s != [] && SpaceAtStart(s) == 0 && t != [] && t[0] == NEWLINE
    ensures SpaceAtStart(s + t) == 0
  {
    var r := s + t;
    assert r[0] == s[0];
    assert |r| >= 2 ==> r[1] == if |s| >= 2 then s[1] else NEWLINE;
    assert |s| >= 2 && |r| >= 3 ==> r[2] == if |s| >= 3 then s[2] else NEWLINE;
  }

  /** Taking the carry off every raw segment leaves each paragraph once, in order, with its blank line. */
  lemma {:induction false} FreshParts(groups: seq<Group>)
    ensures Bodies(groups) == Body(Concat(groups))
  {
    if groups != [] {
      var front, last := groups[..|groups| - 1], groups[|groups| - 1];
      FreshParts(front);
      BodyAppend(Concat(front), last);
    }
  }

  function Bodies(groups: seq<Group>): seq<Byte> {
    if groups == [] then [] else Bodies(groups[..|groups| - 1]) + Body(groups[|groups| - 1])
  }

  lemma {:induction false} BodyAppend(a: Group, b: Group)
    ensures Body(a + b) == Body(a) + Body(b)
  {
    if b == [] {
      assert a + b == a;
    } else {
      var front, last := b[..|b| - 1], b[|b| - 1];
      BodyAppend(a, front);
      assert (a + b)[..|a + b| - 1] == a + front;
      Text.Associates(Body(a), Body(front), last);
      Text.Associates(Body(a), Body(front) + last, BLANK);
    }
  }

  lemma CarrySize(groups: seq<Group>, overlap: nat)
    ensures |Carry(groups, overlap)| <= overlap + 1
  {
  }

  /** A raw segment is bounded by the size, or by its carry, plus its last paragraph. */
  lemma SegmentBound(groups: seq<Group>, paras: seq<seq<Byte>>, size: nat, overlap: nat, i: nat)
    requires IsPacking(groups, paras, size, overlap) && i < |groups|
    ensures var p := groups[i][|groups[i]| - 1];
            var bound := if size - RuneCount(p) >= overlap + 1 then size - RuneCount(p) else overlap + 1;
            |LastRaw(groups[..i + 1], overlap)| <= bound + |p| + 2
  {
    var g := groups[i];
    var p := g[|g| - 1];
    assert groups[..i + 1][..i] == groups[..i];
    assert Body(g) == Body(g[..|g| - 1]) + p + BLANK;
    CarrySize(groups[..i], overlap);
    if |g| > 1 {
      assert FitsAt(groups, i, |g| - 1, size, overlap);
    }
  }

  lemma {:induction false} GroupCount(groups: seq<Group>)
    requires NoneEmpty(groups)
    ensures |groups| <= |Concat(groups)|
  {
    if groups != [] { GroupCount(groups[..|groups| - 1]); }
  }

  lemma {:induction false} TextAt(groups: seq<Group>, overlap: nat, i: nat)
    requires i < |groups|
    ensures Texts(groups, overlap)[i] == TrimSpace(LastRaw(groups[..i + 1], overlap))
  {
    if i < |groups| - 1 {
      TextAt(groups[..|groups| - 1], overlap, i);
      assert groups[..|groups| - 1][..i + 1] == groups[..i + 1];
    } else {
      assert groups[..i + 1] == groups;
    }
  }

  lemma GroupsTrimmed(groups: seq<Group>, paras: seq<seq<Byte>>, i: nat, p: seq<Byte>)
    requires Concat(groups) == paras && i < |groups| && p in groups[i]
    ensures p in paras
    decreases |groups|
  {
    if i < |groups| - 1 {
      GroupsTrimmed(groups[..|groups| - 1], Concat(groups[..|groups| - 1]), i, p);
    }
  }

  /**
   * The whole result, for every text and size: segment `i` of the unique greedy packing of the
   * text's paragraphs comes out as what is left of its carry and its paragraphs, whole and in order.
   */
  lemma ChunkPromises(text: seq<Byte>, size: nat, overlap: nat, groups: seq<Group>, i: nat)
    requires groups == Groups(Paragraphs(text), size, overlap) && i < |groups|
    ensures IsPacking(groups, Paragraphs(text), size, overlap)
    ensures Bodies(groups) == Body(Paragraphs(text)) && |groups| <= |Paragraphs(text)|
    ensures Texts(groups, overlap)[i] == TrimLeft(Carry(groups[..i], overlap)) + JoinBlank(groups[i])
    ensures JoinBlank(groups[i]) != []
  {
    GroupsIsPacking(Paragraphs(text), size, overlap);
    FreshParts(groups);
    GroupCount(groups);
    ParagraphsTrimmed(text);
    forall p | p in groups[i] ensures Trimmed(p) {
      GroupsTrimmed(groups, Paragraphs(text), i, p);
    }
    PromisedText(groups, overlap, i);
  }

  lemma PromisedText(groups: seq<Group>, overlap: nat, i: nat)
    requires i < |groups| && groups[i] != [] && forall p :: p in groups[i] ==> Trimmed(p)
    ensures Texts(groups, overlap)[i] == TrimLeft(Carry(groups[..i], overlap)) + JoinBlank(groups[i])
    ensures JoinBlank(groups[i]) != []
  {
    TextAt(groups, overlap, i);
    assert groups[..i + 1][..i] == groups[..i];
    SegmentText(groups[..i + 1], overlap);
  }

  /** There is no output exactly when every piece of the text is blank. */
  lemma NoChunksIff(text: seq<Byte>, size: nat, overlap: nat, groups: seq<Group>, pieces: seq<seq<Byte>>)
    requires groups == Groups(Paragraphs(text), size, overlap) && pieces == SplitBlank(text)
    ensures |Texts(groups, overlap)| == 0 <==> forall i :: 0 <= i < |pieces| ==> TrimSpace(pieces[i]) == []
  {
    var trimmed := TrimAll(pieces);
    NonBlankKeeps(trimmed);
    assert |Texts(groups, overlap)| == 0 <==> forall p :: p in trimmed ==> p == [];
    assert forall i :: 0 <= i < |pieces| ==> trimmed[i] == TrimSpace(pieces[i]) && trimmed[i] in trimmed;
  }

  // What two chunks share

  function LastBytes(s: seq<Byte>, n: nat): seq<Byte> { if n <= |s| then s[|s| - n..] else s }

  lemma {:induction false} TrimLeftDrops(s: seq<Byte>) returns (dropped: seq<Byte>)
    ensures s == dropped + TrimLeft(s)
    decreases |s|
  {
    var w := SpaceAtStart(s);
    if w == 0 {
      dropped := [];
    } else {
      var more := TrimLeftDrops(s[w..]);
      dropped := s[..w] + more;
      assert s == s[..w] + s[w..];
      Text.Associates(s[..w], more, TrimLeft(s));
    }
  }

  lemma RawOf(groups: seq<Group>, overlap: nat, i: nat)
    requires i < |groups| && groups[i] != []
    ensures LastRaw(groups[..i + 1], overlap) == Carry(groups[..i], overlap) + JoinBlank(groups[i]) + [10, 10]
  {
    assert groups[..i + 1][..i] == groups[..i];
    BodyJoins(groups[i]);
    Text.Associates(Carry(groups[..i], overlap), JoinBlank(groups[i]), BLANK);
  }

  lemma RawIs(groups: seq<Group>, overlap: nat, i: nat, dropped: seq<Byte>)
    requires i < |groups| && groups[i] != []
    requires Carry(groups[..i], overlap) == dropped + TrimLeft(Carry(groups[..i], overlap))
    ensures LastRaw(groups[..i + 1], overlap)
         == dropped + (TrimLeft(Carry(groups[..i], overlap)) + JoinBlank(groups[i])) + [10, 10]
  {
    RawOf(groups, overlap, i);
    Text.Associates(dropped, TrimLeft(Carry(groups[..i], overlap)), JoinBlank(groups[i]));
  }

  lemma CarryIs(groups: seq<Group>, overlap: nat, i: nat)
    requires i < |groups|
    ensures Carry(groups[..i + 1], overlap) == LastBytes(LastRaw(groups[..i + 1], overlap), overlap) + [32]
    ensures i == 0 ==> Carry(groups[..i], overlap) == []
  {
  }

  /**
   * The chunk after `a` starts with the last `overlap` bytes of the segment that `a` was trimmed from, and
   * a space, of which leading white space is trimmed; what was trimmed before `a` is nothing for the first.
   */
  lemma OverlapIsShared(text: seq<Byte>, size: nat, overlap: nat, groups: seq<Group>, i: nat)
    returns (dropped: seq<Byte>)
    requires groups == Groups(Paragraphs(text), size, overlap) && i + 1 < |groups|
    ensures var a, b := Texts(groups, overlap)[i], Texts(groups, overlap)[i + 1];
            b == TrimLeft(LastBytes(dropped + a + [10, 10], overlap) + [32]) + JoinBlank(groups[i + 1])
    ensures i == 0 ==> dropped == []
  {
    ChunkPromises(text, size, overlap, groups, i);
    ChunkPromises(text, size, overlap, groups, i + 1);
    dropped := TrimLeftDrops(Carry(groups[..i], overlap));
    RawIs(groups, overlap, i, dropped);
    CarryIs(groups, overlap, i);
  }
}
