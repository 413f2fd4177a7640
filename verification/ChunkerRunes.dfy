/**
 * The carried tail of a segment is cut by bytes, so it may start inside a rune: when the chunks of a
 * valid text are valid, and texts for which they are not.
 */
module ChunkerRunes {
  import opened Bytes
  import opened Utf8
  import opened Chunker
  import opened ChunkerLaws

  // What is valid of a valid text

  lemma {:induction false} PieceUtf8(text: seq<Byte>, j: nat)
    requires IsUtf8(text) && j < |SplitBlank(text)|
    ensures IsUtf8(SplitBlank(text)[j])
    decreases |text|
  {
    var i := BlankAt(text);
    if i < |text| {
      CutUtf8(text, i);
      var rest := text[i..];
      assert rest[0] == NEWLINE && rest[1..][0] == NEWLINE && rest[1..][1..] == text[i + 2..];
      assert IsUtf8(rest[1..]) && IsUtf8(text[i + 2..]);
      if j > 0 { PieceUtf8(text[i + 2..], j - 1); }
    }
  }

  lemma ParagraphUtf8(text: seq<Byte>, p: seq<Byte>)
    requires IsUtf8(text) && p in Paragraphs(text)
    ensures IsUtf8(p)
  {
    var pieces := SplitBlank(text);
    NonBlankKeeps(TrimAll(pieces));
    var j :| 0 <= j < |pieces| && TrimAll(pieces)[j] == p;
    PieceUtf8(text, j);
    TrimLeftUtf8(pieces[j]);
    TrimRightUtf8(TrimLeft(pieces[j]));
  }

  ghost predicate AllUtf8(paras: Group) { forall p :: p in paras ==> IsUtf8(p) }

  lemma BlankUtf8()
    ensures IsUtf8(BLANK) && IsUtf8([SPACE])
  {
    assert BLANK[1..] == [NEWLINE] && [NEWLINE][1..] == [];
    assert [SPACE][1..] == [];
  }

  lemma {:induction false} BodyUtf8(paras: Group)
    requires AllUtf8(paras)
    ensures IsUtf8(Body(paras))
  {
    if paras != [] {
      var front, last := paras[..|paras| - 1], paras[|paras| - 1];
      BodyUtf8(front);
      BlankUtf8();
      ConcatUtf8(Body(front), last);
      ConcatUtf8(Body(front) + last, BLANK);
    }
  }

  lemma {:induction false} JoinUtf8(paras: Group)
    requires AllUtf8(paras)
    ensures IsUtf8(JoinBlank(paras))
  {
    if |paras| > 1 {
      var front, last := paras[..|paras| - 1], paras[|paras| - 1];
      JoinUtf8(front);
      BlankUtf8();
      ConcatUtf8(JoinBlank(front), BLANK);
      ConcatUtf8(JoinBlank(front) + BLANK, last);
    }
  }

  /** Every raw segment is at worst what a cut leaves of a valid text. */
  lemma {:induction false} RawCut(groups: seq<Group>, overlap: nat)
    requires groups != [] && forall g :: g in groups ==> AllUtf8(g)
    ensures CutFromUtf8(LastRaw(groups, overlap))
  {
    var front, last := groups[..|groups| - 1], groups[|groups| - 1];
    BodyUtf8(last);
    BlankUtf8();
    if front == [] {
      assert CutAfter([], 0);
    } else {
      RawCut(front, overlap);
      CarryCut(LastRaw(front, overlap), overlap);
    }
    CutThen(Carry(front, overlap), Body(last));
  }

  lemma CarryCut(raw: seq<Byte>, overlap: nat)
    requires CutFromUtf8(raw)
    ensures CutFromUtf8(Tail(raw, overlap)) && CutFromUtf8(Tail(raw, overlap) + [SPACE])
  {
    if |raw| > overlap { DropCut(raw, |raw| - overlap); }
    BlankUtf8();
    CutThen(Tail(raw, overlap), [SPACE]);
  }

  // The exact condition

  /** What is carried on from these segments starts where a rune starts. */
  predicate CutsOnRune(groups: seq<Group>, overlap: nat) {
    groups == [] || StartsRune(Tail(LastRaw(groups, overlap), overlap))
  }

  /** A carry, trimmed and followed by a valid text, is valid exactly if it was cut where a rune starts. */
  lemma CarryIff(tail: seq<Byte>, rest: seq<Byte>)
    requires CutFromUtf8(tail) && IsUtf8(rest)
    ensures IsUtf8(TrimLeft(tail + [SPACE]) + rest) <==> StartsRune(tail)
  {
    CutIff(tail);
    BlankUtf8();
    if StartsRune(tail) {
      ConcatUtf8(tail, [SPACE]);
      TrimLeftUtf8(tail + [SPACE]);
      ConcatUtf8(TrimLeft(tail + [SPACE]), rest);
    } else {
      assert SpaceAtStart(tail + [SPACE]) == 0;
      assert (tail + [SPACE] + rest)[0] == tail[0];
    }
  }

  lemma SegmentIff(groups: seq<Group>, overlap: nat)
    requires groups != [] && groups[|groups| - 1] != [] && forall g :: g in groups ==> AllUtf8(g)
    requires forall p :: p in groups[|groups| - 1] ==> Trimmed(p)
    ensures IsUtf8(TrimSpace(LastRaw(groups, overlap))) <==> CutsOnRune(groups[..|groups| - 1], overlap)
  {
    var front, last := groups[..|groups| - 1], groups[|groups| - 1];
    SegmentText(groups, overlap);
    JoinUtf8(last);
    if front == [] {
      assert TrimLeft([]) + JoinBlank(last) == JoinBlank(last);
    } else {
      RawCut(front, overlap);
      CarryCut(LastRaw(front, overlap), overlap);
      CarryIff(Tail(LastRaw(front, overlap), overlap), JoinBlank(last));
    }
  }

  lemma GroupUtf8(text: seq<Byte>, groups: seq<Group>, k: nat)
    requires IsUtf8(text) && Concat(groups) == Paragraphs(text) && k < |groups|
    ensures AllUtf8(groups[k]) && forall p :: p in groups[k] ==> Trimmed(p)
  {
    ParagraphsTrimmed(text);
    forall p | p in groups[k] ensures IsUtf8(p) && Trimmed(p) {
      GroupsTrimmed(groups, Paragraphs(text), k, p);
      ParagraphUtf8(text, p);
    }
  }

  lemma FrontUtf8(text: seq<Byte>, groups: seq<Group>, n: nat)
    requires IsUtf8(text) && Concat(groups) == Paragraphs(text) && n <= |groups|
    ensures forall g :: g in groups[..n] ==> AllUtf8(g)
  {
    forall k | 0 <= k < n ensures AllUtf8(groups[..n][k]) {
      GroupUtf8(text, groups, k);
    }
  }

  /** Chunk `i` of a valid text is valid exactly if what it carries was cut where a rune starts. */
  lemma ChunkUtf8Iff(text: seq<Byte>, size: nat, overlap: nat, groups: seq<Group>, i: nat)
    requires IsUtf8(text) && groups == Groups(Paragraphs(text), size, overlap) && i < |groups|
    ensures IsUtf8(Texts(groups, overlap)[i]) <==> CutsOnRune(groups[..i], overlap)
  {
    GroupsIsPacking(Paragraphs(text), size, overlap);
    TextAt(groups, overlap, i);
    FrontUtf8(text, groups, i + 1);
    GroupUtf8(text, groups, i);
    assert groups[..i + 1][..i] == groups[..i];
    SegmentIff(groups[..i + 1], overlap);
  }

  predicate ValidChunk(groups: seq<Group>, overlap: nat, i: nat)
    requires i < |groups|
  {
    IsUtf8(Texts(groups, overlap)[i])
  }

  predicate WholeCarry(groups: seq<Group>, overlap: nat, i: nat)
    requires i < |groups|
  {
    CutsOnRune(groups[..i], overlap)
  }

  /** All chunks of a valid text are valid exactly if every carry is cut where a rune starts. */
  lemma ChunksUtf8Iff(text: seq<Byte>, size: nat, overlap: nat, groups: seq<Group>)
    requires IsUtf8(text) && groups == Groups(Paragraphs(text), size, overlap)
    ensures (forall i :: 0 <= i < |groups| ==> ValidChunk(groups, overlap, i))
            <==> forall i :: 0 <= i < |groups| ==> WholeCarry(groups, overlap, i)
  {
    forall i | 0 <= i < |groups| ensures ValidChunk(groups, overlap, i) <==> WholeCarry(groups, overlap, i) {
      ChunkUtf8Iff(text, size, overlap, groups, i);
    }
  }

  // Texts whose chunks are not valid

  lemma RawEnds(groups: seq<Group>, overlap: nat, p: seq<Byte>)
    requires groups != [] && groups[|groups| - 1] != []
    requires p == groups[|groups| - 1][|groups[|groups| - 1]| - 1]
    ensures var raw := LastRaw(groups, overlap); |p| + 2 <= |raw| && raw[|raw| - |p| - 2..] == p + BLANK
  {
    var last := groups[|groups| - 1];
    assert Body(last) == Body(last[..|last| - 1]) + (p + BLANK);
  }

  lemma TailInside(raw: seq<Byte>, p: seq<Byte>, overlap: nat)
    requires |p| + 2 <= |raw| && raw[|raw| - |p| - 2..] == p + BLANK && 2 < overlap <= |p| + 1
    ensures Tail(raw, overlap) != [] && Tail(raw, overlap)[0] == p[|p| + 2 - overlap]
  {
    assert raw[|raw| - overlap] == raw[|raw| - |p| - 2..][|p| + 2 - overlap];
  }

  predicate ThreeByteRunes(p: seq<Byte>) {
    |p| % 3 == 0 && forall i :: 0 <= i < |p| ==> (Continues(p[i]) <==> i % 3 != 0)
  }

  lemma InsideRune(p: seq<Byte>)
    requires ThreeByteRunes(p) && |p| >= 255
    ensures Continues(p[|p| - 254])
  {
    assert (|p| - 254) % 3 == 1;
  }

  /** With the default overlap, a segment that ends with a long paragraph of three-byte runes is cut inside one. */
  lemma DefaultCutsRunes(groups: seq<Group>, p: seq<Byte>)
    requires groups != [] && groups[|groups| - 1] != []
    requires p == groups[|groups| - 1][|groups[|groups| - 1]| - 1] && ThreeByteRunes(p) && |p| >= 255
    ensures !CutsOnRune(groups, OverlapOf(0))
  {
    RawEnds(groups, OverlapOf(0), p);
    TailInside(LastRaw(groups, OverlapOf(0)), p, OverlapOf(0));
    InsideRune(p);
  }

  const ACCENT: seq<Byte> := [0xC3, 0xA9]  // one rune of two bytes

  lemma AccentParagraphs()
    ensures IsUtf8(ACCENT + BLANK + ACCENT) && Paragraphs(ACCENT + BLANK + ACCENT) == [ACCENT, ACCENT]
  {
    var text := ACCENT + BLANK + ACCENT;
    assert ACCENT[2..] == [] && IsUtf8(ACCENT);
    BlankUtf8();
    ConcatUtf8(ACCENT, BLANK);
    ConcatUtf8(ACCENT + BLANK, ACCENT);
    AccentPieces();
    assert TrimAll([ACCENT, ACCENT]) == [ACCENT, ACCENT];
    NonBlankMore([], ACCENT);
    NonBlankMore([ACCENT], ACCENT);
    assert [] + [ACCENT] == [ACCENT] && [ACCENT] + [ACCENT] == [ACCENT, ACCENT];
  }

  lemma NonBlankMore(paras: seq<seq<Byte>>, p: seq<Byte>)
    requires p != []
    ensures NonBlank(paras + [p]) == NonBlank(paras) + [p]
  {
    assert (paras + [p])[..|paras|] == paras;
  }

  lemma AccentPieces()
    ensures SplitBlank(ACCENT + BLANK + ACCENT) == [ACCENT, ACCENT]
  {
    var text := ACCENT + BLANK + ACCENT;
    assert IsBlankAt(text, 2) && !IsBlankAt(text, 0) && !IsBlankAt(text, 1);
    assert BlankAt(text) == 2 && text[..2] == ACCENT && text[4..] == ACCENT;
    assert BlankAt(ACCENT) == 2;
  }

  /** Two accented letters, a paragraph each: the second chunk starts inside the first letter. */
  lemma AccentIsCut()
    ensures IsUtf8(ACCENT + BLANK + ACCENT)
    ensures var groups := Groups(Paragraphs(ACCENT + BLANK + ACCENT), 1, 3);
            |groups| == 2 && !ValidChunk(groups, 3, 1)
  {
    AccentParagraphs();
    var text, paras := ACCENT + BLANK + ACCENT, [ACCENT, ACCENT];
    var one: seq<Group> := [[ACCENT]];
    assert paras[..1] == [ACCENT] && [ACCENT][..0] == [];
    GroupsUnfold([], ACCENT, 1, 3);
    assert [] + [ACCENT] == [ACCENT] && [] + [[ACCENT]] == one;
    RawEnds(one, 3, ACCENT);
    GroupsUnfold([ACCENT], ACCENT, 1, 3);
    var groups := one + [[ACCENT]];
    assert [ACCENT] + [ACCENT] == paras && Groups(paras, 1, 3) == groups;
    AccentRaw(one);
    assert groups[..1] == one;
    ChunkUtf8Iff(text, 1, 3, groups, 1);
  }

  lemma AccentRaw(one: seq<Group>)
    requires one == [[ACCENT]]
    ensures !CutsOnRune(one, 3)
  {
    var raw := LastRaw(one, 3);
    RawEnds(one, 3, ACCENT);
    assert raw[|raw| - 3] == raw[|raw| - 4..][1] == 0xA9;
  }
}
