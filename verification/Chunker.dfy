/**
 * The RAG chunker: paragraphs packed greedily into segments, each after the first carrying the
 * tail of the one before. Lengths are bytes, except that a paragraph is weighed in runes.
 */
module Chunker {
  import opened Bytes

  const DEFAULT_CHUNK_SIZE := 512
  const DEFAULT_CHUNK_OVERLAP := 64
  const NEWLINE: Byte := 10
  const SPACE: Byte := 32
  const BLANK: seq<Byte> := [NEWLINE, NEWLINE]

  type Group = seq<seq<Byte>>

  // Paragraphs

  predicate IsBlankAt(text: seq<Byte>, k: nat) {
    k + 1 < |text| && text[k] == NEWLINE && text[k + 1] == NEWLINE
  }

  /** Where the first blank line starts; the length if there is none. */
  function BlankAt(text: seq<Byte>): (i: nat)
    ensures i <= |text|
    ensures i < |text| ==> IsBlankAt(text, i)
    ensures forall k :: 0 <= k < i ==> !IsBlankAt(text, k)
  {
    if |text| < 2 then |text|
    else if IsBlankAt(text, 0) then 0
    else
      assert forall k :: 1 <= k < |text| ==> IsBlankAt(text, k) == IsBlankAt(text[1..], k - 1);
      1 + BlankAt(text[1..])
  }

  /** strings.Split(text, "\n\n"). */
  function SplitBlank(text: seq<Byte>): (r: seq<seq<Byte>>)
    ensures |r| >= 1
    decreases |text|
  {
    var i := BlankAt(text);
    if i == |text| then [text] else [text[..i]] + SplitBlank(text[i + 2..])
  }

  function JoinBlank(pieces: seq<seq<Byte>>): seq<Byte> {
    if pieces == [] then []
    else if |pieces| == 1 then pieces[0]
    else JoinBlank(pieces[..|pieces| - 1]) + BLANK + pieces[|pieces| - 1]
  }

  function TrimAll(pieces: seq<seq<Byte>>): (r: seq<seq<Byte>>)
    ensures |r| == |pieces| && forall i :: 0 <= i < |pieces| ==> r[i] == TrimSpace(pieces[i])
  {
    seq(|pieces|, i requires 0 <= i < |pieces| => TrimSpace(pieces[i]))
  }

  function NonBlank(paras: seq<seq<Byte>>): seq<seq<Byte>> {
    if paras == [] then []
    else
      var rest, p := NonBlank(paras[..|paras| - 1]), paras[|paras| - 1];
      if p == [] then rest else rest + [p]
  }

  /** The trimmed paragraphs of a text, blank ones dropped. */
  function Paragraphs(text: seq<Byte>): seq<seq<Byte>> { NonBlank(TrimAll(SplitBlank(text))) }

  // Segments

  /** What is written for a run of paragraphs: each one and a blank line. */
  function Body(paras: Group): seq<Byte> {
    if paras == [] then [] else Body(paras[..|paras| - 1]) + paras[|paras| - 1] + BLANK
  }

  function Tail(s: seq<Byte>, overlap: nat): seq<Byte> { if |s| > overlap then s[|s| - overlap..] else s }

  /** What the segment after `groups` starts with: the tail of the previous segment and a space. */
  function Carry(groups: seq<Group>, overlap: nat): seq<Byte>
    decreases |groups|, 0
  {
    if groups == [] then [] else Tail(LastRaw(groups, overlap), overlap) + [SPACE]
  }

  /** The untrimmed last segment of `groups`. */
  function LastRaw(groups: seq<Group>, overlap: nat): seq<Byte>
    requires groups != []
    decreases |groups| - 1, 1
  {
    Carry(groups[..|groups| - 1], overlap) + Body(groups[|groups| - 1])
  }

  function Texts(groups: seq<Group>, overlap: nat): (r: seq<seq<Byte>>)
    ensures |r| == |groups|
  {
    if groups == [] then [] else Texts(groups[..|groups| - 1], overlap) + [TrimSpace(LastRaw(groups, overlap))]
  }

  /** How the paragraphs fall into segments, one paragraph after the other. */
  function Groups(paras: seq<seq<Byte>>, size: nat, overlap: nat): (r: seq<Group>)
    ensures r == [] <==> paras == []
  {
    if paras == [] then []
    else
      var g, p := Groups(paras[..|paras| - 1], size, overlap), paras[|paras| - 1];
      if g == [] || |LastRaw(g, overlap)| + RuneCount(p) > size then g + [[p]]
      else g[..|g| - 1] + [g[|g| - 1] + [p]]
  }

  /** Non-positive parameters select the defaults, four bytes to a token. */
  function SizeOf(chunkSize: int): nat { if chunkSize <= 0 then DEFAULT_CHUNK_SIZE * 4 else chunkSize }

  function OverlapOf(overlap: int): nat { if overlap <= 0 then DEFAULT_CHUNK_OVERLAP * 4 else overlap }

  method Chunk(text: seq<Byte>, chunkSize: int, overlap: int) returns (chunks: seq<seq<Byte>>)
    ensures chunks == Texts(Groups(Paragraphs(text), SizeOf(chunkSize), OverlapOf(overlap)), OverlapOf(overlap))
  {
    var size, keep := chunkSize, overlap;
    if size <= 0 {
      size := DEFAULT_CHUNK_SIZE * 4;
    }
    if keep <= 0 {
      keep := DEFAULT_CHUNK_OVERLAP * 4;
    }
    chunks := Pack(SplitBlank(text), size, keep);
  }

  /** The loop over the pieces, filling and cutting the buffer `current`. */
  method Pack(pieces: seq<seq<Byte>>, size: nat, keep: nat) returns (chunks: seq<seq<Byte>>)
    ensures chunks == Texts(Groups(NonBlank(TrimAll(pieces)), size, keep), keep)
  {
    chunks := [];
    var current: seq<Byte> := [];
    ghost var trimmed := TrimAll(pieces);
    for i := 0 to |pieces|
      invariant Holds(current, chunks, Groups(NonBlank(trimmed[..i]), size, keep), keep)
    {
      var para := TrimSpace(pieces[i]);
      Turn(trimmed, i, current, chunks, size, keep);
      if para == [] {
        continue;
      }
      if |current| + RuneCount(para) > size && |current| > 0 {
        chunks := chunks + [TrimSpace(current)];
        current := Tail(current, keep) + [SPACE];
      }
      current := current + para + BLANK;
    }
    assert trimmed[..|pieces|] == trimmed;
    if |current| > 0 {
      chunks := chunks + [TrimSpace(current)];
    }
  }

  lemma Turn(paras: seq<seq<Byte>>, i: nat, current: seq<Byte>, chunks: seq<seq<Byte>>, size: nat, keep: nat)
    requires i < |paras| && Holds(current, chunks, Groups(NonBlank(paras[..i]), size, keep), keep)
    ensures var para, groups := paras[i], Groups(NonBlank(paras[..i + 1]), size, keep);
            if para == [] then Holds(current, chunks, groups, keep)
            else if |current| + RuneCount(para) > size && |current| > 0
              then Holds(Tail(current, keep) + [SPACE] + para + BLANK, chunks + [TrimSpace(current)], groups, keep)
            else Holds(current + para + BLANK, chunks, groups, keep)
  {
    var para, groups := paras[i], Groups(NonBlank(paras[..i]), size, keep);
    assert paras[..i + 1][..i] == paras[..i];
    if para != [] {
      GroupsUnfold(NonBlank(paras[..i]), para, size, keep);
      AddParagraph(current, chunks, groups, para, keep);
      assert groups == [] ==> groups + [[para]] == [[para]];
    }
  }

  /** One turn of the loop: a full buffer is cut, any other is lengthened. */
  lemma AddParagraph(current: seq<Byte>, chunks: seq<seq<Byte>>, groups: seq<Group>, para: seq<Byte>, keep: nat)
    requires Holds(current, chunks, groups, keep)
    ensures groups != [] ==>
              Holds(Tail(current, keep) + [SPACE] + para + BLANK, chunks + [TrimSpace(current)], groups + [[para]],
                    keep)
    ensures groups == [] ==> Holds(current + para + BLANK, chunks, [[para]], keep)
    ensures groups != [] ==> Holds(current + para + BLANK, chunks, Lengthen(groups, para), keep)
  {
    OpenSegment(groups, para, keep);
    if groups != [] {
      LengthenSegment(groups, para, keep);
    } else {
      assert groups + [[para]] == [[para]];
    }
  }

  /** The loop's state: the finished segments and the one under construction. */
  ghost predicate Holds(current: seq<Byte>, chunks: seq<seq<Byte>>, groups: seq<Group>, overlap: nat) {
    if groups == [] then current == [] && chunks == []
    else current == LastRaw(groups, overlap) && current != [] && chunks == Texts(groups[..|groups| - 1], overlap)
  }

  lemma BodyStep(paras: Group, p: seq<Byte>)
    ensures Body(paras + [p]) == Body(paras) + p + BLANK
  {
    assert (paras + [p])[..|paras|] == paras;
  }

  /** The last segment of `groups`, lengthened by a paragraph. */
  function Lengthen(groups: seq<Group>, p: seq<Byte>): seq<Group>
    requires groups != []
  {
    groups[..|groups| - 1] + [groups[|groups| - 1] + [p]]
  }

  lemma GroupsUnfold(paras: seq<seq<Byte>>, p: seq<Byte>, size: nat, overlap: nat)
    ensures var g := Groups(paras, size, overlap);
            Groups(paras + [p], size, overlap)
            == if g == [] || |LastRaw(g, overlap)| + RuneCount(p) > size then g + [[p]] else Lengthen(g, p)
  {
    assert (paras + [p])[..|paras|] == paras;
  }

  lemma OpenSegment(groups: seq<Group>, p: seq<Byte>, overlap: nat)
    ensures (groups + [[p]])[..|groups|] == groups
    ensures LastRaw(groups + [[p]], overlap) == Carry(groups, overlap) + p + BLANK
  {
    assert (groups + [[p]])[..|groups|] == groups;
    BodyStep([], p);
    assert [] + [p] == [p] && [] + p + BLANK == p + BLANK;
    assert Carry(groups, overlap) + (p + BLANK) == Carry(groups, overlap) + p + BLANK;
  }

  lemma LengthenSegment(groups: seq<Group>, p: seq<Byte>, overlap: nat)
    requires groups != []
    ensures Lengthen(groups, p)[..|groups| - 1] == groups[..|groups| - 1]
    ensures LastRaw(Lengthen(groups, p), overlap) == LastRaw(groups, overlap) + p + BLANK
  {
    var front, last := groups[..|groups| - 1], groups[|groups| - 1];
    assert Lengthen(groups, p)[..|groups| - 1] == front;
    BodyStep(last, p);
    assert Carry(front, overlap) + (Body(last) + p + BLANK) == Carry(front, overlap) + Body(last) + p + BLANK;
  }
}
