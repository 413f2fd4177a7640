/** When the caller of the relay gets the model server's response byte for byte, and all its lines. */
module AgentLaws {
  import opened Wrappers
  import opened Text
  import opened Bytes
  import opened Utf8
  import opened Relay
  import opened RelaySafety
  import RelayPromises
  import RelayProgress
  import opened Agent

  // One line

  /** No carriage return at its end, and not white space alone. */
  predicate Unaltered(line: seq<Byte>) {
    line == [] || (line[|line| - 1] != 13 && TrimSpace(line) != [])
  }

  lemma KeptWhole(line: seq<Byte>)
    requires Unaltered(line)
    ensures Kept(line) == line
  {
    assert TrimSpace([]) == [];
  }

  lemma WireLine(line: seq<Byte>)
    requires NEWLINE !in line
    ensures Wire(line) == Coerce(Kept(line)) + [NEWLINE]
    ensures NEWLINE !in Coerce(Kept(line))
  {
    var kept := Kept(line);
    CoerceAppend(kept, NEWLINE, []);
    assert kept + [NEWLINE] + [] == kept + [NEWLINE];
    CoerceAddsNone(kept, NEWLINE);
  }

  lemma ReturnShows(kept: seq<Byte>)
    ensures !(kept + [RETURN] <= Coerce(kept) + [NEWLINE])
  {
    var line, sent := kept + [RETURN], Coerce(kept) + [NEWLINE];
    if line <= sent {
      assert kept == line[..|kept|] == sent[..|kept|] == Coerce(kept)[..|kept|];
      assert sent[|kept|] == line[|kept|] == RETURN;
      if |kept| < |Coerce(kept)| { CoerceExtends(kept); }
    }
  }

  /** What is sent for an altered line never starts with that line, whatever the encoder replaces. */
  lemma AlteredShows(line: seq<Byte>)
    requires NEWLINE !in line && !Unaltered(line)
    ensures !(line <= Wire(line))
  {
    WireLine(line);
    if Kept(line) == [] {
      assert Wire(line) == [NEWLINE] && line[0] != NEWLINE;
    } else {
      assert line == Kept(line) + [RETURN];
      ReturnShows(Kept(line));
    }
  }

  lemma WireIff(line: seq<Byte>)
    requires NEWLINE !in line
    ensures Coerce(Kept(line)) == line <==> Unaltered(line) && Coerce(line) == line
  {
    if Unaltered(line) {
      KeptWhole(line);
    } else {
      WireLine(line);
      AlteredShows(line);
    }
  }

  // All lines

  /** With its newline, the line fits the scanner's 64 KiB; the last may fill them if the end was reported with it. */
  predicate FitsScanner(pieces: seq<seq<Byte>>, i: nat, eager: bool)
    requires i < |pieces|
  {
    |pieces[i]| < 65536 || (|pieces[i]| == 65536 && i == |pieces| - 1 && eager)
  }

  /** Every piece fits the scanner's buffer and is passed on as it is. */
  predicate Lined(pieces: seq<seq<Byte>>, eager: bool) {
    forall i :: 0 <= i < |pieces| ==> Unaltered(pieces[i]) && FitsScanner(pieces, i, eager)
  }

  lemma FitsCons(pieces: seq<seq<Byte>>, eager: bool)
    requires pieces != []
    ensures FitsScanner(pieces, 0, eager) <==> !TooLong(pieces, eager)
    ensures forall i :: 1 <= i < |pieces| ==>
              (FitsScanner(pieces, i, eager) <==> FitsScanner(pieces[1..], i - 1, eager))
  {
  }

  lemma LinedCons(pieces: seq<seq<Byte>>, eager: bool)
    requires pieces != []
    ensures Lined(pieces, eager)
            <==> Unaltered(pieces[0]) && !TooLong(pieces, eager) && Lined(pieces[1..], eager)
  {
    var rest := pieces[1..];
    FitsCons(pieces, eager);
    assert forall i :: 0 <= i < |rest| ==> rest[i] == pieces[i + 1];
    if Lined(pieces, eager) {
      forall i | 0 <= i < |rest| ensures Unaltered(rest[i]) && FitsScanner(rest, i, eager) {
        assert FitsScanner(pieces, i + 1, eager);
      }
    }
    if Unaltered(pieces[0]) && !TooLong(pieces, eager) && Lined(rest, eager) {
      forall i | 0 <= i < |pieces| ensures Unaltered(pieces[i]) && FitsScanner(pieces, i, eager) {
        if i > 0 { assert pieces[i] == rest[i - 1]; }
      }
    }
  }

  /** A text whose last line is ended by a newline. */
  function Ended(s: seq<Byte>): seq<Byte> {
    if s == [] || s[|s| - 1] == NEWLINE then s else s + [NEWLINE]
  }

  lemma EndedAppend(a: seq<Byte>, b: seq<Byte>)
    ensures Ended(a + [NEWLINE] + b) == a + [NEWLINE] + Ended(b)
  {
    if b == [] {
      assert a + [NEWLINE] + b == a + [NEWLINE];
    } else {
      assert (a + [NEWLINE] + b)[|a| + |b|] == b[|b| - 1];
    }
  }

  lemma ConcatCons(first: Payload, rest: seq<Payload>)
    ensures Concat([first] + rest) == first + Concat(rest)
  {
    ConcatAppend([first], rest);
    assert [first][..0] == [] && Concat([first]) == Concat([first][..0]) + first;
  }

  /** Two texts of which each starts with its first line are equal exactly if the line and the rest are. */
  lemma SameFirstLine(a: seq<Byte>, b: seq<Byte>, x: seq<Byte>, y: seq<Byte>)
    requires NEWLINE !in a && NEWLINE !in b
    ensures a + [NEWLINE] + x == b + [NEWLINE] + y <==> a == b && x == y
  {
    FirstIndex(a, NEWLINE, x);
    FirstIndex(b, NEWLINE, y);
    var s, t := a + [NEWLINE] + x, b + [NEWLINE] + y;
    assert s[..|a|] == a && t[..|b|] == b && s[|a| + 1..] == x && t[|b| + 1..] == y;
  }

  lemma ConcatStep(pieces: seq<seq<Byte>>, eager: bool)
    requires |pieces| >= 1 && pieces != [[]] && !TooLong(pieces, eager) && NEWLINE !in pieces[0]
    ensures Concat(Chunks(pieces, eager))
         == Coerce(Kept(pieces[0])) + [NEWLINE] + Concat(Chunks(pieces[1..], eager))
  {
    ConcatCons(Wire(pieces[0]), Chunks(pieces[1..], eager));
    WireLine(pieces[0]);
  }

  lemma EndedCoerced(last: seq<Byte>)
    requires NEWLINE !in last && last != []
    ensures Ended(Coerce(last)) == Coerce(last) + [NEWLINE]
  {
    CoerceAddsNone(last, NEWLINE);
    assert Coerce(last)[|Coerce(last)| - 1] in Coerce(last);
  }

  /** The last piece, of a body that goes on with `more`. */
  lemma LastUnchangedIff(last: seq<Byte>, more: seq<Byte>)
    requires NEWLINE !in last && last != []
    ensures Wire(last) == last + more <==> Unaltered(last) && last + more == Ended(Coerce(last))
  {
    WireLine(last);
    EndedCoerced(last);
    if Unaltered(last) {
      KeptWhole(last);
    } else {
      AlteredShows(last);
    }
  }

  lemma JoinedUnchangedIff(first: seq<Byte>, rest: seq<Byte>, sent: seq<Byte>, more: seq<Byte>)
    requires NEWLINE !in first
    ensures Coerce(Kept(first)) + [NEWLINE] + sent == first + [NEWLINE] + rest + more
            <==> Unaltered(first) && Coerce(first) == first && sent == rest + more
    ensures first + [NEWLINE] + rest + more == Ended(Coerce(first + [NEWLINE] + rest))
            <==> Coerce(first) == first && rest + more == Ended(Coerce(rest))
  {
    assert first + [NEWLINE] + rest + more == first + [NEWLINE] + (rest + more);
    WireLine(first);
    WireIff(first);
    SameFirstLine(Coerce(Kept(first)), first, sent, rest + more);
    CoerceAppend(first, NEWLINE, rest);
    EndedAppend(Coerce(first), Coerce(rest));
    CoerceAddsNone(first, NEWLINE);
    SameFirstLine(first, Coerce(first), rest + more, Ended(Coerce(rest)));
  }

  lemma {:induction false} PiecesUnchangedIff(pieces: seq<seq<Byte>>, eager: bool, more: seq<Byte>)
    requires |pieces| >= 1 && forall i :: 0 <= i < |pieces| ==> NEWLINE !in pieces[i]
    ensures Concat(Chunks(pieces, eager)) == Join(pieces, NEWLINE) + more
            <==> Lined(pieces, eager) && Join(pieces, NEWLINE) + more == Ended(Coerce(Join(pieces, NEWLINE)))
  {
    var first, rest := pieces[0], pieces[1..];
    LinedCons(pieces, eager);
    if TooLong(pieces, eager) {
      assert Chunks(pieces, eager) == [] && first != [];
      assert |Join(pieces, NEWLINE)| >= |first|;
    } else if |pieces| > 1 {
      ConcatStep(pieces, eager);
      PiecesUnchangedIff(rest, eager, more);
      JoinedUnchangedIff(first, Join(rest, NEWLINE), Concat(Chunks(rest, eager)), more);
    } else {
      assert pieces == [first] && Lined(rest, eager);
      if first != [] {
        ConcatStep(pieces, eager);
        WireLine(first);
        LastUnchangedIff(first, more);
      }
    }
  }

  /** The caller's text is the server's body: its lines are passed on as they are, and nothing else is missing. */
  predicate Intact(reading: Reading, body: seq<Byte>) {
    Lined(Split(reading.data, NEWLINE), reading.eager) && body == Ended(Coerce(reading.data))
  }

  /**
   * For a body of which `reading` was read, whether to its end or until an error: the chunks spell
   * the body exactly if every line read is passed on as it is, and the body is what was read with
   * invalid bytes replaced and the last line ended.
   */
  lemma UnchangedIff(reading: Reading, body: seq<Byte>)
    requires reading.data <= body
    ensures Concat(Response(reading)) == body <==> Intact(reading, body)
  {
    var more := body[|reading.data|..];
    assert body == reading.data + more;
    JoinSplit(reading.data, NEWLINE);
    PiecesUnchangedIff(Split(reading.data, NEWLINE), reading.eager, more);
  }

  /** Read to its end, a body is passed on byte for byte exactly if it is valid UTF-8 in such lines, each ended. */
  lemma WholeReadIff(reading: Reading)
    ensures Concat(Response(reading)) == reading.data
            <==> && Lined(Split(reading.data, NEWLINE), reading.eager)
                 && IsUtf8(reading.data) && Ended(reading.data) == reading.data
  {
    UnchangedIff(reading, reading.data);
    CoerceIff(reading.data);
  }

  // Lines that are missing

  /** How many lines a text has: a last piece without newline is one unless it is empty. */
  function LineCount(s: seq<Byte>): nat { PieceCount(Split(s, NEWLINE)) }

  function PieceCount(pieces: seq<seq<Byte>>): nat
    requires |pieces| >= 1
  {
    if pieces[|pieces| - 1] == [] then |pieces| - 1 else |pieces|
  }

  predicate SomeTooLong(pieces: seq<seq<Byte>>, eager: bool) {
    exists i :: 0 <= i < |pieces| && !FitsScanner(pieces, i, eager)
  }

  lemma SomeTooLongCons(pieces: seq<seq<Byte>>, eager: bool)
    requires pieces != []
    ensures SomeTooLong(pieces, eager) <==> TooLong(pieces, eager) || SomeTooLong(pieces[1..], eager)
  {
    var rest := pieces[1..];
    FitsCons(pieces, eager);
    if i :| 0 <= i < |pieces| && !FitsScanner(pieces, i, eager) {
      if i > 0 { assert !FitsScanner(rest, i - 1, eager); }
    }
    if i :| 0 <= i < |rest| && !FitsScanner(rest, i, eager) { assert !FitsScanner(pieces, i + 1, eager); }
  }

  lemma {:induction false} ScanStopsIff(pieces: seq<seq<Byte>>, eager: bool)
    requires |pieces| >= 1
    ensures |Chunks(pieces, eager)| <= PieceCount(pieces)
    ensures |Chunks(pieces, eager)| < PieceCount(pieces) <==> SomeTooLong(pieces, eager)
  {
    SomeTooLongCons(pieces, eager);
    if !TooLong(pieces, eager) {
      if |pieces| > 1 {
        ScanStopsIff(pieces[1..], eager);
      } else {
        assert pieces == [pieces[0]] && !SomeTooLong(pieces[1..], eager);
      }
    } else {
      assert Chunks(pieces, eager) == [];
    }
  }

  /** A line of the text starts at or after position `k`. */
  ghost predicate LineStartsFrom(s: seq<Byte>, k: nat) { exists j :: k <= j && LineStartsAt(s, j) }

  predicate LineStartsAt(s: seq<Byte>, j: nat) { j < |s| && (j == 0 || s[j - 1] == NEWLINE) }

  /** A text of one line at most holds no newline but at its end. */
  lemma OneLineIff(s: seq<Byte>)
    ensures LineCount(s) == 0 <==> s == []
    ensures LineCount(s) <= 1 <==> s == [] || NEWLINE !in s[..|s| - 1]
  {
    match IndexOf(s, NEWLINE)
    case None =>
    case Some(i) =>
      var rest := s[i + 1..];
      assert Split(s, NEWLINE) == [s[..i]] + Split(rest, NEWLINE);
      JoinSplit(rest, NEWLINE);
      assert rest != [] ==> s[..|s| - 1][i] == NEWLINE;
      assert LineCount(rest) == 0 ==> Split(rest, NEWLINE) == [[]];
  }

  /** What a text gains in lines, from where its last piece starts. */
  lemma LinesAppend(a: seq<Byte>, b: seq<Byte>)
    ensures var last := Rest(a, NEWLINE);
            LineCount(a + b) - LineCount(a) == LineCount(last + b) - (if last == [] then 0 else 1)
  {
    var p := Split(a, NEWLINE);
    SplitAppend(a, b, NEWLINE);
    CountGains(p, Split(a + b, NEWLINE), Split(p[|p| - 1] + b, NEWLINE));
  }

  lemma CountGains(p: seq<seq<Byte>>, all: seq<seq<Byte>>, tail: seq<seq<Byte>>)
    requires |p| >= 1 && |tail| >= 1 && all == p[..|p| - 1] + tail
    ensures PieceCount(all) - PieceCount(p) == PieceCount(tail) - (if p[|p| - 1] == [] then 0 else 1)
  {
  }

  lemma MoreLinesIff(data: seq<Byte>, body: seq<Byte>)
    requires data <= body
    ensures LineCount(data) <= LineCount(body)
    ensures LineCount(data) < LineCount(body) <==> LineStartsFrom(body, |data|)
  {
    var more, last := body[|data|..], Rest(data, NEWLINE);
    assert body == data + more;
    LinesAppend(data, more);
    OneLineIff(last + more);
    RestEnds(data);
    var tail := last + more;
    if last == [] {
      assert tail == more;
      assert more != [] ==> LineStartsAt(body, |data|);
    } else {
      NewlineInside(data, last, more);
    }
  }

  lemma RestEnds(data: seq<Byte>)
    ensures EndsIn(data, Rest(data, NEWLINE)) && NEWLINE !in Rest(data, NEWLINE)
  {
    var pieces := Split(data, NEWLINE);
    JoinSplit(data, NEWLINE);
    JoinEnds(pieces);
    assert Rest(data, NEWLINE) == pieces[|pieces| - 1];
  }

  /** What is left of a text after its last newline. */
  predicate EndsIn(s: seq<Byte>, last: seq<Byte>) {
    |last| <= |s| && s[|s| - |last|..] == last && (last == [] && s != [] ==> s[|s| - 1] == NEWLINE)
  }

  lemma {:induction false} JoinEnds(pieces: seq<seq<Byte>>)
    requires |pieces| >= 1
    ensures EndsIn(Join(pieces, NEWLINE), pieces[|pieces| - 1])
  {
    if |pieces| > 1 { JoinEnds(pieces[1..]); }
  }

  /** Inside an unfinished line, a further line starts exactly after a newline that is not the last byte. */
  lemma NewlineInside(data: seq<Byte>, last: seq<Byte>, more: seq<Byte>)
    requires last != [] && EndsIn(data, last) && NEWLINE !in last
    ensures var tail := last + more;
            LineStartsFrom(data + more, |data|) <==> NEWLINE in tail[..|tail| - 1]
  {
    var body, tail, k := data + more, last + more, |data| - |last|;
    assert forall i :: 0 <= i < |tail| ==> tail[i] == body[k + i] by {
      assert forall i :: 0 <= i < |last| ==> last[i] == data[k + i];
    }
    assert forall m :: 0 <= m < |last| ==> tail[m] == last[m] && last[m] != NEWLINE;
    if LineStartsFrom(body, |data|) {
      var j :| |data| <= j && LineStartsAt(body, j);
      assert tail[..|tail| - 1][j - 1 - k] == NEWLINE;
    }
    if NEWLINE in tail[..|tail| - 1] {
      var i :| 0 <= i < |tail| - 1 && tail[i] == NEWLINE;
      assert LineStartsAt(body, k + i + 1);
    }
  }

  /**
   * The response ends as done with lines of the body missing exactly if a line that was read is too
   * long for the scanner, or a line of the body starts where the reading had already failed.
   */
  lemma TruncatedIff(reading: Reading, body: seq<Byte>)
    requires reading.data <= body
    ensures |Response(reading)| <= LineCount(body)
    ensures |Response(reading)| < LineCount(body)
            <==> SomeTooLong(Split(reading.data, NEWLINE), reading.eager) || LineStartsFrom(body, |reading.data|)
  {
    ScanStopsIff(Split(reading.data, NEWLINE), reading.eager);
    MoreLinesIff(reading.data, body);
  }

  // What is sent for the lines that are not passed on

  /** A body of these lines, each ended by a newline, some with a carriage return before it. */
  function BodyOf(lines: seq<seq<Byte>>, crs: seq<bool>): seq<Byte>
    requires |lines| == |crs|
  {
    if lines == [] then []
    else lines[0] + (if crs[0] then [13, 10] else [10]) + BodyOf(lines[1..], crs[1..])
  }

  /** Neither a newline in it nor a carriage return at its end, and short enough for either ending. */
  predicate IsLine(line: seq<Byte>) { 10 !in line && |line| < 65535 && (line == [] || line[|line| - 1] != 13) }

  /** What the caller is sent for a line: a blank one is empty, and what is not UTF-8 is replaced. */
  function SentFor(line: seq<Byte>): Payload { if TrimSpace(line) == [] then [10] else Coerce(line) + [10] }

  function AllSent(lines: seq<seq<Byte>>): (r: seq<Payload>)
    ensures |r| == |lines| && forall i :: 0 <= i < |r| ==> r[i] == SentFor(lines[i])
  {
    if lines == [] then [] else [SentFor(lines[0])] + AllSent(lines[1..])
  }

  lemma WireOf(line: seq<Byte>, cr: bool)
    requires IsLine(line)
    ensures Wire(if cr then line + [13] else line) == SentFor(line)
  {
    var piece := if cr then line + [13] else line;
    assert DropReturn(piece) == line;
    WireLine(piece);
    assert Coerce([]) == [] && [] + [NEWLINE] == [10];
  }

  lemma FirstPiece(line: seq<Byte>, cr: bool, rest: seq<Byte>)
    requires IsLine(line)
    ensures Split(line + (if cr then [13, 10] else [10]) + rest, NEWLINE)
         == [if cr then line + [13] else line] + Split(rest, NEWLINE)
  {
    if cr {
      SplitFirst(line + [13], NEWLINE, rest);
      assert line + [13] + [NEWLINE] == line + [13, 10];
    } else {
      SplitFirst(line, NEWLINE, rest);
    }
  }

  lemma ChunksOfTwo(piece: seq<Byte>, rest: seq<seq<Byte>>, eager: bool)
    requires |piece| < 65536 && rest != []
    ensures Chunks([piece] + rest, eager) == [Wire(piece)] + Chunks(rest, eager)
  {
    assert ([piece] + rest)[1..] == rest;
  }

  /** Whatever the lines of a body are, and however each is ended, the caller is sent all of them, one by one. */
  lemma {:induction false} LinesAreSent(lines: seq<seq<Byte>>, crs: seq<bool>, eager: bool)
    requires |lines| == |crs| && forall i :: 0 <= i < |lines| ==> IsLine(lines[i])
    ensures Response(Reading(BodyOf(lines, crs), eager)) == AllSent(lines)
  {
    if lines != [] {
      var rest := BodyOf(lines[1..], crs[1..]);
      LinesAreSent(lines[1..], crs[1..], eager);
      FirstPiece(lines[0], crs[0], rest);
      WireOf(lines[0], crs[0]);
      var piece := if crs[0] then lines[0] + [13] else lines[0];
      ChunksOfTwo(piece, Split(rest, NEWLINE), eager);
    }
  }

  // Errors

  /** An error says why: the model, the body, the connection, or the server's status and what it said. */
  lemma ErrorsTell(available: set<string>, model: string, body: Body, upstream: Upstream)
    ensures var why := Refusal(available, model, body, upstream);
            && (why.None? <==>
                  (model in available
                   && (body.NullJson? || (body.Object? && upstream.Answer? && upstream.status == 200))))
            && (model !in available ==> why == Some("model \"" + model + "\" not available locally"))
            && (model in available && body.BadEncoding? ==> why == Some("invalid body encoding"))
            && (model in available && body.BadJson? ==> why == Some("invalid JSON body"))
            && (model in available && body.Object? && upstream.Unreachable? ==>
                  why == Some("ollama error: " + upstream.reason))
            && (model in available && body.Object? && upstream.Answer? && upstream.status != 200 ==>
                  exists digits :: Decimal.IsNumeral(digits) && Decimal.Value(digits) == upstream.status
                                   && why == Some("ollama " + digits + ": " + upstream.text))
  {
    if upstream.Answer? { Decimal.PrintValue(upstream.status); }
  }

  // Two bodies the caller does not get

  /** A byte that is no rune, on a line of its own, read to the end. */
  lemma InvalidByteIsReplaced(eager: bool)
    ensures Concat(Response(Reading([0xFF, NEWLINE], eager))) != [0xFF, NEWLINE]
  {
    WholeReadIff(Reading([0xFF, NEWLINE], eager));
    assert Invalid([0xFF, NEWLINE]);
  }

  /** Two short lines, of which the second could not be read: the response still ends as done. */
  lemma FailedReadTruncates(eager: bool)
    ensures |Response(Reading([97, NEWLINE], eager))| < LineCount([97, NEWLINE, 98, NEWLINE])
  {
    var body := [97, NEWLINE, 98, NEWLINE];
    assert [97, NEWLINE] == body[..2] && LineStartsAt(body, 2);
    TruncatedIff(Reading([97, NEWLINE], eager), body);
  }

  // Agent and relay together

  lemma {:induction false} FramedTexts(chunks: seq<Payload>)
    ensures Texts(Framed(chunks)) == chunks
  {
    if chunks != [] {
      var front := chunks[..|chunks| - 1];
      FramedTexts(front);
      assert Framed(chunks)[..|chunks| - 1] == Framed(front);
    }
  }

  lemma BodyArrives(written: seq<Payload>, sent: seq<Kind>, reading: Reading, body: seq<Byte>)
    requires reading.data <= body && sent == Framed(Response(reading)) + [Finish] && written == Texts(sent)
    ensures Concat(written) == body <==> Intact(reading, body)
  {
    FramedTexts(Response(reading));
    TextsSnoc(Framed(Response(reading)), Finish);
    UnchangedIff(reading, body);
  }

  /**
   * End to end: when Forward takes the done signal with its queue empty, nothing lost and nothing spoilt, the
   * caller has been sent the model server's body byte for byte exactly if it is intact.
   */
  lemma EndToEnd(steps: seq<Step>, w: World, id: Id, reading: Reading, body: seq<Byte>)
    requires Obedient(steps) && w == Exec(START, steps)
    requires In(w, id, Selecting) && w.requests[id].channels.closed
    requires reading.data <= body && Past(w.sent, id) == Framed(Response(reading)) + [Finish]
    requires w.requests[id].channels.chunks == [] && w.requests[id].channels.lost == 0
    requires Past(w.arrived, id) == Past(w.sent, id)
    ensures Concat(Written(SelectDone(w, id).requests[id].out)) == body <==> Intact(reading, body)
  {
    RelayPromises.CompleteIff(steps, w, id);
    BodyArrives(Written(SelectDone(w, id).requests[id].out), Past(w.sent, id), reading, body);
  }

  lemma {:induction false} WrittenHanded(texts: seq<Payload>)
    ensures Written(RelayProgress.Handed(texts)) == texts
    ensures Written(RelayProgress.Handed(texts) + [DoneMarker]) == texts
  {
    WrittenSnoc(RelayProgress.Handed(texts), DoneMarker);
    if texts != [] {
      var front, last := texts[..|texts| - 1], texts[|texts| - 1];
      WrittenHanded(front);
      WrittenSnoc(RelayProgress.Handed(front), Data(last));
      assert RelayProgress.Handed(front) + [Data(last)] == RelayProgress.Handed(texts);
    }
  }

  /**
   * A run in which the caller is sent the end marker, and before it the model server's body byte for byte
   * exactly if it is intact.
   */
  lemma SomeRunDelivers(reading: Reading, body: seq<Byte>) returns (steps: seq<Step>)
    requires reading.data <= body
    ensures Obedient(steps) && 0 in Exec(START, steps).requests
    ensures var out := Exec(START, steps).requests[0].out;
            && out != [] && out[|out| - 1] == DoneMarker && (Concat(Written(out)) == body <==> Intact(reading, body))
  {
    var script := Framed(Response(reading)) + [Finish];
    steps := RelayProgress.EveryoneIsServed([script]);
    assert [script][0] == script;
    FramedTexts(Response(reading));
    TextsSnoc(Framed(Response(reading)), Finish);
    WrittenHanded(Response(reading));
    UnchangedIff(reading, body);
  }
}
