/**
 * The gateway's streaming loop: copy the upstream body to the client read by read, and sniff the
 * token usage from its server-sent-event lines, which the network may cut anywhere.
 */
module SseSniffer {
  import opened Wrappers
  import opened Text
  import opened Bytes

  datatype Usage = Usage(prompt: int, completion: int)

  /** The JSON library on one event: the usage object, if the event decodes and has one. */
  type Decoder = seq<Byte> -> Option<Usage>

  const NEWLINE: Byte := 10
  const DATA: seq<Byte> := Ascii("data: ")
  const DONE: seq<Byte> := Ascii("[DONE]")

  function UsageOf(line: seq<Byte>, json: Decoder): Option<Usage> {
    if DATA <= line then
      var data := TrimSpace(line[|DATA|..]);
      if data != DONE && data != [] then json(data) else None
    else None
  }

  /** The usage of the last line that carries one; nothing seen counts as zero. */
  function LastUsage(lines: seq<seq<Byte>>, json: Decoder): Usage {
    if lines == [] then Usage(0, 0)
    else match UsageOf(lines[|lines| - 1], json)
      case Some(usage) => usage
      case None => LastUsage(lines[..|lines| - 1], json)
  }

  /** The lines of a body that end in a newline; a line may not contain one. */
  function Lines(body: seq<Byte>): seq<seq<Byte>> { Whole(body, NEWLINE) }

  /** Go's int32 conversion of an int. */
  function ToInt32(n: int): (r: int)
    ensures -0x8000_0000 <= r < 0x8000_0000 && (r - n) % 0x1_0000_0000 == 0
  {
    var low := n % 0x1_0000_0000;
    if low < 0x8000_0000 then low else low - 0x1_0000_0000
  }

  // What the counts mean, spelt out

  const EVENT: seq<Byte> := [100, 97, 116, 97, 58, 32]  // "data: "
  const MARKER: seq<Byte> := [91, 68, 79, 78, 69, 93]   // "[DONE]"

  /** The line is an event that decodes with this usage: neither blank nor the end marker. */
  predicate Tells(line: seq<Byte>, usage: Usage, json: Decoder) {
    && |line| >= 6 && line[..6] == EVENT
    && var text := TrimSpace(line[6..]); text != [] && text != MARKER && json(text) == Some(usage)
  }

  ghost predicate Silent(line: seq<Byte>, json: Decoder) { forall usage :: !Tells(line, usage, json) }

  lemma UsageIff(line: seq<Byte>, json: Decoder, usage: Usage)
    ensures UsageOf(line, json) == Some(usage) <==> Tells(line, usage, json)
    ensures UsageOf(line, json).None? <==> Silent(line, json)
  {
    assert DATA == EVENT && DONE == MARKER;
    assert DATA <= line <==> |line| >= 6 && line[..6] == EVENT;
    if UsageOf(line, json).Some? { assert Tells(line, UsageOf(line, json).value, json); }
  }

  /** The counts are those of the last line that tells any. */
  lemma {:induction false} LastUsageIs(lines: seq<seq<Byte>>, json: Decoder, k: nat, usage: Usage)
    requires k < |lines| && Tells(lines[k], usage, json)
    requires forall j :: k < j < |lines| ==> Silent(lines[j], json)
    ensures LastUsage(lines, json) == usage
  {
    UsageIff(lines[|lines| - 1], json, usage);
    if k < |lines| - 1 { LastUsageIs(lines[..|lines| - 1], json, k, usage); }
  }

  lemma {:induction false} LastUsageNone(lines: seq<seq<Byte>>, json: Decoder)
    requires forall j :: 0 <= j < |lines| ==> Silent(lines[j], json)
    ensures LastUsage(lines, json) == Usage(0, 0)
  {
    if lines != [] {
      UsageIff(lines[|lines| - 1], json, Usage(0, 0));
      LastUsageNone(lines[..|lines| - 1], json);
    }
  }

  /** What a line without counts looks like. */
  lemma SilentIff(line: seq<Byte>, json: Decoder)
    ensures Silent(line, json) <==>
              || |line| < 6 || line[..6] != EVENT || TrimSpace(line[6..]) == [] || TrimSpace(line[6..]) == MARKER
              || json(TrimSpace(line[6..])).None?
  {
    if |line| >= 6 && json(TrimSpace(line[6..])).Some? {
      assert Silent(line, json) ==> !Tells(line, json(TrimSpace(line[6..])).value, json);
    }
  }

  lemma FirstLine(line: seq<Byte>, after: seq<Byte>)
    requires 10 !in line
    ensures Lines(line + [NEWLINE] + after) == [line] + Lines(after)
  {
    SplitFirst(line, NEWLINE, after);
  }

  lemma LinesAfter(before: seq<Byte>, rest: seq<Byte>)
    requires before == [] || before[|before| - 1] == 10
    ensures Lines(before + rest) == Lines(before) + Lines(rest)
  {
    EndsWithNewline(before);
    ReadCompletes(before, rest);
    assert [] + rest == rest;
  }

  /** A text of whole lines, one more line, and a rest. */
  lemma LinesAround(before: seq<Byte>, line: seq<Byte>, after: seq<Byte>)
    requires (before == [] || before[|before| - 1] == 10) && 10 !in line
    ensures Lines(before + line + [10] + after) == Lines(before) + [line] + Lines(after)
  {
    LinesAfter(before, line + [NEWLINE] + after);
    FirstLine(line, after);
    assert before + line + [10] + after == before + (line + [NEWLINE] + after);
    Associates(Lines(before), [line], Lines(after));
  }

  /** In a body whose last telling line is `line`, wherever that stands, the usage is the line's. */
  lemma BodyTells(before: seq<Byte>, line: seq<Byte>, after: seq<Byte>, usage: Usage, json: Decoder)
    requires (before == [] || before[|before| - 1] == 10) && 10 !in line && Tells(line, usage, json)
    requires forall j :: 0 <= j < |Lines(after)| ==> Silent(Lines(after)[j], json)
    ensures LastUsage(Lines(before + line + [10] + after), json) == usage
  {
    LinesAround(before, line, after);
    LastUsageIs(Lines(before) + [line] + Lines(after), json, |Lines(before)|, usage);
  }

  /** What a read adds to the completed lines, and what it leaves over. */
  lemma ReadCompletes(body: seq<Byte>, read: seq<Byte>)
    ensures Lines(body + read) == Lines(body) + Lines(Rest(body, NEWLINE) + read)
    ensures Rest(body + read, NEWLINE) == Rest(Rest(body, NEWLINE) + read, NEWLINE)
  {
    WholeAppend(body, read, NEWLINE);
  }

  lemma EndsWithNewline(chunk: seq<Byte>)
    ensures Rest(chunk, NEWLINE) == [] <==> chunk == [] || chunk[|chunk| - 1] == NEWLINE
  {
    JoinSplit(chunk, NEWLINE);
    JoinEnd(Split(chunk, NEWLINE));
  }

  lemma {:induction false} JoinEnd(pieces: seq<seq<Byte>>)
    requires |pieces| >= 1 && NEWLINE !in pieces[|pieces| - 1]
    ensures var s, last := Join(pieces, NEWLINE), pieces[|pieces| - 1];
            last == [] <==> s == [] || s[|s| - 1] == NEWLINE
  {
    if |pieces| > 1 { JoinEnd(pieces[1..]); }
  }

  lemma LastUsageSnoc(lines: seq<seq<Byte>>, line: seq<Byte>, json: Decoder)
    ensures LastUsage(lines + [line], json)
         == match UsageOf(line, json) case Some(u) => u case None => LastUsage(lines, json)
  {
    assert (lines + [line])[..|lines|] == lines;
  }

  method SniffLine(line: seq<Byte>, usage: Usage, json: Decoder) returns (sniffed: Usage)
    ensures sniffed == match UsageOf(line, json) case Some(u) => u case None => usage
  {
    sniffed := usage;
    if DATA <= line {
      var data := TrimSpace(line[|DATA|..]);
      if data != DONE && data != [] {
        var parsed := json(data);
        if parsed.Some? {
          sniffed := parsed.value;
        }
      }
    }
  }

  lemma PrefixGrows(before: seq<seq<Byte>>, lines: seq<seq<Byte>>, i: nat, json: Decoder)
    requires i < |lines|
    ensures LastUsage(before + lines[..i + 1], json)
         == match UsageOf(lines[i], json) case Some(u) => u case None => LastUsage(before + lines[..i], json)
  {
    LastUsageSnoc(before + lines[..i], lines[i], json);
    TakeGrows(before, lines, i);
  }

  lemma EmptyLineAdds(before: seq<seq<Byte>>, whole: seq<seq<Byte>>, json: Decoder)
    ensures LastUsage(before + (whole + [[]]), json) == LastUsage(before + whole, json)
  {
    LastUsageSnoc(before + whole, [], json);
    Associates(before, whole, [[]]);
  }

  /** The inner loop over one read's lines; `before` are the lines completed earlier. */
  method Scan(chunk: seq<Byte>, usage: Usage, json: Decoder, ghost before: seq<seq<Byte>>)
    returns (leftover: seq<Byte>, sniffed: Usage)
    requires chunk != [] && usage == LastUsage(before, json)
    ensures leftover == Rest(chunk, NEWLINE)
    ensures sniffed == LastUsage(before + Lines(chunk), json)
  {
    sniffed := usage;
    var lines := Split(chunk, NEWLINE);
    assert before + lines[..0] == before;
    for i := 0 to |lines|
      invariant i == |lines| ==> chunk[|chunk| - 1] == NEWLINE
      invariant sniffed == LastUsage(before + lines[..i], json)
    {
      if i == |lines| - 1 && chunk[|chunk| - 1] != NEWLINE {
        return lines[i], sniffed;
      }
      PrefixGrows(before, lines, i, json);
      sniffed := SniffLine(lines[i], sniffed, json);
    }
    EndsWithNewline(chunk);
    assert lines[..|lines|] == Lines(chunk) + [[]];
    EmptyLineAdds(before, Lines(chunk), json);
    leftover := [];
  }

  /**
   * The read loop. `pieces` is what each Body.Read filled its buffer with, up to and including the
   * one that reported the end or an error. However the body is cut, the client gets the body and
   * the counts are those of the last newline-terminated line that carries a usage object.
   */
  method Forward(pieces: seq<seq<Byte>>, json: Decoder)
    returns (written: seq<seq<Byte>>, usage: Usage, recorded: Option<int>)
    ensures Concat(written) == Concat(pieces)
    ensures usage == LastUsage(Lines(Concat(pieces)), json)
    ensures recorded == var total := ToInt32(usage.prompt + usage.completion); if total > 0 then Some(total) else None
  {
    written := [];
    usage := Usage(0, 0);
    var leftover: seq<Byte> := [];
    for r := 0 to |pieces|
      invariant Concat(written) == Concat(pieces[..r])
      invariant leftover == Rest(Concat(pieces[..r]), NEWLINE)
      invariant usage == LastUsage(Lines(Concat(pieces[..r])), json)
    {
      var buf := pieces[r];
      ghost var body := Concat(pieces[..r]);
      assert pieces[..r + 1][..r] == pieces[..r];
      ReadCompletes(body, buf);
      if |buf| > 0 {
        leftover, usage := Scan(leftover + buf, usage, json, Lines(body));
        assert (written + [buf])[..|written|] == written;
        written := written + [buf];
      } else {
        assert body + buf == body;
      }
    }
    assert pieces[..|pieces|] == pieces;
    var total := ToInt32(usage.prompt + usage.completion);
    recorded := if total > 0 then Some(total) else None;
  }
}
