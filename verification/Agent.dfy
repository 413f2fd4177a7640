/** The agent's handler for one request: the frames it sends, and what is left of the model's response. */
module Agent {
  import opened Wrappers
  import Decimal
  import opened Text
  import opened Bytes
  import opened Relay
  import opened Utf8

  /** What decoding a request frame's body gives; JSON null decodes into a nil map. */
  datatype Body = BadEncoding | BadJson | NullJson | Object

  /**
   * The bytes of a response body read before its end or an error, which the scanner treats alike,
   * and whether the reader reported that together with the last of them.
   */
  datatype Reading = Reading(data: seq<Byte>, eager: bool)

  /** The model server's reply; `text` is what could be read of it, trimmed, as an error quotes it. */
  datatype Upstream = Unreachable(reason: string) | Answer(status: nat, reading: Reading, text: string)

  const NEWLINE: Byte := 10
  const RETURN: Byte := 13

  /** bufio.MaxScanTokenSize. */
  const LIMIT: nat := 0x10000

  /**
   * Whether the first of the pieces ends the scan: with its newline it does not fit the buffer. A
   * last one that fills the buffer is a line only if the reader has reported the end by then.
   */
  predicate TooLong(pieces: seq<seq<Byte>>, eager: bool)
    requires pieces != []
  {
    |pieces[0]| > LIMIT || (|pieces[0]| == LIMIT && !(|pieces| == 1 && eager))
  }

  function DropReturn(line: seq<Byte>): seq<Byte> {
    if line != [] && line[|line| - 1] == RETURN then line[..|line| - 1] else line
  }

  /** What is kept of a line: nothing of a blank one. */
  function Kept(line: seq<Byte>): seq<Byte> {
    var text := DropReturn(line);
    if TrimSpace(text) == [] then [] else text
  }

  /** The chunk sent for a line, as it is after the frame's JSON. */
  function Wire(line: seq<Byte>): Payload { Coerce(Kept(line) + [NEWLINE]) }

  /** The chunks sent for what was read, cut at its newlines; an empty last piece is no line. */
  function Chunks(pieces: seq<seq<Byte>>, eager: bool): seq<Payload> {
    if pieces == [] || pieces == [[]] || TooLong(pieces, eager) then []
    else [Wire(pieces[0])] + Chunks(pieces[1..], eager)
  }

  function Response(reading: Reading): seq<Payload> { Chunks(Split(reading.data, NEWLINE), reading.eager) }

  function Framed(chunks: seq<Payload>): (r: seq<Kind>)
    ensures |r| == |chunks| && forall i :: 0 <= i < |r| ==> r[i] == Chunk(chunks[i])
  {
    seq(|chunks|, i requires 0 <= i < |chunks| => Chunk(chunks[i]))
  }

  lemma FramedCons(first: Payload, rest: seq<Payload>)
    ensures Framed([first] + rest) == [Chunk(first)] + Framed(rest)
  {
  }

  /** The scanner has another line at piece `i`. */
  predicate Scans(pieces: seq<seq<Byte>>, i: nat, eager: bool) {
    i < |pieces| && !(i == |pieces| - 1 && pieces[i] == []) && !TooLong(pieces[i..], eager)
  }

  lemma ScanGoesOn(pieces: seq<seq<Byte>>, i: nat, eager: bool, sent: seq<Kind>)
    requires Scans(pieces, i, eager)
    ensures sent + Framed(Chunks(pieces[i..], eager))
         == sent + [Chunk(Wire(pieces[i]))] + Framed(Chunks(pieces[i + 1..], eager))
  {
    assert pieces[i..][1..] == pieces[i + 1..];
    FramedCons(Wire(pieces[i]), Chunks(pieces[i + 1..], eager));
    Associates(sent, [Chunk(Wire(pieces[i]))], Framed(Chunks(pieces[i + 1..], eager)));
  }

  lemma ScanEnds(pieces: seq<seq<Byte>>, i: nat, eager: bool, sent: seq<Kind>)
    requires i <= |pieces| && !Scans(pieces, i, eager)
    ensures sent + Framed(Chunks(pieces[i..], eager)) == sent
  {
    assert Chunks(pieces[i..], eager) == [] && Framed([]) == [];
  }

  /** What is sent for one line. */
  method LineChunk(piece: seq<Byte>) returns (data: Payload)
    ensures data == Wire(piece)
  {
    var line := DropReturn(piece);
    if TrimSpace(line) == [] {
      assert [] + [NEWLINE] == [NEWLINE];
      data := Coerce([NEWLINE]);
    } else {
      data := Coerce(line + [NEWLINE]);
    }
  }

  /** The scanner loop. */
  method SendLines(pieces: seq<seq<Byte>>, eager: bool) returns (sent: seq<Kind>)
    ensures sent == Framed(Chunks(pieces, eager))
  {
    sent := [];
    var i := 0;
    assert pieces[0..] == pieces;
    while Scans(pieces, i, eager)
      invariant i <= |pieces|
      invariant sent + Framed(Chunks(pieces[i..], eager)) == Framed(Chunks(pieces, eager))
      decreases |pieces| - i
    {
      ScanGoesOn(pieces, i, eager, sent);
      var data := LineChunk(pieces[i]);
      sent := sent + [Chunk(data)];
      i := i + 1;
    }
    ScanEnds(pieces, i, eager, sent);
  }

  /** Why a request is answered with an error, if it is. */
  function Refusal(available: set<string>, model: string, body: Body, upstream: Upstream): Option<string> {
    if model !in available then Some("model \"" + model + "\" not available locally")
    else match body
      case BadEncoding => Some("invalid body encoding")
      case BadJson => Some("invalid JSON body")
      case NullJson => None
      case Object =>
        if upstream.Unreachable? then Some("ollama error: " + upstream.reason)
        else if upstream.status != 200 then Some("ollama " + Decimal.Print(upstream.status) + ": " + upstream.text)
        else None
  }

  /**
   * One run of the handler: the response's chunks and one done, or one error. It panics, before
   * anything is sent, exactly on a JSON null body for a model it has.
   */
  method HandleRequest(available: set<string>, model: string, body: Body, upstream: Upstream)
    returns (sent: seq<Kind>, panicked: bool)
    ensures panicked <==> model in available && body.NullJson?
    ensures IsScript(sent) <==> !panicked
    ensures sent == match Refusal(available, model, body, upstream)
                    case Some(message) => [Fail(message)]
                    case None => if panicked then [] else Framed(Response(upstream.reading)) + [Finish]
  {
    if model !in available {
      return [Fail("model \"" + model + "\" not available locally")], false;
    }
    if body.BadEncoding? { return [Fail("invalid body encoding")], false; }
    if body.BadJson? { return [Fail("invalid JSON body")], false; }
    if body.NullJson? { return [], true; }
    if upstream.Unreachable? { return [Fail("ollama error: " + upstream.reason)], false; }
    if upstream.status != 200 {
      return [Fail("ollama " + Decimal.Print(upstream.status) + ": " + upstream.text)], false;
    }
    sent := SendLines(Split(upstream.reading.data, NEWLINE), upstream.reading.eager);
    sent, panicked := sent + [Finish], false;
  }
}
