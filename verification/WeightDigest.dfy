/** The catalog client's weight check: a digest streamed over reads of any size. */
module WeightDigest {
  import opened Bytes

  const GIB: nat := 1024 * 1024 * 1024

  /** How a read ended: more to come, end of the object, or an error; it may carry data in each case. */
  datatype End = More | Eof | Broken

  datatype Read = Read(data: seq<Byte>, end: End)

  /** The reads up to and including the first that is not followed by another. */
  function Consumed(stream: seq<Read>): seq<Read> {
    if stream == [] then []
    else if stream[0].end != More then [stream[0]]
    else [stream[0]] + Consumed(stream[1..])
  }

  function Content(stream: seq<Read>): seq<Byte> {
    if stream == [] then [] else Content(stream[..|stream| - 1]) + stream[|stream| - 1].data
  }

  function LastOf(reports: seq<nat>): nat { if reports == [] then 0 else reports[|reports| - 1] }

  /** At least a gigabyte is read before the first report and between two reports. */
  predicate Spaced(reports: seq<nat>) {
    && (reports != [] ==> reports[0] >= 0x4000_0000)
    && forall i :: 0 < i < |reports| ==> reports[i - 1] + 0x4000_0000 <= reports[i]
  }

  /** Progress logging: at most one report per read. */
  method LogProgress(bytesRead: nat, lastLogAt: nat, reports: seq<nat>) returns (last: nat, all: seq<nat>)
    requires Spaced(reports) && lastLogAt == LastOf(reports) && lastLogAt <= bytesRead
    ensures Spaced(all) && last == LastOf(all) && last <= bytesRead < last + GIB
    ensures all == if bytesRead - lastLogAt >= GIB then reports + [bytesRead] else reports
  {
    last, all := lastLogAt, reports;
    if bytesRead - lastLogAt >= GIB {
      all := reports + [bytesRead];
      last := bytesRead;
    }
  }

  /** A digest computed incrementally: what was written determines it. */
  class Hash {
    const digest: seq<Byte> -> string
    var written: seq<Byte>

    constructor (sha: seq<Byte> -> string)
      ensures digest == sha && written == []
    {
      digest, written := sha, [];
    }

    method Write(data: seq<Byte>)
      modifies this
      ensures written == old(written) + data
    {
      written := written + data;
    }

    method Sum() returns (hex: string)
      ensures hex == digest(written)
    {
      hex := digest(written);
    }
  }

  /**
   * The check passes exactly when the object was read to its end and the digest of its whole
   * content is the expected one, however the content was cut. Reports come at least a gigabyte
   * apart, and less than a gigabyte is read after the last one.
   */
  method VerifyWeights(readable: bool, stream: seq<Read>, expected: string, sha: seq<Byte> -> string)
    returns (ok: bool, reports: seq<nat>)
    requires exists k :: 0 <= k < |stream| && stream[k].end != More
    ensures ok <==> readable && Ended(stream) && sha(Content(Consumed(stream))) == expected
    ensures Spaced(reports)
    ensures readable && Ended(stream) ==> |Content(Consumed(stream))| < LastOf(reports) + GIB
  {
    reports := [];
    if !readable {
      return false, reports;
    }
    var hash := new Hash(sha);
    var bytesRead, lastLogAt := 0, 0;
    var i, end := 0, More;
    ghost var stop := Stop(stream);
    while end == More
      invariant 0 <= i <= stop + 1 && hash.digest == sha
      invariant end == if i == 0 then More else stream[i - 1].end
      invariant hash.written == Content(stream[..i]) && bytesRead == |hash.written|
      invariant Spaced(reports) && lastLogAt == LastOf(reports) && lastLogAt <= bytesRead < lastLogAt + GIB
      decreases stop + 1 - i
    {
      ContentStep(stream, i);
      if |stream[i].data| > 0 {
        hash.Write(stream[i].data);
        bytesRead := bytesRead + |stream[i].data|;
        lastLogAt, reports := LogProgress(bytesRead, lastLogAt, reports);
      }
      end := stream[i].end;
      i := i + 1;
    }
    assert i == stop + 1;
    if end != Eof {
      return false, reports;
    }
    var computed := hash.Sum();
    ok := computed == expected;
  }

  lemma ContentStep(stream: seq<Read>, i: nat)
    requires i < |stream|
    ensures Content(stream[..i + 1]) == Content(stream[..i]) + stream[i].data
    ensures stream[i].data == [] ==> Content(stream[..i + 1]) == Content(stream[..i])
  {
    assert stream[..i + 1][..i] == stream[..i];
  }

  /** The index of the read that ends the stream. */
  ghost function Stop(stream: seq<Read>): (k: nat)
    requires exists k :: 0 <= k < |stream| && stream[k].end != More
    ensures k < |stream| && stream[k].end != More && forall j :: 0 <= j < k ==> stream[j].end == More
    ensures Consumed(stream) == stream[..k + 1]
  {
    if stream[0].end != More then 0
    else
      assert exists k :: 0 <= k < |stream[1..]| && stream[1..][k].end != More by {
        var k :| 0 <= k < |stream| && stream[k].end != More;
        assert stream[1..][k - 1] == stream[k];
      }
      1 + Stop(stream[1..])
  }

  /** The stream's last read reported its end rather than an error. */
  ghost predicate Ended(stream: seq<Read>)
    requires exists k :: 0 <= k < |stream| && stream[k].end != More
  {
    stream[Stop(stream)].end == Eof
  }

  /** An object that arrives whole, in these pieces. */
  function Streamed(pieces: seq<seq<Byte>>): seq<Read> {
    seq(|pieces|, i requires 0 <= i < |pieces| => Read(pieces[i], if i == |pieces| - 1 then Eof else More))
  }

  lemma {:induction false} ContentIs(stream: seq<Read>, pieces: seq<seq<Byte>>)
    requires |stream| == |pieces| && forall i :: 0 <= i < |stream| ==> stream[i].data == pieces[i]
    ensures Content(stream) == Concat(pieces)
  {
    if stream != [] { ContentIs(stream[..|stream| - 1], pieces[..|pieces| - 1]); }
  }

  /** However an object is cut, what is digested is the object, and its end is seen. */
  lemma WholeObjectIsRead(pieces: seq<seq<Byte>>)
    requires pieces != []
    ensures var stream := Streamed(pieces);
            && stream[|pieces| - 1].end != More && Ended(stream)
            && Content(Consumed(stream)) == Concat(pieces)
  {
    var stream, n := Streamed(pieces), |pieces| - 1;
    assert stream[n].end == Eof && Stop(stream) == n;
    assert stream[..n + 1] == stream;
    ContentIs(stream, pieces);
  }
}
