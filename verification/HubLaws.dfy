/** What the read loop leaves in each request's channels. */
module HubLaws {
  import opened Wrappers
  import opened Relay
  import opened Hub

  function Frames(messages: seq<Message>): seq<Frame> {
    if messages == [] then []
    else (if messages[0].Response? then [messages[0].frame] else []) + Frames(messages[1..])
  }

  function OfferAll(c: Channels, kinds: seq<Kind>): Channels
    decreases |kinds|
  {
    if kinds == [] then c else OfferAll(Offer(c, kinds[0]).0, kinds[1..])
  }

  /** Each request's channels depend on its own frames alone, in order; other ids add nothing. */
  lemma {:induction false} ReplayById(s: State, messages: seq<Message>, id: Id)
    requires id in s.table && !Replay(s, messages).panicked
    ensures id in Replay(s, messages).table
    ensures Replay(s, messages).table[id] == OfferAll(s.table[id], Only(Frames(messages), id))
    decreases |messages|
  {
    if messages != [] {
      var rest := messages[1..];
      ReplayById(After(s, messages[0]), rest, id);
      if messages[0].Response? {
        assert Frames(messages) == [messages[0].frame] + Frames(rest);
        OnlyCons(messages[0].frame, Frames(rest), id);
      } else {
        assert Frames(messages) == Frames(rest);
      }
    }
  }

  lemma OnlyCons(f: Frame, frames: seq<Frame>, id: Id)
    ensures Only([f] + frames, id) == (if f.id == id then [f.kind] else []) + Only(frames, id)
    ensures if f.id == id then Only([f] + frames, id)[1..] == Only(frames, id)
            else Only([f] + frames, id) == Only(frames, id)
  {
    assert ([f] + frames)[1..] == frames;
  }

  lemma {:induction false} OfferAllSnoc(c: Channels, kinds: seq<Kind>, k: Kind)
    ensures OfferAll(c, kinds + [k]) == Offer(OfferAll(c, kinds), k).0
    decreases |kinds|
  {
    if kinds == [] {
      assert kinds + [k] == [k];
    } else {
      assert (kinds + [k])[1..] == kinds[1..] + [k];
      OfferAllSnoc(Offer(c, kinds[0]).0, kinds[1..], k);
    }
  }

  /** The message of the first error among some frames. */
  function FirstError(kinds: seq<Kind>): Option<string> {
    if kinds == [] then None
    else
      var before := FirstError(kinds[..|kinds| - 1]);
      if before.None? && kinds[|kinds| - 1].Fail? then Some(kinds[|kinds| - 1].message) else before
  }

  function Shorter(a: nat, b: nat): nat { if a < b then a else b }

  /**
   * While nobody drains it, a new request's queue holds the first 256 chunks and the rest are
   * lost; its error slot holds the first error; it is done exactly if a done frame came.
   */
  lemma {:induction false} QueueKeepsFirst(kinds: seq<Kind>)
    ensures var c, texts := OfferAll(EMPTY, kinds), Texts(kinds);
            && c.chunks == texts[..Shorter(256, |texts|)]
            && c.lost == |texts| - Shorter(256, |texts|)
            && c.err == FirstError(kinds)
            && (c.closed <==> Finish in kinds)
  {
    if kinds != [] {
      var front, k := kinds[..|kinds| - 1], kinds[|kinds| - 1];
      QueueKeepsFirst(front);
      assert kinds == front + [k];
      OfferAllSnoc(EMPTY, front, k);
      assert Finish in kinds <==> Finish in front || k == Finish;
    }
  }

  /** The peer's models are those of its last hello. */
  lemma {:induction false} LastHelloCounts(s: State, messages: seq<Message>, k: int)
    requires -1 <= k < |messages| && (k >= 0 ==> messages[k].Hello?) && !Replay(s, messages).panicked
    requires forall j :: k < j < |messages| ==> !messages[j].Hello?
    ensures Replay(s, messages).models == if k >= 0 then messages[k].models else s.models
    decreases |messages|
  {
    if messages != [] {
      LastHelloCounts(After(s, messages[0]), messages[1..], if k >= 0 then k - 1 else -1);
    }
  }
}
