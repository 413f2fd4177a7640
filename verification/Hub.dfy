/**
 * The relay's objects: a request's channels, a peer's connection with its table of pending
 * requests and its read loop, and the hub that knows which connection serves a peer.
 */
module Hub {
  import opened Wrappers
  import opened Relay

  type Table = map<Id, Channels>

  const EMPTY := Channels([], false, None, 0)

  /** What the read loop is given. */
  datatype Message = Malformed | Hello(models: seq<string>) | Response(frame: Frame) | Other

  datatype State = State(table: Table, models: seq<string>, panicked: bool)

  function Dispatched(t: Table, f: Frame): (Table, bool) {
    if f.id in t then (t[f.id := Offer(t[f.id], f.kind).0], Offer(t[f.id], f.kind).1) else (t, false)
  }

  function After(s: State, m: Message): State {
    match m
    case Hello(models) => s.(models := models)
    case Response(f) => s.(table := Dispatched(s.table, f).0, panicked := Dispatched(s.table, f).1)
    case _ => s
  }

  /** The read loop while no request is added, removed or drained; a panic ends it. */
  function Replay(s: State, messages: seq<Message>): State
    decreases |messages|
  {
    if messages == [] || s.panicked then s else Replay(After(s, messages[0]), messages[1..])
  }

  class PendingReq {
    var chunks: seq<Payload>
    var done: bool
    var err: Option<string>
    ghost var lost: nat

    ghost function Value(): Channels reads this { Channels(chunks, done, err, lost) }

    constructor ()
      ensures Value() == EMPTY
    {
      chunks, done, err, lost := [], false, None, 0;
    }

    method Put(kind: Kind) returns (panics: bool)
      modifies this
      ensures (Value(), panics) == Offer(old(Value()), kind)
    {
      panics := false;
      match kind
      case Chunk(data) =>
        if |chunks| < QUEUE { chunks := chunks + [data]; } else { lost := lost + 1; }
      case Finish =>
        if done { panics := true; } else { done := true; }
      case Fail(message) =>
        if err.None? { err := Some(message); }
    }
  }

  class PeerConn {
    const peerID: string
    var models: seq<string>
    var open: bool
    var pending: map<Id, PendingReq>

    /** No two ids share a request. */
    ghost predicate Valid() reads this {
      forall i, j :: i in pending && j in pending && i != j ==> pending[i] != pending[j]
    }

    ghost function Contents(): Table reads this, pending.Values {
      map id | id in pending :: pending[id].Value()
    }

    constructor (peerID: string)
      ensures this.peerID == peerID && open && models == [] && Valid() && Contents() == map[]
    {
      this.peerID := peerID;
      models, open, pending := [], true, map[];
    }

    method Insert(id: Id) returns (pr: PendingReq)
      requires Valid() && id !in pending
      modifies this`pending
      ensures Valid() && fresh(pr)
      ensures pending == old(pending)[id := pr]
      ensures Contents() == old(Contents())[id := EMPTY]
    {
      pr := new PendingReq();
      pending := pending[id := pr];
    }

    method Remove(id: Id)
      requires Valid()
      modifies this`pending
      ensures Valid() && Contents() == old(Contents()) - {id}
    {
      pending := pending - {id};
    }

    method Dispatch(f: Frame) returns (panics: bool)
      requires Valid()
      modifies pending.Values
      ensures Valid() && (Contents(), panics) == Dispatched(old(Contents()), f)
    {
      if f.id in pending {
        panics := pending[f.id].Put(f.kind);
        assert Contents() == old(Contents())[f.id := Offer(old(Contents())[f.id], f.kind).0];
      } else {
        panics := false;
      }
    }

    /** ConnectPeer's loop, up to the read error that ends it. */
    method ReadLoop(messages: seq<Message>) returns (panicked: bool)
      requires Valid()
      modifies this`models, pending.Values
      ensures Valid() && pending == old(pending)
      ensures State(Contents(), models, panicked) == Replay(State(old(Contents()), old(models), false), messages)
    {
      panicked := false;
      var i := 0;
      while i < |messages| && !panicked
        invariant i <= |messages| && Valid() && pending == old(pending)
        invariant Replay(State(Contents(), models, panicked), messages[i..])
               == Replay(State(old(Contents()), old(models), false), messages)
      {
        assert messages[i..][1..] == messages[i + 1..];
        ghost var before := State(Contents(), models, false);
        match messages[i] {
          case Hello(names) => models := names;
          case Response(f) => panicked := Dispatch(f);
          case _ =>
        }
        assert State(Contents(), models, panicked) == After(before, messages[i]);
        i := i + 1;
      }
    }
  }

  class Hub {
    var peers: map<string, PeerConn>

    constructor ()
      ensures peers == map[]
    {
      peers := map[];
    }

    /** The newest connection serves the peer; the one it replaces is closed. */
    method Register(peerID: string, pc: PeerConn)
      requires peerID in peers ==> peers[peerID] != pc
      modifies this, if peerID in peers then {peers[peerID]} else {}
      ensures peers == old(peers)[peerID := pc]
      ensures peerID in old(peers) ==>
                var evicted := old(peers)[peerID];
                !evicted.open && evicted.models == old(evicted.models) && evicted.pending == old(evicted.pending)
    {
      if peerID in peers {
        peers[peerID].open := false;
      }
      peers := peers[peerID := pc];
    }

    /** Whoever serves the peer stops doing so. */
    method Unregister(peerID: string)
      modifies this
      ensures peers == old(peers) - {peerID}
    {
      peers := peers - {peerID};
    }
  }
}
