/**
 * One peer connection: any number of forwarded requests multiplexed over it by id, the relay's
 * single reader, the queues it fills, the callers that drain them, and the agent at the other end.
 */
module Relay {
  import opened Wrappers
  import Bytes

  type Id = nat

  type Payload = seq<Bytes.Byte>

  const QUEUE: nat := 256

  /** What a frame from the agent says about its request. */
  datatype Kind = Chunk(data: Payload) | Finish | Fail(message: string)

  datatype Frame = Frame(id: Id, kind: Kind)

  /** The three channels of a pending request; `lost` counts chunks that found the queue full. */
  datatype Channels = Channels(chunks: seq<Payload>, closed: bool, err: Option<string>, lost: nat)

  datatype Outcome = Completed | PeerError | WriteFailed | SendFailed

  /** Forward: inserted, sent and selecting, returning, removed from the table. */
  datatype Stage = Inserted | Selecting | Returning(outcome: Outcome) | Gone(outcome: Outcome)

  /** What the caller is sent: chunk data, and the relay's own end marker. */
  datatype Output = Data(text: Payload) | DoneMarker

  datatype Request = Request(stage: Stage, channels: Channels, out: seq<Output>)

  const NEW_REQUEST := Request(Inserted, Channels([], false, None, 0), [])

  datatype World = World(
    requests: map<Id, Request>,    // every request ever forwarded
    pending: set<Id>,              // the connection's table
    reader: Option<Frame>,         // a frame whose request has been looked up
    toAgent: seq<Id>,              // request frames in flight
    scripts: map<Id, seq<Kind>>,   // what each running handler of the agent has yet to send
    fromAgent: seq<Frame>,         // response frames in flight
    connected: bool,
    panicked: bool,                // a closed channel was closed again
    sent: map<Id, seq<Kind>>,      // history: frames the agent sent
    arrived: map<Id, seq<Kind>>,   // history: those not spoilt by another writer
    delivered: map<Id, seq<Kind>>) // history: frames that reached their request

  const START := World(map[], {}, None, [], map[], [], true, false, map[], map[], map[])

  datatype Step =
    | Insert(id: Id)
    | SendRequest(id: Id)
    | SendFails(id: Id)
    | Accept(script: seq<Kind>)    // the agent reads a request and starts a handler
    | Emit(id: Id)                 // a handler sends its next frame
    | Spoil(id: Id)                // it does while another handler writes: the relay cannot parse the frame
    | Lookup                       // the reader reads a frame and looks its request up
    | Deliver                      // the reader puts it into the request's channel
    | TakeChunk(id: Id, writeOk: bool)
    | TakeDone(id: Id)             // select may choose this while chunks are queued
    | TakeError(id: Id)
    | Remove(id: Id)               // Forward's deferred delete
    | Disconnect
    | Stray(frame: Frame)          // a frame that no handler of this agent sends

  /** What one run of the agent's handler sends: chunks and one done, or one error. */
  predicate IsScript(s: seq<Kind>) {
    || (|s| == 1 && s[0].Fail?)
    || (|s| >= 1 && s[|s| - 1] == Finish && forall i :: 0 <= i < |s| - 1 ==> s[i].Chunk?)
  }

  /** Dispatch on the channels: full queues drop, closing twice panics. */
  function Offer(c: Channels, kind: Kind): (Channels, bool) {
    match kind
    case Chunk(data) =>
      if |c.chunks| < QUEUE then (c.(chunks := c.chunks + [data]), false) else (c.(lost := c.lost + 1), false)
    case Finish => if c.closed then (c, true) else (c.(closed := true), false)
    case Fail(message) => (if c.err.None? then c.(err := Some(message)) else c, false)
  }

  function Past(m: map<Id, seq<Kind>>, id: Id): seq<Kind> { if id in m then m[id] else [] }

  function Record(m: map<Id, seq<Kind>>, id: Id, kind: Kind): map<Id, seq<Kind>> { m[id := Past(m, id) + [kind]] }

  predicate In(w: World, id: Id, stage: Stage) { id in w.requests && w.requests[id].stage == stage }

  function SetRequest(w: World, id: Id, r: Request): World { w.(requests := w.requests[id := r]) }

  // Forward

  function Begin(w: World, id: Id): World {
    if id in w.requests then w else SetRequest(w, id, NEW_REQUEST).(pending := w.pending + {id})
  }

  function Send(w: World, id: Id): World {
    if In(w, id, Inserted) && w.connected
    then SetRequest(w, id, w.requests[id].(stage := Selecting)).(toAgent := w.toAgent + [id]) else w
  }

  function FailToSend(w: World, id: Id): World {
    if In(w, id, Inserted) then SetRequest(w, id, w.requests[id].(stage := Returning(SendFailed))) else w
  }

  function SelectChunk(w: World, id: Id, writeOk: bool): World {
    if In(w, id, Selecting) && w.requests[id].channels.chunks != [] then
      var r := w.requests[id];
      var rest := r.channels.(chunks := r.channels.chunks[1..]);
      if writeOk then SetRequest(w, id, r.(channels := rest, out := r.out + [Data(r.channels.chunks[0])]))
      else SetRequest(w, id, r.(channels := rest, stage := Returning(WriteFailed)))
    else w
  }

  function SelectDone(w: World, id: Id): World {
    if In(w, id, Selecting) && w.requests[id].channels.closed then
      var r := w.requests[id];
      SetRequest(w, id, r.(out := r.out + [DoneMarker], stage := Returning(Completed)))
    else w
  }

  function SelectError(w: World, id: Id): World {
    if In(w, id, Selecting) && w.requests[id].channels.err.Some?
    then SetRequest(w, id, w.requests[id].(stage := Returning(PeerError))) else w
  }

  function Leave(w: World, id: Id): World {
    if id in w.requests && w.requests[id].stage.Returning? then
      var r := w.requests[id];
      SetRequest(w, id, r.(stage := Gone(r.stage.outcome))).(pending := w.pending - {id})
    else w
  }

  // The agent

  function StartHandler(w: World, script: seq<Kind>): World {
    if w.toAgent != [] && IsScript(script)
    then w.(toAgent := w.toAgent[1..], scripts := w.scripts[w.toAgent[0] := script]) else w
  }

  function SendNext(w: World, id: Id, spoilt: bool): World {
    if id in w.scripts && w.scripts[id] != [] then
      var kind := w.scripts[id][0];
      var w' := w.(scripts := w.scripts[id := w.scripts[id][1..]], sent := Record(w.sent, id, kind));
      if spoilt then w'
      else w'.(fromAgent := w.fromAgent + [Frame(id, kind)], arrived := Record(w.arrived, id, kind))
    else w
  }

  // The relay's reader

  function ReadFrame(w: World): World {
    if w.reader.None? && w.fromAgent != [] then
      var f := w.fromAgent[0];
      w.(fromAgent := w.fromAgent[1..], reader := if f.id in w.pending then Some(f) else None)
    else w
  }

  function Dispatch(w: World): World {
    if w.reader.Some? && w.reader.value.id in w.requests then
      var f := w.reader.value;
      var r := w.requests[f.id];
      var (channels, panics) := Offer(r.channels, f.kind);
      SetRequest(w, f.id, r.(channels := channels))
        .(reader := None, panicked := w.panicked || panics, delivered := Record(w.delivered, f.id, f.kind))
    else w
  }

  function Next(w: World, step: Step): World {
    match step
    case Insert(id) => Begin(w, id)
    case SendRequest(id) => Send(w, id)
    case SendFails(id) => FailToSend(w, id)
    case Accept(script) => StartHandler(w, script)
    case Emit(id) => SendNext(w, id, false)
    case Spoil(id) => SendNext(w, id, true)
    case Lookup => ReadFrame(w)
    case Deliver => Dispatch(w)
    case TakeChunk(id, writeOk) => SelectChunk(w, id, writeOk)
    case TakeDone(id) => SelectDone(w, id)
    case TakeError(id) => SelectError(w, id)
    case Remove(id) => Leave(w, id)
    case Disconnect => w.(connected := false, toAgent := [], scripts := map[], fromAgent := [])
    case Stray(frame) => if w.connected then w.(fromAgent := w.fromAgent + [frame]) else w
  }

  /** Runs in which the other end is the agent modelled here. */
  predicate Obedient(steps: seq<Step>) { forall i :: 0 <= i < |steps| ==> !steps[i].Stray? }

  function Exec(w: World, steps: seq<Step>): World {
    if steps == [] then w else Next(Exec(w, steps[..|steps| - 1]), steps[|steps| - 1])
  }

  // Projections

  /** The chunk texts among some frames. */
  function Texts(kinds: seq<Kind>): seq<Payload> {
    if kinds == [] then []
    else
      var rest := Texts(kinds[..|kinds| - 1]);
      match kinds[|kinds| - 1]
      case Chunk(data) => rest + [data]
      case _ => rest
  }

  /** The chunk texts of what a caller was sent. */
  function Written(out: seq<Output>): seq<Payload> {
    if out == [] then []
    else
      var rest := Written(out[..|out| - 1]);
      match out[|out| - 1]
      case Data(text) => rest + [text]
      case DoneMarker => rest
  }

  /** The frames of one request among those in flight. */
  function Only(frames: seq<Frame>, id: Id): seq<Kind> {
    if frames == [] then []
    else (if frames[0].id == id then [frames[0].kind] else []) + Only(frames[1..], id)
  }

  /** `a` is `b` with some elements left out. */
  predicate IsSubsequence(a: seq<Payload>, b: seq<Payload>) {
    if a == [] then true
    else if b == [] then false
    else
      || (a[|a| - 1] == b[|b| - 1] && IsSubsequence(a[..|a| - 1], b[..|b| - 1]))
      || IsSubsequence(a, b[..|b| - 1])
  }
}
