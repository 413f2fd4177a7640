/** What a connection achieves when nothing is in the way, and when it can achieve nothing any more. */
module RelayProgress {
  import opened Wrappers
  import opened Relay
  import opened RelaySafety

  lemma {:induction false} ExecAppend(w: World, a: seq<Step>, b: seq<Step>)
    ensures Exec(w, a + b) == Exec(Exec(w, a), b)
  {
    var all := a + b;
    if b == [] {
      assert all == a;
    } else {
      var front := b[..|b| - 1];
      ExecAppend(w, a, front);
      assert all[..|all| - 1] == a + front && all[|all| - 1] == b[|b| - 1];
    }
  }

  lemma ExecOne(w: World, step: Step)
    ensures Exec(w, [step]) == Next(w, step)
  {
    assert Exec(w, [step][..0]) == w;
  }

  lemma ExecThree(w: World, a: Step, b: Step, c: Step)
    ensures Exec(w, [a, b, c]) == Next(Next(Next(w, a), b), c)
  {
    assert [a, b, c][..2] == [a, b] && [a, b][..1] == [a];
    ExecOne(w, a);
  }

  // Draining the queue

  function Takes(id: Id, n: nat): seq<Step> { seq(n, i => TakeChunk(id, true)) }

  lemma SetTwice(w: World, id: Id, r: Request, s: Request)
    ensures SetRequest(SetRequest(w, id, r), id, s) == SetRequest(w, id, s)
  {
    assert w.requests[id := r][id := s] == w.requests[id := s];
  }

  /** One chunk handed to the caller. */
  lemma TakesOne(w: World, id: Id, c: Channels, out: seq<Output>)
    requires c.chunks != []
    ensures Next(SetRequest(w, id, Request(Selecting, c, out)), TakeChunk(id, true))
         == SetRequest(w, id, Request(Selecting, c.(chunks := c.chunks[1..]), out + [Data(c.chunks[0])]))
  {
    SetTwice(w, id, Request(Selecting, c, out),
             Request(Selecting, c.(chunks := c.chunks[1..]), out + [Data(c.chunks[0])]));
  }

  /** What the caller is sent for some chunks. */
  function Handed(chunks: seq<Payload>): seq<Output> { seq(|chunks|, i requires 0 <= i < |chunks| => Data(chunks[i])) }

  lemma {:induction false} Drains(w: World, id: Id, c: Channels, out: seq<Output>, n: nat)
    requires n <= |c.chunks|
    ensures Exec(SetRequest(w, id, Request(Selecting, c, out)), Takes(id, n))
         == SetRequest(w, id, Request(Selecting, c.(chunks := c.chunks[n..]), out + Handed(c.chunks[..n])))
  {
    if n == 0 {
      assert c.chunks[0..] == c.chunks && out + Handed(c.chunks[..0]) == out;
    } else {
      Drains(w, id, c, out, n - 1);
      assert Takes(id, n)[..n - 1] == Takes(id, n - 1);
      TakesOne(w, id, c.(chunks := c.chunks[n - 1..]), out + Handed(c.chunks[..n - 1]));
      assert c.chunks[n - 1..][1..] == c.chunks[n..];
      assert out + Handed(c.chunks[..n - 1]) + [Data(c.chunks[n - 1])] == out + Handed(c.chunks[..n]);
    }
  }

  lemma SetSame(w: World, id: Id, r: Request)
    requires id in w.requests && w.requests[id] == r
    ensures SetRequest(w, id, r) == w
  {
    assert w.requests[id := r] == w.requests;
  }

  /**
   * As long as its writes succeed, a selecting request hands its queue to the caller chunk by
   * chunk, in order, and goes on selecting; nothing else on the connection changes.
   */
  lemma DrainsItsQueue(w: World, id: Id, n: nat)
    requires In(w, id, Selecting) && n <= |w.requests[id].channels.chunks|
    ensures var r, chunks := w.requests[id], w.requests[id].channels.chunks;
            Exec(w, Takes(id, n))
            == SetRequest(w, id, r.(channels := r.channels.(chunks := chunks[n..]), out := r.out + Handed(chunks[..n])))
  {
    var r := w.requests[id];
    SetSame(w, id, r);
    Drains(w, id, r.channels, r.out, n);
  }

  // A whole request

  /** Nothing is on its way. */
  predicate Quiet(w: World) { w.connected && w.reader.None? && w.toAgent == [] && w.fromAgent == [] }

  function Log(m: map<Id, seq<Kind>>, id: Id, kinds: seq<Kind>): map<Id, seq<Kind>> {
    if kinds == [] then m else m[id := Past(m, id) + kinds]
  }

  lemma LogMore(m: map<Id, seq<Kind>>, id: Id, kinds: seq<Kind>, k: Kind)
    ensures Record(Log(m, id, kinds), id, k) == Log(m, id, kinds + [k])
  {
    assert Past(m, id) + kinds + [k] == Past(m, id) + (kinds + [k]);
    assert Past(m, id) + [] + [k] == Past(m, id) + [k];
    assert kinds == [] ==> kinds + [k] == [k];
  }

  /** `w` with the request of `id` at `r`: its handler has sent `done`, all of which arrived, and has `left` to send. */
  function With(w: World, id: Id, r: Request, done: seq<Kind>, left: seq<Kind>): World {
    w.(requests := w.requests[id := r], pending := w.pending + {id}, scripts := w.scripts[id := left],
       sent := Log(w.sent, id, done), arrived := Log(w.arrived, id, done), delivered := Log(w.delivered, id, done))
  }

  lemma Asks(w: World, id: Id, script: seq<Kind>)
    requires Quiet(w) && id !in w.requests && IsScript(script)
    ensures Exec(w, [Insert(id), SendRequest(id), Accept(script)])
         == With(w, id, NEW_REQUEST.(stage := Selecting), [], script)
  {
    ExecThree(w, Insert(id), SendRequest(id), Accept(script));
    SendsOff(w, id);
    var v := Next(Next(w, Insert(id)), SendRequest(id));
    assert v.toAgent[0] == id && v.toAgent[1..] == w.toAgent;
  }

  lemma SendsOff(w: World, id: Id)
    requires Quiet(w) && id !in w.requests
    ensures Next(Next(w, Insert(id)), SendRequest(id))
         == SetRequest(w, id, NEW_REQUEST.(stage := Selecting)).(pending := w.pending + {id}, toAgent := [id])
  {
    assert w.requests[id := NEW_REQUEST][id := NEW_REQUEST.(stage := Selecting)]
        == w.requests[id := NEW_REQUEST.(stage := Selecting)];
    assert w.toAgent + [id] == [id];
  }

  /** A frame of the script goes all the way into its request's channels. */
  function Travel(id: Id): seq<Step> { [Emit(id), Lookup, Deliver] }

  lemma Arrives(w: World, f: Frame)
    requires w.reader.None? && w.fromAgent == [f] && f.id in w.pending && f.id in w.requests
    requires !Offer(w.requests[f.id].channels, f.kind).1
    ensures var r := w.requests[f.id];
            Next(Next(w, Lookup), Deliver)
            == SetRequest(w, f.id, r.(channels := Offer(r.channels, f.kind).0))
               .(fromAgent := [], delivered := Record(w.delivered, f.id, f.kind))
  {
  }

  lemma Travels(w: World, id: Id, r: Request, done: seq<Kind>, left: seq<Kind>)
    requires Quiet(w) && left != [] && !Offer(r.channels, left[0]).1
    ensures Exec(With(w, id, r, done, left), Travel(id))
         == With(w, id, r.(channels := Offer(r.channels, left[0]).0), done + [left[0]], left[1..])
  {
    var v, k := With(w, id, r, done, left), left[0];
    ExecThree(v, Emit(id), Lookup, Deliver);
    LogMore(w.delivered, id, done, k);
    Emits(w, id, r, done, left);
    Arrives(Next(v, Emit(id)), Frame(id, k));
    assert w.requests[id := r][id := r.(channels := Offer(r.channels, k).0)]
        == w.requests[id := r.(channels := Offer(r.channels, k).0)];
  }

  lemma Emits(w: World, id: Id, r: Request, done: seq<Kind>, left: seq<Kind>)
    requires Quiet(w) && left != []
    ensures Next(With(w, id, r, done, left), Emit(id))
         == With(w, id, r, done + [left[0]], left[1..])
            .(fromAgent := [Frame(id, left[0])], delivered := Log(w.delivered, id, done))
  {
    LogMore(w.sent, id, done, left[0]);
    LogMore(w.arrived, id, done, left[0]);
    assert w.fromAgent + [Frame(id, left[0])] == [Frame(id, left[0])];
    assert w.scripts[id := left][id := left[1..]] == w.scripts[id := left[1..]];
  }

  lemma WithRequest(w: World, id: Id, r: Request, s: Request, done: seq<Kind>, left: seq<Kind>)
    ensures With(w, id, r, done, left) == SetRequest(With(w, id, s, done, left), id, r)
  {
    assert w.requests[id := s][id := r] == w.requests[id := r];
  }

  const EMPTY := Channels([], false, None, 0)

  /** A request that waits with nothing in its channels, its caller having been sent these texts. */
  function Waiting(texts: seq<Payload>): Request { Request(Selecting, EMPTY, Handed(texts)) }

  lemma HandsOn(w: World, id: Id, texts: seq<Payload>, done: seq<Kind>, left: seq<Kind>)
    requires Quiet(w) && left != [] && left[0].Chunk?
    ensures Exec(With(w, id, Waiting(texts), done, left), Travel(id) + [TakeChunk(id, true)])
         == With(w, id, Waiting(texts + [left[0].data]), done + [left[0]], left[1..])
  {
    var c, done', left' := EMPTY.(chunks := [left[0].data]), done + [left[0]], left[1..];
    ExecAppend(With(w, id, Waiting(texts), done, left), Travel(id), [TakeChunk(id, true)]);
    Travels(w, id, Waiting(texts), done, left);
    assert Offer(EMPTY, left[0]).0 == c by { assert [] + [left[0].data] == [left[0].data]; }
    ExecOne(With(w, id, Request(Selecting, c, Handed(texts)), done', left'), TakeChunk(id, true));
    WithRequest(w, id, Request(Selecting, c, Handed(texts)), NEW_REQUEST, done', left');
    TakesOne(With(w, id, NEW_REQUEST, done', left'), id, c, Handed(texts));
    assert c.chunks[1..] == [] && c.(chunks := []) == EMPTY;
    assert Handed(texts) + [Data(left[0].data)] == Handed(texts + [left[0].data]);
    WithRequest(w, id, Waiting(texts + [left[0].data]), NEW_REQUEST, done', left');
  }

  /** The first `n` frames of a script, one after the other. */
  function Pace(id: Id, n: nat): seq<Step> {
    if n == 0 then [] else Pace(id, n - 1) + (Travel(id) + [TakeChunk(id, true)])
  }

  lemma OneFurther(script: seq<Kind>, n: nat)
    requires 0 < n <= |script| && script[n - 1].Chunk?
    ensures script[..n - 1] + [script[n - 1..][0]] == script[..n] && script[n - 1..][1..] == script[n..]
    ensures Texts(script[..n]) == Texts(script[..n - 1]) + [script[n - 1].data]
  {
    TextsSnoc(script[..n - 1], script[n - 1]);
    assert script[..n - 1] + [script[n - 1]] == script[..n];
  }

  lemma {:induction false} Paces(w: World, id: Id, script: seq<Kind>, n: nat)
    requires Quiet(w) && n <= |script| && forall i :: 0 <= i < n ==> script[i].Chunk?
    ensures Exec(With(w, id, Waiting([]), [], script), Pace(id, n))
         == With(w, id, Waiting(Texts(script[..n])), script[..n], script[n..])
  {
    if n == 0 {
      assert script[..0] == [] && script[0..] == script;
    } else {
      var done, left := script[..n - 1], script[n - 1..];
      Paces(w, id, script, n - 1);
      ExecAppend(With(w, id, Waiting([]), [], script), Pace(id, n - 1), Travel(id) + [TakeChunk(id, true)]);
      HandsOn(w, id, Texts(done), done, left);
      OneFurther(script, n);
    }
  }

  /** How a request ends on the last frame of its script. */
  function Ending(id: Id, last: Kind): seq<Step> {
    Travel(id) + [if last.Fail? then TakeError(id) else TakeDone(id), Remove(id)]
  }

  function Ended(texts: seq<Payload>, last: Kind): Request {
    if last.Fail? then Request(Gone(PeerError), Channels([], false, Some(last.message), 0), Handed(texts))
    else Request(Gone(Completed), Channels([], true, None, 0), Handed(texts) + [DoneMarker])
  }

  lemma TakesEnd(w: World, id: Id, texts: seq<Payload>, last: Kind)
    requires !last.Chunk?
    ensures var r := Waiting(texts).(channels := Offer(EMPTY, last).0);
            Next(SetRequest(w, id, r), if last.Fail? then TakeError(id) else TakeDone(id))
            == SetRequest(w, id, Ended(texts, last).(stage := Returning(Ended(texts, last).stage.outcome)))
  {
    var r := Waiting(texts).(channels := Offer(EMPTY, last).0);
    SetTwice(w, id, r, Ended(texts, last).(stage := Returning(Ended(texts, last).stage.outcome)));
  }

  lemma Removes(w: World, id: Id, r: Request)
    requires r.stage.Returning?
    ensures Next(SetRequest(w, id, r), Remove(id))
         == SetRequest(w, id, r.(stage := Gone(r.stage.outcome))).(pending := w.pending - {id})
  {
    SetTwice(w, id, r, r.(stage := Gone(r.stage.outcome)));
  }

  lemma Leaves(w: World, id: Id, texts: seq<Payload>, last: Kind)
    requires !last.Chunk?
    ensures var r := Waiting(texts).(channels := Offer(EMPTY, last).0);
            Next(Next(SetRequest(w, id, r), if last.Fail? then TakeError(id) else TakeDone(id)), Remove(id))
            == SetRequest(w, id, Ended(texts, last)).(pending := w.pending - {id})
  {
    TakesEnd(w, id, texts, last);
    Removes(w, id, Ended(texts, last).(stage := Returning(Ended(texts, last).stage.outcome)));
  }

  lemma Ends(w: World, id: Id, texts: seq<Payload>, done: seq<Kind>, last: Kind)
    requires Quiet(w) && id !in w.pending && !last.Chunk?
    ensures Exec(With(w, id, Waiting(texts), done, [last]), Ending(id, last))
         == With(w, id, Ended(texts, last), done + [last], []).(pending := w.pending)
  {
    var v, take := With(w, id, Waiting(texts), done, [last]), if last.Fail? then TakeError(id) else TakeDone(id);
    var r, gone := Waiting(texts).(channels := Offer(EMPTY, last).0), Ended(texts, last);
    ExecAppend(v, Travel(id), [take, Remove(id)]);
    Travels(w, id, Waiting(texts), done, [last]);
    assert [last][1..] == [];
    ExecTwo(With(w, id, r, done + [last], []), take, Remove(id));
    WithRequest(w, id, r, NEW_REQUEST, done + [last], []);
    Leaves(With(w, id, NEW_REQUEST, done + [last], []), id, texts, last);
    WithRequest(w, id, gone, NEW_REQUEST, done + [last], []);
    assert w.pending + {id} - {id} == w.pending;
  }

  lemma ExecTwo(w: World, a: Step, b: Step)
    ensures Exec(w, [a, b]) == Next(Next(w, a), b)
  {
    assert [a, b][..1] == [a];
    ExecOne(w, a);
  }

  /** One whole request, from its insertion to its removal. */
  function Serve(id: Id, script: seq<Kind>): seq<Step>
    requires script != []
  {
    var n := |script| - 1;
    [Insert(id), SendRequest(id), Accept(script)] + (Pace(id, n) + Ending(id, script[n]))
  }

  /** The connection after it: the caller has every chunk in order and the end marker, or the one error. */
  function Served(w: World, id: Id, script: seq<Kind>): World
    requires script != []
  {
    With(w, id, Ended(Texts(script), script[|script| - 1]), script, []).(pending := w.pending)
  }

  lemma ScriptEnds(script: seq<Kind>)
    requires IsScript(script)
    ensures var n := |script| - 1;
            && !script[n].Chunk? && (forall i :: 0 <= i < n ==> script[i].Chunk?)
            && script[n..] == [script[n]] && script[..n] + [script[n]] == script
  {
  }

  lemma EndHasNoText(script: seq<Kind>)
    requires script != [] && !script[|script| - 1].Chunk?
    ensures Texts(script[..|script| - 1]) == Texts(script)
  {
  }

  lemma Replies(w: World, id: Id, script: seq<Kind>)
    requires Quiet(w) && id !in w.pending && IsScript(script)
    ensures var n := |script| - 1;
            Exec(With(w, id, Waiting([]), [], script), Pace(id, n) + Ending(id, script[n])) == Served(w, id, script)
  {
    var n := |script| - 1;
    ScriptEnds(script);
    EndHasNoText(script);
    ExecAppend(With(w, id, Waiting([]), [], script), Pace(id, n), Ending(id, script[n]));
    Paces(w, id, script, n);
    Ends(w, id, Texts(script), script[..n], script[n]);
  }

  /**
   * On a quiet connection, a request whose frames arrive one by one ends with its caller having been
   * sent every chunk of the script in order, and then the end marker, or the agent's error; nothing
   * else on the connection changes, which is as quiet as it was.
   */
  lemma ServesWholly(w: World, id: Id, script: seq<Kind>)
    requires Quiet(w) && id !in w.requests && id !in w.pending && IsScript(script)
    ensures Exec(w, Serve(id, script)) == Served(w, id, script)
  {
    var n, ask := |script| - 1, [Insert(id), SendRequest(id), Accept(script)];
    ExecAppend(w, ask, Pace(id, n) + Ending(id, script[n]));
    Asks(w, id, script);
    assert Handed([]) == [] && Waiting([]) == NEW_REQUEST.(stage := Selecting);
    Replies(w, id, script);
  }

  /** The request of a script that has been served. */
  function Outcome(script: seq<Kind>): Request
    requires script != []
  {
    Ended(Texts(script), script[|script| - 1])
  }

  /** The ids from 0 on are served, one request each; nobody has used a later one. */
  ghost predicate AllServed(requests: map<Id, Request>, scripts: seq<seq<Kind>>) {
    && (forall id: Id :: id in requests <==> id < |scripts|)
    && forall id: Id :: id in requests ==> scripts[id] != [] && requests[id] == Outcome(scripts[id])
  }

  lemma OneMoreServed(requests: map<Id, Request>, scripts: seq<seq<Kind>>, script: seq<Kind>)
    requires AllServed(requests, scripts) && script != []
    ensures AllServed(requests[|scripts| := Outcome(script)], scripts + [script])
  {
  }

  lemma {:induction false} PaceObeys(id: Id, n: nat)
    ensures Obedient(Pace(id, n))
  {
    if n > 0 { PaceObeys(id, n - 1); }
  }

  lemma ServeObeys(id: Id, script: seq<Kind>)
    requires script != []
    ensures Obedient(Serve(id, script))
  {
    PaceObeys(id, |script| - 1);
  }

  /** For any scripts, the repository's agent has a run in which each caller is sent the whole of its own. */
  lemma {:induction false} EveryoneIsServed(scripts: seq<seq<Kind>>) returns (steps: seq<Step>)
    requires forall id :: 0 <= id < |scripts| ==> IsScript(scripts[id])
    ensures Obedient(steps)
    ensures var w := Exec(START, steps); Quiet(w) && w.pending == {} && AllServed(w.requests, scripts)
  {
    if scripts == [] {
      steps := [];
      assert START.requests == map[];
    } else {
      var n := |scripts| - 1;
      var script := scripts[n];
      var before := EveryoneIsServed(scripts[..n]);
      var w := Exec(START, before);
      steps := before + Serve(n, script);
      ExecAppend(START, before, Serve(n, script));
      ServesWholly(w, n, script);
      OneMoreServed(w.requests, scripts[..n], script);
      assert Served(w, n, script).requests == w.requests[n := Outcome(script)];
      assert scripts[..n] + [script] == scripts;
      ServeObeys(n, script);
    }
  }

  // Without the agent

  /** A failed send, or a failed write to the caller, ends the request without another word. */
  lemma FailuresLeave(w: World, id: Id)
    requires id in w.requests
    ensures var r := w.requests[id];
            r.stage == Inserted ==>
              Next(Next(w, SendFails(id)), Remove(id))
              == SetRequest(w, id, r.(stage := Gone(SendFailed))).(pending := w.pending - {id})
    ensures var r := w.requests[id];
            r.stage == Selecting && r.channels.chunks != [] ==>
              var rest := r.channels.(chunks := r.channels.chunks[1..]);
              Next(Next(w, TakeChunk(id, false)), Remove(id))
              == SetRequest(w, id, r.(channels := rest, stage := Gone(WriteFailed))).(pending := w.pending - {id})
  {
    var r := w.requests[id];
    if r.stage == Inserted {
      Removes(w, id, r.(stage := Returning(SendFailed)));
    } else if r.stage == Selecting && r.channels.chunks != [] {
      var rest := r.channels.(chunks := r.channels.chunks[1..]);
      Removes(w, id, r.(channels := rest, stage := Returning(WriteFailed)));
    }
  }

  /** The connection is gone and the reader has nothing in hand. */
  predicate Cut(w: World) {
    !w.connected && w.reader.None? && w.toAgent == [] && w.scripts == map[] && w.fromAgent == []
  }

  /** Nothing is in the request's channels for select to choose. */
  predicate Starved(c: Channels) { c.chunks == [] && !c.closed && c.err.None? }

  predicate Stuck(w: World, id: Id, r: Request) {
    Cut(w) && id in w.requests && w.requests[id] == r && r.stage == Selecting && Starved(r.channels)
  }

  lemma StaysStuck(w: World, step: Step, id: Id, r: Request)
    requires Stuck(w, id, r)
    ensures Stuck(Next(w, step), id, r)
  {
  }

  lemma {:induction false} StuckForEver(w: World, steps: seq<Step>, id: Id, r: Request)
    requires Stuck(w, id, r)
    ensures Stuck(Exec(w, steps), id, r)
  {
    if steps != [] {
      StuckForEver(w, steps[..|steps| - 1], id, r);
      StaysStuck(Exec(w, steps[..|steps| - 1]), steps[|steps| - 1], id, r);
    }
  }

  /** What ends the request that still has something in its channels: a failing write, the signal, the error. */
  function WayOut(id: Id, c: Channels): Step {
    if c.chunks != [] then TakeChunk(id, false) else if c.closed then TakeDone(id) else TakeError(id)
  }

  /**
   * Forward has no timeout and does not watch its connection: once the connection is gone and the reader
   * has nothing in hand, a waiting Forward never returns exactly if its channels are empty.
   */
  lemma HangsIff(v: World, w: World, id: Id)
    requires w == Next(v, Disconnect) && v.reader.None? && In(w, id, Selecting)
    ensures (forall steps :: In(Exec(w, steps), id, Selecting)) <==> Starved(w.requests[id].channels)
  {
    var r := w.requests[id];
    if Starved(r.channels) {
      forall steps ensures In(Exec(w, steps), id, Selecting) { StuckForEver(w, steps, id, r); }
    } else {
      var out := [WayOut(id, r.channels)];
      ExecOne(w, out[0]);
      assert !In(Exec(w, out), id, Selecting);
    }
  }

  /** The agent has no more to send for the request, and nothing of it is on its way or in its channels. */
  ghost predicate Forgotten(w: World, id: Id, r: Request) {
    && id in w.requests && w.requests[id] == r && r.stage == Selecting && Starved(r.channels)
    && id !in w.toAgent && (id in w.scripts ==> w.scripts[id] == [])
    && Only(w.fromAgent, id) == [] && (w.reader.Some? ==> w.reader.value.id != id)
  }

  predicate OfAgent(step: Step) { step.Accept? || step.Emit? || step.Spoil? || step.Disconnect? || step.Stray? }

  lemma AgentForgets(w: World, step: Step, id: Id, r: Request)
    requires Forgotten(w, id, r) && OfAgent(step) && !step.Stray?
    ensures Forgotten(Next(w, step), id, r)
  {
    if step.Emit? && step.id in w.scripts && w.scripts[step.id] != [] {
      OnlyOthers(w.fromAgent, Frame(step.id, w.scripts[step.id][0]), id);
    }
  }

  lemma LookupForgets(w: World, id: Id, r: Request)
    requires Forgotten(w, id, r)
    ensures Forgotten(Next(w, Lookup), id, r)
  {
  }

  lemma DeliverForgets(w: World, id: Id, r: Request)
    requires Forgotten(w, id, r)
    ensures Forgotten(Next(w, Deliver), id, r)
  {
  }

  lemma InsertForgets(w: World, of: Id, id: Id, r: Request)
    requires Forgotten(w, id, r)
    ensures Forgotten(Next(w, Insert(of)), id, r)
  {
  }

  lemma RemoveForgets(w: World, of: Id, id: Id, r: Request)
    requires Forgotten(w, id, r)
    ensures Forgotten(Next(w, Remove(of)), id, r)
  {
  }

  lemma SendForgets(w: World, of: Id, id: Id, r: Request)
    requires Forgotten(w, id, r)
    ensures Forgotten(Next(w, SendRequest(of)), id, r)
  {
  }

  lemma FailureForgets(w: World, of: Id, id: Id, r: Request)
    requires Forgotten(w, id, r)
    ensures Forgotten(Next(w, SendFails(of)), id, r)
  {
  }

  lemma ChunkForgets(w: World, of: Id, writeOk: bool, id: Id, r: Request)
    requires Forgotten(w, id, r)
    ensures Forgotten(Next(w, TakeChunk(of, writeOk)), id, r)
  {
  }

  lemma DoneForgets(w: World, of: Id, id: Id, r: Request)
    requires Forgotten(w, id, r)
    ensures Forgotten(Next(w, TakeDone(of)), id, r)
  {
  }

  lemma ErrorForgets(w: World, of: Id, id: Id, r: Request)
    requires Forgotten(w, id, r)
    ensures Forgotten(Next(w, TakeError(of)), id, r)
  {
  }

  lemma RelayForgets(w: World, step: Step, id: Id, r: Request)
    requires Forgotten(w, id, r) && !OfAgent(step)
    ensures Forgotten(Next(w, step), id, r)
  {
    match step
    case Insert(of) => InsertForgets(w, of, id, r);
    case SendRequest(of) => SendForgets(w, of, id, r);
    case SendFails(of) => FailureForgets(w, of, id, r);
    case Lookup => LookupForgets(w, id, r);
    case Deliver => DeliverForgets(w, id, r);
    case TakeChunk(of, writeOk) => ChunkForgets(w, of, writeOk, id, r);
    case TakeDone(of) => DoneForgets(w, of, id, r);
    case TakeError(of) => ErrorForgets(w, of, id, r);
    case Remove(of) => RemoveForgets(w, of, id, r);
  }

  /** A request whose last frame was spoilt waits for ever, whatever the agent modelled here does. */
  lemma {:induction false} SpoiltEndHangs(w: World, steps: seq<Step>, id: Id, r: Request)
    requires Forgotten(w, id, r) && Obedient(steps)
    ensures Forgotten(Exec(w, steps), id, r)
  {
    if steps != [] {
      SpoiltEndHangs(w, steps[..|steps| - 1], id, r);
      var v, step := Exec(w, steps[..|steps| - 1]), steps[|steps| - 1];
      if OfAgent(step) { AgentForgets(v, step, id, r); } else { RelayForgets(v, step, id, r); }
    }
  }

  /** On a quiet connection, a script whose only frame is spoilt is such a request. */
  lemma SpoiltOnlyFrame(w: World, id: Id, last: Kind)
    requires Quiet(w) && id !in w.requests && IsScript([last])
    ensures Forgotten(Next(Exec(w, [Insert(id), SendRequest(id), Accept([last])]), Spoil(id)), id, Waiting([]))
  {
    Asks(w, id, [last]);
    assert [last][1..] == [] && Handed([]) == [];
  }
}
