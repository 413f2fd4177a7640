/** What holds in every reachable state of a peer connection. */
module RelaySafety {
  import opened Wrappers
  import opened Relay

  // Subsequences

  lemma SubsequenceSnoc(a: seq<Payload>, b: seq<Payload>, x: Payload)
    requires IsSubsequence(a, b)
    ensures IsSubsequence(a + [x], b + [x]) && IsSubsequence(a, b + [x])
  {
    assert (a + [x])[..|a|] == a && (b + [x])[..|b|] == b;
  }

  lemma {:induction false} SubsequenceDrop(a: seq<Payload>, b: seq<Payload>, i: nat)
    requires IsSubsequence(a, b) && i < |a|
    ensures IsSubsequence(a[..i] + a[i + 1..], b)
    decreases |b|
  {
    var less, n := a[..i] + a[i + 1..], |a| - 1;
    var b', last := b[..|b| - 1], b[|b| - 1];
    assert b == b' + [last];
    if a[n] == last && IsSubsequence(a[..n], b') {
      if i == n {
        assert less == a[..n];
        SubsequenceSnoc(less, b', last);
      } else {
        SubsequenceDrop(a[..n], b', i);
        var shorter := a[..n][..i] + a[..n][i + 1..];
        SubsequenceSnoc(shorter, b', last);
        assert less == shorter + [last];
      }
    } else {
      SubsequenceDrop(a, b', i);
      SubsequenceSnoc(less, b', last);
    }
  }

  lemma {:induction false} SubsequenceFront(a: seq<Payload>, b: seq<Payload>, n: nat)
    requires IsSubsequence(a, b) && n <= |a|
    ensures IsSubsequence(a[..n], b)
  {
    if n < |a| {
      SubsequenceDrop(a, b, |a| - 1);
      assert a[..|a| - 1] + a[|a|..] == a[..|a| - 1];
      SubsequenceFront(a[..|a| - 1], b, n);
      assert a[..|a| - 1][..n] == a[..n];
    } else {
      assert a[..n] == a;
    }
  }

  lemma {:induction false} SubsequenceLonger(a: seq<Payload>, b: seq<Payload>, c: seq<Payload>)
    requires IsSubsequence(a, b) && b <= c
    ensures IsSubsequence(a, c)
    decreases |c|
  {
    if b != c {
      var c' := c[..|c| - 1];
      SubsequenceLonger(a, b, c');
      assert c' + [c[|c| - 1]] == c;
      SubsequenceSnoc(a, c', c[|c| - 1]);
    }
  }

  lemma {:induction false} SubsequenceOf(a: seq<Payload>, b: seq<Payload>, c: seq<Payload>)
    requires IsSubsequence(a, b) && IsSubsequence(b, c)
    ensures IsSubsequence(a, c)
    decreases |c|
  {
    if a != [] {
      var b', c', last := b[..|b| - 1], c[..|c| - 1], c[|c| - 1];
      assert c == c' + [last];
      if b[|b| - 1] == last && IsSubsequence(b', c') {
        if a[|a| - 1] == last && IsSubsequence(a[..|a| - 1], b') {
          SubsequenceOf(a[..|a| - 1], b', c');
          assert a == a[..|a| - 1] + [last];
          SubsequenceSnoc(a[..|a| - 1], c', last);
        } else {
          SubsequenceOf(a, b', c');
          SubsequenceSnoc(a, c', last);
        }
      } else {
        SubsequenceOf(a, b, c');
        SubsequenceSnoc(a, c', last);
      }
    }
  }

  lemma {:induction false} SubsequenceSize(a: seq<Payload>, b: seq<Payload>)
    requires IsSubsequence(a, b)
    ensures |a| <= |b| && (|a| == |b| ==> a == b)
    decreases |b|
  {
    if a != [] {
      var a', b' := a[..|a| - 1], b[..|b| - 1];
      if a[|a| - 1] == b[|b| - 1] && IsSubsequence(a', b') {
        SubsequenceSize(a', b');
        assert a == a' + [a[|a| - 1]] && b == b' + [b[|b| - 1]];
      } else {
        SubsequenceSize(a, b');
      }
    }
  }

  // Projections

  lemma TextsSnoc(kinds: seq<Kind>, k: Kind)
    ensures Texts(kinds + [k]) == if k.Chunk? then Texts(kinds) + [k.data] else Texts(kinds)
  {
    assert (kinds + [k])[..|kinds|] == kinds;
  }

  lemma WrittenSnoc(out: seq<Output>, o: Output)
    ensures Written(out + [o]) == if o.Data? then Written(out) + [o.text] else Written(out)
  {
    assert (out + [o])[..|out|] == out;
  }

  lemma {:induction false} TextsPrefix(a: seq<Kind>, b: seq<Kind>)
    requires a <= b
    ensures Texts(a) <= Texts(b)
  {
    if a != b {
      TextsPrefix(a, b[..|b| - 1]);
    }
  }

  lemma {:induction false} OnlySnoc(frames: seq<Frame>, f: Frame, id: Id)
    ensures Only(frames + [f], id) == Only(frames, id) + if f.id == id then [f.kind] else []
  {
    if frames == [] {
      assert frames + [f] == [f];
    } else {
      OnlySnoc(frames[1..], f, id);
      assert (frames + [f])[1..] == frames[1..] + [f];
    }
  }

  lemma OnlyOthers(frames: seq<Frame>, f: Frame, id: Id)
    requires f.id != id
    ensures Only(frames + [f], id) == Only(frames, id)
  {
    OnlySnoc(frames, f, id);
    assert Only(frames, id) + [] == Only(frames, id);
  }

  // The invariant, one request at a time

  /** Everything a connection knows about one id. */
  datatype View = View(
    request: Option<Request>,
    pending: bool,
    queued: bool,               // its request frame is in flight
    script: Option<seq<Kind>>,  // what its handler has yet to send
    sent: seq<Kind>,
    arrived: seq<Kind>,         // of those, what the relay can parse
    delivered: seq<Kind>,
    inHand: seq<Kind>,          // the reader's frame, if it is this request's
    inFlight: seq<Kind>)

  function Look(w: World, id: Id): View {
    View(if id in w.requests then Some(w.requests[id]) else None,
         id in w.pending, id in w.toAgent,
         if id in w.scripts then Some(w.scripts[id]) else None,
         Past(w.sent, id), Past(w.arrived, id), Past(w.delivered, id),
         if w.reader.Some? && w.reader.value.id == id then [w.reader.value.kind] else [],
         Only(w.fromAgent, id))
  }

  /** A handler's frames so far: only the last may end the response, and an error stands alone. */
  ghost predicate ScriptSoFar(s: seq<Kind>) {
    && (forall i :: 0 <= i < |s| - 1 ==> s[i].Chunk?)
    && (s != [] && s[|s| - 1].Fail? ==> |s| == 1)
  }

  /** What arrives is what was sent, less the frames that another writer spoilt. */
  ghost predicate AgentSends(v: View) {
    && ScriptSoFar(v.sent) && ScriptSoFar(v.arrived)
    && |v.arrived| <= |v.sent| && (forall k :: k in v.arrived ==> k in v.sent)
    && IsSubsequence(Texts(v.arrived), Texts(v.sent))
    && (v.script.Some? ==> IsScript(v.sent + v.script.value))
  }

  /** Nothing that arrives overtakes, is repeated or is invented on its way to the request. */
  ghost predicate WireOk(v: View) {
    && v.delivered + v.inHand <= v.arrived
    && (v.pending ==> v.delivered + v.inHand + v.inFlight <= v.arrived)
    && (v.pending && v.script.Some? ==> v.delivered + v.inHand + v.inFlight == v.arrived)
    && (v.inFlight != [] ==> v.arrived != [])
    && AgentSends(v)
  }

  /** A request is sent to the agent once, and the agent knows no other ids. */
  ghost predicate AgentOk(v: View) {
    && (v.queued ==> v.script.None? && v.sent == [])
    && (v.queued || v.script.Some? || v.sent != [] ==> v.request.Some? && v.request.value.stage != Inserted)
  }

  ghost predicate Failed(stage: Stage) { (stage.Returning? || stage.Gone?) && stage.outcome.WriteFailed? }

  ghost predicate Ended(stage: Stage) { (stage.Returning? || stage.Gone?) && stage.outcome.Completed? }

  ghost predicate Refused(stage: Stage) { (stage.Returning? || stage.Gone?) && stage.outcome.PeerError? }

  ghost predicate Unsent(stage: Stage) { (stage.Returning? || stage.Gone?) && stage.outcome.SendFailed? }

  /** What the channels and the caller hold of what was delivered. */
  ghost predicate RequestOk(r: Request, delivered: seq<Kind>) {
    var got, all := Written(r.out) + r.channels.chunks, Texts(delivered);
    && IsSubsequence(got, all)
    && (!Failed(r.stage) ==> |got| + r.channels.lost == |all|)
    && (r.channels.lost == 0 ==> Written(r.out) <= all && (!Failed(r.stage) ==> got == all))
    && (r.channels.closed <==> Finish in delivered)
    && MarkerLast(r.out)
    && ((r.out != [] && r.out[|r.out| - 1].DoneMarker?) <==> Ended(r.stage))
    && (Ended(r.stage) ==> r.channels.closed)
    && (r.channels.err.Some? ==> Fail(r.channels.err.value) in delivered)
    && (Refused(r.stage) ==> r.channels.err.Some?)
    && (r.stage.Inserted? || Unsent(r.stage) ==> r.out == [])
  }

  predicate MarkerLast(out: seq<Output>) {
    forall i :: 0 <= i < |out| && out[i].DoneMarker? ==> i == |out| - 1
  }

  ghost predicate ViewOk(v: View) {
    && WireOk(v) && AgentOk(v)
    && (v.pending <==> v.request.Some? && !v.request.value.stage.Gone?)
    && (v.request.Some? ==> RequestOk(v.request.value, v.delivered))
  }

  ghost predicate NoRepeats(ids: seq<Id>) { forall i, j :: 0 <= i < j < |ids| ==> ids[i] != ids[j] }

  ghost predicate Inv(w: World) {
    && !w.panicked
    && NoRepeats(w.toAgent)
    && forall id :: ViewOk(Look(w, id))
  }

  // What one step does to one request

  lemma Started(v: View)
    requires ViewOk(v) && v.request.None?
    ensures ViewOk(v.(request := Some(NEW_REQUEST), pending := true))
  {
    assert v.sent == [] && v.arrived == [] && v.delivered == [] && v.inHand == [] && v.inFlight == [];
    assert Written([]) == [] && Texts([]) == [];
  }

  lemma SentOff(v: View)
    requires ViewOk(v) && v.request.Some? && v.request.value.stage == Inserted
    ensures ViewOk(v.(request := Some(v.request.value.(stage := Selecting)), queued := true))
    ensures ViewOk(v.(request := Some(v.request.value.(stage := Returning(SendFailed)))))
    ensures !v.queued
  {
  }

  lemma Accepted(v: View, script: seq<Kind>)
    requires ViewOk(v) && v.queued && IsScript(script)
    ensures ViewOk(v.(queued := false, script := Some(script)))
  {
    assert v.sent + script == script;
  }

  /** The next frame of a script, sent. */
  lemma SentNext(sent: seq<Kind>, left: seq<Kind>)
    requires IsScript(sent + left) && left != []
    ensures ScriptSoFar(sent + [left[0]]) && IsScript(sent + [left[0]] + left[1..])
    ensures (forall k :: k in sent ==> k.Chunk?) && (left[0].Fail? ==> sent == [])
  {
    var all := sent + left;
    assert sent + [left[0]] + left[1..] == all;
    assert forall i :: 0 <= i < |sent| ==> sent[i] == all[i];
    assert all[|sent|] == left[0];
  }

  lemma TextsGrow(arrived: seq<Kind>, sent: seq<Kind>, k: Kind)
    requires IsSubsequence(Texts(arrived), Texts(sent))
    ensures IsSubsequence(Texts(arrived + [k]), Texts(sent + [k])) && IsSubsequence(Texts(arrived), Texts(sent + [k]))
  {
    TextsSnoc(sent, k);
    TextsSnoc(arrived, k);
    if k.Chunk? { SubsequenceSnoc(Texts(arrived), Texts(sent), k.data); }
  }

  lemma ArrivedSoFar(arrived: seq<Kind>, sent: seq<Kind>, k: Kind)
    requires |arrived| <= |sent| && forall x :: x in arrived ==> x in sent
    requires (forall x :: x in sent ==> x.Chunk?) && (k.Fail? ==> sent == [])
    ensures ScriptSoFar(arrived + [k])
  {
    assert forall i :: 0 <= i < |arrived| ==> (arrived + [k])[i] in arrived;
  }

  lemma AgentEmits(v: View)
    requires AgentSends(v) && v.script.Some? && v.script.value != []
    ensures var k := v.script.value[0];
            AgentSends(v.(script := Some(v.script.value[1..]), sent := v.sent + [k], arrived := v.arrived + [k]))
  {
    var k := v.script.value[0];
    SentNext(v.sent, v.script.value);
    TextsGrow(v.arrived, v.sent, k);
    ArrivedSoFar(v.arrived, v.sent, k);
    OneMore(v.arrived, k);
  }

  lemma AgentSpoils(v: View)
    requires AgentSends(v) && v.script.Some? && v.script.value != []
    ensures AgentSends(v.(script := Some(v.script.value[1..]), sent := v.sent + [v.script.value[0]]))
  {
    SentNext(v.sent, v.script.value);
    TextsGrow(v.arrived, v.sent, v.script.value[0]);
  }

  lemma Emitted(v: View)
    requires ViewOk(v) && v.script.Some? && v.script.value != []
    ensures var k := v.script.value[0];
            ViewOk(v.(script := Some(v.script.value[1..]), sent := v.sent + [k], arrived := v.arrived + [k],
                      inFlight := v.inFlight + [k]))
  {
    var k := v.script.value[0];
    AgentEmits(v);
    assert v.delivered + v.inHand + (v.inFlight + [k]) == v.delivered + v.inHand + v.inFlight + [k];
  }

  lemma Spoilt(v: View)
    requires ViewOk(v) && v.script.Some? && v.script.value != []
    ensures ViewOk(v.(script := Some(v.script.value[1..]), sent := v.sent + [v.script.value[0]]))
  {
    AgentSpoils(v);
  }

  lemma LookedUp(v: View)
    requires ViewOk(v) && v.inHand == [] && v.inFlight != []
    ensures ViewOk(v.(inFlight := v.inFlight[1..], inHand := if v.pending then [v.inFlight[0]] else []))
  {
    assert v.delivered + v.inHand + v.inFlight == v.delivered + [v.inFlight[0]] + v.inFlight[1..];
    assert v.delivered + [] == v.delivered;
  }

  /** A handler ends a response once, so the agent's side of the protocol keeps Dispatch from panicking. */
  lemma FinishOnce(sent: seq<Kind>, before: seq<Kind>)
    requires ScriptSoFar(sent) && before + [Finish] <= sent
    ensures Finish !in before
  {
    forall i | 0 <= i < |before| ensures before[i] != Finish {
      assert sent[i] == before[i] && i < |sent| - 1;
    }
  }

  lemma OneMore(past: seq<Kind>, kind: Kind)
    ensures forall k :: k in past + [kind] <==> k in past || k == kind
  {
  }

  lemma Queued(r: Request, past: seq<Kind>, data: Payload)
    requires RequestOk(r, past)
    ensures RequestOk(r.(channels := r.channels.(chunks := r.channels.chunks + [data])), past + [Chunk(data)])
  {
    OneMore(past, Chunk(data));
    TextsSnoc(past, Chunk(data));
    SubsequenceSnoc(Written(r.out) + r.channels.chunks, Texts(past), data);
    Associates(Written(r.out), r.channels.chunks, [data]);
  }

  lemma Associates(a: seq<Payload>, b: seq<Payload>, c: seq<Payload>)
    ensures a + (b + c) == a + b + c
  {
  }

  lemma Dropped(r: Request, past: seq<Kind>, data: Payload)
    requires RequestOk(r, past)
    ensures RequestOk(r.(channels := r.channels.(lost := r.channels.lost + 1)), past + [Chunk(data)])
  {
    OneMore(past, Chunk(data));
    TextsSnoc(past, Chunk(data));
    SubsequenceSnoc(Written(r.out) + r.channels.chunks, Texts(past), data);
  }

  lemma OfferEnd(r: Request, past: seq<Kind>, kind: Kind)
    requires RequestOk(r, past) && !kind.Chunk?
    ensures RequestOk(r.(channels := Offer(r.channels, kind).0), past + [kind])
  {
    TextsSnoc(past, kind);
    OneMore(past, kind);
  }

  lemma OfferKeeps(r: Request, past: seq<Kind>, kind: Kind)
    requires RequestOk(r, past) && (kind == Finish ==> Finish !in past)
    ensures !Offer(r.channels, kind).1
    ensures RequestOk(r.(channels := Offer(r.channels, kind).0), past + [kind])
  {
    if !kind.Chunk? {
      OfferEnd(r, past, kind);
    } else if |r.channels.chunks| < QUEUE {
      Queued(r, past, kind.data);
    } else {
      Dropped(r, past, kind.data);
    }
  }

  lemma Delivered(v: View)
    requires ViewOk(v) && |v.inHand| == 1
    ensures v.request.Some? && !Offer(v.request.value.channels, v.inHand[0]).1
    ensures var r := v.request.value;
            ViewOk(v.(request := Some(r.(channels := Offer(r.channels, v.inHand[0]).0)),
                      delivered := v.delivered + v.inHand, inHand := []))
  {
    if v.inHand[0] == Finish { FinishOnce(v.arrived, v.delivered); }
    assert v.inHand == [v.inHand[0]];
    OfferKeeps(v.request.value, v.delivered, v.inHand[0]);
    var past := v.delivered + v.inHand;
    assert past + [] == past;
  }

  lemma TookFirst(written: seq<Payload>, chunks: seq<Payload>, all: seq<Payload>)
    requires IsSubsequence(written + chunks, all) && chunks != []
    ensures IsSubsequence(written + chunks[1..], all)
    ensures written + [chunks[0]] + chunks[1..] == written + chunks
  {
    var got := written + chunks;
    SubsequenceDrop(got, all, |written|);
    assert got[..|written|] + got[|written| + 1..] == written + chunks[1..];
  }

  lemma TookChunk(r: Request, past: seq<Kind>)
    requires RequestOk(r, past) && r.stage.Selecting? && r.channels.chunks != []
    ensures var rest := r.channels.(chunks := r.channels.chunks[1..]);
            RequestOk(r.(channels := rest, out := r.out + [Data(r.channels.chunks[0])]), past)
  {
    WrittenSnoc(r.out, Data(r.channels.chunks[0]));
    TookFirst(Written(r.out), r.channels.chunks, Texts(past));
  }

  lemma WriteStopped(r: Request, past: seq<Kind>)
    requires RequestOk(r, past) && r.stage.Selecting? && r.channels.chunks != []
    ensures var rest := r.channels.(chunks := r.channels.chunks[1..]);
            RequestOk(r.(channels := rest, stage := Returning(WriteFailed)), past)
  {
    TookFirst(Written(r.out), r.channels.chunks, Texts(past));
  }

  lemma TookDone(r: Request, past: seq<Kind>)
    requires RequestOk(r, past) && r.stage.Selecting? && r.channels.closed
    ensures RequestOk(r.(out := r.out + [DoneMarker], stage := Returning(Completed)), past)
  {
    WrittenSnoc(r.out, DoneMarker);
  }

  lemma CutOff(v: View)
    requires ViewOk(v)
    ensures ViewOk(v.(queued := false, script := None, inFlight := []))
  {
    assert v.delivered + v.inHand + [] == v.delivered + v.inHand;
  }

  // What one step does to the connection

  ghost predicate OthersKept(w: World, w': World, id: Id) {
    forall other :: other != id ==> Look(w', other) == Look(w, other)
  }

  lemma Reassemble(w: World, w': World, id: Id)
    requires Inv(w) && OthersKept(w, w', id)
    requires !w'.panicked && NoRepeats(w'.toAgent) && ViewOk(Look(w', id))
    ensures Inv(w')
  {
    forall other ensures ViewOk(Look(w', other)) {
      if other != id { assert Look(w', other) == Look(w, other); }
    }
  }

  lemma InsertKeeps(w: World, id: Id)
    requires Inv(w) && id !in w.requests
    ensures Inv(Next(w, Insert(id)))
  {
    var w' := Next(w, Insert(id));
    Started(Look(w, id));
    Reassemble(w, w', id);
  }

  lemma SendLook(w: World, id: Id)
    requires In(w, id, Inserted) && w.connected && NoRepeats(w.toAgent) && id !in w.toAgent
    ensures var w', v := Next(w, SendRequest(id)), Look(w, id);
            && NoRepeats(w'.toAgent) && OthersKept(w, w', id)
            && Look(w', id) == v.(request := Some(v.request.value.(stage := Selecting)), queued := true)
  {
  }

  lemma SendKeeps(w: World, id: Id)
    requires Inv(w) && In(w, id, Inserted) && w.connected
    ensures Inv(Next(w, SendRequest(id)))
  {
    SentOff(Look(w, id));
    SendLook(w, id);
    Reassemble(w, Next(w, SendRequest(id)), id);
  }

  lemma SendFailureLook(w: World, id: Id)
    requires In(w, id, Inserted)
    ensures var w', v := Next(w, SendFails(id)), Look(w, id);
            && OthersKept(w, w', id)
            && Look(w', id) == v.(request := Some(v.request.value.(stage := Returning(SendFailed))))
  {
  }

  lemma SendFailureKeeps(w: World, id: Id)
    requires Inv(w) && In(w, id, Inserted)
    ensures Inv(Next(w, SendFails(id)))
  {
    SentOff(Look(w, id));
    SendFailureLook(w, id);
    Reassemble(w, Next(w, SendFails(id)), id);
  }

  lemma AcceptLook(w: World, script: seq<Kind>)
    requires w.toAgent != [] && NoRepeats(w.toAgent) && IsScript(script)
    ensures var w', id := Next(w, Accept(script)), w.toAgent[0];
            && NoRepeats(w'.toAgent) && OthersKept(w, w', id)
            && Look(w', id) == Look(w, id).(queued := false, script := Some(script))
  {
    var w', id := Next(w, Accept(script)), w.toAgent[0];
    assert w.toAgent == [id] + w'.toAgent && id !in w'.toAgent;
    forall other | other != id ensures Look(w', other) == Look(w, other) {
      assert other in w.toAgent <==> other in w'.toAgent;
    }
  }

  lemma AcceptKeeps(w: World, script: seq<Kind>)
    requires Inv(w) && w.toAgent != [] && IsScript(script)
    ensures Inv(Next(w, Accept(script)))
  {
    AcceptLook(w, script);
    Accepted(Look(w, w.toAgent[0]), script);
    Reassemble(w, Next(w, Accept(script)), w.toAgent[0]);
  }

  lemma EmitLook(w: World, id: Id)
    requires id in w.scripts && w.scripts[id] != []
    ensures var w', v, k := Next(w, Emit(id)), Look(w, id), w.scripts[id][0];
            Look(w', id)
            == v.(script := Some(w.scripts[id][1..]), sent := v.sent + [k], arrived := v.arrived + [k],
                  inFlight := v.inFlight + [k])
  {
    OnlySnoc(w.fromAgent, Frame(id, w.scripts[id][0]), id);
  }

  lemma EmitLookAway(w: World, id: Id, other: Id)
    requires id in w.scripts && w.scripts[id] != [] && other != id
    ensures Look(Next(w, Emit(id)), other) == Look(w, other)
  {
    OnlyOthers(w.fromAgent, Frame(id, w.scripts[id][0]), other);
  }

  lemma EmitOthers(w: World, id: Id)
    requires id in w.scripts && w.scripts[id] != []
    ensures OthersKept(w, Next(w, Emit(id)), id)
  {
    forall other | other != id ensures Look(Next(w, Emit(id)), other) == Look(w, other) {
      EmitLookAway(w, id, other);
    }
  }

  lemma EmitKeeps(w: World, id: Id)
    requires Inv(w) && id in w.scripts && w.scripts[id] != []
    ensures Inv(Next(w, Emit(id)))
  {
    EmitOthers(w, id);
    EmitLook(w, id);
    Emitted(Look(w, id));
    Reassemble(w, Next(w, Emit(id)), id);
  }

  lemma SpoilLook(w: World, id: Id)
    requires id in w.scripts && w.scripts[id] != []
    ensures var w', v := Next(w, Spoil(id)), Look(w, id);
            && OthersKept(w, w', id)
            && Look(w', id) == v.(script := Some(w.scripts[id][1..]), sent := v.sent + [w.scripts[id][0]])
  {
  }

  lemma SpoilKeeps(w: World, id: Id)
    requires Inv(w) && id in w.scripts && w.scripts[id] != []
    ensures Inv(Next(w, Spoil(id)))
  {
    SpoilLook(w, id);
    Spoilt(Look(w, id));
    Reassemble(w, Next(w, Spoil(id)), id);
  }

  lemma LookupLook(w: World)
    requires w.reader.None? && w.fromAgent != []
    ensures var w', id := Next(w, Lookup), w.fromAgent[0].id;
            var v := Look(w, id);
            && OthersKept(w, w', id) && v.inHand == [] && v.inFlight != []
            && Look(w', id) == v.(inFlight := v.inFlight[1..], inHand := if v.pending then [v.inFlight[0]] else [])
  {
  }

  lemma LookupKeeps(w: World)
    requires Inv(w) && w.reader.None? && w.fromAgent != []
    ensures Inv(Next(w, Lookup))
  {
    LookupLook(w);
    LookedUp(Look(w, w.fromAgent[0].id));
    Reassemble(w, Next(w, Lookup), w.fromAgent[0].id);
  }

  lemma DeliverLook(w: World)
    requires w.reader.Some? && w.reader.value.id in w.requests
    ensures var w', id := Next(w, Deliver), w.reader.value.id;
            var v, r := Look(w, id), w.requests[id];
            && OthersKept(w, w', id) && |v.inHand| == 1
            && Look(w', id) == v.(request := Some(r.(channels := Offer(r.channels, v.inHand[0]).0)),
                                  delivered := v.delivered + v.inHand, inHand := [])
  {
  }

  lemma DeliverKeeps(w: World)
    requires Inv(w) && w.reader.Some?
    ensures Inv(Next(w, Deliver)) && w.reader.value.id in w.requests
  {
    var id := w.reader.value.id;
    Delivered(Look(w, id));
    DeliverLook(w);
    Reassemble(w, Next(w, Deliver), id);
  }

  lemma ForwardLook(w: World, w': World, id: Id, r: Request)
    requires id in w.requests && (id in w.pending)
    requires w' == SetRequest(w, id, r).(pending := if r.stage.Gone? then w.pending - {id} else w.pending)
    ensures OthersKept(w, w', id)
    ensures Look(w', id) == Look(w, id).(request := Some(r), pending := !r.stage.Gone?)
  {
  }

  /** A step of Forward changes its own request alone. */
  lemma ForwardKeeps(w: World, w': World, id: Id, r: Request)
    requires Inv(w) && id in w.requests && !w.requests[id].stage.Gone?
    requires RequestOk(r, Past(w.delivered, id)) && r.stage != Inserted
    requires w' == SetRequest(w, id, r).(pending := if r.stage.Gone? then w.pending - {id} else w.pending)
    ensures Inv(w')
  {
    assert ViewOk(Look(w, id));
    ForwardLook(w, w', id, r);
    Reassemble(w, w', id);
  }

  lemma TakeChunkKeeps(w: World, id: Id, writeOk: bool)
    requires Inv(w) && In(w, id, Selecting) && w.requests[id].channels.chunks != []
    ensures Inv(Next(w, TakeChunk(id, writeOk)))
  {
    var w' := Next(w, TakeChunk(id, writeOk));
    assert ViewOk(Look(w, id));
    if writeOk {
      TookChunk(w.requests[id], Past(w.delivered, id));
    } else {
      WriteStopped(w.requests[id], Past(w.delivered, id));
    }
    ForwardKeeps(w, w', id, w'.requests[id]);
  }

  lemma TakeDoneKeeps(w: World, id: Id)
    requires Inv(w) && In(w, id, Selecting) && w.requests[id].channels.closed
    ensures Inv(Next(w, TakeDone(id)))
  {
    var w' := Next(w, TakeDone(id));
    assert ViewOk(Look(w, id));
    TookDone(w.requests[id], Past(w.delivered, id));
    ForwardKeeps(w, w', id, w'.requests[id]);
  }

  lemma TakeErrorKeeps(w: World, id: Id)
    requires Inv(w) && In(w, id, Selecting) && w.requests[id].channels.err.Some?
    ensures Inv(Next(w, TakeError(id)))
  {
    var w' := Next(w, TakeError(id));
    assert ViewOk(Look(w, id));
    ForwardKeeps(w, w', id, w'.requests[id]);
  }

  lemma RemoveKeeps(w: World, id: Id)
    requires Inv(w) && id in w.requests && w.requests[id].stage.Returning?
    ensures Inv(Next(w, Remove(id)))
  {
    var w' := Next(w, Remove(id));
    assert ViewOk(Look(w, id));
    ForwardKeeps(w, w', id, w'.requests[id]);
  }

  lemma DisconnectKeeps(w: World)
    requires Inv(w)
    ensures Inv(Next(w, Disconnect))
  {
    var w' := Next(w, Disconnect);
    forall id ensures ViewOk(Look(w', id)) {
      CutOff(Look(w, id));
      assert Look(w', id) == Look(w, id).(queued := false, script := None, inFlight := []);
    }
  }

  lemma NextKeeps(w: World, step: Step)
    requires Inv(w) && !step.Stray?
    ensures Inv(Next(w, step))
  {
    if Next(w, step) != w {
      match step
      case Insert(id) => InsertKeeps(w, id);
      case SendRequest(id) => SendKeeps(w, id);
      case SendFails(id) => SendFailureKeeps(w, id);
      case Accept(script) => AcceptKeeps(w, script);
      case Emit(id) => EmitKeeps(w, id);
      case Spoil(id) => SpoilKeeps(w, id);
      case Lookup => LookupKeeps(w);
      case Deliver => DeliverKeeps(w);
      case Disconnect => DisconnectKeeps(w);
      case TakeChunk(id, writeOk) => TakeChunkKeeps(w, id, writeOk);
      case TakeDone(id) => TakeDoneKeeps(w, id);
      case TakeError(id) => TakeErrorKeeps(w, id);
      case Remove(id) => RemoveKeeps(w, id);
    }
  }

  lemma {:induction false} AlwaysSafe(steps: seq<Step>)
    requires Obedient(steps)
    ensures Inv(Exec(START, steps))
  {
    if steps == [] {
      forall id ensures ViewOk(Look(START, id)) {}
    } else {
      AlwaysSafe(steps[..|steps| - 1]);
      NextKeeps(Exec(START, steps[..|steps| - 1]), steps[|steps| - 1]);
    }
  }

  lemma AlwaysOk(steps: seq<Step>, id: Id)
    requires Obedient(steps)
    ensures ViewOk(Look(Exec(START, steps), id))
  {
    AlwaysSafe(steps);
  }
}
