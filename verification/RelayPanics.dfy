/** When a channel is closed twice, whatever the other end of the connection sends. */
module RelayPanics {
  import opened Relay

  ghost predicate FinishedTwice(kinds: seq<Kind>) {
    exists i, j :: 0 <= i < j < |kinds| && kinds[i] == Finish && kinds[j] == Finish
  }

  lemma FinishedTwiceSnoc(kinds: seq<Kind>, k: Kind)
    ensures FinishedTwice(kinds + [k]) <==> FinishedTwice(kinds) || (k == Finish && Finish in kinds)
  {
    var all := kinds + [k];
    if FinishedTwice(kinds) {
      var i, j :| 0 <= i < j < |kinds| && kinds[i] == Finish && kinds[j] == Finish;
      assert all[i] == Finish && all[j] == Finish;
    }
    if k == Finish && Finish in kinds {
      var i :| 0 <= i < |kinds| && kinds[i] == Finish;
      assert all[i] == Finish && all[|kinds|] == Finish;
    }
    if FinishedTwice(all) {
      var i, j :| 0 <= i < j < |all| && all[i] == Finish && all[j] == Finish;
      assert kinds[i] == Finish;
      assert j < |kinds| ==> kinds[j] == Finish;
    }
  }

  ghost predicate Panicky(delivered: map<Id, seq<Kind>>) { exists id :: FinishedTwice(Past(delivered, id)) }

  predicate IsClosed(w: World, id: Id) { id in w.requests && w.requests[id].channels.closed }

  ghost predicate Honest(w: World) {
    && (forall id :: IsClosed(w, id) <==> Finish in Past(w.delivered, id))
    && (w.panicked <==> Panicky(w.delivered))
  }

  lemma RecordPanics(delivered: map<Id, seq<Kind>>, id: Id, kind: Kind)
    ensures Panicky(Record(delivered, id, kind))
            <==> Panicky(delivered) || (kind == Finish && Finish in Past(delivered, id))
  {
    var more := Record(delivered, id, kind);
    FinishedTwiceSnoc(Past(delivered, id), kind);
    assert Past(more, id) == Past(delivered, id) + [kind];
    assert forall other :: other != id ==> Past(more, other) == Past(delivered, other);
    if Panicky(delivered) {
      var other :| FinishedTwice(Past(delivered, other));
      assert FinishedTwice(Past(more, other));
    }
    if Panicky(more) {
      var other :| FinishedTwice(Past(more, other));
      assert other != id ==> FinishedTwice(Past(delivered, other));
    }
  }

  lemma DispatchCloses(w: World, id: Id)
    requires w.reader.Some? && w.reader.value.id in w.requests
    ensures var w', f := Dispatch(w), w.reader.value;
            && (IsClosed(w', id) <==> IsClosed(w, id) || (f.id == id && f.kind == Finish))
            && (w'.panicked <==> w.panicked || (IsClosed(w, f.id) && f.kind == Finish))
            && Past(w'.delivered, id) == Past(w.delivered, id) + if f.id == id then [f.kind] else []
  {
  }

  lemma DispatchHonest(w: World)
    requires Honest(w) && w.reader.Some? && w.reader.value.id in w.requests
    ensures Honest(Dispatch(w))
  {
    var f := w.reader.value;
    RecordPanics(w.delivered, f.id, f.kind);
    DispatchCloses(w, f.id);
    forall id ensures IsClosed(Dispatch(w), id) <==> Finish in Past(Dispatch(w).delivered, id) {
      DispatchCloses(w, id);
    }
  }

  /** Nothing that bears on a panic has happened to the request. */
  ghost predicate Quiet(w: World, w': World, id: Id) {
    IsClosed(w', id) == IsClosed(w, id) && w'.delivered == w.delivered && w'.panicked == w.panicked
  }

  lemma ChunkQuiet(w: World, taken: Id, writeOk: bool, id: Id)
    ensures Quiet(w, SelectChunk(w, taken, writeOk), id)
  {
  }

  lemma SelectQuiet(w: World, taken: Id, id: Id)
    ensures Quiet(w, SelectDone(w, taken), id) && Quiet(w, SelectError(w, taken), id)
  {
  }

  lemma TableQuiet(w: World, of: Id, id: Id)
    ensures Quiet(w, Begin(w, of), id) && Quiet(w, Leave(w, of), id)
  {
  }

  lemma SendQuiet(w: World, of: Id, id: Id)
    ensures Quiet(w, Send(w, of), id) && Quiet(w, FailToSend(w, of), id)
  {
  }

  predicate OfSelect(step: Step) { step.TakeChunk? || step.TakeDone? || step.TakeError? }

  predicate OfForward(step: Step) { step.Insert? || step.SendRequest? || step.SendFails? || step.Remove? }

  lemma SelectingQuiet(w: World, step: Step, id: Id)
    requires OfSelect(step)
    ensures Quiet(w, Next(w, step), id)
  {
    if step.TakeChunk? { ChunkQuiet(w, step.id, step.writeOk, id); } else { SelectQuiet(w, step.id, id); }
  }

  lemma ForwardingQuiet(w: World, step: Step, id: Id)
    requires OfForward(step)
    ensures Quiet(w, Next(w, step), id)
  {
    TableQuiet(w, step.id, id);
    SendQuiet(w, step.id, id);
  }

  lemma AgentQuiet(w: World, step: Step, id: Id)
    requires !OfSelect(step) && !OfForward(step) && !step.Deliver?
    ensures Quiet(w, Next(w, step), id)
  {
  }

  /** Only a dispatch closes a channel, and only a dispatch panics. */
  lemma OnlyDispatchCloses(w: World, step: Step, id: Id)
    requires !step.Deliver?
    ensures Quiet(w, Next(w, step), id)
  {
    if OfSelect(step) {
      SelectingQuiet(w, step, id);
    } else if OfForward(step) {
      ForwardingQuiet(w, step, id);
    } else {
      AgentQuiet(w, step, id);
    }
  }

  lemma QuietHonest(w: World, w': World)
    requires Honest(w) && forall id :: Quiet(w, w', id)
    ensures Honest(w')
  {
    assert Quiet(w, w', 0);
    forall id ensures IsClosed(w', id) <==> Finish in Past(w'.delivered, id) { assert Quiet(w, w', id); }
  }

  lemma NextHonest(w: World, step: Step)
    requires Honest(w)
    ensures Honest(Next(w, step))
  {
    if !step.Deliver? {
      forall id ensures Quiet(w, Next(w, step), id) { OnlyDispatchCloses(w, step, id); }
      QuietHonest(w, Next(w, step));
    } else if Next(w, step) != w {
      DispatchHonest(w);
    }
  }

  /** Whatever the other end sends, the relay panics exactly if it dispatches a second done to one request. */
  lemma {:induction false} PanicsIff(steps: seq<Step>)
    ensures var w := Exec(START, steps); w.panicked <==> Panicky(w.delivered)
    ensures Honest(Exec(START, steps))
  {
    if steps == [] {
      assert forall id :: Past(START.delivered, id) == [];
    } else {
      PanicsIff(steps[..|steps| - 1]);
      NextHonest(Exec(START, steps[..|steps| - 1]), steps[|steps| - 1]);
    }
  }

  // A run that panics

  const ASKED := NEW_REQUEST.(stage := Selecting)

  const WAITING := START.(requests := map[0 := ASKED], pending := {0}, toAgent := [0])

  const DONE := Frame(0, Finish)

  const CLOSED := ASKED.(channels := ASKED.channels.(closed := true))

  /** The other end has sent two done frames, and the relay has dispatched the first. */
  const HALFWAY := WAITING.(requests := map[0 := CLOSED], fromAgent := [DONE], delivered := map[0 := [Finish]])

  lemma Asks()
    ensures Next(Next(START, Insert(0)), SendRequest(0)) == WAITING
  {
    assert [] + [0] == [0];
  }

  lemma Strays()
    ensures Next(Next(WAITING, Stray(DONE)), Stray(DONE)) == WAITING.(fromAgent := [DONE, DONE])
  {
    assert [] + [DONE] == [DONE] && [DONE] + [DONE] == [DONE, DONE];
  }

  lemma FirstDone()
    ensures Next(Next(WAITING.(fromAgent := [DONE, DONE]), Lookup), Deliver) == HALFWAY
  {
    assert [DONE, DONE][1..] == [DONE] && [] + [Finish] == [Finish];
  }

  lemma SecondDone()
    ensures Next(Next(HALFWAY, Lookup), Deliver).panicked
  {
  }

  lemma ExecTwo(steps: seq<Step>, w: World, a: Step, b: Step)
    requires Exec(START, steps) == w
    ensures Exec(START, steps + [a, b]) == Next(Next(w, a), b)
  {
    assert (steps + [a, b])[..|steps| + 1] == steps + [a];
    assert (steps + [a])[..|steps|] == steps;
  }

  /** Two done frames for one request close its channel twice. */
  lemma TwoDonesPanic() returns (steps: seq<Step>)
    ensures steps == [Insert(0), SendRequest(0), Stray(DONE), Stray(DONE), Lookup, Deliver, Lookup, Deliver]
    ensures Exec(START, steps).panicked
  {
    ExecTwo([], START, Insert(0), SendRequest(0));
    Asks();
    steps := [] + [Insert(0), SendRequest(0)];
    ExecTwo(steps, WAITING, Stray(DONE), Stray(DONE));
    Strays();
    steps := steps + [Stray(DONE), Stray(DONE)];
    ExecTwo(steps, WAITING.(fromAgent := [DONE, DONE]), Lookup, Deliver);
    FirstDone();
    steps := steps + [Lookup, Deliver];
    ExecTwo(steps, HALFWAY, Lookup, Deliver);
    SecondDone();
    steps := steps + [Lookup, Deliver];
  }
}
