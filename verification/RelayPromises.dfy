/** What callers, the connection and the agent can rely on, over every run. */
module RelayPromises {
  import opened Relay
  import opened RelaySafety

  // What a caller is sent

  /**
   * The caller gets the agent's chunks for its own id, in order, with some left out at most; with
   * no frame spoilt on the way and no chunk lost to a full queue, it gets a prefix of them.
   */
  lemma CallerGetsItsChunks(steps: seq<Step>, id: Id)
    requires Obedient(steps) && id in Exec(START, steps).requests
    ensures var w := Exec(START, steps);
            var r, sent, arrived := w.requests[id], Texts(Past(w.sent, id)), Texts(Past(w.arrived, id));
            && IsSubsequence(Written(r.out), arrived) && IsSubsequence(arrived, sent)
            && IsSubsequence(Written(r.out), sent)
            && (r.channels.lost == 0 ==> Written(r.out) <= arrived)
            && (r.channels.lost == 0 && Past(w.arrived, id) == Past(w.sent, id) ==> Written(r.out) <= sent)
  {
    AlwaysOk(steps, id);
    var w := Exec(START, steps);
    var r, delivered, arrived := w.requests[id], Past(w.delivered, id), Past(w.arrived, id);
    WrittenArrived(r, delivered, arrived);
    SubsequenceOf(Written(r.out), Texts(arrived), Texts(Past(w.sent, id)));
  }

  lemma WrittenArrived(r: Request, delivered: seq<Kind>, arrived: seq<Kind>)
    requires RequestOk(r, delivered) && delivered <= arrived
    ensures IsSubsequence(Written(r.out), Texts(arrived))
    ensures r.channels.lost == 0 ==> Written(r.out) <= Texts(arrived)
  {
    var got := Written(r.out) + r.channels.chunks;
    SubsequenceFront(got, Texts(delivered), |Written(r.out)|);
    assert got[..|Written(r.out)|] == Written(r.out);
    TextsPrefix(delivered, arrived);
    SubsequenceLonger(Written(r.out), Texts(delivered), Texts(arrived));
  }

  /** The end marker comes last, once, and only after the agent's done frame for this id arrived. */
  lemma MarkerEndsResponse(steps: seq<Step>, id: Id, i: nat)
    requires Obedient(steps) && id in Exec(START, steps).requests
    requires i < |Exec(START, steps).requests[id].out| && Exec(START, steps).requests[id].out[i].DoneMarker?
    ensures var w := Exec(START, steps);
            && i == |w.requests[id].out| - 1
            && Finish in Past(w.delivered, id)
            && Past(w.delivered, id) == Past(w.arrived, id)
  {
    AlwaysOk(steps, id);
    var w := Exec(START, steps);
    DoneIsLast(Past(w.arrived, id), Past(w.delivered, id));
  }

  lemma DoneIsLast(sent: seq<Kind>, delivered: seq<Kind>)
    requires ScriptSoFar(sent) && delivered <= sent && Finish in delivered
    ensures delivered == sent
  {
    var i :| 0 <= i < |delivered| && delivered[i] == Finish;
    assert sent[i] == Finish;
    assert i == |sent| - 1;
  }

  lemma {:induction false} WrittenLength(out: seq<Output>)
    requires forall i :: 0 <= i < |out| ==> out[i].Data?
    ensures |Written(out)| == |out|
  {
    if out != [] {
      WrittenLength(out[..|out| - 1]);
      assert out[|out| - 1].Data?;
    }
  }

  /** A request that ends in an error, at the agent or on the way to it, has sent its caller nothing. */
  lemma ErrorsComeAlone(steps: seq<Step>, w: World, id: Id)
    requires Obedient(steps) && w == Exec(START, steps) && id in w.requests
    requires Refused(w.requests[id].stage) || Unsent(w.requests[id].stage)
    ensures w.requests[id].out == []
    ensures Refused(w.requests[id].stage) ==>
              && w.requests[id].channels.err.Some?
              && Past(w.sent, id) == [Fail(w.requests[id].channels.err.value)]
  {
    AlwaysOk(steps, id);
    if Refused(w.requests[id].stage) {
      RefusedAlone(w.requests[id], Past(w.delivered, id), Past(w.arrived, id), Past(w.sent, id));
    }
  }

  lemma RefusedAlone(r: Request, delivered: seq<Kind>, arrived: seq<Kind>, sent: seq<Kind>)
    requires RequestOk(r, delivered) && Refused(r.stage) && ScriptSoFar(sent)
    requires delivered <= arrived && |arrived| <= |sent| && forall k :: k in arrived ==> k in sent
    ensures r.out == [] && r.channels.err.Some? && sent == [Fail(r.channels.err.value)]
  {
    assert forall k :: k in delivered ==> k in arrived;
    FailStandsAlone(sent, r.channels.err.value);
    assert delivered == sent by {
      assert delivered != [] && delivered[0] in delivered;
    }
    WrittenArrived(r, delivered, delivered);
    WrittenLength(r.out);
  }

  lemma FailStandsAlone(sent: seq<Kind>, message: string)
    requires ScriptSoFar(sent) && Fail(message) in sent
    ensures sent == [Fail(message)] && Texts(sent) == []
  {
    var i :| 0 <= i < |sent| && sent[i] == Fail(message);
    assert i == |sent| - 1;
    assert sent == [Fail(message)];
    assert sent[..|sent| - 1] == [];
  }

  lemma CompleteOn(r: Request, delivered: seq<Kind>)
    requires RequestOk(r, delivered) && r.stage.Selecting?
    ensures Written(r.out + [DoneMarker]) == Texts(delivered) <==> r.channels.chunks == [] && r.channels.lost == 0
  {
    WrittenSnoc(r.out, DoneMarker);
    var got, all := Written(r.out) + r.channels.chunks, Texts(delivered);
    SubsequenceSize(got, all);
    assert r.channels.chunks == [] ==> got == Written(r.out);
  }

  /**
   * When Forward takes the done signal, the caller has the whole response exactly if no chunk is
   * still queued, none was lost to a full queue and none was spoilt by another writer: select may
   * prefer the signal to a queue that is not empty.
   */
  lemma CompleteIff(steps: seq<Step>, w: World, id: Id)
    requires Obedient(steps) && w == Exec(START, steps)
    requires In(w, id, Selecting) && w.requests[id].channels.closed
    ensures Written(SelectDone(w, id).requests[id].out) == Texts(Past(w.sent, id))
            <==> && w.requests[id].channels.chunks == [] && w.requests[id].channels.lost == 0
                 && Texts(Past(w.arrived, id)) == Texts(Past(w.sent, id))
  {
    AlwaysOk(steps, id);
    var r, delivered := w.requests[id], Past(w.delivered, id);
    DoneIsLast(Past(w.arrived, id), delivered);
    CompleteOn(r, delivered);
    DoneWrites(r);
    WrittenArrived(r, delivered, delivered);
    SubsequenceSize(Written(r.out), Texts(delivered));
    SubsequenceSize(Texts(delivered), Texts(Past(w.sent, id)));
  }

  lemma DoneWrites(r: Request)
    ensures Written(r.out + [DoneMarker]) == Written(r.out)
  {
    WrittenSnoc(r.out, DoneMarker);
  }

  // The table and its channels

  /** The table holds exactly the Forward calls between their insert and their deferred delete. */
  lemma PendingIsForwards(steps: seq<Step>, id: Id)
    requires Obedient(steps)
    ensures var w := Exec(START, steps);
            id in w.pending <==> id in w.requests && !w.requests[id].stage.Gone?
  {
    AlwaysOk(steps, id);
    var w := Exec(START, steps);
  }

  lemma NeverClosesTwice(steps: seq<Step>)
    requires Obedient(steps)
    ensures !Exec(START, steps).panicked
  {
    AlwaysSafe(steps);
  }
}
