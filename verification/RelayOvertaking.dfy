/** A run in which the done signal overtakes the response. */
module RelayOvertaking {
  import opened Wrappers
  import opened Relay

  const HI: Payload := [104, 105]

  const GREET: seq<Kind> := [Chunk(HI)]

  const GREETING: seq<Kind> := [Chunk(HI), Finish]

  const ASKED := NEW_REQUEST.(stage := Selecting)

  const HEARD := ASKED.(channels := ASKED.channels.(chunks := [HI]))

  const ACCEPTED := START.(requests := map[0 := ASKED], pending := {0}, scripts := map[0 := GREETING])

  const HALFWAY :=
    ACCEPTED.(scripts := map[0 := [Finish]], fromAgent := [Frame(0, Chunk(HI))], sent := map[0 := GREET],
              arrived := map[0 := GREET])

  const ANSWERED := ACCEPTED.(scripts := map[0 := []], fromAgent := [Frame(0, Chunk(HI)), Frame(0, Finish)],
                              sent := map[0 := GREETING], arrived := map[0 := GREETING])

  const READ_CHUNK := ANSWERED.(fromAgent := [Frame(0, Finish)], reader := Some(Frame(0, Chunk(HI))))

  const QUEUED := ANSWERED.(requests := map[0 := HEARD], fromAgent := [Frame(0, Finish)], delivered := map[0 := GREET])

  const READ_DONE := QUEUED.(fromAgent := [], reader := Some(Frame(0, Finish)))

  const CLOSED := QUEUED.(requests := map[0 := HEARD.(channels := HEARD.channels.(closed := true))], fromAgent := [],
                          delivered := map[0 := GREETING])

  lemma Accepts()
    ensures Next(Next(Next(START, Insert(0)), SendRequest(0)), Accept(GREETING)) == ACCEPTED
  {
  }

  lemma Emits()
    ensures Next(ACCEPTED, Emit(0)) == HALFWAY
  {
    assert [] + GREET == GREET && GREETING[1..] == [Finish];
    assert [] + [Frame(0, Chunk(HI))] == [Frame(0, Chunk(HI))];
  }

  lemma EmitsDone()
    ensures Next(HALFWAY, Emit(0)) == ANSWERED
  {
    assert GREET + [Finish] == GREETING && [Finish][1..] == [];
    assert [Frame(0, Chunk(HI))] + [Frame(0, Finish)] == ANSWERED.fromAgent;
  }

  lemma Queues()
    ensures Next(READ_CHUNK, Deliver) == QUEUED
  {
    assert [] + GREET == GREET && [] + [HI] == [HI];
  }

  lemma Closes()
    ensures Next(READ_DONE, Deliver) == CLOSED
  {
    assert GREET + [Finish] == GREETING;
  }

  lemma Looks()
    ensures Next(ANSWERED, Lookup) == READ_CHUNK && Next(QUEUED, Lookup) == READ_DONE
  {
  }

  lemma {:induction false} Chain(steps: seq<Step>, worlds: seq<World>)
    requires |worlds| == |steps| + 1 && worlds[0] == START
    requires forall k :: 0 <= k < |steps| ==> Next(worlds[k], steps[k]) == worlds[k + 1]
    ensures Exec(START, steps) == worlds[|steps|]
  {
    if steps != [] {
      Chain(steps[..|steps| - 1], worlds[..|steps|]);
    }
  }

  const OVERTAKING: seq<Step> :=
    [Insert(0), SendRequest(0), Accept(GREETING), Emit(0), Emit(0), Lookup, Deliver, Lookup, Deliver, TakeDone(0)]

  lemma Overtakes(steps: seq<Step>)
    requires steps == OVERTAKING
    ensures Exec(START, steps) == Next(CLOSED, TakeDone(0))
  {
    var w1 := Next(START, Insert(0));
    var w2 := Next(w1, SendRequest(0));
    Accepts(); Emits(); EmitsDone(); Looks(); Queues(); Closes();
    var w10 := Next(CLOSED, TakeDone(0));
    Chain(steps, [START, w1, w2, ACCEPTED, HALFWAY, ANSWERED, READ_CHUNK, QUEUED, READ_DONE, CLOSED, w10]);
  }

  /** The agent answered "hi", and the caller was sent the end marker alone. */
  lemma DoneMayOvertake()
    ensures var w := Exec(START, OVERTAKING);
            && 0 in w.requests && w.requests[0].out == [DoneMarker]
            && Past(w.sent, 0) == GREETING && Texts(GREETING) == [HI]
  {
    Overtakes(OVERTAKING);
    assert GREETING[..1] == GREET && GREET[..0] == [];
    assert Texts(GREET) == [] + [HI];
  }
}
