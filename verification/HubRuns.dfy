/** Connections coming and going: when the hub's idea of who is online is right. */
module HubRuns {
  type Peer = string

  type Conn = nat

  datatype World = World(
    peers: map<Peer, Conn>,   // the hub's table
    owner: map<Conn, Peer>,   // every connection accepted so far
    open: set<Conn>,          // sockets nobody has closed
    live: set<Conn>,          // connections whose handler is still running
    newest: map<Peer, Conn>)  // history: the peer's last connection

  const START := World(map[], map[], {}, {}, map[])

  datatype Step =
    | Connect(peer: Peer, conn: Conn)  // accepted and registered, closing the one it replaces
    | Break(conn: Conn)                // its socket fails or is closed by the peer
    | Exit(conn: Conn)                 // its read loop ends: the deferred Unregister runs

  predicate CanExit(w: World, c: Conn) { c in w.live && c in w.owner && c !in w.open }

  function Next(w: World, step: Step): World {
    match step
    case Connect(p, c) =>
      if c in w.owner then w
      else
        var evicted := if p in w.peers then {w.peers[p]} else {};
        World(w.peers[p := c], w.owner[c := p], w.open - evicted + {c}, w.live + {c}, w.newest[p := c])
    case Break(c) => w.(open := w.open - {c})
    case Exit(c) => if CanExit(w, c) then w.(peers := w.peers - {w.owner[c]}, live := w.live - {c}) else w
  }

  function Exec(w: World, steps: seq<Step>): World {
    if steps == [] then w else Next(Exec(w, steps[..|steps| - 1]), steps[|steps| - 1])
  }

  predicate Online(w: World, p: Peer) { p in w.peers }

  predicate Belongs(w: World, c: Conn, p: Peer) { c in w.live && c in w.owner && w.owner[c] == p }

  ghost predicate Connected(w: World, p: Peer) { exists c :: Belongs(w, c, p) }

  ghost predicate Accurate(w: World) { forall p :: Online(w, p) <==> Connected(w, p) }

  ghost predicate Inv(w: World) {
    && w.live <= w.owner.Keys
    && w.open <= w.live
    && (forall p :: p in w.peers ==>
          Belongs(w, w.peers[p], p) && p in w.newest && w.peers[p] == w.newest[p])
  }

  lemma {:induction false} AlwaysInv(steps: seq<Step>)
    ensures Inv(Exec(START, steps))
  {
    if steps != [] {
      AlwaysInv(steps[..|steps| - 1]);
    }
  }

  /** A peer that is online is connected, and served by its newest connection, never an evicted one. */
  lemma {:induction false} OnlineIsConnected(steps: seq<Step>, p: Peer)
    requires Online(Exec(START, steps), p)
    ensures var w := Exec(START, steps);
            && Belongs(w, w.peers[p], p) && Connected(w, p)
            && p in w.newest && w.peers[p] == w.newest[p]
  {
    AlwaysInv(steps);
  }

  /** The step after which the hub forgets a peer that is still connected. */
  ghost predicate ForgetsNewer(w: World, step: Step) {
    step.Exit? && CanExit(w, step.conn) && exists c :: c != step.conn && Belongs(w, c, w.owner[step.conn])
  }

  lemma OthersStay(w: World, w': World, c: Conn, p: Peer)
    requires forall d :: d != c ==> (Belongs(w', d, p) <==> Belongs(w, d, p))
    requires Belongs(w', c, p) <==> Belongs(w, c, p)
    ensures Connected(w', p) <==> Connected(w, p)
  {
    if Connected(w, p) { var d :| Belongs(w, d, p); assert Belongs(w', d, p); }
    if Connected(w', p) { var d :| Belongs(w', d, p); assert Belongs(w, d, p); }
  }

  lemma ExitAccurate(w: World, c: Conn)
    requires Inv(w) && Accurate(w) && CanExit(w, c)
    ensures Accurate(Next(w, Exit(c))) <==> !ForgetsNewer(w, Exit(c))
  {
    var w', p := Next(w, Exit(c)), w.owner[c];
    forall q | q != p ensures Online(w', q) <==> Connected(w', q) {
      assert Online(w, q) <==> Connected(w, q);
      OthersStay(w, w', c, q);
    }
    assert Connected(w', p) <==> ForgetsNewer(w, Exit(c)) by {
      if Connected(w', p) { var d :| Belongs(w', d, p); assert d != c && Belongs(w, d, p); }
      if ForgetsNewer(w, Exit(c)) { var d :| d != c && Belongs(w, d, p); assert Belongs(w', d, p); }
    }
  }

  lemma ConnectAccurate(w: World, p: Peer, c: Conn)
    requires Inv(w) && Accurate(w)
    ensures Accurate(Next(w, Connect(p, c)))
  {
    var w' := Next(w, Connect(p, c));
    if c !in w.owner {
      assert Belongs(w', c, p);
      forall q | q != p ensures Online(w', q) <==> Connected(w', q) {
        assert Online(w, q) <==> Connected(w, q);
        OthersStay(w, w', c, q);
      }
    }
  }

  lemma BreakAccurate(w: World, c: Conn)
    requires Accurate(w)
    ensures Accurate(Next(w, Break(c)))
  {
    forall p ensures Online(Next(w, Break(c)), p) <==> Connected(Next(w, Break(c)), p) {
      assert Online(w, p) <==> Connected(w, p);
      OthersStay(w, Next(w, Break(c)), c, p);
    }
  }

  /** Where it is right, the hub stays right exactly if the step does not forget a newer connection. */
  lemma StaysAccurateIff(steps: seq<Step>, step: Step)
    requires Accurate(Exec(START, steps))
    ensures Accurate(Next(Exec(START, steps), step)) <==> !ForgetsNewer(Exec(START, steps), step)
  {
    AlwaysInv(steps);
    var w := Exec(START, steps);
    match step
    case Connect(p, c) => ConnectAccurate(w, p, c);
    case Break(c) => BreakAccurate(w, c);
    case Exit(c) => if CanExit(w, c) { ExitAccurate(w, c); }
  }

  // Whole runs

  datatype Last = Never | Joined | Left

  /** The last that a run says of a peer: a connection of it registered, or one left. */
  function LastOf(steps: seq<Step>, p: Peer): Last {
    if steps == [] then Never
    else
      var w, step, before := Exec(START, steps[..|steps| - 1]), steps[|steps| - 1], LastOf(steps[..|steps| - 1], p);
      match step
      case Connect(q, c) => if q == p && c !in w.owner then Joined else before
      case Exit(c) => if CanExit(w, c) && w.owner[c] == p then Left else before
      case Break(_) => before
  }

  lemma {:induction false} OnlineIffJoined(steps: seq<Step>, p: Peer)
    ensures Online(Exec(START, steps), p) <==> LastOf(steps, p).Joined?
  {
    if steps != [] {
      OnlineIffJoined(steps[..|steps| - 1], p);
    }
  }

  predicate Knows(w: World, p: Peer, c: Conn) { c in w.owner && w.owner[c] == p }

  lemma NextKnows(w: World, step: Step, p: Peer, c: Conn)
    requires Knows(Next(w, step), p, c) && !Knows(w, p, c)
    ensures step == Connect(p, c) && c !in w.owner
  {
  }

  lemma {:induction false} SeenBefore(steps: seq<Step>, p: Peer, c: Conn)
    requires Knows(Exec(START, steps), p, c)
    ensures !LastOf(steps, p).Never?
  {
    if steps != [] {
      var w, step := Exec(START, steps[..|steps| - 1]), steps[|steps| - 1];
      if Knows(w, p, c) {
        SeenBefore(steps[..|steps| - 1], p, c);
      } else {
        NextKnows(w, step, p, c);
      }
    }
  }

  /** After any run the hub is right exactly if no connected peer's last registration or exit was an exit. */
  lemma AccurateIff(steps: seq<Step>)
    ensures Accurate(Exec(START, steps))
            <==> forall p :: Connected(Exec(START, steps), p) ==> !LastOf(steps, p).Left?
  {
    var w := Exec(START, steps);
    forall p
      ensures Online(w, p) ==> Connected(w, p)
      ensures Online(w, p) <==> LastOf(steps, p).Joined?
      ensures Connected(w, p) ==> !LastOf(steps, p).Never?
    {
      OnlineIffJoined(steps, p);
      if Online(w, p) { OnlineIsConnected(steps, p); }
      if c :| Belongs(w, c, p) { SeenBefore(steps, p, c); }
    }
  }

  /** Runs in which no connection replaces one whose handler still runs. */
  ghost predicate NoEviction(steps: seq<Step>) {
    forall i :: 0 <= i < |steps| && steps[i].Connect? ==>
      !Connected(Exec(START, steps[..i]), steps[i].peer) || steps[i].conn in Exec(START, steps[..i]).owner
  }

  ghost predicate Alone(w: World) {
    forall c, d, p :: Belongs(w, c, p) && Belongs(w, d, p) ==> c == d
  }

  lemma NextAlone(w: World, step: Step)
    requires Inv(w) && Alone(w)
    requires step.Connect? ==> !Connected(w, step.peer) || step.conn in w.owner
    ensures Alone(Next(w, step))
  {
    var w' := Next(w, step);
    forall c, d, p | Belongs(w', c, p) && Belongs(w', d, p) ensures c == d {
      assert c in w.owner ==> Belongs(w, c, p);
      assert d in w.owner ==> Belongs(w, d, p);
    }
  }

  /** Without evictions, online is connected, and each peer has one connection at most. */
  lemma {:induction false} NoEvictionIsAccurate(steps: seq<Step>)
    requires NoEviction(steps)
    ensures Accurate(Exec(START, steps)) && Alone(Exec(START, steps))
  {
    if steps != [] {
      var before, step := steps[..|steps| - 1], steps[|steps| - 1];
      assert forall i :: 0 <= i <= |before| ==> steps[..i] == before[..i];
      assert before[..|before|] == before;
      NoEvictionIsAccurate(before);
      AlwaysInv(before);
      NextAlone(Exec(START, before), step);
      var w := Exec(START, before);
      assert step.Exit? && CanExit(w, step.conn) ==> Belongs(w, step.conn, w.owner[step.conn]);
      StaysAccurateIff(before, step);
    }
  }

  lemma ExecMore(steps: seq<Step>, step: Step)
    ensures Exec(START, steps + [step]) == Next(Exec(START, steps), step)
  {
    assert (steps + [step])[..|steps|] == steps;
  }

  /**
   * A new connection serves its peer, and the one it replaces is closed; once it breaks and its handler
   * ends, the peer is offline and the connection is gone. Other peers and connections are left alone.
   */
  lemma ComesAndGoes(steps: seq<Step>, p: Peer, c: Conn)
    requires c !in Exec(START, steps).owner
    ensures var w := Exec(START, steps);
            var w' := Next(w, Connect(p, c));
            var gone := Next(Next(w', Break(c)), Exit(c));
            && Online(w', p) && w'.peers[p] == c && Belongs(w', c, p)
            && w'.open == w.open - (if p in w.peers then {w.peers[p]} else {}) + {c}
            && !Online(gone, p) && gone.open == w'.open - {c} && gone.live == w.live
            && gone.peers - {p} == w'.peers - {p} == w.peers - {p}
  {
    AlwaysInv(steps);
    var w := Exec(START, steps);
    assert c !in w.live;
    assert w.live + {c} - {c} == w.live;
    assert w.peers[p := c] - {p} == w.peers - {p};
  }

  /**
   * A peer that reconnects before its first handler has ended: the first handler's Unregister
   * makes it offline, and the next connection leaves two sockets open.
   */
  lemma EvictionForgets(p: Peer, steps: seq<Step>)
    requires steps == [Connect(p, 0), Connect(p, 1), Exit(0)]
    ensures !Online(Exec(START, steps), p) && Belongs(Exec(START, steps), 1, p) && Exec(START, steps).open == {1}
    ensures Next(Exec(START, steps), Connect(p, 2)).open == {1, 2}
  {
    ExecMore([], Connect(p, 0));
    ExecMore([Connect(p, 0)], Connect(p, 1));
    ExecMore([Connect(p, 0), Connect(p, 1)], Exit(0));
    assert [] + [Connect(p, 0)] == [Connect(p, 0)];
    assert [Connect(p, 0)] + [Connect(p, 1)] == [Connect(p, 0), Connect(p, 1)];
    assert [Connect(p, 0), Connect(p, 1)] + [Exit(0)] == steps;
  }
}
