/**
 * RecordTokens sends ZADD and EXPIRE as two pipelined commands. When the second is lost, whether the
 * record outlives its minute depends on what renewed the key before, and on what renews it after.
 */
module RedisLimiterLoss {
  import opened Wrappers
  import opened RedisLimiter
  import opened RedisLimiterHistory

  // Sorted sets

  lemma {:induction false} InsertHolds(s: SortedSet, f: Entry, e: Entry)
    ensures e in InsertByScore(s, f) <==> e in s || e == f
  {
    if s != [] && s[|s| - 1].score > f.score {
      InsertHolds(s[..|s| - 1], f, e);
      assert s == s[..|s| - 1] + [s[|s| - 1]];
    }
  }

  lemma {:induction false} WithoutHolds(s: SortedSet, member: string, e: Entry)
    ensures e in Without(s, member) <==> e in s && e.member != member
  {
    if s != [] {
      WithoutHolds(s[..|s| - 1], member, e);
      assert s == s[..|s| - 1] + [s[|s| - 1]];
    }
  }

  /** ZADD holds the new entry and the old ones of other members. */
  lemma ZAddHolds(s: SortedSet, member: string, score: nat, e: Entry)
    ensures Entry(member, score) in ZAdd(s, member, score)
    ensures e.member != member || e.score == score ==>
              (e in ZAdd(s, member, score) <==> e in s || e == Entry(member, score))
    ensures e in ZAdd(s, member, score) ==> e in s || e == Entry(member, score)
  {
    var f := Entry(member, score);
    InsertHolds(Without(s, member), f, f);
    InsertHolds(Without(s, member), f, e);
    WithoutHolds(s, member, e);
  }

  // Renewals

  function LastAt(h: seq<Event>): nat { if h == [] then 0 else h[|h| - 1].at }

  /** Every admitted call and every record renews a key that exists; a key without entries does not. */
  ghost predicate Renewed(r: Run) {
    r.keys.tpm.deadline == if r.keys.tpm.entries == [] then None else Some(LastAt(r.history) + TTL)
  }

  lemma CallRenews(r: Run, op: Op)
    requires Renewed(r) && op.Call?
    ensures Renewed(Step(r, op, true))
  {
    CallShape(r, op, true);
  }

  lemma UseRenews(r: Run, op: Op)
    requires Renewed(r) && op.Use?
    ensures Renewed(Step(r, op, true))
  {
    if op.tokens > 0 {
      var member := Member(op.now, op.tokens, op.nonce);
      ZAddHolds(Visible(r.keys.tpm, op.now), member, op.now, Entry(member, op.now));
    }
  }

  lemma {:induction false} AlwaysRenewed(ops: seq<Op>)
    ensures Renewed(Exec(ops, true))
  {
    if ops != [] {
      var r, op := Exec(ops[..|ops| - 1], true), ops[|ops| - 1];
      AlwaysRenewed(ops[..|ops| - 1]);
      if op.Call? { CallRenews(r, op); } else { UseRenews(r, op); }
    }
  }

  // A lost EXPIRE, and what follows

  /** The state after a record of which only the ZADD took effect. */
  function HalfRecorded(r: Run, e: Event): Run
    requires e.Recorded?
  {
    Run(r.keys.(tpm := AddTo(r.keys.tpm, Member(e.at, e.tokens, e.nonce), e.at)), r.history + [e], r.replies)
  }

  function EntryOf(e: Event): Entry
    requires e.Recorded?
  {
    Entry(Member(e.at, e.tokens, e.nonce), e.at)
  }

  /** The calls and records that follow, all of whose commands take effect. */
  function Continue(r: Run, more: seq<Op>): Run {
    if more == [] then r else Step(Continue(r, more[..|more| - 1]), more[|more| - 1], true)
  }

  /** What a call or record that renews the key does to it. */
  datatype Touch = Evicted(at: nat) | Renewal(event: Event) | Nothing

  function Apply(k: Key, touch: Touch): Key {
    match touch
    case Evicted(at) => Evict(k, at)
    case Renewal(Admitted(at)) => Expire(Evict(k, at), at, true)
    case Renewal(Recorded(at, tokens, nonce)) => Expire(AddTo(k, Member(at, tokens, nonce), at), at, true)
    case Nothing => k
  }

  predicate At(touch: Touch, now: nat) {
    match touch
    case Evicted(at) => at == now
    case Renewal(event) => event.at == now
    case Nothing => true
  }

  /** Every step touches the token key in one of these ways, and adds to the history exactly if it renews. */
  lemma StepTouches(r: Run, op: Op) returns (touch: Touch)
    ensures var r' := Step(r, op, true);
            && At(touch, op.now) && r'.keys.tpm == Apply(r.keys.tpm, touch)
            && r'.history == if touch.Renewal? then r.history + [touch.event] else r.history
  {
    if op.Call? {
      CallShape(r, op, true);
      touch := if Step(r, op, true).history == r.history then Evicted(op.now) else Renewal(Admitted(op.now));
    } else {
      touch := if op.tokens > 0 then Renewal(Recorded(op.now, op.tokens, op.nonce)) else Nothing;
    }
  }

  /** Some renewal came while the key was still there. */
  ghost predicate RenewedBy(gained: seq<Event>, deadline: nat) { exists g :: g in gained && g.at <= deadline }

  /** Whether the record is still under the key, and for how long, at time `now` of its minute. */
  ghost predicate Fate(k: Key, e: Event, before: Option<nat>, gained: seq<Event>, now: nat)
    requires e.Recorded?
  {
    if before.None? || RenewedBy(gained, before.value) then
      EntryOf(e) in k.entries && (k.deadline.None? || k.deadline.value >= e.at + WINDOW)
    else if EntryOf(e) in k.entries then k.deadline == before
    else before.value < now
  }

  lemma EvictHolds(k: Key, now: nat, x: Entry)
    ensures x in Evict(k, now).entries <==> !Expired(k, now) && x in k.entries && x.score > now - WINDOW
    ensures Evict(k, now).entries != [] ==> Evict(k, now).deadline == k.deadline
  {
    AfterContains(Visible(k, now), now - WINDOW, x);
  }

  /** A record keeps every other record that is still there. */
  lemma RecordHolds(k: Key, e: Event, f: Event)
    requires e.Recorded? && f.Recorded?
    ensures var added := AddTo(k, Member(f.at, f.tokens, f.nonce), f.at);
            && added.entries != []
            && (EntryOf(e) in added.entries <==> (!Expired(k, f.at) && EntryOf(e) in k.entries) || e == f)
  {
    MemberInjective(e, f);
    ZAddHolds(Visible(k, f.at), Member(f.at, f.tokens, f.nonce), f.at, EntryOf(e));
  }

  /** What one touch does to a record within its minute. */
  lemma TouchHolds(k: Key, e: Event, touch: Touch, now: nat)
    requires e.Recorded? && At(touch, now) && e.at <= now < e.at + WINDOW
    ensures var k' := Apply(k, touch);
            && (EntryOf(e) in k'.entries <==>
                  if touch.Nothing? then EntryOf(e) in k.entries
                  else (!Expired(k, now) && EntryOf(e) in k.entries) || touch == Renewal(e))
            && (EntryOf(e) in k'.entries ==>
                  k'.deadline == if touch.Renewal? then Some(now + TTL) else k.deadline)
  {
    match touch
    case Evicted(at) => EvictHolds(k, at, EntryOf(e));
    case Renewal(event) =>
      if event.Recorded? { RecordHolds(k, e, event); } else { EvictHolds(k, now, EntryOf(e)); }
    case Nothing =>
  }

  lemma RenewedByMore(gained: seq<Event>, g: Event, deadline: nat)
    ensures RenewedBy(gained + [g], deadline) <==> RenewedBy(gained, deadline) || g.at <= deadline
  {
    assert forall x :: x in gained + [g] <==> x in gained || x == g;
  }

  lemma TouchKeepsFate(k: Key, e: Event, before: Option<nat>, gained: seq<Event>, from: nat, touch: Touch, now: nat)
    requires e.Recorded? && e.at <= from <= now < e.at + WINDOW && At(touch, now)
    requires before.Some? ==> e.at <= before.value
    requires Fate(k, e, before, gained, from)
    ensures Fate(Apply(k, touch), e, before, if touch.Renewal? then gained + [touch.event] else gained, now)
  {
    TouchHolds(k, e, touch, now);
    if touch.Renewal? && before.Some? { RenewedByMore(gained, touch.event, before.value); }
  }

  lemma StartFate(r: Run, e: Event)
    requires e.Recorded? && Renewed(r)
    ensures Fate(HalfRecorded(r, e).keys.tpm, e, DeadlineAt(r, e.at), [], e.at)
  {
    RecordHolds(r.keys.tpm, e, e);
  }

  /** The deadline of a token key that exists at `now`. */
  function DeadlineAt(r: Run, now: nat): Option<nat> {
    if Visible(r.keys.tpm, now) == [] then None else Some(LastAt(r.history) + TTL)
  }

  function Gained(r: Run, r': Run): seq<Event> { if |r.history| <= |r'.history| then r'.history[|r.history|..] else [] }

  /** The half-recorded state has become `r`, and the record's fate is known up to `now`. */
  ghost predicate Fated(half: Run, r: Run, e: Event, before: Option<nat>, now: nat)
    requires e.Recorded?
  {
    half.history <= r.history && Fate(r.keys.tpm, e, before, Gained(half, r), now)
  }

  lemma TouchKeepsFated(half: Run, mid: Run, end: Run, e: Event, before: Option<nat>, from: nat, touch: Touch, now: nat)
    requires e.Recorded? && e.at <= from <= now < e.at + WINDOW && At(touch, now)
    requires before.Some? ==> e.at <= before.value
    requires Fated(half, mid, e, before, from) && end.keys.tpm == Apply(mid.keys.tpm, touch)
    requires end.history == if touch.Renewal? then mid.history + [touch.event] else mid.history
    ensures Fated(half, end, e, before, now)
  {
    TouchKeepsFate(mid.keys.tpm, e, before, Gained(half, mid), from, touch, now);
    assert Gained(half, end) == if touch.Renewal? then Gained(half, mid) + [touch.event] else Gained(half, mid);
  }

  lemma {:induction false} ContinueFate(r: Run, e: Event, more: seq<Op>)
    requires e.Recorded? && Renewed(r) && Monotone(more) && (more != [] ==> e.at <= more[0].now)
    requires Clock(more) < e.at + WINDOW
    ensures var half := HalfRecorded(r, e);
            Fated(half, Continue(half, more), e, DeadlineAt(r, e.at), if more == [] then e.at else Clock(more))
  {
    var half := HalfRecorded(r, e);
    if more == [] {
      StartFate(r, e);
      assert half.history[|half.history|..] == [];
    } else {
      var front, op := more[..|more| - 1], more[|more| - 1];
      ContinueFate(r, e, front);
      var mid := Continue(half, front);
      var touch := StepTouches(mid, op);
      var from := if front == [] then e.at else Clock(front);
      TouchKeepsFated(half, mid, Continue(half, more), e, DeadlineAt(r, e.at), from, touch, op.now);
    }
  }

  // Main results

  /** The record cannot be seen at `t`, a time of its minute. */
  predicate Missing(r: Run, e: Event, t: nat)
    requires e.Recorded?
  {
    EntryOf(e) !in Visible(r.keys.tpm, t)
  }

  /**
   * After any run, a record whose EXPIRE is lost, and any calls and records after it: at a later time
   * of its minute the record is missing exactly if the key existed when it was made, the deadline of
   * the last renewal before it has passed, and no renewal came by that deadline.
   */
  lemma LostRecordIff(ops: seq<Op>, e: Event, more: seq<Op>, t: nat)
    requires Monotone(ops) && e.Recorded? && Clock(ops) <= e.at
    requires Monotone(more) && (more != [] ==> e.at <= more[0].now) && Clock(more) <= t
    requires e.at <= t < e.at + WINDOW
    ensures var r := Exec(ops, true);
            var half := HalfRecorded(r, e);
            var end := Continue(half, more);
            Missing(end, e, t)
            <==> && DeadlineAt(r, e.at).Some? && DeadlineAt(r, e.at).value < t
                 && !RenewedBy(Gained(half, end), DeadlineAt(r, e.at).value)
  {
    AlwaysRenewed(ops);
    ContinueFate(Exec(ops, true), e, more);
  }

  /** Some time before its minute is over, the record is missing. */
  ghost predicate MissingEarly(r: Run, e: Event)
    requires e.Recorded?
  {
    exists t: nat :: e.at <= t < e.at + WINDOW && Missing(r, e, t)
  }

  lemma Untouched(ops: seq<Op>, e: Event, t: nat)
    requires Monotone(ops) && e.Recorded? && Clock(ops) <= e.at <= t < e.at + WINDOW
    ensures var r := Exec(ops, true);
            Missing(HalfRecorded(r, e), e, t) <==> DeadlineAt(r, e.at).Some? && DeadlineAt(r, e.at).value < t
  {
    var half := HalfRecorded(Exec(ops, true), e);
    assert Continue(half, []) == half && Gained(half, half) == [];
    LostRecordIff(ops, e, [], t);
  }

  /** Left alone, the record goes missing exactly if the key existed and was renewed more than 5001 ms earlier. */
  lemma LostUntouchedIff(ops: seq<Op>, e: Event)
    requires Monotone(ops) && e.Recorded? && Clock(ops) <= e.at
    ensures var r := Exec(ops, true);
            MissingEarly(HalfRecorded(r, e), e)
            <==> Visible(r.keys.tpm, e.at) != [] && LastAt(r.history) + 5001 < e.at
  {
    var r := Exec(ops, true);
    if MissingEarly(HalfRecorded(r, e), e) {
      var t: nat :| e.at <= t < e.at + WINDOW && Missing(HalfRecorded(r, e), e, t);
      Untouched(ops, e, t);
    }
    if Visible(r.keys.tpm, e.at) != [] && LastAt(r.history) + 5001 < e.at {
      AlwaysRenewed(ops);
      Untouched(ops, e, LastAt(r.history) + TTL + 1);
    }
  }

  /** One record on a fresh key. */
  lemma FirstRecord(first: Op)
    requires first.Use? && first.tokens > 0
    ensures var r := Exec([first], true);
            && r.keys.rpm == EMPTY.rpm && r.keys.tpm.deadline == Some(first.now + TTL)
            && r.history == [Recorded(first.now, first.tokens, first.nonce)]
  {
    assert [first][..0] == [] && Exec([first], true) == Step(Run(EMPTY, [], []), first, true);
    AlwaysRenewed([first]);
    var e := Recorded(first.now, first.tokens, first.nonce);
    RecordHolds(EMPTY.tpm, e, e);
  }

  lemma RecordCounts(h: seq<Event>, e: Event, at: nat)
    requires e.Recorded? && e !in h && at - WINDOW < e.at <= at
    ensures TokensIn(h + [e], at) >= e.tokens
  {
    assert (h + [e])[..|h|] == h;
  }

  lemma EmptyKeysAdmit(keys: Keys, at: nat, tpm: int)
    requires Visible(keys.rpm, at) == [] && Visible(keys.tpm, at) == [] && tpm >= 1
    ensures Check(keys, at, 1, tpm, true).1.allowed
  {
  }

  /**
   * Such a run: a record, and more than 5001 ms later, while the key exists, one whose EXPIRE is lost.
   * Once the key is gone the second still counts in the history, and a call at the token limit passes.
   */
  lemma LostRecordOvershoots(first: Op, e: Event)
    requires first.Use? && first.tokens > 0
    requires e.Recorded? && e.tokens >= 1 && first.now + 5001 < e.at <= first.now + TTL
    ensures var half, at := HalfRecorded(Exec([first], true), e), first.now + TTL + 1;
            && Missing(half, e, at) && e.at <= at < e.at + WINDOW
            && Check(half.keys, at, 1, e.tokens, true).1.allowed && TokensIn(half.history, at) >= e.tokens
  {
    FirstRecord(first);
    var r, at := Exec([first], true), first.now + TTL + 1;
    EmptyKeysAdmit(HalfRecorded(r, e).keys, at, e.tokens);
    RecordCounts(r.history, e, at);
  }
}
