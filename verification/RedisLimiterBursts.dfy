/** Bursts: requests of one millisecond count once. */
module RedisLimiterBursts {
  import opened RedisLimiter
  import opened RedisLimiterHistory
  import opened RedisLimiterRetry

  /** `n` calls in one millisecond. */
  function Burst(now: nat, rpm: int, tpm: int, n: nat): seq<Op> { seq(n, _ => Call(now, rpm, tpm)) }

  function Admissions(now: nat, n: nat): seq<Event> { seq(n, _ => Admitted(now)) }

  function Yeses(n: nat): seq<Reply> { seq(n, _ => Reply(true, 0)) }

  /** There is room for a request of this millisecond beside one already counted. */
  ghost predicate Room(h: seq<Event>, now: nat, rpm: int, tpm: int) {
    |AdmittedIn(h, now) + {now}| < rpm && TokensIn(h, now) < tpm
  }

  /** After the first of a burst, or with room for it, every call gets the same verdict. */
  lemma BurstVerdict(h: seq<Event>, now: nat, rpm: int, tpm: int, n: nat)
    ensures n > 0 ==> (Verdict(h + Admissions(now, n), now, rpm, tpm).allowed <==> Room(h, now, rpm, tpm))
    ensures Room(h, now, rpm, tpm) ==> Verdict(h + Admissions(now, n), now, rpm, tpm) == Reply(true, 0)
  {
    if n > 0 {
      BurstIsFree(h, Admissions(now, n), now, rpm, tpm);
    } else {
      assert h + Admissions(now, n) == h;
      SubsetSize(AdmittedIn(h, now), AdmittedIn(h, now) + {now});
    }
  }

  /** From one state to the next by a call that got the verdict of the history. */
  ghost predicate Answered(r: Run, r': Run, now: nat, rpm: int, tpm: int) {
    var verdict := Verdict(r.history, now, rpm, tpm);
    && r'.replies == r.replies + [verdict]
    && r'.history == if verdict.allowed then r.history + [Admitted(now)] else r.history
  }

  lemma CallAnswered(ops: seq<Op>, now: nat, rpm: int, tpm: int)
    requires Monotone(ops) && Clock(ops) <= now
    ensures Answered(Exec(ops, true), Exec(ops + [Call(now, rpm, tpm)], true), now, rpm, tpm)
    ensures Monotone(ops + [Call(now, rpm, tpm)])
  {
    var all := ops + [Call(now, rpm, tpm)];
    assert all[..|ops|] == ops;
    assert forall i :: 0 <= i < |ops| ==> all[i] == ops[i] && ops[i].now <= Clock(ops);
    DecisionIsExact(ops, now, rpm, tpm, true);
  }

  ghost predicate AllAnswered(runs: seq<Run>, now: nat, rpm: int, tpm: int) {
    forall i :: 0 <= i < |runs| - 1 ==> Answered(runs[i], runs[i + 1], now, rpm, tpm)
  }

  lemma OneAnsweredMore(runs: seq<Run>, next: Run, now: nat, rpm: int, tpm: int)
    requires runs != [] && AllAnswered(runs, now, rpm, tpm) && Answered(runs[|runs| - 1], next, now, rpm, tpm)
    ensures AllAnswered(runs + [next], now, rpm, tpm)
  {
  }

  /** The states the burst goes through. */
  lemma {:induction false} Trace(ops: seq<Op>, all: seq<Op>, now: nat, rpm: int, tpm: int, n: nat)
    returns (runs: seq<Run>)
    requires Monotone(ops) && Clock(ops) <= now && all == ops + Burst(now, rpm, tpm, n)
    ensures |runs| == n + 1 && runs[0] == Exec(ops, true) && runs[n] == Exec(all, true)
    ensures AllAnswered(runs, now, rpm, tpm) && Monotone(all) && Clock(all) <= now
  {
    if n == 0 {
      assert all == ops;
      runs := [Exec(ops, true)];
    } else {
      var before := all[..|all| - 1];
      assert before == ops + Burst(now, rpm, tpm, n - 1) && all == before + [Call(now, rpm, tpm)];
      var front := Trace(ops, before, now, rpm, tpm, n - 1);
      CallAnswered(before, now, rpm, tpm);
      OneAnsweredMore(front, Exec(all, true), now, rpm, tpm);
      runs := front + [Exec(all, true)];
    }
  }

  /** `n` admissions at `now` have been added. */
  ghost predicate Gained(r: Run, r': Run, now: nat, n: nat) {
    r'.history == r.history + Admissions(now, n) && r'.replies == r.replies + Yeses(n)
  }

  lemma GainNone(r: Run, now: nat)
    ensures Gained(r, r, now, 0)
  {
    assert r.history + Admissions(now, 0) == r.history && r.replies + Yeses(0) == r.replies;
  }

  lemma GainOne(r: Run, before: Run, after: Run, now: nat, k: nat)
    requires Gained(r, before, now, k)
    requires after.history == before.history + [Admitted(now)] && after.replies == before.replies + [Reply(true, 0)]
    ensures Gained(r, after, now, k + 1)
  {
    assert Admissions(now, k + 1) == Admissions(now, k) + [Admitted(now)];
    assert Yeses(k + 1) == Yeses(k) + [Reply(true, 0)];
  }

  lemma {:induction false} RoomAdmits(runs: seq<Run>, now: nat, rpm: int, tpm: int, n: nat)
    requires n < |runs| && AllAnswered(runs, now, rpm, tpm) && Room(runs[0].history, now, rpm, tpm)
    ensures Gained(runs[0], runs[n], now, n)
  {
    if n == 0 {
      GainNone(runs[0], now);
    } else {
      RoomAdmits(runs, now, rpm, tpm, n - 1);
      assert Answered(runs[n - 1], runs[n - 1 + 1], now, rpm, tpm);
      BurstVerdict(runs[0].history, now, rpm, tpm, n - 1);
      GainOne(runs[0], runs[n - 1], runs[n], now, n - 1);
    }
  }

  lemma LastYes(before: seq<Reply>, last: Reply, replies: seq<Reply>, k: nat)
    requires before + [last] == replies + Yeses(k + 1)
    ensures before == replies + Yeses(k) && last == Reply(true, 0)
  {
    assert replies + Yeses(k + 1) == (replies + Yeses(k)) + [Reply(true, 0)];
    assert before == (before + [last])[..|before|] && last == (before + [last])[|before|];
  }

  lemma {:induction false} AdmittedNeedsRoom(runs: seq<Run>, now: nat, rpm: int, tpm: int, n: nat)
    requires n < |runs| && AllAnswered(runs, now, rpm, tpm) && runs[n].replies == runs[0].replies + Yeses(n)
    ensures Gained(runs[0], runs[n], now, n)
    ensures n >= 2 ==> Room(runs[0].history, now, rpm, tpm)
  {
    if n == 0 {
      GainNone(runs[0], now);
    } else {
      var r, before := runs[0], runs[n - 1];
      assert Answered(before, runs[n - 1 + 1], now, rpm, tpm);
      LastYes(before.replies, Verdict(before.history, now, rpm, tpm), r.replies, n - 1);
      AdmittedNeedsRoom(runs, now, rpm, tpm, n - 1);
      GainOne(r, before, runs[n], now, n - 1);
      BurstVerdict(r.history, now, rpm, tpm, n - 1);
    }
  }

  /** Every call of the burst is admitted. */
  ghost predicate AllAdmitted(ops: seq<Op>, now: nat, rpm: int, tpm: int, n: nat) {
    Exec(ops + Burst(now, rpm, tpm, n), true).replies == Exec(ops, true).replies + Yeses(n)
  }

  /**
   * After any run, any number of calls in one millisecond, from two on, are all admitted exactly if
   * there is room for a request of that millisecond beside one already counted.
   */
  lemma BurstIff(ops: seq<Op>, now: nat, rpm: int, tpm: int, n: nat)
    requires Monotone(ops) && Clock(ops) <= now && n >= 2
    ensures AllAdmitted(ops, now, rpm, tpm, n) <==> Room(Exec(ops, true).history, now, rpm, tpm)
  {
    var runs := Trace(ops, ops + Burst(now, rpm, tpm, n), now, rpm, tpm, n);
    if Room(runs[0].history, now, rpm, tpm) {
      RoomAdmits(runs, now, rpm, tpm, n);
    } else if AllAdmitted(ops, now, rpm, tpm, n) {
      AdmittedNeedsRoom(runs, now, rpm, tpm, n);
    }
  }

  /** A fresh key limited to two requests a minute admits any number of them in one millisecond. */
  lemma TwoAMinute(now: nat, n: nat)
    requires n >= 2
    ensures AllAdmitted([], now, 2, 1, n)
  {
    assert AdmittedIn([], now) == {} && AdmittedIn([], now) + {now} == {now};
    BurstIff([], now, 2, 1, n);
  }
}
