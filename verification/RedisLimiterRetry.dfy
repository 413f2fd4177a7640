/**
 * The delay a denied caller is given, the rate the limiter enforces over whole runs,
 * and when the expiry of a key could matter.
 */
module RedisLimiterRetry {
  import opened RedisLimiter
  import opened RedisLimiterHistory

  ghost predicate Sorted(s: SortedSet) {
    forall i, j :: 0 <= i < j < |s| ==> s[i].score <= s[j].score
  }

  lemma {:induction false} AfterSorted(s: SortedSet, cutoff: int)
    requires Sorted(s)
    ensures Sorted(After(s, cutoff))
  {
    if s != [] {
      AfterSorted(s[..|s| - 1], cutoff);
      forall e | e in After(s[..|s| - 1], cutoff) ensures e.score <= s[|s| - 1].score {
        AfterContains(s[..|s| - 1], cutoff, e);
      }
    }
  }

  lemma SortedAdd(s: SortedSet, e: Entry)
    requires Sorted(s) && forall x :: x in s ==> x.score <= e.score
    ensures Sorted(s + [e])
  {
  }

  lemma {:induction false} FullRpmSorted(h: seq<Event>)
    requires Ordered(h)
    ensures Sorted(FullRpm(h))
  {
    if h != [] {
      var rest, last := h[..|h| - 1], h[|h| - 1];
      FullRpmSorted(rest);
      assert h == rest + [last];
      FullRpmEntries(rest);
      if last.Admitted? {
        SortedAdd(FullRpm(rest), Entry(Decimal.Print(last.at), last.at));
        FullRpmGrows(rest, last.at);
      }
    }
  }

  lemma {:induction false} FullTpmSorted(h: seq<Event>)
    requires Ordered(h)
    ensures Sorted(FullTpm(h))
  {
    if h != [] {
      var rest, last := h[..|h| - 1], h[|h| - 1];
      FullTpmSorted(rest);
      assert h == rest + [last];
      FullTpmEntries(rest);
      if last.Recorded? {
        SortedAdd(FullTpm(rest), Entry(Member(last.at, last.tokens, last.nonce), last.at));
        FullTpmGrows(rest, last);
      }
    }
  }

  // The oldest live entry

  lemma OldestAdmitted(h: seq<Event>, now: nat)
    requires Ordered(h) && (forall e :: e in h ==> e.at <= now) && AdmittedIn(h, now) != {}
    ensures var live := After(FullRpm(h), now - WINDOW);
            && live != [] && live[0].score in AdmittedIn(h, now)
            && forall t :: t in AdmittedIn(h, now) ==> live[0].score <= t
  {
    var live := After(FullRpm(h), now - WINDOW);
    FullRpmSorted(h);
    AfterSorted(FullRpm(h), now - WINDOW);
    FullRpmEntries(h);
    forall t | t in AdmittedIn(h, now) ensures live != [] && live[0].score <= t {
      AfterContains(FullRpm(h), now - WINDOW, Entry(Decimal.Print(t), t));
    }
    AfterContains(FullRpm(h), now - WINDOW, live[0]);
    assert Admitted(live[0].score) in h;
  }

  lemma OldestLeads(h: seq<Event>, now: nat)
    requires Ordered(h) && After(FullTpm(h), now - WINDOW) != []
    ensures var live := After(FullTpm(h), now - WINDOW);
            forall r :: r in h && r.Recorded? && now - WINDOW < r.at ==> live[0].score <= r.at
  {
    var live := After(FullTpm(h), now - WINDOW);
    FullTpmSorted(h);
    AfterSorted(FullTpm(h), now - WINDOW);
    FullTpmEntries(h);
    forall r | r in h && r.Recorded? && now - WINDOW < r.at ensures live[0].score <= r.at {
      AfterContains(FullTpm(h), now - WINDOW, Entry(Member(r.at, r.tokens, r.nonce), r.at));
    }
  }

  lemma OldestRecorded(h: seq<Event>, now: nat)
    requires Ordered(h) && (forall e :: e in h ==> e.at <= now) && TokensIn(h, now) > 0
    ensures var live := After(FullTpm(h), now - WINDOW);
            && live != [] && now - WINDOW < live[0].score <= now
            && (exists r :: r in h && IsRecordOf(live[0], r))
            && forall r :: r in h && r.Recorded? && now - WINDOW < r.at ==> live[0].score <= r.at
  {
    LiveTokens(h, now);
    FullTpmEntries(h);
    AfterContains(FullTpm(h), now - WINDOW, After(FullTpm(h), now - WINDOW)[0]);
    OldestLeads(h, now);
  }

  /** A denial under positive limits names a delay of 1 to 60000 ms: when the oldest entry leaves. */
  lemma RetryInRange(h: seq<Event>, now: nat, rpm: int, tpm: int)
    requires Ordered(h) && forall e :: e in h ==> e.at <= now
    requires rpm >= 1 && tpm >= 1 && !Verdict(h, now, rpm, tpm).allowed
    ensures 1 <= Verdict(h, now, rpm, tpm).retryMs <= 60000
  {
    if |AdmittedIn(h, now)| >= rpm {
      OldestAdmitted(h, now);
    } else {
      OldestRecorded(h, now);
    }
  }

  // Tokens over time

  lemma {:induction false} TokensLater(h: seq<Event>, now: nat, later: nat)
    requires (forall e :: e in h ==> e.at <= now) && now <= later
    ensures TokensIn(h, later) <= TokensIn(h, now)
    ensures (forall r :: r in h && r.Recorded? && now - WINDOW < r.at ==> later - WINDOW < r.at)
              ==> TokensIn(h, later) == TokensIn(h, now)
    ensures (exists r :: r in h && r.Recorded? && r.tokens > 0 && now - WINDOW < r.at <= later - WINDOW)
              ==> TokensIn(h, later) < TokensIn(h, now)
  {
    if h != [] {
      var rest, last := h[..|h| - 1], h[|h| - 1];
      assert h == rest + [last];
      TokensLater(rest, now, later);
    }
  }

  lemma {:induction false} TokensMore(h: seq<Event>, more: seq<Event>, now: nat)
    ensures TokensIn(h + more, now) >= TokensIn(h, now)
    ensures (forall e :: e in more ==> e.Admitted?) ==> TokensIn(h + more, now) == TokensIn(h, now)
  {
    if more == [] {
      assert h + more == h;
    } else {
      TokensMore(h, more[..|more| - 1], now);
      assert more[|more| - 1] in more && forall e :: e in more[..|more| - 1] ==> e in more;
      assert (h + more)[|h + more| - 1] == more[|more| - 1];
      assert (h + more)[..|h + more| - 1] == h + more[..|more| - 1];
    }
  }

  lemma SubsetSize(a: set<nat>, b: set<nat>)
    requires a <= b
    ensures |a| <= |b|
    ensures a != b ==> |a| < |b|
  {
    assert b == a + (b - a);
  }

  /** Any retry before the delay is over is denied, whatever happened in between. */
  lemma SoonerRetryDenied(h: seq<Event>, more: seq<Event>, now: nat, later: nat, rpm: int, tpm: int)
    requires Ordered(h) && (forall e :: e in h ==> e.at <= now) && rpm >= 1 && tpm >= 1
    requires !Verdict(h, now, rpm, tpm).allowed && now <= later < now + Verdict(h, now, rpm, tpm).retryMs
    ensures !Verdict(h + more, later, rpm, tpm).allowed
  {
    if |AdmittedIn(h, now)| >= rpm {
      OldestAdmitted(h, now);
      assert AdmittedIn(h, now) <= AdmittedIn(h + more, later);
      SubsetSize(AdmittedIn(h, now), AdmittedIn(h + more, later));
    } else {
      OldestRecorded(h, now);
      TokensLater(h, now, later);
      TokensMore(h, more, later);
    }
  }

  /** If nothing is admitted meanwhile, a retry exactly then passes the request limit. */
  lemma RequestRetryPasses(h: seq<Event>, more: seq<Event>, now: nat, rpm: int, tpm: int)
    requires Ordered(h) && (forall e :: e in h ==> e.at <= now) && rpm >= 1
    requires |AdmittedIn(h, now)| == rpm && forall e :: e in more ==> e.Recorded?
    ensures |AdmittedIn(h + more, now + Verdict(h, now, rpm, tpm).retryMs)| < rpm
  {
    OldestAdmitted(h, now);
    var live := After(FullRpm(h), now - WINDOW);
    var retryAt := now + Verdict(h, now, rpm, tpm).retryMs;
    assert AdmittedIn(h + more, retryAt) <= AdmittedIn(h, now) - {live[0].score};
    SubsetSize(AdmittedIn(h + more, retryAt), AdmittedIn(h, now) - {live[0].score});
  }

  /** If no tokens are recorded meanwhile, the window's total has strictly dropped by then. */
  lemma TokenRetryDrops(h: seq<Event>, more: seq<Event>, now: nat, rpm: int, tpm: int)
    requires Ordered(h) && (forall e :: e in h ==> e.at <= now && (e.Recorded? ==> e.tokens > 0)) && tpm >= 1
    requires |AdmittedIn(h, now)| < rpm && TokensIn(h, now) >= tpm && forall e :: e in more ==> e.Admitted?
    ensures TokensIn(h + more, now + Verdict(h, now, rpm, tpm).retryMs) < TokensIn(h, now)
  {
    OldestRecorded(h, now);
    var live := After(FullTpm(h), now - WINDOW);
    var retryAt := now + Verdict(h, now, rpm, tpm).retryMs;
    var r :| r in h && IsRecordOf(live[0], r);
    assert r.tokens > 0 && now - WINDOW < r.at <= retryAt - WINDOW;
    TokensLater(h, now, retryAt);
    TokensMore(h, more, retryAt);
  }

  // Runs with one pair of limits

  ghost predicate Limits(ops: seq<Op>, rpm: int, tpm: int) {
    forall i :: 0 <= i < |ops| && ops[i].Call? ==> ops[i].rpm == rpm && ops[i].tpm == tpm
  }

  /** No half-open minute, anywhere in a run, holds more than `rpm` admitted milliseconds. */
  lemma {:induction false} RateIsBounded(ops: seq<Op>, rpm: int, tpm: int, at: nat)
    requires Monotone(ops) && Limits(ops, rpm, tpm) && rpm >= 0
    ensures |AdmittedIn(Exec(ops, true).history, at)| <= rpm
  {
    if ops != [] {
      var rest, op := ops[..|ops| - 1], ops[|ops| - 1];
      var h := Exec(rest, true).history;
      RateIsBounded(rest, rpm, tpm, at);
      RunKeeps(rest, true);
      if op.Call? {
        CallDecides(Exec(rest, true), Clock(rest), op, true);
        AdmittedInGrows(h, Admitted(op.now), at);
        if at >= op.now {
          assert AdmittedIn(h, at) <= AdmittedIn(h, op.now);
          SubsetSize(AdmittedIn(h, at), AdmittedIn(h, op.now));
        }
      } else {
        AdmittedInGrows(h, Recorded(op.now, if op.tokens > 0 then op.tokens else 0, op.nonce), at);
      }
    } else {
      assert AdmittedIn([], at) == {};
    }
  }

  lemma {:induction false} RecordsPositive(ops: seq<Op>, ttl: bool)
    ensures forall e :: e in Exec(ops, ttl).history && e.Recorded? ==> e.tokens > 0
  {
    if ops != [] { RecordsPositive(ops[..|ops| - 1], ttl); }
  }

  lemma {:induction false} HistoryGrows(ops: seq<Op>, more: seq<Op>, ttl: bool)
    ensures Exec(ops, ttl).history <= Exec(ops + more, ttl).history
  {
    if more == [] {
      assert ops + more == ops;
    } else {
      HistoryGrows(ops, more[..|more| - 1], ttl);
      assert (ops + more)[..|ops + more| - 1] == ops + more[..|more| - 1];
    }
  }

  /**
   * Retry-After is tight over runs whose limits were constant, and at least 1. After a denial at `now`,
   * for every continuation `more` and every retry at `later`:
   * too early is denied; right on time passes the request limit if that was the limit hit and
   * nothing was admitted; right on time finds fewer tokens if the token limit was hit and nothing
   * was recorded.
   */
  lemma RetryAfterIsTight(ops: seq<Op>, more: seq<Op>, now: nat, later: nat, rpm: int, tpm: int)
    requires rpm >= 1 && tpm >= 1
    requires Monotone(ops + [Call(now, rpm, tpm)] + more + [Call(later, rpm, tpm)])
    requires Limits(ops, rpm, tpm)
    requires !Check(Exec(ops, true).keys, now, rpm, tpm, true).1.allowed
    ensures var retry := Check(Exec(ops, true).keys, now, rpm, tpm, true).1.retryMs;
            var r, r' := Exec(ops, true), Exec(ops + [Call(now, rpm, tpm)] + more, true);
            && r.history <= r'.history
            && var gained := r'.history[|r.history|..];
            && 1 <= retry <= 60000
            && (later < now + retry ==> !Check(r'.keys, later, rpm, tpm, true).1.allowed)
            && (later == now + retry && |AdmittedIn(r.history, now)| >= rpm && (forall e :: e in gained ==> e.Recorded?)
                ==> |AdmittedIn(r'.history, later)| < rpm)
            && (later == now + retry && |AdmittedIn(r.history, now)| < rpm && (forall e :: e in gained ==> e.Admitted?)
                ==> TokensIn(r'.history, later) < TokensIn(r.history, now))
  {
    var gained := Continuation(ops, more, now, later, rpm, tpm);
    DecisionIsExact(ops, now, rpm, tpm, true);
    DecisionIsExact(ops + [Call(now, rpm, tpm)] + more, later, rpm, tpm, true);
    HistoryFacts(ops, now, rpm, tpm);
    RetryInRange(Exec(ops, true).history, now, rpm, tpm);
    TightOnHistory(Exec(ops, true).history, gained, now, later, rpm, tpm);
  }

  lemma HistoryContinues(ops: seq<Op>, call: seq<Op>, more: seq<Op>)
    ensures Exec(ops, true).history <= Exec(ops + call + more, true).history
  {
    HistoryGrows(ops, call, true);
    HistoryGrows(ops + call, more, true);
  }

  lemma Continuation(ops: seq<Op>, more: seq<Op>, now: nat, later: nat, rpm: int, tpm: int) returns (gained: seq<Event>)
    requires Monotone(ops + [Call(now, rpm, tpm)] + more + [Call(later, rpm, tpm)])
    ensures now <= later && Monotone(ops + [Call(now, rpm, tpm)])
    ensures var all := ops + [Call(now, rpm, tpm)] + more;
            && Exec(all, true).history == Exec(ops, true).history + gained
            && Exec(all, true).history[|Exec(ops, true).history|..] == gained
  {
    var call := [Call(now, rpm, tpm)];
    MonotonePrefixes(ops, call, more, [Call(later, rpm, tpm)]);
    HistoryContinues(ops, call, more);
    gained := Exec(ops + call + more, true).history[|Exec(ops, true).history|..];
  }

  lemma MonotonePrefixes(a: seq<Op>, b: seq<Op>, c: seq<Op>, d: seq<Op>)
    requires Monotone(a + b + c + d) && |b| == 1 && |d| == 1
    ensures Monotone(a + b) && b[0].now <= d[0].now
  {
    var whole := a + b + c + d;
    assert a + b == whole[..|a + b|];
    assert whole[|a|] == b[0] && whole[|whole| - 1] == d[0];
  }

  lemma HistoryFacts(ops: seq<Op>, now: nat, rpm: int, tpm: int)
    requires Monotone(ops + [Call(now, rpm, tpm)]) && Limits(ops, rpm, tpm) && rpm >= 1
    ensures var h := Exec(ops, true).history;
            && Ordered(h)
            && (forall e :: e in h ==> e.at <= now && (e.Recorded? ==> e.tokens > 0))
            && |AdmittedIn(h, now)| <= rpm
  {
    var all := ops + [Call(now, rpm, tpm)];
    assert forall i :: 0 <= i < |ops| ==> all[i] == ops[i];
    assert ops != [] ==> all[|ops| - 1].now <= all[|ops|].now;
    RunKeeps(ops, true);
    RecordsPositive(ops, true);
    RateIsBounded(ops, rpm, tpm, now);
  }

  lemma TightOnHistory(h: seq<Event>, gained: seq<Event>, now: nat, later: nat, rpm: int, tpm: int)
    requires Ordered(h) && (forall e :: e in h ==> e.at <= now && (e.Recorded? ==> e.tokens > 0))
    requires rpm >= 1 && tpm >= 1 && now <= later && !Verdict(h, now, rpm, tpm).allowed && |AdmittedIn(h, now)| <= rpm
    ensures var retry := Verdict(h, now, rpm, tpm).retryMs;
            && (later < now + retry ==> !Verdict(h + gained, later, rpm, tpm).allowed)
            && (later == now + retry && |AdmittedIn(h, now)| >= rpm && (forall e :: e in gained ==> e.Recorded?)
                ==> |AdmittedIn(h + gained, later)| < rpm)
            && (later == now + retry && |AdmittedIn(h, now)| < rpm && (forall e :: e in gained ==> e.Admitted?)
                ==> TokensIn(h + gained, later) < TokensIn(h, now))
  {
    var retry := Verdict(h, now, rpm, tpm).retryMs;
    if later < now + retry {
      SoonerRetryDenied(h, gained, now, later, rpm, tpm);
    } else if later == now + retry && |AdmittedIn(h, now)| >= rpm && forall e :: e in gained ==> e.Recorded? {
      RequestRetryPasses(h, gained, now, rpm, tpm);
    } else if later == now + retry && |AdmittedIn(h, now)| < rpm && forall e :: e in gained ==> e.Admitted? {
      TokenRetryDrops(h, gained, now, rpm, tpm);
    }
  }

  /**
   * The request set's member is the time itself, so requests of one millisecond count once: after
   * one of them, any number of others is judged as the second is.
   */
  lemma BurstIsFree(h: seq<Event>, burst: seq<Event>, now: nat, rpm: int, tpm: int)
    requires burst != [] && forall e :: e in burst ==> e == Admitted(now)
    ensures Verdict(h + burst, now, rpm, tpm).allowed <==> Verdict(h + [Admitted(now)], now, rpm, tpm).allowed
    ensures Verdict(h + burst, now, rpm, tpm).allowed <==> |AdmittedIn(h, now) + {now}| < rpm && TokensIn(h, now) < tpm
  {
    assert burst[0] in burst && burst[0] in h + burst;
    assert AdmittedIn(h + burst, now) == AdmittedIn(h, now) + {now};
    assert AdmittedIn(h + [Admitted(now)], now) == AdmittedIn(h, now) + {now};
    TokensMore(h, burst, now);
    TokensMore(h, [Admitted(now)], now);
  }

  // When a key's deadline is harmless

  /**
   * From `from` on, expiry hides nothing the window would show exactly when every member that is
   * still live at `from` has left the window by the first instant after the deadline.
   */
  lemma ExpiryHarmlessIff(k: Key, from: nat)
    ensures (forall now: nat :: now >= from ==> SameWindow(k, k.entries, now))
      <==> (k.deadline.None? ||
            forall e :: e in k.entries && e.score > from - WINDOW ==> e.score + WINDOW <= k.deadline.value + 1)
  {
    if k.deadline.Some? {
      var d := k.deadline.value;
      var t := if d < from then from else d + 1;
      if forall now: nat :: now >= from ==> SameWindow(k, k.entries, now) {
        assert SameWindow(k, k.entries, t);
        forall e | e in k.entries && e.score > from - WINDOW ensures e.score + WINDOW <= d + 1 {
          AfterContains(k.entries, t - WINDOW, e);
        }
      }
      if forall e :: e in k.entries && e.score > from - WINDOW ==> e.score + WINDOW <= d + 1 {
        forall now: nat | now >= from ensures SameWindow(k, k.entries, now) {
          if Expired(k, now) { AfterNone(k.entries, now - WINDOW); }
        }
      }
    }
  }
}
