/**
 * What the Redis limiter decides, stated over everything that ever happened to a key:
 * the evicting, expiring sorted sets give the answers of the full history.
 */
module RedisLimiterHistory {
  import opened Wrappers
  import opened Text
  import opened RedisLimiter

  datatype Event =
    | Admitted(at: nat)
    | Recorded(at: nat, tokens: nat, nonce: nat)

  datatype Op =
    | Call(now: nat, rpm: int, tpm: int)
    | Use(now: nat, tokens: int, nonce: nat)

  datatype Run = Run(keys: Keys, history: seq<Event>, replies: seq<Reply>)

  // The reference: distinct admitted milliseconds and distinct records of the half-open window.

  ghost function AdmittedIn(h: seq<Event>, now: nat): set<nat> {
    set e | e in h && e.Admitted? && now - 60000 < e.at <= now :: e.at
  }

  /** Every distinct record in the window contributes its tokens once. */
  function TokensIn(h: seq<Event>, now: nat): nat {
    if h == [] then 0
    else
      var rest, e := h[..|h| - 1], h[|h| - 1];
      TokensIn(rest, now) + if e.Recorded? && now - 60000 < e.at <= now && e !in rest then e.tokens else 0
  }

  // Runs

  ghost predicate Monotone(ops: seq<Op>) {
    forall i, j :: 0 <= i < j < |ops| ==> ops[i].now <= ops[j].now
  }

  function Step(r: Run, op: Op, ttl: bool): Run {
    match op
    case Call(now, rpm, tpm) =>
      var (keys, reply) := Check(r.keys, now, rpm, tpm, ttl);
      Run(keys, if reply.allowed then r.history + [Admitted(now)] else r.history, r.replies + [reply])
    case Use(now, tokens, nonce) =>
      Run(Record(r.keys, now, tokens, nonce, ttl),
          if tokens > 0 then r.history + [Recorded(now, tokens, nonce)] else r.history, r.replies)
  }

  function Exec(ops: seq<Op>, ttl: bool): Run {
    if ops == [] then Run(EMPTY, [], []) else Step(Exec(ops[..|ops| - 1], ttl), ops[|ops| - 1], ttl)
  }

  // Sequences of entries

  lemma {:induction false} AfterContains(s: SortedSet, cutoff: int, e: Entry)
    ensures e in After(s, cutoff) <==> e in s && e.score > cutoff
  {
    if s != [] {
      AfterContains(s[..|s| - 1], cutoff, e);
      assert s == s[..|s| - 1] + [s[|s| - 1]];
    }
  }

  lemma AfterAdd(s: SortedSet, e: Entry, cutoff: int)
    ensures After(s + [e], cutoff) == After(s, cutoff) + if e.score > cutoff then [e] else []
  {
    assert (s + [e])[..|s|] == s;
  }

  lemma {:induction false} AfterAfter(s: SortedSet, a: int, b: int)
    requires a <= b
    ensures After(After(s, a), b) == After(s, b)
  {
    if s != [] {
      AfterAfter(s[..|s| - 1], a, b);
      AfterAdd(After(s[..|s| - 1], a), s[|s| - 1], b);
    }
  }

  lemma {:induction false} AfterNone(s: SortedSet, cutoff: int)
    requires forall e :: e in s ==> e.score <= cutoff
    ensures After(s, cutoff) == []
  {
    if s != [] {
      AfterNone(s[..|s| - 1], cutoff);
    }
  }

  lemma {:induction false} WithoutAbsent(s: SortedSet, member: string)
    requires forall e :: e in s ==> e.member != member
    ensures Without(s, member) == s
  {
    if s != [] {
      WithoutAbsent(s[..|s| - 1], member);
    }
  }

  /** Under a non-decreasing clock ZADD appends, or finds the very same entry. */
  lemma ZAddAtEnd(s: SortedSet, member: string, now: nat)
    requires Fits(s, member, now)
    ensures ZAdd(s, member, now) == if Entry(member, now) in s then s else s + [Entry(member, now)]
  {
    if Entry(member, now) !in s {
      WithoutAbsent(s, member);
    }
  }

  /** `now` is no earlier than any score, and `member` belongs to that time alone. */
  ghost predicate Fits(s: SortedSet, member: string, now: nat) {
    forall e :: e in s ==> e.score <= now && (e.member == member ==> e.score == now)
  }

  // Simulation of the full history by the evicting, expiring key

  /** From time `from` on, the key shows the same window as the set that forgets nothing. */
  ghost predicate Simulates(k: Key, full: SortedSet, from: nat) {
    && (forall e :: e in full ==> e.score <= from)
    && (forall e :: e in k.entries ==> e in full)
    && (forall now: nat :: now >= from ==> SameWindow(k, full, now))
  }

  ghost predicate SameWindow(k: Key, full: SortedSet, now: nat) {
    After(Visible(k, now), now - WINDOW) == After(full, now - WINDOW)
  }

  lemma SimulatesLater(k: Key, full: SortedSet, from: nat, now: nat)
    requires Simulates(k, full, from) && from <= now
    ensures Simulates(k, full, now)
  {
  }

  lemma SameWindowLater(k: Key, full: SortedSet, now: nat, t: nat)
    requires forall e :: e in full ==> e.score <= now
    requires After(k.entries, now - WINDOW) == After(full, now - WINDOW)
    requires k.deadline.None? || k.deadline.value >= now + TTL
    requires t >= now
    ensures SameWindow(k, full, t)
  {
    if Expired(k, t) {
      AfterNone(full, t - WINDOW);
    } else {
      AfterAfter(k.entries, now - WINDOW, t - WINDOW);
      AfterAfter(full, now - WINDOW, t - WINDOW);
    }
  }

  /** A key that shows the window at `now` keeps showing it, whatever happens to its deadline later. */
  lemma SimulatesFrom(k: Key, full: SortedSet, now: nat)
    requires forall e :: e in full ==> e.score <= now
    requires forall e :: e in k.entries ==> e in full
    requires After(k.entries, now - WINDOW) == After(full, now - WINDOW)
    requires k.deadline.None? || k.deadline.value >= now + TTL
    ensures Simulates(k, full, now)
  {
    forall t: nat | t >= now ensures SameWindow(k, full, t) {
      SameWindowLater(k, full, now, t);
    }
  }

  lemma EvictSameWindow(k: Key, full: SortedSet, now: nat, t: nat)
    requires SameWindow(k, full, now) && SameWindow(k, full, t) && now <= t
    ensures SameWindow(Evict(k, now), full, t)
  {
    AfterAfter(full, now - WINDOW, t - WINDOW);
  }

  lemma EvictSimulates(k: Key, full: SortedSet, from: nat, now: nat)
    requires Simulates(k, full, from) && from <= now
    ensures Evict(k, now).entries == After(full, now - WINDOW)
    ensures Simulates(Evict(k, now), full, now)
  {
    assert SameWindow(k, full, now);
    forall e | e in After(full, now - WINDOW) ensures e in full { AfterContains(full, now - WINDOW, e); }
    forall t: nat | t >= now ensures SameWindow(Evict(k, now), full, t) {
      EvictSameWindow(k, full, now, t);
    }
  }

  lemma ExpireSimulates(k: Key, full: SortedSet, now: nat, ttl: bool)
    requires Simulates(k, full, now) && k.entries == After(full, now - WINDOW)
    ensures Simulates(Expire(k, now, ttl), full, now)
  {
    AfterAfter(full, now - WINDOW, now - WINDOW);
    if ttl && k.entries != [] {
      SimulatesFrom(Expire(k, now, ttl), full, now);
    }
  }

  lemma AddSimulates(k: Key, full: SortedSet, from: nat, member: string, now: nat, ttl: bool)
    requires Simulates(k, full, from) && from <= now && Fits(full, member, now)
    requires !ttl ==> k.deadline.None?
    ensures Simulates(Expire(AddTo(k, member, now), now, ttl), ZAdd(full, member, now), now)
  {
    var seen, e := Visible(k, now), Entry(member, now);
    assert SameWindow(k, full, now);
    AfterContains(seen, now - WINDOW, e);
    AfterContains(full, now - WINDOW, e);
    ZAddAtEnd(seen, member, now);
    ZAddAtEnd(full, member, now);
    AfterAdd(seen, e, now - WINDOW);
    AfterAdd(full, e, now - WINDOW);
    var k' := AddTo(k, member, now);
    SimulatesFrom(Expire(k', now, ttl), ZAdd(full, member, now), now);
  }

  // The sets that forget nothing

  function FullRpm(h: seq<Event>): SortedSet {
    if h == [] then []
    else
      var rest := FullRpm(h[..|h| - 1]);
      match h[|h| - 1]
      case Admitted(at) => ZAdd(rest, Decimal.Print(at), at)
      case Recorded(_, _, _) => rest
  }

  function FullTpm(h: seq<Event>): SortedSet {
    if h == [] then []
    else
      var rest := FullTpm(h[..|h| - 1]);
      match h[|h| - 1]
      case Admitted(_) => rest
      case Recorded(at, tokens, nonce) => ZAdd(rest, Member(at, tokens, nonce), at)
  }

  ghost predicate Ordered(h: seq<Event>) {
    forall i, j :: 0 <= i < j < |h| ==> h[i].at <= h[j].at
  }

  lemma MemberFields(at: nat, tokens: nat, nonce: nat)
    ensures Split(Member(at, tokens, nonce), ':') == [Decimal.Print(at), Decimal.Print(tokens), Decimal.Print(nonce)]
  {
    SplitThree(Decimal.Print(at), Decimal.Print(tokens), Decimal.Print(nonce), ':');
  }

  /** A record is printed so that the script reads its tokens back. */
  lemma MemberReadsBack(at: nat, tokens: nat, nonce: nat)
    ensures TokensOf(Member(at, tokens, nonce)) == tokens
  {
    var a, t, n := Decimal.Print(at), Decimal.Print(tokens), Decimal.Print(nonce);
    var m := Member(at, tokens, nonce);
    assert m == a + [':'] + (t + [':'] + n);
    FirstIndex(a, ':', t + [':'] + n);
    assert m[|a| + 1..] == t + [':'] + n;
    FirstIndex(t, ':', n);
    assert (t + [':'] + n)[..|t|] == t;
    Decimal.PrintValue(tokens);
  }

  /** No two records look alike. */
  lemma MemberInjective(e: Event, f: Event)
    requires e.Recorded? && f.Recorded?
    ensures Member(e.at, e.tokens, e.nonce) == Member(f.at, f.tokens, f.nonce) <==> e == f
  {
    if Member(e.at, e.tokens, e.nonce) == Member(f.at, f.tokens, f.nonce) {
      MemberFields(e.at, e.tokens, e.nonce);
      MemberFields(f.at, f.tokens, f.nonce);
      var parts := Split(Member(e.at, e.tokens, e.nonce), ':');
      assert parts[0] == Decimal.Print(f.at) && parts[1] == Decimal.Print(f.tokens);
      assert parts[2] == Decimal.Print(f.nonce);
      Decimal.PrintInjective(e.at, f.at);
      Decimal.PrintInjective(e.tokens, f.tokens);
      Decimal.PrintInjective(e.nonce, f.nonce);
    }
  }

  lemma {:induction false} FullRpmEntries(h: seq<Event>)
    requires Ordered(h)
    ensures forall e :: e in FullRpm(h) ==> e.member == Decimal.Print(e.score) && Admitted(e.score) in h
    ensures forall e :: e in h && e.Admitted? ==> Entry(Decimal.Print(e.at), e.at) in FullRpm(h)
    ensures h != [] ==> forall e :: e in FullRpm(h) ==> e.score <= h[|h| - 1].at
  {
    if h != [] {
      var rest, last := h[..|h| - 1], h[|h| - 1];
      FullRpmEntries(rest);
      assert h == rest + [last];
      if last.Admitted? {
        forall e | e in FullRpm(rest) && e.member == Decimal.Print(last.at) ensures e.score == last.at {
          Decimal.PrintInjective(e.score, last.at);
        }
        ZAddAtEnd(FullRpm(rest), Decimal.Print(last.at), last.at);
      }
    }
  }

  lemma {:induction false} FullTpmEntries(h: seq<Event>)
    requires Ordered(h)
    ensures forall e :: e in FullTpm(h) ==> exists r :: r in h && IsRecordOf(e, r)
    ensures forall r :: r in h && r.Recorded? ==> Entry(Member(r.at, r.tokens, r.nonce), r.at) in FullTpm(h)
    ensures h != [] ==> forall e :: e in FullTpm(h) ==> e.score <= h[|h| - 1].at
  {
    if h != [] {
      var rest, last := h[..|h| - 1], h[|h| - 1];
      FullTpmEntries(rest);
      assert h == rest + [last];
      if last.Recorded? {
        FitsTpm(rest, last);
        ZAddAtEnd(FullTpm(rest), Member(last.at, last.tokens, last.nonce), last.at);
        assert IsRecordOf(Entry(Member(last.at, last.tokens, last.nonce), last.at), last);
      }
    }
  }

  ghost predicate IsRecordOf(e: Entry, r: Event) {
    r.Recorded? && e == Entry(Member(r.at, r.tokens, r.nonce), r.at)
  }

  lemma FitsTpm(h: seq<Event>, r: Event)
    requires r.Recorded? && forall e :: e in FullTpm(h) ==> e.score <= r.at
    requires forall e :: e in FullTpm(h) ==> exists q :: q in h && IsRecordOf(e, q)
    ensures Fits(FullTpm(h), Member(r.at, r.tokens, r.nonce), r.at)
  {
    forall e | e in FullTpm(h) && e.member == Member(r.at, r.tokens, r.nonce) ensures e.score == r.at {
      var q :| q in h && IsRecordOf(e, q);
      MemberInjective(q, r);
    }
  }

  lemma FitsRpm(h: seq<Event>, at: nat)
    requires Ordered(h + [Admitted(at)])
    ensures Fits(FullRpm(h), Decimal.Print(at), at)
  {
    var h' := h + [Admitted(at)];
    assert h == h'[..|h|];
    FullRpmEntries(h);
    forall e | e in FullRpm(h) ensures e.score <= at && (e.member == Decimal.Print(at) ==> e.score == at) {
      assert e.score <= h'[|h| - 1].at <= h'[|h|].at;
      if e.member == Decimal.Print(at) { Decimal.PrintInjective(e.score, at); }
    }
  }

  /** Admitting twice in one millisecond leaves one member. */
  lemma FullRpmGrows(h: seq<Event>, at: nat)
    requires Ordered(h + [Admitted(at)])
    ensures FullRpm(h + [Admitted(at)])
         == if Admitted(at) in h then FullRpm(h) else FullRpm(h) + [Entry(Decimal.Print(at), at)]
  {
    var h' := h + [Admitted(at)];
    assert h'[..|h|] == h;
    FitsRpm(h, at);
    ZAddAtEnd(FullRpm(h), Decimal.Print(at), at);
    FullRpmEntries(h);
  }

  lemma FullTpmGrows(h: seq<Event>, r: Event)
    requires Ordered(h + [r]) && r.Recorded?
    ensures FullTpm(h + [r])
         == if r in h then FullTpm(h) else FullTpm(h) + [Entry(Member(r.at, r.tokens, r.nonce), r.at)]
  {
    var h', e := h + [r], Entry(Member(r.at, r.tokens, r.nonce), r.at);
    assert h'[..|h|] == h;
    FullTpmEntries(h);
    assert forall q :: q in FullTpm(h) ==> q.score <= h'[|h| - 1].at <= h'[|h|].at;
    FitsTpm(h, r);
    ZAddAtEnd(FullTpm(h), e.member, e.score);
    if e in FullTpm(h) {
      var q :| q in h && IsRecordOf(e, q);
      MemberInjective(q, r);
    }
  }

  lemma AdmittedInGrows(h: seq<Event>, e: Event, now: nat)
    ensures AdmittedIn(h + [e], now)
         == AdmittedIn(h, now) + if e.Admitted? && now - WINDOW < e.at <= now then {e.at} else {}
    ensures e.Admitted? && now - WINDOW < e.at <= now ==> (e.at in AdmittedIn(h, now) <==> e in h)
  {
  }

  lemma LiveCountGrows(h: seq<Event>, e: Event, now: nat)
    requires Ordered(h + [e]) && e.at <= now
    requires |After(FullRpm(h), now - WINDOW)| == |AdmittedIn(h, now)|
    ensures |After(FullRpm(h + [e]), now - WINDOW)| == |AdmittedIn(h + [e], now)|
  {
    AdmittedInGrows(h, e, now);
    if e.Admitted? {
      FullRpmGrows(h, e.at);
      AfterAdd(FullRpm(h), Entry(Decimal.Print(e.at), e.at), now - WINDOW);
    } else {
      assert (h + [e])[..|h|] == h;
    }
  }

  /** Counting the live members is counting the distinct admitted milliseconds. */
  lemma {:induction false} LiveCount(h: seq<Event>, now: nat)
    requires Ordered(h) && (h != [] ==> h[|h| - 1].at <= now)
    ensures |After(FullRpm(h), now - WINDOW)| == |AdmittedIn(h, now)|
  {
    if h != [] {
      var rest, last := h[..|h| - 1], h[|h| - 1];
      LiveCount(rest, now);
      assert h == rest + [last];
      LiveCountGrows(rest, last, now);
    }
  }

  lemma TokenSumAdd(s: SortedSet, e: Entry)
    ensures TokenSum(s + [e]) == TokenSum(s) + TokensOf(e.member)
  {
    assert (s + [e])[..|s|] == s;
  }

  lemma LiveTokensGrow(h: seq<Event>, e: Event, now: nat)
    requires Ordered(h + [e]) && e.at <= now
    requires TokenSum(After(FullTpm(h), now - WINDOW)) == TokensIn(h, now)
    ensures TokenSum(After(FullTpm(h + [e]), now - WINDOW)) == TokensIn(h + [e], now)
  {
    assert (h + [e])[..|h|] == h;
    if e.Recorded? {
      var entry := Entry(Member(e.at, e.tokens, e.nonce), e.at);
      FullTpmGrows(h, e);
      AfterAdd(FullTpm(h), entry, now - WINDOW);
      TokenSumAdd(After(FullTpm(h), now - WINDOW), entry);
      MemberReadsBack(e.at, e.tokens, e.nonce);
    }
  }

  /** Summing what the live members print is summing the distinct records of the window. */
  lemma {:induction false} LiveTokens(h: seq<Event>, now: nat)
    requires Ordered(h) && (h != [] ==> h[|h| - 1].at <= now)
    ensures TokenSum(After(FullTpm(h), now - WINDOW)) == TokensIn(h, now)
  {
    if h != [] {
      var rest, last := h[..|h| - 1], h[|h| - 1];
      LiveTokens(rest, now);
      assert h == rest + [last];
      LiveTokensGrow(rest, last, now);
    }
  }

  // Whole runs

  ghost predicate Invariant(r: Run, from: nat, ttl: bool) {
    && Ordered(r.history)
    && (forall e :: e in r.history ==> e.at <= from)
    && Simulates(r.keys.rpm, FullRpm(r.history), from)
    && Simulates(r.keys.tpm, FullTpm(r.history), from)
    && (!ttl ==> r.keys.rpm.deadline.None? && r.keys.tpm.deadline.None?)
  }

  /** The reply the full history calls for. */
  ghost function Verdict(h: seq<Event>, now: nat, rpm: int, tpm: int): Reply {
    if |AdmittedIn(h, now)| >= rpm then Reply(false, RetryAfter(After(FullRpm(h), now - WINDOW), now))
    else if TokensIn(h, now) >= tpm then Reply(false, RetryAfter(After(FullTpm(h), now - WINDOW), now))
    else Reply(true, 0)
  }

  /** The key holds the live part of the set that forgets nothing. */
  ghost predicate Shows(k: Key, full: SortedSet, now: nat) { k.entries == After(full, now - WINDOW) }

  lemma CallSees(r: Run, from: nat, now: nat, ttl: bool)
    requires Invariant(r, from, ttl) && from <= now
    ensures Shows(Evict(r.keys.rpm, now), FullRpm(r.history), now)
    ensures Shows(Evict(r.keys.tpm, now), FullTpm(r.history), now)
    ensures Simulates(Evict(r.keys.rpm, now), FullRpm(r.history), now)
    ensures Simulates(Evict(r.keys.tpm, now), FullTpm(r.history), now)
    ensures !ttl ==> Evict(r.keys.rpm, now).deadline.None? && Evict(r.keys.tpm, now).deadline.None?
  {
    EvictSimulates(r.keys.rpm, FullRpm(r.history), from, now);
    EvictSimulates(r.keys.tpm, FullTpm(r.history), from, now);
  }

  lemma Decide(keys: Keys, h: seq<Event>, now: nat, rpm: int, tpm: int, ttl: bool)
    requires Shows(Evict(keys.rpm, now), FullRpm(h), now) && Shows(Evict(keys.tpm, now), FullTpm(h), now)
    requires Ordered(h) && forall e :: e in h ==> e.at <= now
    ensures Check(keys, now, rpm, tpm, ttl).1 == Verdict(h, now, rpm, tpm)
  {
    LiveCount(h, now);
    LiveTokens(h, now);
  }

  lemma CallDecides(r: Run, from: nat, op: Op, ttl: bool)
    requires Invariant(r, from, ttl) && op.Call? && from <= op.now
    ensures Check(r.keys, op.now, op.rpm, op.tpm, ttl).1 == Verdict(r.history, op.now, op.rpm, op.tpm)
  {
    CallSees(r, from, op.now, ttl);
    Decide(r.keys, r.history, op.now, op.rpm, op.tpm, ttl);
  }

  lemma AdmitKeeps(k: Key, h: seq<Event>, now: nat, ttl: bool)
    requires Ordered(h) && forall e :: e in h ==> e.at <= now
    requires Simulates(k, FullRpm(h), now) && (!ttl ==> k.deadline.None?)
    ensures Simulates(Expire(AddTo(k, Decimal.Print(now), now), now, ttl), FullRpm(h + [Admitted(now)]), now)
    ensures FullTpm(h + [Admitted(now)]) == FullTpm(h)
  {
    assert (h + [Admitted(now)])[..|h|] == h;
    FitsRpm(h, now);
    AddSimulates(k, FullRpm(h), now, Decimal.Print(now), now, ttl);
  }

  lemma DenyKeeps(rpm: Key, tpm: Key, h: seq<Event>, replies: seq<Reply>, now: nat, ttl: bool)
    requires Ordered(h) && forall e :: e in h ==> e.at <= now
    requires Simulates(rpm, FullRpm(h), now) && Simulates(tpm, FullTpm(h), now)
    requires !ttl ==> rpm.deadline.None? && tpm.deadline.None?
    ensures Invariant(Run(Keys(rpm, tpm), h, replies), now, ttl)
  {
  }

  lemma AdmitAllKeeps(rpm: Key, tpm: Key, h: seq<Event>, replies: seq<Reply>, now: nat, ttl: bool)
    requires Ordered(h) && forall e :: e in h ==> e.at <= now
    requires Simulates(rpm, FullRpm(h), now) && Simulates(tpm, FullTpm(h), now)
    requires !ttl ==> rpm.deadline.None? && tpm.deadline.None?
    requires Shows(tpm, FullTpm(h), now)
    ensures var keys := Keys(Expire(AddTo(rpm, Decimal.Print(now), now), now, ttl), Expire(tpm, now, ttl));
            Invariant(Run(keys, h + [Admitted(now)], replies), now, ttl)
  {
    AdmitKeeps(rpm, h, now, ttl);
    ExpireSimulates(tpm, FullTpm(h), now, ttl);
    DenyKeeps(Expire(AddTo(rpm, Decimal.Print(now), now), now, ttl), Expire(tpm, now, ttl), h + [Admitted(now)],
              replies, now, ttl);
  }

  /** Eviction alone, or eviction and admission. */
  ghost predicate Either(next: Run, rpm: Key, tpm: Key, h: seq<Event>, now: nat, ttl: bool) {
    || next == Run(Keys(rpm, tpm), h, next.replies)
    || next == Run(Keys(Expire(AddTo(rpm, Decimal.Print(now), now), now, ttl), Expire(tpm, now, ttl)),
                   h + [Admitted(now)], next.replies)
  }

  lemma CallShape(r: Run, op: Op, ttl: bool)
    requires op.Call?
    ensures Either(Step(r, op, ttl), Evict(r.keys.rpm, op.now), Evict(r.keys.tpm, op.now), r.history, op.now, ttl)
  {
    if Check(r.keys, op.now, op.rpm, op.tpm, ttl).1.allowed {
    } else if |Evict(r.keys.rpm, op.now).entries| >= op.rpm {
    }
  }

  lemma EitherKeeps(rpm: Key, tpm: Key, h: seq<Event>, next: Run, now: nat, ttl: bool)
    requires Ordered(h) && forall e :: e in h ==> e.at <= now
    requires Simulates(rpm, FullRpm(h), now) && Simulates(tpm, FullTpm(h), now)
    requires !ttl ==> rpm.deadline.None? && tpm.deadline.None?
    requires Shows(tpm, FullTpm(h), now)
    requires Either(next, rpm, tpm, h, now, ttl)
    ensures Invariant(next, now, ttl)
  {
    if next.history == h {
      DenyKeeps(rpm, tpm, h, next.replies, now, ttl);
    } else {
      AdmitAllKeeps(rpm, tpm, h, next.replies, now, ttl);
    }
  }

  lemma CallKeeps(r: Run, from: nat, op: Op, ttl: bool)
    requires Invariant(r, from, ttl) && op.Call? && from <= op.now
    ensures Invariant(Step(r, op, ttl), op.now, ttl)
  {
    CallSees(r, from, op.now, ttl);
    CallShape(r, op, ttl);
    EitherKeeps(Evict(r.keys.rpm, op.now), Evict(r.keys.tpm, op.now), r.history, Step(r, op, ttl), op.now, ttl);
  }

  lemma RecordKeeps(k: Key, h: seq<Event>, e: Event, ttl: bool)
    requires Ordered(h) && (forall f :: f in h ==> f.at <= e.at) && e.Recorded?
    requires Simulates(k, FullTpm(h), e.at) && (!ttl ==> k.deadline.None?)
    ensures Simulates(Expire(AddTo(k, Member(e.at, e.tokens, e.nonce), e.at), e.at, ttl), FullTpm(h + [e]), e.at)
    ensures FullRpm(h + [e]) == FullRpm(h)
  {
    assert (h + [e])[..|h|] == h;
    FullTpmEntries(h);
    FitsTpm(h, e);
    AddSimulates(k, FullTpm(h), e.at, Member(e.at, e.tokens, e.nonce), e.at, ttl);
  }

  lemma UseKeeps(r: Run, from: nat, op: Op, ttl: bool)
    requires Invariant(r, from, ttl) && op.Use? && from <= op.now
    ensures Invariant(Step(r, op, ttl), op.now, ttl)
  {
    var h, now := r.history, op.now;
    SimulatesLater(r.keys.rpm, FullRpm(h), from, now);
    SimulatesLater(r.keys.tpm, FullTpm(h), from, now);
    if op.tokens > 0 {
      var e := Recorded(now, op.tokens, op.nonce);
      RecordKeeps(r.keys.tpm, h, e, ttl);
      DenyKeeps(r.keys.rpm, Record(r.keys, now, op.tokens, op.nonce, ttl).tpm, h + [e], r.replies, now, ttl);
    }
  }

  ghost function Clock(ops: seq<Op>): nat { if ops == [] then 0 else ops[|ops| - 1].now }

  lemma {:induction false} RunKeeps(ops: seq<Op>, ttl: bool)
    requires Monotone(ops)
    ensures Invariant(Exec(ops, ttl), Clock(ops), ttl)
  {
    if ops != [] {
      var rest, op := ops[..|ops| - 1], ops[|ops| - 1];
      RunKeeps(rest, ttl);
      if op.Call? {
        CallKeeps(Exec(rest, ttl), Clock(rest), op, ttl);
      } else {
        UseKeeps(Exec(rest, ttl), Clock(rest), op, ttl);
      }
    } else {
      forall t: nat ensures SameWindow(Key([], None), [], t) {}
    }
  }

  /**
   * After any run under a non-decreasing clock, with or without key expiry, a call is admitted
   * exactly when both windows of the whole history are under their limits.
   */
  lemma DecisionIsExact(ops: seq<Op>, now: nat, rpm: int, tpm: int, ttl: bool)
    requires Monotone(ops + [Call(now, rpm, tpm)])
    ensures var r := Exec(ops, ttl);
            && Check(r.keys, now, rpm, tpm, ttl).1 == Verdict(r.history, now, rpm, tpm)
            && (Check(r.keys, now, rpm, tpm, ttl).1.allowed
                <==> (|AdmittedIn(r.history, now)| < rpm && TokensIn(r.history, now) < tpm))
  {
    var all := ops + [Call(now, rpm, tpm)];
    assert forall i :: 0 <= i < |ops| ==> all[i] == ops[i];
    assert ops != [] ==> all[|ops| - 1].now <= all[|ops|].now;
    RunKeeps(ops, ttl);
    CallDecides(Exec(ops, ttl), Clock(ops), Call(now, rpm, tpm), ttl);
  }

  /** The 65-second expiry of the keys never changes an answer. */
  lemma {:induction false} ExpiryNeverMatters(ops: seq<Op>)
    requires Monotone(ops)
    ensures Exec(ops, true).replies == Exec(ops, false).replies
    ensures Exec(ops, true).history == Exec(ops, false).history
  {
    if ops != [] {
      var rest, op := ops[..|ops| - 1], ops[|ops| - 1];
      ExpiryNeverMatters(rest);
      RunKeeps(rest, true);
      RunKeeps(rest, false);
      if op.Call? {
        CallDecides(Exec(rest, true), Clock(rest), op, true);
        CallDecides(Exec(rest, false), Clock(rest), op, false);
      }
    }
  }
}
