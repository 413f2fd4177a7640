/**
 * The control API's per-address limiter: a slice of admission times per client, filtered in place
 * through an alias of itself under the entry's lock. Times are nanoseconds read under that lock.
 */
module MemoryLimiter {
  const MINUTE: int := 60_000_000_000

  /** The times strictly after one minute before `now`. */
  function Recent(ts: seq<int>, now: int): seq<int> {
    if ts == [] then []
    else
      var rest := Recent(ts[..|ts| - 1], now);
      if ts[|ts| - 1] > now - MINUTE then rest + [ts[|ts| - 1]] else rest
  }

  /** The times in the half-open minute ending at `at`. */
  function Window(ts: seq<int>, at: int): seq<int> {
    if ts == [] then []
    else
      var rest := Window(ts[..|ts| - 1], at);
      if at - 60_000_000_000 < ts[|ts| - 1] <= at then rest + [ts[|ts| - 1]] else rest
  }

  ghost predicate AllUpTo(ts: seq<int>, now: int) { forall i :: 0 <= i < |ts| ==> ts[i] <= now }

  lemma RecentAppend(ts: seq<int>, t: int, now: int)
    ensures Recent(ts + [t], now) == Recent(ts, now) + if t > now - MINUTE then [t] else []
    ensures Window(ts + [t], now) == Window(ts, now) + if now - MINUTE < t <= now then [t] else []
  {
    assert (ts + [t])[..|ts|] == ts;
  }

  lemma {:induction false} RecentRecent(ts: seq<int>, now: int, later: int)
    requires now <= later
    ensures Recent(Recent(ts, now), later) == Recent(ts, later)
    ensures |Recent(ts, later)| <= |Recent(ts, now)|
  {
    if ts != [] {
      RecentRecent(ts[..|ts| - 1], now, later);
      RecentAppend(Recent(ts[..|ts| - 1], now), ts[|ts| - 1], later);
    }
  }

  lemma {:induction false} WindowIsRecent(ts: seq<int>, at: int)
    ensures |Window(ts, at)| <= |Recent(ts, at)|
    ensures AllUpTo(ts, at) ==> Window(ts, at) == Recent(ts, at)
  {
    if ts != [] { WindowIsRecent(ts[..|ts| - 1], at); }
  }

  /** No half-open minute ever holds more than `n` of the times. */
  ghost predicate Bounded(ts: seq<int>, n: int) { forall at: int :: |Window(ts, at)| <= n }

  lemma AdmitKeepsBounded(ts: seq<int>, now: int, n: int)
    requires AllUpTo(ts, now) && Bounded(ts, n) && |Recent(ts, now)| < n
    ensures Bounded(ts + [now], n)
  {
    forall at: int ensures |Window(ts + [now], at)| <= n {
      RecentAppend(ts, now, at);
      if at >= now {
        WindowIsRecent(ts, at);
        RecentRecent(ts, now, at);
      }
      assert |Window(ts, at)| <= n;
    }
  }

  /** A client's entry: a Go slice (backing array, length in use) and, as ghosts, its whole past. */
  class Entry {
    const limit: int
    var buffer: array<int>
    var len: nat
    ghost var history: seq<int>  // every admission ever
    ghost var last: int          // the latest request

    /** The stored list is the recent part of the whole history, and the history keeps the rate. */
    ghost predicate Valid()
      reads this, buffer
    {
      && len <= buffer.Length
      && AllUpTo(history, last)
      && Bounded(history, if limit < 0 then 0 else limit)
      && buffer[..len] == Recent(history, last)
    }

    constructor (limit: int, now: int)
      ensures Valid() && fresh(buffer)
      ensures this.limit == limit && history == [] && last == now
    {
      this.limit := limit;
      buffer := new int[0];
      len := 0;
      history := [];
      last := now;
    }

    /** The filter writes through an alias of the slice it reads; it never overtakes the reader. */
    method Evict(now: int)
      requires len <= buffer.Length
      modifies this`len, buffer
      ensures len <= old(len) && buffer[..len] == Recent(old(buffer[..len]), now)
    {
      ghost var was := buffer[..len];
      var kept := 0;
      for i := 0 to len
        modifies buffer
        invariant kept <= i && forall k :: i <= k < len ==> buffer[k] == was[k]
        invariant buffer[..kept] == Recent(was[..i], now)
      {
        var t := buffer[i];
        assert t == was[i];
        assert was[..i + 1][..i] == was[..i];
        if t > now - MINUTE {
          buffer[kept] := t;
          kept := kept + 1;
        }
      }
      assert was[..len] == was;
      len := kept;
    }

    method Append(t: int)
      requires len <= buffer.Length
      modifies this`buffer, this`len, buffer
      ensures len <= buffer.Length && buffer[..len] == old(buffer[..len]) + [t]
      ensures buffer == old(buffer) || fresh(buffer)
    {
      if len == buffer.Length {
        var grown := new int[2 * len + 1];
        for i := 0 to len
          modifies grown
          invariant grown[..i] == buffer[..i]
        {
          grown[i] := buffer[i];
        }
        buffer := grown;
      }
      buffer[len] := t;
      len := len + 1;
    }

    /**
     * One request, under the entry's lock. If the clock does not run backwards, it is admitted
     * exactly when fewer than `limit` of all earlier admissions fell in the last minute.
     */
    method Admit(now: int) returns (admitted: bool)
      requires Valid() && last <= now
      modifies this, buffer
      ensures Valid() && (buffer == old(buffer) || fresh(buffer))
      ensures admitted <==> |Window(old(history), now)| < limit
      ensures history == old(history) + if admitted then [now] else []
      ensures last == now && len <= if limit < 0 then 0 else limit
    {
      RecentRecent(history, last, now);
      WindowIsRecent(history, now);
      Evict(now);
      last := now;
      if len >= limit {
        assert |Window(history, now)| <= if limit < 0 then 0 else limit;
        return false;
      }
      RecentAppend(history, now, now);
      AdmitKeepsBounded(history, now, limit);
      Append(now);
      history := history + [now];
      return true;
    }
  }

  /** The middleware: one entry per client address, kept from its first request on. */
  class RateLimit {
    const requestsPerMinute: int
    var store: map<string, Entry>
    ghost var owner: map<object, string>  // whose entry or array an object is

    ghost predicate Valid()
      reads this, owner.Keys
    {
      && this !in owner
      && forall ip :: ip in store ==>
           && store[ip] in owner && owner[store[ip]] == ip
           && store[ip].buffer in owner && owner[store[ip].buffer] == ip
           && store[ip].Valid() && store[ip].limit == requestsPerMinute
    }

    constructor (requestsPerMinute: int)
      ensures Valid() && store == map[] && this.requestsPerMinute == requestsPerMinute
    {
      this.requestsPerMinute, store, owner := requestsPerMinute, map[], map[];
    }

    /** A request of one client is judged by that client's own history and touches no other's. */
    method Handle(ip: string, now: int) returns (admitted: bool)
      requires Valid() && (ip in store ==> store[ip].last <= now)
      modifies this, owner.Keys
      ensures Valid() && fresh(owner.Keys - old(owner.Keys))
      ensures store.Keys == old(store).Keys + {ip} && store[ip].last == now
      ensures var past := if ip in old(store) then old(store[ip].history) else [];
              && (admitted <==> |Window(past, now)| < requestsPerMinute)
              && store[ip].history == past + if admitted then [now] else []
      ensures forall other :: other in old(store) && other != ip ==>
                && store[other] == old(store[other])
                && store[other].history == old(store[other].history) && store[other].last == old(store[other].last)
    {
      var e := LoadOrStore(ip, now);
      admitted := Serve(ip, now);
    }

    /** The request of a client whose entry exists. */
    method Serve(ip: string, now: int) returns (admitted: bool)
      requires Valid() && ip in store && store[ip].last <= now
      modifies `owner, store[ip], store[ip].buffer
      ensures Valid() && fresh(owner.Keys - old(owner.Keys))
      ensures admitted <==> |Window(old(store[ip].history), now)| < requestsPerMinute
      ensures store[ip].history == old(store[ip].history) + if admitted then [now] else []
      ensures store[ip].last == now
      ensures forall other :: other in store && other != ip ==>
                store[other].history == old(store[other].history) && store[other].last == old(store[other].last)
    {
      admitted := store[ip].Admit(now);
      owner := owner[store[ip].buffer := ip];
    }

    /** sync.Map's LoadOrStore: an entry once stored for a client stays that client's entry. */
    method LoadOrStore(ip: string, now: int) returns (e: Entry)
      requires Valid()
      modifies this
      ensures Valid() && fresh(owner.Keys - old(owner.Keys)) && old(owner.Keys) <= owner.Keys
      ensures store.Keys == old(store).Keys + {ip} && store[ip] == e
      ensures forall other :: other in old(store) ==> store[other] == old(store[other])
      ensures ip !in old(store) ==> fresh(e) && e.history == [] && e.last == now
    {
      if ip !in store {
        e := new Entry(requestsPerMinute, now);
        assert e !in owner && e.buffer !in owner;
        store := store[ip := e];
        owner := owner[e := ip][e.buffer := ip];
      } else {
        e := store[ip];
      }
    }
  }
}
