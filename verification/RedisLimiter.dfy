/**
 * The gateway's Redis limiter: one key's two sorted sets (requests and token records), the Lua
 * script that evicts, counts, sums and admits, and the pipelined token record.
 * Times are milliseconds of one clock.
 */
module RedisLimiter {
  import opened Wrappers
  import opened Text
  import Decimal

  const WINDOW: nat := 60000
  const TTL: nat := 65000

  datatype Entry = Entry(member: string, score: nat)

  /** A sorted set, lowest score first. Ties keep insertion order: the script reads no tie order. */
  type SortedSet = seq<Entry>

  /** A Redis key holding a sorted set; `deadline` is the last instant the whole key is there. */
  datatype Key = Key(entries: SortedSet, deadline: Option<nat>)

  datatype Keys = Keys(rpm: Key, tpm: Key)

  datatype Reply = Reply(allowed: bool, retryMs: int)

  const EMPTY := Keys(Key([], None), Key([], None))

  // Redis commands

  /** What a ZREMRANGEBYSCORE -inf cutoff leaves. */
  function After(s: SortedSet, cutoff: int): SortedSet {
    if s == [] then []
    else
      var rest := After(s[..|s| - 1], cutoff);
      if s[|s| - 1].score > cutoff then rest + [s[|s| - 1]] else rest
  }

  function Without(s: SortedSet, member: string): SortedSet {
    if s == [] then []
    else
      var rest := Without(s[..|s| - 1], member);
      if s[|s| - 1].member == member then rest else rest + [s[|s| - 1]]
  }

  function InsertByScore(s: SortedSet, e: Entry): SortedSet {
    if s == [] || s[|s| - 1].score <= e.score then s + [e]
    else InsertByScore(s[..|s| - 1], e) + [s[|s| - 1]]
  }

  /** ZADD: a member occurs once, with its latest score. */
  function ZAdd(s: SortedSet, member: string, score: nat): SortedSet {
    if Entry(member, score) in s then s else InsertByScore(Without(s, member), Entry(member, score))
  }

  /** Redis drops a key once the clock has passed its deadline. */
  predicate Expired(k: Key, now: nat) { k.deadline.Some? && k.deadline.value < now }

  /** What a command running at `now` finds under the key. */
  function Visible(k: Key, now: nat): SortedSet { if Expired(k, now) then [] else k.entries }

  /** Redis deletes a sorted set that becomes empty, and its time to live with it. */
  function Stored(s: SortedSet, deadline: Option<nat>): Key { Key(s, if s == [] then None else deadline) }

  function Evict(k: Key, now: nat): Key { Stored(After(Visible(k, now), now - WINDOW), k.deadline) }

  /** EXPIRE key 65; does nothing on a missing key. `ttl` false describes keys that never expire. */
  function Expire(k: Key, now: nat, ttl: bool): Key {
    if ttl && k.entries != [] then k.(deadline := Some(now + TTL)) else k
  }

  function AddTo(k: Key, member: string, now: nat): Key {
    Key(ZAdd(Visible(k, now), member, now), if Expired(k, now) then None else k.deadline)
  }

  // Token records

  function Member(at: nat, tokens: nat, nonce: nat): string {
    Decimal.Print(at) + [':'] + Decimal.Print(tokens) + [':'] + Decimal.Print(nonce)
  }

  /** The script's reading of a member: the digits between the first two colons, else nothing. */
  function TokensOf(member: string): nat {
    match IndexOf(member, ':')
    case None => 0
    case Some(first) =>
      match IndexOf(member[first + 1..], ':')
      case None => 0
      case Some(second) =>
        var digits := member[first + 1..][..second];
        if Decimal.IsNumeral(digits) then Decimal.Value(digits) else 0
  }

  function TokenSum(s: SortedSet): nat {
    if s == [] then 0 else TokenSum(s[..|s| - 1]) + TokensOf(s[|s| - 1].member)
  }

  // The two operations as state transitions

  function RetryAfter(s: SortedSet, now: nat): int {
    if s == [] then WINDOW else s[0].score + WINDOW - now
  }

  function Check(keys: Keys, now: nat, rpm: int, tpm: int, ttl: bool): (Keys, Reply) {
    var r, t := Evict(keys.rpm, now), Evict(keys.tpm, now);
    if |r.entries| >= rpm then (Keys(r, t), Reply(false, RetryAfter(r.entries, now)))
    else if TokenSum(t.entries) >= tpm then (Keys(r, t), Reply(false, RetryAfter(t.entries, now)))
    else
      (Keys(Expire(AddTo(r, Decimal.Print(now), now), now, ttl), Expire(t, now, ttl)), Reply(true, 0))
  }

  function Record(keys: Keys, now: nat, tokens: int, nonce: nat, ttl: bool): Keys {
    if tokens <= 0 then keys
    else keys.(tpm := Expire(AddTo(keys.tpm, Member(now, tokens, nonce), now), now, ttl))
  }

  /** The script's loop over the live token records. */
  method SumTokens(members: SortedSet) returns (total: nat)
    ensures total == TokenSum(members)
  {
    total := 0;
    for i := 0 to |members|
      invariant total == TokenSum(members[..i])
    {
      assert members[..i + 1][..i] == members[..i];
      var member := members[i].member;
      var first := IndexOf(member, ':');
      if first.Some? {
        var second := IndexOf(member[first.value + 1..], ':');
        if second.Some? {
          var digits := member[first.value + 1..][..second.value];
          total := total + if Decimal.IsNumeral(digits) then Decimal.Value(digits) else 0;
        }
      }
    }
    assert members[..|members|] == members;
  }

  /** The Redis keys of one API key and the two calls the gateway makes on them. */
  class Limiter {
    var rpm: Key
    var tpm: Key

    ghost function State(): Keys
      reads this
    {
      Keys(rpm, tpm)
    }

    constructor ()
      ensures State() == EMPTY
    {
      rpm, tpm := Key([], None), Key([], None);
    }

    /** The Lua script, run atomically by Redis. */
    method Allow(now: nat, rpmLimit: int, tpmLimit: int) returns (reply: Reply)
      modifies this
      ensures (State(), reply) == Check(old(State()), now, rpmLimit, tpmLimit, true)
    {
      rpm := Evict(rpm, now);
      tpm := Evict(tpm, now);
      if |rpm.entries| >= rpmLimit {
        if |rpm.entries| > 0 {
          return Reply(false, rpm.entries[0].score + WINDOW - now);
        }
        return Reply(false, WINDOW);
      }
      var total := SumTokens(tpm.entries);
      if total >= tpmLimit {
        if |tpm.entries| > 0 {
          return Reply(false, tpm.entries[0].score + WINDOW - now);
        }
        return Reply(false, WINDOW);
      }
      rpm := AddTo(rpm, Decimal.Print(now), now);
      rpm := Expire(rpm, now, true);
      tpm := Expire(tpm, now, true);
      return Reply(true, 0);
    }

    /** Called after the response, with the usage the proxy read from the stream. */
    method RecordTokens(now: nat, tokens: int, nonce: nat)
      modifies this
      ensures State() == Record(old(State()), now, tokens, nonce, true)
    {
      if tokens <= 0 {
        return;
      }
      tpm := AddTo(tpm, Member(now, tokens, nonce), now);
      tpm := Expire(tpm, now, true);
    }
  }
}
