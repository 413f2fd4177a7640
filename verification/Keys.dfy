/** The bitwise operators on unsigned numbers. */
module Bits {
  function Xor(a: nat, b: nat): nat
    decreases a + b
  {
    if a == 0 && b == 0 then 0 else 2 * Xor(a / 2, b / 2) + (a + b) % 2
  }

  function Or(a: nat, b: nat): nat
    decreases a + b
  {
    if a == 0 && b == 0 then 0 else 2 * Or(a / 2, b / 2) + if a % 2 + b % 2 > 0 then 1 else 0
  }

  lemma {:induction false} XorIsZero(a: nat, b: nat)
    ensures Xor(a, b) == 0 <==> a == b
    decreases a + b
  {
    if a != 0 || b != 0 {
      XorIsZero(a / 2, b / 2);
      assert a == a / 2 * 2 + a % 2 && b == b / 2 * 2 + b % 2;
    }
  }

  lemma {:induction false} OrIsZero(a: nat, b: nat)
    ensures Or(a, b) == 0 <==> a == 0 && b == 0
    decreases a + b
  {
    if a != 0 || b != 0 {
      OrIsZero(a / 2, b / 2);
    }
  }
}

/**
 * API keys: the control API prints a key's Argon2id hash as a PHC string and a lookup prefix; the
 * gateway finds the row by prefix, parses the string back and derives the hash again.
 */
module Keys {
  import opened Wrappers
  import opened Text
  import opened Bytes
  import Base64
  import Bits
  import Decimal

  const KEY_PREFIX := "openserve_live_"
  const PREFIX_LENGTH := 23
  const MEMORY := 65536
  const TIME := 1
  const THREADS := 4
  const KEY_LENGTH := 32

  /** Argon2id: password, salt, time, memory, threads, length of the derived key. */
  type Kdf = (string, seq<Byte>, nat, nat, nat, nat) -> seq<Byte>

  // Printing (control API)

  function HexDigit(v: nat): (c: char)
    requires v < 16
    ensures c < 128 as char
  {
    if v < 10 then ('0' as int + v) as char else ('a' as int + v - 10) as char
  }

  function Pair(b: Byte): string { [HexDigit(b / 16), HexDigit(b % 16)] }

  function Hex(b: seq<Byte>): (s: string)
    ensures |s| == 2 * |b|
  {
    if b == [] then "" else Hex(b[..|b| - 1]) + Pair(b[|b| - 1])
  }

  function RawKey(random: seq<Byte>): string { KEY_PREFIX + Hex(random) }

  function Params(memory: nat, time: nat, threads: nat): string {
    "m=" + Decimal.Print(memory) + ",t=" + Decimal.Print(time) + ",p=" + Decimal.Print(threads)
  }

  function Phc(salt: seq<Byte>, derived: seq<Byte>): string {
    "$argon2id$v=19$" + Params(MEMORY, TIME, THREADS) + "$" + Base64.Encode(salt) + "$" + Base64.Encode(derived)
  }

  function Derive(rawKey: string, salt: seq<Byte>, kdf: Kdf): seq<Byte> {
    kdf(rawKey, salt, TIME, MEMORY, THREADS, KEY_LENGTH)
  }

  function Hash(rawKey: string, salt: seq<Byte>, kdf: Kdf): string { Phc(salt, Derive(rawKey, salt, kdf)) }

  function Prefix(rawKey: string): string {
    if |rawKey| < PREFIX_LENGTH then rawKey else rawKey[..PREFIX_LENGTH]
  }

  // What the verifier accepts (gateway)

  /** A field `name=number`, the number fitting 32 bits. */
  function Field(s: string): Option<(string, nat)> {
    match IndexOf(s, '=')
    case None => None
    case Some(i) =>
      match Decimal.ParseUint32(s[i + 1..])
      case None => None
      case Some(n) => Some((s[..i], n))
  }

  predicate FieldsParse(fields: seq<string>) { forall i :: 0 <= i < |fields| ==> Field(fields[i]).Some? }

  /** The value of the last field of that name; an absent one is zero. */
  function LastValue(fields: seq<string>, name: string): nat {
    if fields == [] then 0
    else
      var f := Field(fields[|fields| - 1]);
      if f.Some? && f.value.0 == name then f.value.1 else LastValue(fields[..|fields| - 1], name)
  }

  predicate FormatOk(parts: seq<string>) { |parts| == 6 && parts[0] == "" && parts[1] == "argon2id" }

  function FieldsOf(stored: string): seq<string>
    requires FormatOk(Split(stored, '$'))
  {
    Split(Split(stored, '$')[3], ',')
  }

  function SaltOf(stored: string): Option<seq<Byte>>
    requires FormatOk(Split(stored, '$'))
  {
    Base64.Decode(Split(stored, '$')[4])
  }

  function HashOf(stored: string): Option<seq<Byte>>
    requires FormatOk(Split(stored, '$'))
  {
    Base64.Decode(Split(stored, '$')[5])
  }

  /** Format, parameters, salt and hash all parse. */
  predicate Parses(stored: string) {
    FormatOk(Split(stored, '$')) && FieldsParse(FieldsOf(stored)) && SaltOf(stored).Some? && HashOf(stored).Some?
  }

  /** Argon2 panics without a round, without a thread, and when asked for no bytes. */
  predicate Derivable(stored: string)
    requires Parses(stored)
  {
    var fields := FieldsOf(stored);
    LastValue(fields, "t") >= 1 && LastValue(fields, "p") % 256 >= 1 && |HashOf(stored).value| >= 1
  }

  /** The bytes derived from the key with the stored parameters are the stored ones. */
  ghost predicate Derives(rawKey: string, stored: string, kdf: Kdf)
    requires Parses(stored)
  {
    var fields, hash := FieldsOf(stored), HashOf(stored).value;
    kdf(rawKey, SaltOf(stored).value, LastValue(fields, "t"), LastValue(fields, "m"),
        LastValue(fields, "p") % 256, |hash|) == hash
  }

  ghost predicate Verifies(rawKey: string, stored: string, kdf: Kdf) {
    Parses(stored) && Derivable(stored) && Derives(rawKey, stored, kdf)
  }

  datatype Verdict = Valid | BadFormat | BadParams | BadSalt | BadHash | Panicked | Mismatch

  /** Accumulating the differences bit by bit finds out exactly whether there is one. */
  method ConstantTimeCompare(a: seq<Byte>, b: seq<Byte>) returns (same: bool)
    ensures same <==> a == b
  {
    if |a| != |b| {
      return false;
    }
    var result := 0;
    for i := 0 to |a|
      invariant result == 0 <==> forall j :: 0 <= j < i ==> a[j] == b[j]
    {
      var difference := Bits.Xor(a[i], b[i]);
      Bits.XorIsZero(a[i], b[i]);
      Bits.OrIsZero(result, difference);
      result := Bits.Or(result, difference);
    }
    same := result == 0;
  }

  method ParseField(field: string) returns (pair: Option<(string, nat)>)
    ensures pair == Field(field)
  {
    var eq := IndexOf(field, '=');
    if eq.None? {
      return None;
    }
    var val := Decimal.ParseUint32(field[eq.value + 1..]);
    if val.None? {
      return None;
    }
    return Some((field[..eq.value], val.value));
  }

  lemma LastValueStep(fields: seq<string>, k: nat, name: string)
    requires k < |fields|
    ensures LastValue(fields[..k + 1], name)
         == var f := Field(fields[k]); if f.Some? && f.value.0 == name then f.value.1 else LastValue(fields[..k], name)
  {
    assert fields[..k + 1][..k] == fields[..k];
  }

  /** The loop over the fields: the last value given for a name counts. */
  method ParseParams(fields: seq<string>) returns (ok: bool, memory: nat, timeCost: nat, parallelism: nat)
    ensures ok <==> FieldsParse(fields)
    ensures ok ==> memory == LastValue(fields, "m") && timeCost == LastValue(fields, "t")
    ensures ok ==> parallelism == LastValue(fields, "p")
  {
    memory, timeCost, parallelism := 0, 0, 0;
    for k := 0 to |fields|
      invariant FieldsParse(fields[..k])
      invariant memory == LastValue(fields[..k], "m") && timeCost == LastValue(fields[..k], "t")
      invariant parallelism == LastValue(fields[..k], "p")
    {
      var pair := ParseField(fields[k]);
      if pair.None? {
        return false, memory, timeCost, parallelism;
      }
      LastValueStep(fields, k, "m");
      LastValueStep(fields, k, "t");
      LastValueStep(fields, k, "p");
      match pair.value.0 {
        case "m" => memory := pair.value.1;
        case "t" => timeCost := pair.value.1;
        case "p" => parallelism := pair.value.1;
        case _ =>
      }
    }
    assert fields[..|fields|] == fields;
    ok := true;
  }

  method VerifyArgon2idPHC(rawKey: string, storedHash: string, kdf: Kdf) returns (verdict: Verdict)
    ensures verdict == Valid <==> Verifies(rawKey, storedHash, kdf)
    ensures verdict == BadFormat <==> !FormatOk(Split(storedHash, '$'))
    ensures verdict == BadParams <==> FormatOk(Split(storedHash, '$')) && !FieldsParse(FieldsOf(storedHash))
    ensures verdict == BadSalt <==>
              FormatOk(Split(storedHash, '$')) && FieldsParse(FieldsOf(storedHash)) && SaltOf(storedHash).None?
    ensures verdict == BadHash <==>
              && FormatOk(Split(storedHash, '$')) && FieldsParse(FieldsOf(storedHash))
              && SaltOf(storedHash).Some? && HashOf(storedHash).None?
    ensures verdict == Panicked <==> Parses(storedHash) && !Derivable(storedHash)
    ensures verdict == Mismatch <==>
              Parses(storedHash) && Derivable(storedHash) && !Derives(rawKey, storedHash, kdf)
  {
    var parts := Split(storedHash, '$');
    if |parts| != 6 || parts[0] != "" || parts[1] != "argon2id" {
      return BadFormat;
    }
    var ok, memory, timeCost, parallelism := ParseParams(Split(parts[3], ','));
    if !ok {
      return BadParams;
    }
    var salt := Base64.Decode(parts[4]);
    if salt.None? {
      return BadSalt;
    }
    var stored := Base64.Decode(parts[5]);
    if stored.None? {
      return BadHash;
    }
    if timeCost < 1 || parallelism % 256 < 1 || |stored.value| < 1 {
      return Panicked;
    }
    var computed := kdf(rawKey, salt.value, timeCost, memory, parallelism % 256, |stored.value|);
    var same := ConstantTimeCompare(computed, stored.value);
    return if same then Valid else Mismatch;
  }

  // The two sides together

  lemma FieldReadsBack(name: string, n: nat)
    requires '=' !in name && n < 0x1_0000_0000
    ensures Field(name + "=" + Decimal.Print(n)) == Some((name, n))
  {
    var s := name + ['='] + Decimal.Print(n);
    FirstIndex(name, '=', Decimal.Print(n));
    assert s[..|name|] == name && s[|name| + 1..] == Decimal.Print(n);
    Decimal.PrintValue(n);
    assert name + "=" + Decimal.Print(n) == s;
  }

  lemma Labelled(name: string, n: nat)
    requires ',' !in name && '$' !in name
    ensures ',' !in name + Decimal.Print(n) && '$' !in name + Decimal.Print(n)
  {
  }

  lemma ParamsText(memory: nat, time: nat, threads: nat)
    ensures Params(memory, time, threads)
         == "m=" + Decimal.Print(memory) + [',']
            + ("t=" + Decimal.Print(time) + [','] + ("p=" + Decimal.Print(threads)))
  {
  }

  lemma ParamsSplit(memory: nat, time: nat, threads: nat)
    ensures Split(Params(memory, time, threads), ',')
         == ["m=" + Decimal.Print(memory), "t=" + Decimal.Print(time), "p=" + Decimal.Print(threads)]
    ensures '$' !in Params(memory, time, threads)
  {
    var m, t, p := "m=" + Decimal.Print(memory), "t=" + Decimal.Print(time), "p=" + Decimal.Print(threads);
    Labelled("m=", memory);
    Labelled("t=", time);
    Labelled("p=", threads);
    SplitPrepend(t, ',', p, [p]);
    SplitPrepend(m, ',', t + [','] + p, [t, p]);
    ParamsText(memory, time, threads);
  }

  lemma SplitPrepend(a: string, sep: char, rest: string, pieces: seq<string>)
    requires sep !in a && Split(rest, sep) == pieces
    ensures Split(a + [sep] + rest, sep) == [a] + pieces
  {
    SplitFirst(a, sep, rest);
  }

  ghost predicate ReadAs(fields: seq<string>, memory: nat, time: nat, threads: nat) {
    && FieldsParse(fields) && LastValue(fields, "m") == memory
    && LastValue(fields, "t") == time && LastValue(fields, "p") == threads
  }

  /** Parameters of any 32-bit size are read back as they were printed. */
  lemma ParamsReadBack(memory: nat, time: nat, threads: nat)
    requires memory < 0x1_0000_0000 && time < 0x1_0000_0000 && threads < 0x1_0000_0000
    ensures ReadAs(Split(Params(memory, time, threads), ','), memory, time, threads)
  {
    ParamsSplit(memory, time, threads);
    FieldReadsBack("m", memory);
    FieldReadsBack("t", time);
    FieldReadsBack("p", threads);
    assert "m" + "=" == "m=" && "t" + "=" == "t=" && "p" + "=" == "p=";
    ReadThree("m=" + Decimal.Print(memory), "t=" + Decimal.Print(time), "p=" + Decimal.Print(threads),
              memory, time, threads);
  }

  lemma ReadThree(m: string, t: string, p: string, memory: nat, time: nat, threads: nat)
    requires Field(m) == Some(("m", memory)) && Field(t) == Some(("t", time)) && Field(p) == Some(("p", threads))
    ensures ReadAs([m, t, p], memory, time, threads)
  {
    var fields := [m, t, p];
    assert fields[..2] == [m, t] && [m, t][..1] == [m];
    assert LastValue([m], "m") == memory;
    assert LastValue([m, t], "m") == memory && LastValue([m, t], "t") == time;
  }

  lemma PhcSplits(p: string, a: string, b: string)
    requires '$' !in p && '$' !in a && '$' !in b
    ensures Split("$argon2id$v=19$" + p + "$" + a + "$" + b, '$') == ["", "argon2id", "v=19", p, a, b]
  {
    assert "$argon2id$v=19$" == "" + ['$'] + "argon2id" + ['$'] + "v=19" + ['$'];
    SplitSix("", "argon2id", "v=19", p, a, b);
  }

  lemma SplitSix(x: string, y: string, z: string, p: string, a: string, b: string)
    requires '$' !in x && '$' !in y && '$' !in z && '$' !in p && '$' !in a && '$' !in b
    ensures Split(x + ['$'] + y + ['$'] + z + ['$'] + p + ['$'] + a + ['$'] + b, '$') == [x, y, z, p, a, b]
  {
    SplitJoin([x, y, z, p, a, b], '$');
    JoinSix(x, y, z, p, a, b, '$');
    Flatten(x, y, z, p, a, b, ['$']);
  }

  lemma JoinThree<T>(p: seq<T>, a: seq<T>, b: seq<T>, sep: T)
    ensures Join([p, a, b], sep) == p + [sep] + (a + [sep] + b)
  {
    JoinCons(a, [b], sep);
    JoinCons(p, [a, b], sep);
    assert [p, a, b] == [p] + [a, b] && [a, b] == [a] + [b];
  }

  lemma JoinSix<T>(x: seq<T>, y: seq<T>, z: seq<T>, p: seq<T>, a: seq<T>, b: seq<T>, sep: T)
    ensures Join([x, y, z, p, a, b], sep)
         == x + [sep] + (y + [sep] + (z + [sep] + (p + [sep] + (a + [sep] + b))))
  {
    JoinThree(p, a, b, sep);
    JoinCons(z, [p, a, b], sep);
    assert [z, p, a, b] == [z] + [p, a, b];
    JoinCons(y, [z, p, a, b], sep);
    assert [y, z, p, a, b] == [y] + [z, p, a, b];
    JoinCons(x, [y, z, p, a, b], sep);
    assert [x, y, z, p, a, b] == [x] + [y, z, p, a, b];
  }

  lemma Flatten<T>(x: seq<T>, y: seq<T>, z: seq<T>, p: seq<T>, a: seq<T>, b: seq<T>, s: seq<T>)
    ensures x + s + (y + s + (z + s + (p + s + (a + s + b)))) == x + s + y + s + z + s + p + s + a + s + b
  {
    assert p + s + (a + s + b) == p + s + a + s + b;
    assert z + s + (p + s + a + s + b) == z + s + p + s + a + s + b;
    assert y + s + (z + s + p + s + a + s + b) == y + s + z + s + p + s + a + s + b;
  }

  lemma PartsParse(stored: string, params: string, saltText: string, hashText: string)
    requires Split(stored, '$') == ["", "argon2id", "v=19", params, saltText, hashText]
    ensures FormatOk(Split(stored, '$')) && FieldsOf(stored) == Split(params, ',')
    ensures SaltOf(stored) == Base64.Decode(saltText) && HashOf(stored) == Base64.Decode(hashText)
  {
  }

  lemma VerifiesParts(presented: string, stored: string, params: string, saltText: string, hashText: string,
                      salt: seq<Byte>, hash: seq<Byte>, kdf: Kdf)
    requires Split(stored, '$') == ["", "argon2id", "v=19", params, saltText, hashText]
    requires ReadAs(Split(params, ','), MEMORY, TIME, THREADS)
    requires Base64.Decode(saltText) == Some(salt) && Base64.Decode(hashText) == Some(hash) && |hash| == KEY_LENGTH
    ensures Verifies(presented, stored, kdf) <==> Derive(presented, salt, kdf) == hash
  {
    PartsParse(stored, params, saltText, hashText);
  }

  /**
   * The verifier accepts a key against a printed hash exactly when the two keys derive the same
   * bytes; in particular it accepts the key that was hashed.
   */
  lemma PrintedHashVerifies(presented: string, rawKey: string, salt: seq<Byte>, kdf: Kdf)
    requires |Derive(rawKey, salt, kdf)| == KEY_LENGTH
    ensures Verifies(presented, Hash(rawKey, salt, kdf), kdf)
            <==> Derive(presented, salt, kdf) == Derive(rawKey, salt, kdf)
  {
    var derived := Derive(rawKey, salt, kdf);
    ParamsSplit(MEMORY, TIME, THREADS);
    Base64.EncodedText(salt);
    Base64.EncodedText(derived);
    PhcSplits(Params(MEMORY, TIME, THREADS), Base64.Encode(salt), Base64.Encode(derived));
    ParamsReadBack(MEMORY, TIME, THREADS);
    Base64.DecodeEncode(salt);
    Base64.DecodeEncode(derived);
    VerifiesParts(presented, Phc(salt, derived), Params(MEMORY, TIME, THREADS), Base64.Encode(salt),
                  Base64.Encode(derived), salt, derived, kdf);
  }

  // Lookup by prefix

  /** The gateway's lookup key: a fixed cut, refused for keys that are too short. */
  function LookupPrefix(rawKey: string): Option<string> {
    if |rawKey| < 23 then None else Some(rawKey[..23])
  }

  lemma PairInjective(a: Byte, b: Byte)
    ensures Pair(a) == Pair(b) <==> a == b
  {
    if Pair(a) == Pair(b) {
      assert Pair(a)[0] == Pair(b)[0] && Pair(a)[1] == Pair(b)[1];
      assert a == a / 16 * 16 + a % 16 && b == b / 16 * 16 + b % 16;
    }
  }

  lemma {:induction false} HexInjective(a: seq<Byte>, b: seq<Byte>)
    requires |a| == |b|
    ensures Hex(a) == Hex(b) <==> a == b
  {
    if a != [] {
      var n := |a| - 1;
      HexInjective(a[..n], b[..n]);
      PairInjective(a[n], b[n]);
      SameEnd(Hex(a[..n]), Hex(b[..n]), Pair(a[n]), Pair(b[n]));
      SameEnd(a[..n], b[..n], [a[n]], [b[n]]);
      assert a == a[..n] + [a[n]] && b == b[..n] + [b[n]];
    }
  }

  lemma SameEnd<T>(a: seq<T>, b: seq<T>, x: seq<T>, y: seq<T>)
    requires |a| == |b|
    ensures a + x == b + y <==> a == b && x == y
  {
    if a + x == b + y {
      assert a == (a + x)[..|a|] && x == (a + x)[|a|..];
      assert b == (b + y)[..|a|] && y == (b + y)[|a|..];
    }
  }

  lemma {:induction false} HexCut(b: seq<Byte>, n: nat)
    requires n <= |b|
    ensures Hex(b)[..2 * n] == Hex(b[..n])
  {
    if n < |b| {
      HexCut(b[..|b| - 1], n);
      assert b[..|b| - 1][..n] == b[..n];
      assert Hex(b)[..2 * n] == Hex(b[..|b| - 1])[..2 * n];
    } else {
      assert b[..n] == b;
    }
  }

  lemma PrefixText(random: seq<Byte>)
    requires |random| == 16
    ensures LookupPrefix(RawKey(random)) == Some(Prefix(RawKey(random)))
    ensures Prefix(RawKey(random)) == KEY_PREFIX + Hex(random[..4])
  {
    HexCut(random, 4);
    assert |KEY_PREFIX| == 15;
    assert RawKey(random)[..23] == KEY_PREFIX + Hex(random)[..8];
  }

  /** A generated key is found by its prefix; two of them share it iff their first four random bytes agree. */
  lemma GeneratedPrefix(a: seq<Byte>, b: seq<Byte>)
    requires |a| == |b| == 16
    ensures LookupPrefix(RawKey(a)) == Some(Prefix(RawKey(a)))
    ensures Prefix(RawKey(a)) == Prefix(RawKey(b)) <==> a[..4] == b[..4]
  {
    PrefixText(a);
    PrefixText(b);
    SameEnd(KEY_PREFIX, KEY_PREFIX, Hex(a[..4]), Hex(b[..4]));
    HexInjective(a[..4], b[..4]);
  }

  // Issue and validate

  /** An active row of the key table; `allowed` empty allows every deployment. */
  datatype Row = Row(hash: string, allowed: seq<string>)

  method Validate(rawKey: string, deployment: string, table: map<string, Row>, kdf: Kdf) returns (accepted: bool)
    ensures accepted <==>
              && LookupPrefix(rawKey).Some? && LookupPrefix(rawKey).value in table
              && var row := table[LookupPrefix(rawKey).value];
              Verifies(rawKey, row.hash, kdf) && (row.allowed == [] || deployment in row.allowed)
  {
    if |rawKey| < 23 || rawKey[..23] !in table {
      return false;
    }
    var row := table[rawKey[..23]];
    var verdict := VerifyArgon2idPHC(rawKey, row.hash, kdf);
    if verdict != Valid {
      return false;
    }
    if |row.allowed| > 0 {
      var allowed := false;
      for i := 0 to |row.allowed|
        invariant !allowed && deployment !in row.allowed[..i]
      {
        if row.allowed[i] == deployment {
          allowed := true;
          break;
        }
      }
      if !allowed {
        return false;
      }
    }
    return true;
  }

  /** Every issued key validates against the row stored for it, whatever its random bytes and salt. */
  lemma IssuedKeyIsFound(random: seq<Byte>, salt: seq<Byte>, table: map<string, Row>, allowed: seq<string>, kdf: Kdf)
    requires |random| == 16 && |Derive(RawKey(random), salt, kdf)| == KEY_LENGTH
    ensures var rawKey := RawKey(random);
            var stored := table[Prefix(rawKey) := Row(Hash(rawKey, salt, kdf), allowed)];
            && LookupPrefix(rawKey).Some? && LookupPrefix(rawKey).value in stored
            && Verifies(rawKey, stored[LookupPrefix(rawKey).value].hash, kdf)
  {
    GeneratedPrefix(random, random);
    PrintedHashVerifies(RawKey(random), RawKey(random), salt, kdf);
  }
}
