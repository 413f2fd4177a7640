/** What the verifier makes of a stored string, in terms of the string alone. */
module KeysLaws {
  import opened Wrappers
  import opened Text
  import opened Bytes
  import opened Keys

  // What parses

  /** The string is made of these fields. */
  predicate IsPhc(s: string, version: string, params: string, salt: string, hash: string) {
    && '$' !in version && '$' !in params && '$' !in salt && '$' !in hash
    && s == "$argon2id$" + version + "$" + params + "$" + salt + "$" + hash
  }

  lemma PhcParts(s: string, version: string, params: string, salt: string, hash: string)
    requires IsPhc(s, version, params, salt, hash)
    ensures Split(s, '$') == ["", "argon2id", version, params, salt, hash]
  {
    assert "$argon2id$" == "" + ['$'] + "argon2id" + ['$'];
    SplitSix("", "argon2id", version, params, salt, hash);
  }

  lemma PhcJoined(version: string, params: string, salt: string, hash: string)
    ensures Join(["", "argon2id", version, params, salt, hash], '$')
         == "$argon2id$" + version + "$" + params + "$" + salt + "$" + hash
  {
    JoinSix("", "argon2id", version, params, salt, hash, '$');
    Flatten("", "argon2id", version, params, salt, hash, ['$']);
    assert "$argon2id$" == "" + ['$'] + "argon2id" + ['$'];
  }

  lemma PartsPhc(s: string, version: string, params: string, salt: string, hash: string)
    requires Split(s, '$') == ["", "argon2id", version, params, salt, hash]
    ensures IsPhc(s, version, params, salt, hash)
  {
    var parts := Split(s, '$');
    JoinSplit(s, '$');
    PhcJoined(version, params, salt, hash);
    assert parts[2] == version && parts[3] == params && parts[4] == salt && parts[5] == hash;
  }

  /** A string has the right format exactly if it is `$argon2id$` and four fields between dollar signs. */
  lemma FormatIff(s: string)
    ensures FormatOk(Split(s, '$')) <==> exists v, p, a, b :: IsPhc(s, v, p, a, b)
  {
    if FormatOk(Split(s, '$')) {
      var parts := Split(s, '$');
      PartsPhc(s, parts[2], parts[3], parts[4], parts[5]);
    }
    if v, p, a, b :| IsPhc(s, v, p, a, b) { PhcParts(s, v, p, a, b); }
  }

  /** A name, the first equals sign, and a numeral of 32 bits. */
  predicate IsField(s: string, name: string, digits: string) {
    && '=' !in name && s == name + "=" + digits
    && Decimal.IsNumeral(digits) && Decimal.Value(digits) < 0x1_0000_0000
  }

  lemma FieldIff(s: string, name: string, value: nat)
    ensures Field(s) == Some((name, value))
            <==> exists digits :: IsField(s, name, digits) && Decimal.Value(digits) == value
  {
    if Field(s) == Some((name, value)) {
      var i := IndexOf(s, '=').value;
      assert s == s[..i] + "=" + s[i + 1..];
      assert IsField(s, name, s[i + 1..]);
    }
    if digits :| IsField(s, name, digits) && Decimal.Value(digits) == value {
      FirstIndex(name, '=', digits);
      assert s[..|name|] == name && s[|name| + 1..] == digits;
    }
  }

  /** The last field of a name counts, and an absent one is zero. */
  lemma {:induction false} LastValueIs(fields: seq<string>, name: string, k: int)
    requires FieldsParse(fields) && -1 <= k < |fields| && (k >= 0 ==> Field(fields[k]).value.0 == name)
    requires forall j :: k < j < |fields| ==> Field(fields[j]).value.0 != name
    ensures LastValue(fields, name) == if k >= 0 then Field(fields[k]).value.1 else 0
  {
    if fields != [] && k < |fields| - 1 { LastValueIs(fields[..|fields| - 1], name, k); }
  }

  // What verifies

  /** The text of a hash with any version field and any parameters. */
  function PhcText(version: string, memory: nat, time: nat, threads: nat, salt: seq<Byte>, hash: seq<Byte>): string {
    "$argon2id$" + version + "$" + Params(memory, time, threads) + "$" + Base64.Encode(salt) + "$" + Base64.Encode(hash)
  }

  lemma PartsRead(s: string, version: string, params: string, saltText: string, hashText: string)
    requires Split(s, '$') == ["", "argon2id", version, params, saltText, hashText]
    ensures FormatOk(Split(s, '$')) && FieldsOf(s) == Split(params, ',')
    ensures SaltOf(s) == Base64.Decode(saltText) && HashOf(s) == Base64.Decode(hashText)
  {
  }

  lemma Reads(version: string, memory: nat, time: nat, threads: nat, salt: seq<Byte>, hash: seq<Byte>)
    requires '$' !in version && memory < 0x1_0000_0000 && time < 0x1_0000_0000 && threads < 0x1_0000_0000
    ensures var s := PhcText(version, memory, time, threads, salt, hash);
            && FormatOk(Split(s, '$')) && ReadAs(FieldsOf(s), memory, time, threads)
            && SaltOf(s) == Some(salt) && HashOf(s) == Some(hash)
  {
    var params, saltText, hashText := Params(memory, time, threads), Base64.Encode(salt), Base64.Encode(hash);
    ParamsSplit(memory, time, threads);
    Base64.EncodedText(salt);
    Base64.EncodedText(hash);
    PhcParts(PhcText(version, memory, time, threads, salt, hash), version, params, saltText, hashText);
    ParamsReadBack(memory, time, threads);
    Base64.DecodeEncode(salt);
    Base64.DecodeEncode(hash);
    PartsRead(PhcText(version, memory, time, threads, salt, hash), version, params, saltText, hashText);
  }

  /**
   * Whatever parameters of 32 bits a hash was made with: the verifier panics exactly if they ask for no
   * round, for a number of threads that is zero in a byte, or for no bytes; otherwise it accepts exactly the
   * keys that derive the same bytes with these parameters. The version field does not matter.
   */
  lemma AnyHash(version: string, memory: nat, time: nat, threads: nat, salt: seq<Byte>, hash: seq<Byte>,
                presented: string, kdf: Kdf)
    requires '$' !in version && memory < 0x1_0000_0000 && time < 0x1_0000_0000 && threads < 0x1_0000_0000
    ensures var s := PhcText(version, memory, time, threads, salt, hash);
            && Parses(s)
            && (!Derivable(s) <==> time == 0 || threads % 256 == 0 || hash == [])
            && (Derivable(s) ==>
                  (Verifies(presented, s, kdf)
                   <==> kdf(presented, salt, time, memory, threads % 256, |hash|) == hash))
  {
    Reads(version, memory, time, threads, salt, hash);
  }

  // What is printed

  lemma DefaultParams()
    ensures Params(65536, 1, 4) == "m=65536,t=1,p=4"
  {
    assert Decimal.Print(6553) == "6553" && Decimal.Print(65536) == "65536";
    assert Decimal.Print(1) == "1" && Decimal.Print(4) == "4";
  }

  /** The hash of an issued key. */
  lemma PrintedText(rawKey: string, salt: seq<Byte>, kdf: Kdf)
    ensures Hash(rawKey, salt, kdf)
         == "$argon2id$v=19$m=65536,t=1,p=4$" + Base64.Encode(salt) + "$"
            + Base64.Encode(kdf(rawKey, salt, 1, 65536, 4, 32))
  {
    DefaultParams();
    assert "$argon2id$v=19$" + "m=65536,t=1,p=4" + "$" == "$argon2id$v=19$m=65536,t=1,p=4$";
  }

  const HEX := "0123456789abcdef"

  lemma HexLetter(v: nat)
    requires v < 16
    ensures HexDigit(v) == HEX[v]
  {
  }

  /** The text of an issued key: its prefix, and two lower-case hexadecimal digits for each random byte. */
  lemma {:induction false} KeyText(random: seq<Byte>, i: nat)
    requires i < |random|
    ensures RawKey(random) == "openserve_live_" + Hex(random)
    ensures Hex(random)[2 * i] == HEX[random[i] / 16] && Hex(random)[2 * i + 1] == HEX[random[i] % 16]
  {
    var n := |random| - 1;
    HexLetter(random[n] / 16);
    HexLetter(random[n] % 16);
    if i < n { KeyText(random[..n], i); }
  }
}
