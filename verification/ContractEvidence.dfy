/** Which documents are read as a contract, and as which: told in the document itself. */
module ContractEvidence {
  import opened Ordering
  import opened Texts
  import opened Documents
  import opened Contracts

  // ----- texts -----

  /** The text is t with nothing but white space around it. */
  ghost predicate Padded(s: string, t: string) {
    t != "" && !IsSpace(t[0]) && !IsSpace(t[|t| - 1]) && exists i: nat | i + |t| <= |s| :: PaddedAt(s, t, i)
  }

  predicate PaddedAt(s: string, t: string, i: nat)
    requires i + |t| <= |s|
  {
    && s[i..i + |t|] == t && (forall j | 0 <= j < i :: IsSpace(s[j]))
    && forall j | i + |t| <= j < |s| :: IsSpace(s[j])
  }

  lemma {:induction false} LeftTells(s: string) returns (i: nat)
    ensures i <= |s| && TrimLeft(s) == s[i..] && forall j | 0 <= j < i :: IsSpace(s[j])
  {
    i := 0;
    if s != [] && IsSpace(s[0]) {
      var k := LeftTells(s[1..]);
      i := k + 1;
      forall j | 0 <= j < i ensures IsSpace(s[j]) { if j > 0 { assert s[1..][j - 1] == s[j]; } }
    }
  }

  lemma {:induction false} RightTells(s: string)
    ensures |TrimRight(s)| <= |s| && TrimRight(s) == s[..|TrimRight(s)|]
    ensures forall j | |TrimRight(s)| <= j < |s| :: IsSpace(s[j])
  {
    if s != [] && IsSpace(s[|s| - 1]) {
      var front := s[..|s| - 1];
      RightTells(front);
      forall j | |TrimRight(s)| <= j < |s| ensures IsSpace(s[j]) { if j < |s| - 1 { assert front[j] == s[j]; } }
    }
  }

  /** A text that is not blank strips to what its padding leaves. */
  lemma {:induction false} StripTells(s: string)
    ensures !Blank(s) ==> Padded(s, Strip(s))
  {
    if !Blank(s) {
      Stripped(s);
      TrimmedLeft(s);
      var i := LeftTells(s);
      var l := TrimLeft(s);
      RightTells(l);
      var t := Strip(s);
      assert t == l[..|t|] && l == s[i..];
      assert s[i..i + |t|] == t;
      forall j | i + |t| <= j < |s| ensures IsSpace(s[j]) { assert l[j - i] == s[j]; }
      assert PaddedAt(s, t, i);
    }
  }

  lemma {:induction false} PaddedOnce(s: string, t: string, u: string)
    requires Padded(s, t) && Padded(s, u)
    ensures t == u
  {
    var i: nat :| i + |t| <= |s| && PaddedAt(s, t, i);
    var j: nat :| j + |u| <= |s| && PaddedAt(s, u, j);
    assert s[i] == t[0] && s[j] == u[0] && s[i + |t| - 1] == t[|t| - 1] && s[j + |u| - 1] == u[|u| - 1];
  }

  lemma {:induction false} PaddedTells(s: string, t: string)
    ensures Padded(s, t) <==> !Blank(s) && Strip(s) == t
  {
    StripTells(s);
    if Padded(s, t) {
      var i: nat :| i + |t| <= |s| && PaddedAt(s, t, i);
      assert s[i] == t[0];
      PaddedOnce(s, t, Strip(s));
    }
  }

  /** The digit of a digest as it may be spelled. */
  predicate Spells(c: char, digit: char) {
    || (c == digit && ('0' <= digit <= '9' || 'a' <= digit <= 'f'))
    || ('A' <= c <= 'F' && digit as int == c as int + 32)
  }

  /** A padded text of 64 hex digits, in either case. */
  ghost predicate Digest(v: Value, hash: string) {
    v.Text? && |hash| == 64 && exists t :: Padded(v.text, t) && |t| == 64 && Spelled(t, hash)
  }

  predicate Spelled(t: string, hash: string)
    requires |t| == |hash|
  {
    forall i | 0 <= i < |t| :: Spells(t[i], hash[i])
  }

  lemma {:induction false} SpelledTells(t: string, hash: string)
    requires |t| == 64 && |hash| == 64
    ensures Spelled(t, hash) <==> IsDigest(hash) && Lower(t) == hash
  {
    if Spelled(t, hash) {
      forall i | 0 <= i < 64 ensures IsHex(hash[i]) && Lower(t)[i] == hash[i] { assert Spells(t[i], hash[i]); }
    }
    if IsDigest(hash) && Lower(t) == hash {
      forall i | 0 <= i < 64 ensures Spells(t[i], hash[i]) { assert IsHex(hash[i]) && Lower(t)[i] == LowerChar(t[i]); }
    }
  }

  lemma {:induction false} DigestTells(v: Value, hash: string)
    ensures Sha256(v) == Done(hash) <==> Digest(v, hash)
  {
    if v.Text? {
      if IsDigest(v.text) { DigestIsCanonical(v.text); }
      if !Blank(v.text) {
        PaddedTells(v.text, Strip(v.text));
        if |Strip(v.text)| == 64 && |hash| == 64 { SpelledTells(Strip(v.text), hash); }
      }
      if Digest(v, hash) {
        var t :| Padded(v.text, t) && |t| == 64 && Spelled(t, hash);
        PaddedTells(v.text, t);
        SpelledTells(t, hash);
      }
    }
  }

  // ----- keys -----

  /** Somewhere in the value an object has a blank name. */
  predicate NamesBlank(v: Value) {
    || (v.List? && exists i | 0 <= i < |v.items| :: NamesBlank(v.items[i]))
    || (v.Object? && exists k | k in v.fields :: Blank(k) || NamesBlank(v.fields[k]))
  }

  lemma {:induction false} ItemTells(v: Value)
    ensures ItemIsValid(v) <==> Normal(v) && !Carries(v) && !NamesBlank(v)
  {
    match v {
      case List(items) => forall i | 0 <= i < |items| { ItemTells(items[i]); }
      case Object(fields) =>
        forall k | k in fields { ItemTells(fields[k]); }
      case _ =>
    }
  }

  /** A key is an object that is not empty, with no blank name anywhere, and no tag of a non-finite number inside. */
  predicate IsKey(v: Value) {
    v.Object? && v.fields != map[] && Normal(v) && !NamesBlank(v) && (Carries(v) ==> IsMarker(v))
  }

  lemma {:induction false} KeyTells(v: Value)
    ensures KeyIsValid(v) <==> IsKey(v)
  {
    if v.Object? {
      forall k | k in v.fields { ItemTells(v.fields[k]); }
      if IsMarker(v) { assert forall k | k in v.fields :: v.fields[k].Text?; }
    }
  }

  predicate AllAccepted(items: seq<Value>) { forall i | 0 <= i < |items| :: Accepted(items[i]) }

  function AllNormalized(items: seq<Value>): (r: seq<Value>)
    requires AllAccepted(items)
    ensures |r| == |items| && forall i | 0 <= i < |r| :: r[i] == Normalized(items[i])
  {
    seq(|items|, i requires 0 <= i < |items| => Normalized(items[i]))
  }

  /** The list is read as these keys: its own, normalized, in order, none twice. */
  ghost predicate ReadsKeys(v: Value, keys: seq<Value>, le: (Value, Value) -> bool) {
    && v.List? && v.items != [] && AllAccepted(v.items) && multiset(keys) == multiset(AllNormalized(v.items))
    && (forall i | 0 <= i < |keys| :: IsKey(keys[i]))
    && (forall i, j | 0 <= i < j < |keys| :: keys[i] != keys[j] && le(keys[i], keys[j]))
  }

  lemma {:induction false} ReadTells(items: seq<Value>, n: nat)
    requires n <= |items| && AllAccepted(items[..n])
    requires Distinct(AllNormalized(items[..n])) && AllKeysValid(AllNormalized(items[..n]))
    ensures ReadKeys(items, n) == Done(AllNormalized(items[..n]))
  {
    if n > 0 {
      var before, known := items[..n - 1], AllNormalized(items[..n]);
      assert forall i | 0 <= i < n - 1 :: before[i] == items[..n][i];
      assert AllNormalized(before) == known[..n - 1] && known[n - 1] == Normalized(items[n - 1]);
      assert known == known[..n - 1] + [known[n - 1]];
      ReadTells(items, n - 1);
    }
  }

  lemma {:induction false} KeysTell(v: Value, keys: seq<Value>, le: (Value, Value) -> bool)
    requires TotalOrder(le)
    ensures ExpectedKeys(v, le) == Done(keys) <==> ReadsKeys(v, keys, le)
  {
    if ExpectedKeys(v, le) == Done(keys) {
      ReadKeysSound(v.items, |v.items|);
      ExpectedKeysHold(v, le);
      var known := ReadKeys(v.items, |v.items|).value;
      assert known == AllNormalized(v.items);
      SortSorts(known, le);
      forall i | 0 <= i < |keys| ensures IsKey(keys[i]) { KeyTells(keys[i]); }
    }
    if ReadsKeys(v, keys, le) { KeysAreRead(v, keys, le); }
  }

  lemma {:induction false} KeysAreRead(v: Value, keys: seq<Value>, le: (Value, Value) -> bool)
    requires TotalOrder(le) && ReadsKeys(v, keys, le)
    ensures ExpectedKeys(v, le) == Done(keys)
  {
    var known := AllNormalized(v.items);
    assert v.items[..|v.items|] == v.items;
    DistinctCounts(keys);
    DistinctCounts(known);
    forall i | 0 <= i < |known| ensures KeyIsValid(known[i]) {
      assert known[i] in multiset(keys);
      var j :| 0 <= j < |keys| && keys[j] == known[i];
      KeyTells(keys[j]);
    }
    ReadTells(v.items, |v.items|);
    SortSorts(known, le);
    OrderedUnique(Sort(known, le), keys, le);
  }

  // ----- tolerances -----

  predicate NumberIs(v: Value, x: real) { v == Float(x) || (v.Whole? && v.whole as real == x) }

  /** An object of exactly two numbers, neither of them negative. */
  predicate ReadsTolerance(v: Value, t: Tolerance) {
    && v.Object? && v.fields.Keys == {"absolute", "relative"} && t.absolute >= 0.0 && t.relative >= 0.0
    && NumberIs(v.fields["absolute"], t.absolute) && NumberIs(v.fields["relative"], t.relative)
  }

  lemma {:induction false} ToleranceTells(v: Value, t: Tolerance)
    ensures ToleranceFromPayload(v) == Done(t) <==> ReadsTolerance(v, t)
  {
  }

  predicate ReadsTolerances(v: Value, t: map<string, Tolerance>) {
    && v.Object? && v.fields.Keys == t.Keys
    && t.Keys == {"signal", "rank", "target", "order", "position", "cash", "fees", "pnl"}
    && forall name | name in t :: ReadsTolerance(v.fields[name], t[name])
  }

  predicate AllRead(fields: map<string, Value>, t: map<string, Tolerance>) {
    fields.Keys == t.Keys && forall name | name in t :: ReadsTolerance(fields[name], t[name])
  }

  lemma TolerancesAt(fields: map<string, Value>, t: map<string, Tolerance>)
    requires fields.Keys == t.Keys
    requires forall name | name in fields :: ToleranceFromPayload(fields[name]) == Done(t[name])
    ensures TolerancesFromPayload(fields) == Done(t)
  {
    SameMap(TolerancesFromPayload(fields).value, t);
  }

  lemma {:induction false} AllAreRead(fields: map<string, Value>, t: map<string, Tolerance>)
    requires AllRead(fields, t)
    ensures TolerancesFromPayload(fields) == Done(t)
  {
    forall name | name in fields ensures ToleranceFromPayload(fields[name]) == Done(t[name]) {
      ToleranceTells(fields[name], t[name]);
    }
    TolerancesAt(fields, t);
  }

  lemma {:induction false} TolerancesTell(fields: map<string, Value>, t: map<string, Tolerance>)
    ensures TolerancesFromPayload(fields) == Done(t) <==> AllRead(fields, t)
  {
    if AllRead(fields, t) { AllAreRead(fields, t); }
    if TolerancesFromPayload(fields) == Done(t) {
      forall name | name in t ensures ReadsTolerance(fields[name], t[name]) { ToleranceTells(fields[name], t[name]); }
    }
  }

  // ----- identities, and the contract -----

  ghost predicate ReadsIdentity(v: Value, i: Identity) {
    && v.Object? && v.fields.Keys == {"implementation_id", "code_hash"}
    && v.fields["implementation_id"].Text? && Padded(v.fields["implementation_id"].text, i.implementationId)
    && Digest(v.fields["code_hash"], i.codeHash)
  }

  lemma {:induction false} IdentityTells(v: Value, i: Identity)
    ensures IdentityFromPayload(v) == Done(i) <==> ReadsIdentity(v, i)
  {
    if v.Object? && v.fields.Keys == {"implementation_id", "code_hash"} {
      DigestTells(v.fields["code_hash"], i.codeHash);
      if v.fields["implementation_id"].Text? { PaddedTells(v.fields["implementation_id"].text, i.implementationId); }
    }
  }

  /** Two digests, two implementations that differ in name and in code, the keys, and a tolerance for each number. */
  ghost predicate PartsTold(fields: map<string, Value>, c: Contract, le: (Value, Value) -> bool)
    requires fields.Keys == CONTRACT_FIELDS
  {
    && Digest(fields["protocol_hash"], c.protocolHash) && Digest(fields["data_snapshot_hash"], c.dataHash)
    && ReadsIdentity(fields["primary"], c.primary) && ReadsIdentity(fields["replication"], c.replication)
    && c.primary.implementationId != c.replication.implementationId
    && c.primary.codeHash != c.replication.codeHash
    && ReadsKeys(fields["expected_observation_keys"], c.keys, le)
    && ReadsTolerances(fields["tolerances"], c.tolerances)
  }

  /** Eight fields and no other, of the second schema. */
  predicate Headed(v: Value) {
    && v.Object?
    && v.fields.Keys == {"schema_version", "record_type", "protocol_hash", "data_snapshot_hash", "primary",
                         "replication", "expected_observation_keys", "tolerances"}
    && NumberIs(v.fields["schema_version"], 2.0)
    && v.fields["record_type"] == Text("independent_replication_contract")
  }

  /** The document is read as the contract. */
  ghost predicate ReadsContract(v: Value, c: Contract, le: (Value, Value) -> bool) {
    Headed(v) && PartsTold(v.fields, c, le)
  }

  /** What is read of each part, put together. */
  predicate PartsRead(fields: map<string, Value>, c: Contract, le: (Value, Value) -> bool)
    requires fields.Keys == CONTRACT_FIELDS
  {
    && Sha256(fields["protocol_hash"]) == Done(c.protocolHash)
    && Sha256(fields["data_snapshot_hash"]) == Done(c.dataHash)
    && IdentityFromPayload(fields["primary"]) == Done(c.primary)
    && IdentityFromPayload(fields["replication"]) == Done(c.replication)
    && c.primary.implementationId != c.replication.implementationId && c.primary.codeHash != c.replication.codeHash
    && ExpectedKeys(fields["expected_observation_keys"], le) == Done(c.keys)
    && fields["tolerances"].Object? && TolerancesFromPayload(fields["tolerances"].fields) == Done(c.tolerances)
    && c.tolerances.Keys == NUMERIC
  }

  lemma {:induction false} FieldsTell(fields: map<string, Value>, c: Contract, le: (Value, Value) -> bool)
    requires fields.Keys == CONTRACT_FIELDS
    ensures ContractFromFields(fields, le) == Done(c) <==> PartsRead(fields, c, le)
  {
  }

  lemma {:induction false} PartsTell(fields: map<string, Value>, c: Contract, le: (Value, Value) -> bool)
    requires fields.Keys == CONTRACT_FIELDS && TotalOrder(le)
    ensures PartsRead(fields, c, le) <==> PartsTold(fields, c, le)
  {
    DigestTells(fields["protocol_hash"], c.protocolHash);
    DigestTells(fields["data_snapshot_hash"], c.dataHash);
    IdentityTells(fields["primary"], c.primary);
    IdentityTells(fields["replication"], c.replication);
    KeysTell(fields["expected_observation_keys"], c.keys, le);
    if fields["tolerances"].Object? { TolerancesTell(fields["tolerances"].fields, c.tolerances); }
  }

  lemma {:induction false} HeadTells(v: Value, le: (Value, Value) -> bool)
    ensures ContractFromPayload(v, le) == if Headed(v) then ContractFromFields(v.fields, le) else IntegrityFault
  {
  }

  /** Exactly those documents are read, and as those contracts. */
  lemma {:induction false} ContractTells(v: Value, c: Contract, le: (Value, Value) -> bool)
    requires TotalOrder(le)
    ensures ContractFromPayload(v, le) == Done(c) <==> ReadsContract(v, c, le)
  {
    HeadTells(v, le);
    if Headed(v) {
      FieldsTell(v.fields, c, le);
      PartsTell(v.fields, c, le);
    }
  }
}
