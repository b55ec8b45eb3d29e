/** The frozen comparison contract: how one is built, and how it survives being written down. */
module Contracts {
  import opened Texts
  import opened Documents
  import opened Ordering

  /** A result, or the kind of exception raised instead. */
  datatype Outcome<T> = Done(value: T) | TypeFault | ValueFault | IntegrityFault

  datatype Identity = Identity(implementationId: string, codeHash: string)

  datatype Tolerance = Tolerance(absolute: real, relative: real)

  datatype Contract = Contract(
    protocolHash: string,
    dataHash: string,
    primary: Identity,
    replication: Identity,
    keys: seq<Value>,
    tolerances: map<string, Tolerance>)

  const NUMERIC_FIELDS: seq<string> := ["signal", "rank", "target", "order", "position", "cash", "fees", "pnl"]
  const NUMERIC: set<string> := {"signal", "rank", "target", "order", "position", "cash", "fees", "pnl"}

  lemma NumericFieldsAreAll()
    ensures forall name :: name in NUMERIC_FIELDS <==> name in NUMERIC
  {}

  function RequiredText(v: Value): (r: Outcome<string>)
    ensures r.Done? ==> r.value != "" && Trimmed(r.value)
  {
    if v.Text? && !Blank(v.text) then Stripped(v.text); Done(Strip(v.text)) else ValueFault
  }

  function Sha256(v: Value): (r: Outcome<string>)
    ensures r.Done? ==> IsDigest(r.value)
    ensures v.Text? && IsDigest(v.text) ==> r == Done(v.text)
  {
    if v.Text? && IsDigest(v.text) then DigestIsCanonical(v.text); Done(v.text)
    else match RequiredText(v)
      case Done(text) => if IsDigest(Lower(text)) then Done(Lower(text)) else ValueFault
      case _ => ValueFault
  }

  // ----- identities and tolerances -----

  predicate IdentityHolds(i: Identity) {
    i.implementationId != "" && Trimmed(i.implementationId) && IsDigest(i.codeHash)
  }

  function NewIdentity(id: Value, code: Value): (r: Outcome<Identity>)
    ensures r.Done? ==> IdentityHolds(r.value)
  {
    match RequiredText(id)
    case Done(name) =>
      (match Sha256(code)
       case Done(digest) => Done(Identity(name, digest))
       case _ => ValueFault)
    case _ => ValueFault
  }

  function IdentityPayload(i: Identity): Value {
    Object(map["implementation_id" := Text(i.implementationId), "code_hash" := Text(i.codeHash)])
  }

  function IdentityFromPayload(v: Value): Outcome<Identity> {
    if !v.Object? || v.fields.Keys != {"implementation_id", "code_hash"} then IntegrityFault
    else match NewIdentity(v.fields["implementation_id"], v.fields["code_hash"])
      case Done(i) => Done(i)
      case _ => IntegrityFault
  }

  lemma IdentityRoundTrip(i: Identity)
    requires IdentityHolds(i)
    ensures Normal(IdentityPayload(i)) && IdentityFromPayload(IdentityPayload(i)) == Done(i)
  {
    assert !Blank(i.implementationId);
    Stripped(i.implementationId);
  }

  predicate ToleranceHolds(t: Tolerance) { t.absolute >= 0.0 && t.relative >= 0.0 }

  function Bound(v: Value): Outcome<real> {
    match v
    case Whole(n) => if n < 0 then ValueFault else Done(n as real)
    case Float(x) => if x < 0.0 then ValueFault else Done(x)
    case NonFinite(_) => ValueFault
    case _ => TypeFault
  }

  function NewTolerance(absolute: Value, relative: Value): (r: Outcome<Tolerance>)
    ensures r.Done? ==> ToleranceHolds(r.value)
  {
    match Bound(absolute)
    case Done(a) =>
      (match Bound(relative)
       case Done(b) => Done(Tolerance(a, b))
       case TypeFault => TypeFault
       case _ => ValueFault)
    case TypeFault => TypeFault
    case _ => ValueFault
  }

  function TolerancePayload(t: Tolerance): Value {
    Object(map["absolute" := Float(t.absolute), "relative" := Float(t.relative)])
  }

  function ToleranceFromPayload(v: Value): (r: Outcome<Tolerance>)
    ensures r.Done? ==> ToleranceHolds(r.value)
  {
    if !v.Object? || v.fields.Keys != {"absolute", "relative"} then IntegrityFault
    else match NewTolerance(v.fields["absolute"], v.fields["relative"])
      case Done(t) => Done(t)
      case _ => IntegrityFault
  }

  lemma ToleranceRoundTrip(t: Tolerance)
    requires ToleranceHolds(t)
    ensures Normal(TolerancePayload(t)) && ToleranceFromPayload(TolerancePayload(t)) == Done(t)
  {}

  // ----- the expected keys -----

  function KeyStep(known: seq<Value>, key: Value): Outcome<seq<Value>> {
    if !Accepted(key) then TypeFault
    else if !KeyIsValid(Normalized(key)) || Normalized(key) in known then ValueFault
    else Done(known + [Normalized(key)])
  }

  /** The keys read from the first `n` entries, or the first fault among them. */
  function ReadKeys(items: seq<Value>, n: nat): Outcome<seq<Value>>
    requires n <= |items|
  {
    if n == 0 then Done([])
    else match ReadKeys(items, n - 1)
      case Done(known) => KeyStep(known, items[n - 1])
      case fault => fault
  }

  function ExpectedKeys(v: Value, le: (Value, Value) -> bool): Outcome<seq<Value>> {
    if !v.List? then TypeFault
    else if v.items == [] then ValueFault
    else match ReadKeys(v.items, |v.items|)
      case Done(known) => Done(Sort(known, le))
      case fault => fault
  }

  lemma {:induction false} FaultStays(items: seq<Value>, n: nat, m: nat)
    requires n <= m <= |items| && !ReadKeys(items, n).Done?
    ensures ReadKeys(items, m) == ReadKeys(items, n)
  {
    if n < m { FaultStays(items, n, m - 1); }
  }

  /** One more entry read: a fault there is the outcome. */
  lemma {:induction false} ReadStep(items: seq<Value>, n: nat)
    requires n < |items| && ReadKeys(items, n).Done?
    ensures var step := KeyStep(ReadKeys(items, n).value, items[n]);
            ReadKeys(items, n + 1) == step && (!step.Done? ==> ReadKeys(items, |items|) == step)
  {
    if !ReadKeys(items, n + 1).Done? { FaultStays(items, n + 1, |items|); }
  }

  /** `_normalize_expected_keys`: the loop over a growing dict. */
  method NormalizeExpectedKeys(v: Value, le: (Value, Value) -> bool) returns (r: Outcome<seq<Value>>)
    ensures r == ExpectedKeys(v, le)
  {
    if !v.List? { return TypeFault; }
    if v.items == [] { return ValueFault; }
    var normalized: seq<Value> := [];
    for i := 0 to |v.items|
      invariant ReadKeys(v.items, i) == Done(normalized)
    {
      var step := KeyStep(normalized, v.items[i]);
      ReadStep(v.items, i);
      if !step.Done? { return step; }
      normalized := step.value;
    }
    return Done(Sort(normalized, le));
  }

  predicate AllKeysValid(keys: seq<Value>) { forall i | 0 <= i < |keys| :: KeyIsValid(keys[i]) }

  ghost predicate KeysHold(keys: seq<Value>, le: (Value, Value) -> bool) {
    keys != [] && Ordered(keys, le) && Distinct(keys) && AllKeysValid(keys)
  }

  lemma {:induction false} ReadKeysSound(items: seq<Value>, n: nat)
    requires n <= |items| && ReadKeys(items, n).Done?
    ensures |ReadKeys(items, n).value| == n && Distinct(ReadKeys(items, n).value)
    ensures forall i | 0 <= i < n ::
      Accepted(items[i]) && ReadKeys(items, n).value[i] == Normalized(items[i]) && KeyIsValid(Normalized(items[i]))
  {
    if n > 0 { ReadKeysSound(items, n - 1); }
  }

  /** The keys a contract keeps are the given ones, normalised, valid, without repeats and in order. */
  lemma ExpectedKeysHold(v: Value, le: (Value, Value) -> bool)
    requires TotalOrder(le) && ExpectedKeys(v, le).Done?
    ensures v.List? && KeysHold(ExpectedKeys(v, le).value, le)
    ensures forall k :: k in ExpectedKeys(v, le).value <==> exists i | 0 <= i < |v.items| ::
        Accepted(v.items[i]) && k == Normalized(v.items[i])
  {
    var known := ReadKeys(v.items, |v.items|).value;
    ReadKeysSound(v.items, |v.items|);
    SortedKeysHold(known, le);
    forall k ensures k in ExpectedKeys(v, le).value <==> k in known { SortMembers(known, le, k); }
    KnownAreGiven(v.items, known);
  }

  lemma SortedKeysHold(known: seq<Value>, le: (Value, Value) -> bool)
    requires TotalOrder(le) && known != [] && Distinct(known) && AllKeysValid(known)
    ensures KeysHold(Sort(known, le), le)
  {
    var keys := Sort(known, le);
    SortSorts(known, le);
    DistinctSort(known, le);
    forall i | 0 <= i < |keys| ensures keys[i] in known { SortMembers(known, le, keys[i]); }
  }

  lemma KnownAreGiven(items: seq<Value>, known: seq<Value>)
    requires |known| == |items|
    requires forall i | 0 <= i < |items| :: Accepted(items[i]) && known[i] == Normalized(items[i])
    ensures forall k :: k in known <==> exists i | 0 <= i < |items| :: Accepted(items[i]) && k == Normalized(items[i])
  {
    forall k | k in known ensures exists i | 0 <= i < |items| :: Accepted(items[i]) && k == Normalized(items[i]) {
      var i :| 0 <= i < |known| && known[i] == k;
    }
  }

  lemma ValidKeyIsAdded(known: seq<Value>, key: Value)
    requires KeyIsValid(key) && key !in known
    ensures KeyStep(known, key) == Done(known + [key])
  {
    KeyCarriesOnlyItself(key);
    NormalIsAccepted(key);
  }

  lemma PrefixGrows(keys: seq<Value>, n: nat)
    requires n < |keys| && Distinct(keys)
    ensures keys[n] !in keys[..n] && keys[..n + 1] == keys[..n] + [keys[n]]
  {}

  lemma {:induction false} KeysReadBack(keys: seq<Value>, n: nat, known: seq<Value>)
    requires n <= |keys| && Distinct(keys) && AllKeysValid(keys)
    requires known == keys[..n]
    ensures ReadKeys(keys, n) == Done(known)
  {
    if n > 0 {
      PrefixGrows(keys, n - 1);
      var before, key := keys[..n - 1], keys[n - 1];
      assert KeyIsValid(key);
      KeysReadBack(keys, n - 1, before);
      ValidKeyIsAdded(before, key);
      ReadStep(keys, n - 1);
    }
  }

  lemma ExpectedKeysReadBack(keys: seq<Value>, le: (Value, Value) -> bool)
    requires TotalOrder(le) && KeysHold(keys, le)
    ensures ExpectedKeys(List(keys), le) == Done(keys)
  {
    assert keys[..|keys|] == keys;
    KeysReadBack(keys, |keys|, keys);
    SortFixes(keys, le);
  }

  // ----- the contract -----

  ghost predicate ContractHolds(c: Contract, le: (Value, Value) -> bool) {
    && IsDigest(c.protocolHash) && IsDigest(c.dataHash)
    && IdentityHolds(c.primary) && IdentityHolds(c.replication)
    && c.primary.implementationId != c.replication.implementationId
    && c.primary.codeHash != c.replication.codeHash
    && KeysHold(c.keys, le)
    && c.tolerances.Keys == NUMERIC
    && forall name | name in c.tolerances :: ToleranceHolds(c.tolerances[name])
  }

  /** `IndependentReplicationContract.__post_init__`, with its checks in the order it makes them. */
  function NewContract(protocol: Value, data: Value, primary: Identity, replication: Identity, keys: Value,
                       tolerances: map<string, Tolerance>, le: (Value, Value) -> bool): Outcome<Contract> {
    if !Sha256(protocol).Done? || !Sha256(data).Done? then ValueFault
    else if primary.implementationId == replication.implementationId then ValueFault
    else if primary.codeHash == replication.codeHash then ValueFault
    else match ExpectedKeys(keys, le)
      case Done(known) =>
        if tolerances.Keys != NUMERIC then ValueFault
        else Done(Contract(Sha256(protocol).value, Sha256(data).value, primary, replication, known, tolerances))
      case TypeFault => TypeFault
      case _ => ValueFault
  }

  lemma NewContractHolds(protocol: Value, data: Value, primary: Identity, replication: Identity, keys: Value,
                         tolerances: map<string, Tolerance>, le: (Value, Value) -> bool)
    requires TotalOrder(le) && IdentityHolds(primary) && IdentityHolds(replication)
    requires forall name | name in tolerances :: ToleranceHolds(tolerances[name])
    requires NewContract(protocol, data, primary, replication, keys, tolerances, le).Done?
    ensures ContractHolds(NewContract(protocol, data, primary, replication, keys, tolerances, le).value, le)
  {
    ExpectedKeysHold(keys, le);
  }

  const CONTRACT_FIELDS := {
    "schema_version", "record_type", "protocol_hash", "data_snapshot_hash",
    "primary", "replication", "expected_observation_keys", "tolerances"}

  function TolerancesPayload(t: map<string, Tolerance>): Value {
    Object(map name | name in t :: TolerancePayload(t[name]))
  }

  function ContractPayload(c: Contract): Value {
    Object(map[
      "schema_version" := Whole(2),
      "record_type" := Text("independent_replication_contract"),
      "protocol_hash" := Text(c.protocolHash),
      "data_snapshot_hash" := Text(c.dataHash),
      "primary" := IdentityPayload(c.primary),
      "replication" := IdentityPayload(c.replication),
      "expected_observation_keys" := List(c.keys),
      "tolerances" := TolerancesPayload(c.tolerances)])
  }

  /** Equality with the schema number as the source language compares numbers: 2.0 passes for 2. */
  predicate IsSchemaVersion(v: Value) { v == Whole(2) || v == Float(2.0) }

  function TolerancesFromPayload(fields: map<string, Value>): (r: Outcome<map<string, Tolerance>>)
    ensures r.Done? ==> r.value.Keys == fields.Keys && forall name | name in r.value :: ToleranceHolds(r.value[name])
  {
    if forall name | name in fields :: ToleranceFromPayload(fields[name]).Done?
    then Done(map name | name in fields :: ToleranceFromPayload(fields[name]).value)
    else IntegrityFault
  }

  function ContractFromFields(fields: map<string, Value>, le: (Value, Value) -> bool): Outcome<Contract>
    requires fields.Keys == CONTRACT_FIELDS
  {
    var primary := IdentityFromPayload(fields["primary"]);
    var replication := IdentityFromPayload(fields["replication"]);
    if !primary.Done? || !replication.Done? || !fields["tolerances"].Object? then IntegrityFault
    else match TolerancesFromPayload(fields["tolerances"].fields)
      case Done(tolerances) =>
        (match NewContract(fields["protocol_hash"], fields["data_snapshot_hash"], primary.value, replication.value,
                           fields["expected_observation_keys"], tolerances, le)
         case Done(c) => Done(c)
         case _ => IntegrityFault)
      case _ => IntegrityFault
  }

  function ContractFromPayload(v: Value, le: (Value, Value) -> bool): Outcome<Contract> {
    if !v.Object? || v.fields.Keys != CONTRACT_FIELDS then IntegrityFault
    else if !IsSchemaVersion(v.fields["schema_version"]) then IntegrityFault
    else if v.fields["record_type"] != Text("independent_replication_contract") then IntegrityFault
    else ContractFromFields(v.fields, le)
  }

  /** Whatever is read back from a document is a lawful contract. */
  lemma ContractFromPayloadHolds(v: Value, le: (Value, Value) -> bool)
    requires TotalOrder(le) && ContractFromPayload(v, le).Done?
    ensures ContractHolds(ContractFromPayload(v, le).value, le)
  {
    var f := v.fields;
    NewContractHolds(f["protocol_hash"], f["data_snapshot_hash"], IdentityFromPayload(f["primary"]).value,
      IdentityFromPayload(f["replication"]).value, f["expected_observation_keys"],
      TolerancesFromPayload(f["tolerances"].fields).value, le);
  }

  lemma TolerancesRoundTrip(t: map<string, Tolerance>)
    requires forall name | name in t :: ToleranceHolds(t[name])
    ensures Normal(TolerancesPayload(t)) && TolerancesFromPayload(TolerancesPayload(t).fields) == Done(t)
  {
    TolerancesAreNormal(t);
    TolerancesReadBack(t, TolerancesPayload(t).fields);
  }

  lemma TolerancesAreNormal(t: map<string, Tolerance>)
    ensures Normal(TolerancesPayload(t))
  {
    var f := TolerancesPayload(t).fields;
    forall name | name in t ensures Normal(f[name]) { assert f[name] == TolerancePayload(t[name]); }
  }

  lemma TolerancesReadBack(t: map<string, Tolerance>, f: map<string, Value>)
    requires f.Keys == t.Keys
    requires forall name | name in t :: ToleranceHolds(t[name]) && f[name] == TolerancePayload(t[name])
    ensures TolerancesFromPayload(f) == Done(t)
  {
    forall name | name in f ensures ToleranceFromPayload(f[name]) == Done(t[name]) { ToleranceRoundTrip(t[name]); }
    SameMap(TolerancesFromPayload(f).value, t);
  }

  lemma SameMap(a: map<string, Tolerance>, b: map<string, Tolerance>)
    requires a.Keys == b.Keys && forall name | name in a :: a[name] == b[name]
    ensures a == b
  {}

  lemma ContractPayloadFields(c: Contract)
    ensures ContractPayload(c).fields.Keys == CONTRACT_FIELDS
    ensures var f := ContractPayload(c).fields;
      && f["schema_version"] == Whole(2)
      && f["record_type"] == Text("independent_replication_contract")
      && f["protocol_hash"] == Text(c.protocolHash) && f["data_snapshot_hash"] == Text(c.dataHash)
      && f["primary"] == IdentityPayload(c.primary) && f["replication"] == IdentityPayload(c.replication)
      && f["expected_observation_keys"] == List(c.keys) && f["tolerances"] == TolerancesPayload(c.tolerances)
  {}

  lemma ContractPayloadIsNormal(c: Contract, le: (Value, Value) -> bool)
    requires ContractHolds(c, le)
    ensures Normal(ContractPayload(c))
  {
    IdentityRoundTrip(c.primary);
    IdentityRoundTrip(c.replication);
    TolerancesRoundTrip(c.tolerances);
    forall i | 0 <= i < |c.keys| ensures Normal(c.keys[i]) { KeyCarriesOnlyItself(c.keys[i]); }
    ContractPayloadFields(c);
    assert Normal(List(c.keys));
    FieldsAreNormal(ContractPayload(c).fields);
  }

  lemma FieldsAreNormal(f: map<string, Value>)
    requires f.Keys == CONTRACT_FIELDS
    requires Normal(f["schema_version"]) && Normal(f["record_type"])
    requires Normal(f["protocol_hash"]) && Normal(f["data_snapshot_hash"])
    requires Normal(f["primary"]) && Normal(f["replication"])
    requires Normal(f["expected_observation_keys"]) && Normal(f["tolerances"])
    ensures Normal(Object(f))
  {
    forall k | k in f ensures Normal(f[k]) { assert k in CONTRACT_FIELDS; }
  }

  /** A lawful contract written down and read back is the same contract. */
  lemma ContractRoundTrip(c: Contract, le: (Value, Value) -> bool)
    requires TotalOrder(le) && ContractHolds(c, le)
    ensures ContractFromPayload(ContractPayload(c), le) == Done(c)
  {
    ContractPayloadFields(c);
    FieldsRoundTrip(c, ContractPayload(c).fields, le);
  }

  lemma FieldsRoundTrip(c: Contract, f: map<string, Value>, le: (Value, Value) -> bool)
    requires TotalOrder(le) && ContractHolds(c, le)
    requires f.Keys == CONTRACT_FIELDS
    requires f["protocol_hash"] == Text(c.protocolHash) && f["data_snapshot_hash"] == Text(c.dataHash)
    requires f["primary"] == IdentityPayload(c.primary) && f["replication"] == IdentityPayload(c.replication)
    requires f["expected_observation_keys"] == List(c.keys) && f["tolerances"] == TolerancesPayload(c.tolerances)
    ensures ContractFromFields(f, le) == Done(c)
  {
    IdentityRoundTrip(c.primary);
    IdentityRoundTrip(c.replication);
    TolerancesRoundTrip(c.tolerances);
    ExpectedKeysReadBack(c.keys, le);
    assert NewContract(f["protocol_hash"], f["data_snapshot_hash"], c.primary, c.replication,
                       f["expected_observation_keys"], c.tolerances, le) == Done(c);
  }
}
