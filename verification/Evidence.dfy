/** The evidence artifact: built from two outputs, written as a document, and rebuilt before it is believed. */
module Evidence {
  import opened Documents
  import opened Ordering
  import opened Texts
  import opened Contracts
  import opened Observations
  import opened Findings
  import opened Reconciler
  import opened Comparison
  import opened Verdicts

  datatype Artifact = Artifact(hash: string, payload: Value)

  /** What the record keeping rests on: a total order of canonical documents, and a digest that is one. */
  ghost predicate Lawful(le: (Value, Value) -> bool, digest: Value -> string) {
    TotalOrder(le) && forall v :: IsDigest(digest(v))
  }

  const EVIDENCE_FIELDS := {
    "schema_version", "record_type", "protocol_hash", "data_snapshot_hash", "contract_hash",
    "contract", "outputs", "discrepancies", "passed"}

  const OUTPUT_FIELDS := {"implementation_id", "code_hash", "observations"}

  function Output(i: Identity, rows: seq<Value>): Value {
    Object(map["implementation_id" := Text(i.implementationId), "code_hash" := Text(i.codeHash),
               "observations" := List(rows)])
  }

  function Payload(c: Contract, left: seq<Value>, right: seq<Value>, discrepancies: seq<Value>,
                   digest: Value -> string): Value
  {
    Object(map[
      "schema_version" := Whole(2),
      "record_type" := Text("independent_replication_evidence"),
      "protocol_hash" := Text(c.protocolHash),
      "data_snapshot_hash" := Text(c.dataHash),
      "contract_hash" := Text(digest(ContractPayload(c))),
      "contract" := ContractPayload(c),
      "outputs" := List([Output(c.primary, left), Output(c.replication, right)]),
      "discrepancies" := List(discrepancies),
      "passed" := Bool(discrepancies == [])])
  }

  /** The discrepancies the two outputs deserve. */
  function Deserved(c: Contract, left: seq<Value>, right: seq<Value>, le: (Value, Value) -> bool): seq<Value> {
    Recorded(Compare(c, Parse(c.primary, left), Parse(c.replication, right), le), le)
  }

  function Built(c: Contract, left: Value, right: Value, le: (Value, Value) -> bool,
                 digest: Value -> string): Outcome<Value>
  {
    match NormalizedObservations(left, le)
    case Done(l) =>
      (match NormalizedObservations(right, le)
       case Done(r) => Done(Payload(c, l, r, Deserved(c, l, r, le), digest))
       case _ => TypeFault)
    case _ => TypeFault
  }

  /** `_build_evidence_payload`. */
  method BuildEvidencePayload(c: Contract, left: Value, right: Value, le: (Value, Value) -> bool,
                              digest: Value -> string)
    returns (r: Outcome<Value>)
    requires Lawful(le, digest) && ContractHolds(c, le)
    ensures r == Built(c, left, right, le, digest)
  {
    var l := NormalizeObservations(left, le);
    if !l.Done? { return TypeFault; }
    var q := NormalizeObservations(right, le);
    if !q.Done? { return TypeFault; }
    CanonicalListIsRows(left, le);
    CanonicalListIsRows(right, le);
    var discrepancies := Reconcile(c, l.value, q.value, le);
    return Done(Payload(c, l.value, q.value, discrepancies, digest));
  }

  method Reconcile(c: Contract, left: seq<Value>, right: seq<Value>, le: (Value, Value) -> bool)
    returns (discrepancies: seq<Value>)
    requires TotalOrder(le) && ContractHolds(c, le) && Rows(left) && Rows(right)
    ensures discrepancies == Deserved(c, left, right, le)
  {
    var primary := ParseOutput(c.primary, left);
    var replication := ParseOutput(c.replication, right);
    ParseIsWellGrouped(c.primary, left);
    ParseIsWellGrouped(c.replication, right);
    discrepancies := CompareOutputs(c, primary, replication, le);
  }

  function Create(c: Contract, left: Value, right: Value, le: (Value, Value) -> bool,
                  digest: Value -> string): Outcome<Artifact>
  {
    match Built(c, left, right, le, digest)
    case Done(payload) => Done(Artifact(digest(payload), payload))
    case _ => TypeFault
  }

  function ToDocument(a: Artifact): Value {
    Object(map["evidence_hash" := Text(a.hash), "evidence" := a.payload])
  }

  /** The stored observations of one output, if it names the implementation the contract names. */
  function StoredObservations(v: Value, i: Identity): Outcome<Value> {
    if !v.Object? || v.fields.Keys != OUTPUT_FIELDS then IntegrityFault
    else if v.fields["implementation_id"] != Text(i.implementationId) then IntegrityFault
    else if v.fields["code_hash"] != Text(i.codeHash) then IntegrityFault
    else if !v.fields["observations"].List? then IntegrityFault
    else Done(v.fields["observations"])
  }

  /** The second half of `from_json`: the stored outputs are reconciled again and must give this payload. */
  function Replayed(f: map<string, Value>, payload: Value, le: (Value, Value) -> bool,
                    digest: Value -> string): Outcome<Artifact>
    requires f.Keys == EVIDENCE_FIELDS
  {
    match ContractFromPayload(f["contract"], le)
    case Done(c) =>
      if f["protocol_hash"] != Text(c.protocolHash) || f["data_snapshot_hash"] != Text(c.dataHash) then IntegrityFault
      else if f["contract_hash"] != Text(digest(ContractPayload(c))) then IntegrityFault
      else if !f["outputs"].List? || |f["outputs"].items| != 2 then IntegrityFault
      else
        var left := StoredObservations(f["outputs"].items[0], c.primary);
        var right := StoredObservations(f["outputs"].items[1], c.replication);
        if !left.Done? || !right.Done? then IntegrityFault
        else (
          match Built(c, left.value, right.value, le, digest)
          case Done(rebuilt) => if rebuilt == payload then Done(Artifact(digest(payload), payload)) else IntegrityFault
          case _ => TypeFault)
    case _ => IntegrityFault
  }

  /** `ReplicationEvidence.from_json`, on the parsed document. */
  function FromDocument(v: Value, le: (Value, Value) -> bool, digest: Value -> string): Outcome<Artifact> {
    if !v.Object? || v.fields.Keys != {"evidence_hash", "evidence"} then IntegrityFault
    else if !Sha256(v.fields["evidence_hash"]).Done? then IntegrityFault
    else if !v.fields["evidence"].Object? then IntegrityFault
    else if !Accepted(v.fields["evidence"]) then TypeFault
    else
      var payload := Normalized(v.fields["evidence"]);
      if Sha256(v.fields["evidence_hash"]) != Done(digest(payload)) then IntegrityFault
      else if v.fields["evidence"].fields.Keys != EVIDENCE_FIELDS then IntegrityFault
      else if !IsSchemaVersion(v.fields["evidence"].fields["schema_version"]) then IntegrityFault
      else if v.fields["evidence"].fields["record_type"] != Text("independent_replication_evidence") then IntegrityFault
      else Replayed(v.fields["evidence"].fields, payload, le, digest)
  }

  // ----- the payload is already in normal form -----

  lemma CanonicalListIsRows(v: Value, le: (Value, Value) -> bool)
    requires TotalOrder(le) && NormalizedObservations(v, le).Done?
    ensures Rows(NormalizedObservations(v, le).value)
  {
    var given := CanonicalRows(v.items);
    forall i | 0 <= i < |Sort(given, le)| ensures Sort(given, le)[i].Object? && Normal(Sort(given, le)[i]) {
      SortMembers(given, le, Sort(given, le)[i]);
    }
    SortSorts(given, le);
  }

  lemma KeyIsNormal(row: Value)
    requires row.Object? && Normal(row)
    ensures Normal(KeyOf(row))
  {}

  lemma RowFindingsQuotable(source: string, n: nat, row: Value)
    requires row.Object? && Normal(row)
    ensures AllQuotable(RowFindings(source, n, row))
  {
    KeyIsNormal(row);
    NumbersQuotable(source, n, row.fields);
  }

  lemma NumbersQuotable(source: string, n: nat, raw: map<string, Value>)
    requires Normal(Object(raw)) && Normal(Get(raw, "key"))
    ensures AllQuotable(Gather(|NUMERIC_FIELDS|, NumberFindings(source, n, raw, NUMERIC_FIELDS)))
  {
    var f := NumberFindings(source, n, raw, NUMERIC_FIELDS);
    forall i | 0 <= i < |NUMERIC_FIELDS| ensures AllQuotable(f(i)) {
      NumberFindingQuotable(source, n, raw, NUMERIC_FIELDS[i]);
    }
    GatherQuotable(|NUMERIC_FIELDS|, f);
  }

  lemma NumberFindingQuotable(source: string, n: nat, raw: map<string, Value>, name: string)
    requires Normal(Object(raw)) && Normal(Get(raw, "key"))
    ensures AllQuotable(NumberFinding(source, n, raw, name))
  {}

  /** Every member of every group is one of the rows. */
  ghost predicate GroupsQuotable(o: ParsedOutput) {
    forall key | key in o.groups :: RowsQuotable(o.groups[key])
  }

  predicate RowsQuotable(group: seq<Parsed>) {
    forall i | 0 <= i < |group| :: Normal(group[i].key) && Normal(group[i].raw)
  }

  lemma {:induction false} FiledQuotable(rows: seq<Value>, n: nat, key: Value)
    requires n <= |rows| && Rows(rows)
    ensures RowsQuotable(Filed(rows, n, key))
  {
    if n > 0 {
      FiledQuotable(rows, n - 1, key);
      KeyIsNormal(rows[n - 1]);
    }
  }

  lemma {:induction false} ParseQuotable(identity: Identity, rows: seq<Value>)
    requires Rows(rows)
    ensures AllQuotable(Parse(identity, rows).findings) && GroupsQuotable(Parse(identity, rows))
  {
    var o := Parse(identity, rows);
    var f := RowsFindings(Name(o), rows);
    forall i | 0 <= i < |rows| ensures AllQuotable(f(i)) { RowFindingsQuotable(Name(o), i, rows[i]); }
    GatherQuotable(|rows|, f);
    GroupsAreWhole(rows, |rows|);
    forall key | key in o.groups ensures RowsQuotable(o.groups[key]) { FiledQuotable(rows, |rows|, key); }
    DuplicatesQuotable(o);
  }

  lemma {:induction false} DuplicatesQuotable(o: ParsedOutput)
    requires GroupsQuotable(o)
    ensures AllQuotable(Gather(|o.order|, DuplicateFindings(Name(o), o.groups, o.order)))
  {
    var g := DuplicateFindings(Name(o), o.groups, o.order);
    forall i | 0 <= i < |o.order| ensures AllQuotable(g(i)) {
      if o.order[i] in o.groups { RawsQuotable(o.groups[o.order[i]]); }
    }
    GatherQuotable(|o.order|, g);
  }

  lemma RawsQuotable(group: seq<Parsed>)
    requires RowsQuotable(group)
    ensures Normal(List(Raws(group)))
  {}

  lemma CoverageQuotable(o: ParsedOutput, keys: seq<Value>, le: (Value, Value) -> bool)
    requires GroupsQuotable(o) && AllKeysValid(keys)
    ensures AllQuotable(Coverage(o, keys, le))
  {
    var tokens := Sort(o.order, le);
    var f, g := MissingFindings(o, keys), UnexpectedFindings(o, tokens, keys);
    forall i | 0 <= i < |keys| ensures AllQuotable(f(i)) { KeyCarriesOnlyItself(keys[i]); }
    forall i | 0 <= i < |tokens| ensures AllQuotable(g(i)) {
      if tokens[i] in o.groups { RawsQuotable(o.groups[tokens[i]]); }
    }
    GatherQuotable(|keys|, f);
    GatherQuotable(|tokens|, g);
  }

  lemma AbsentQuotable(here: ParsedOutput, there: ParsedOutput, tokens: seq<Value>)
    requires GroupsQuotable(here)
    ensures AllQuotable(Gather(|tokens|, AbsentFindings(here, there, tokens)))
  {
    var f := AbsentFindings(here, there, tokens);
    forall i | 0 <= i < |tokens| ensures AllQuotable(f(i)) {
      if tokens[i] in here.groups { RawsQuotable(here.groups[tokens[i]]); }
    }
    GatherQuotable(|tokens|, f);
  }

  lemma PairQuotable(c: Contract, left: string, a: Parsed, right: string, b: Parsed)
    requires Normal(a.key)
    ensures AllQuotable(PairMismatches(c, left, a, right, b))
  {
    var f := NumberMismatches(c, left, a, right, b, NUMERIC_FIELDS);
    forall i | 0 <= i < |NUMERIC_FIELDS| ensures AllQuotable(f(i)) {}
    GatherQuotable(|NUMERIC_FIELDS|, f);
  }

  lemma SharedQuotable(c: Contract, p: ParsedOutput, r: ParsedOutput, tokens: seq<Value>)
    requires GroupsQuotable(p)
    ensures AllQuotable(Gather(|tokens|, SharedFindings(c, p, r, tokens)))
  {
    var f := SharedFindings(c, p, r, tokens);
    forall i | 0 <= i < |tokens| ensures AllQuotable(f(i)) {
      if tokens[i] in p.groups && tokens[i] in r.groups && |p.groups[tokens[i]]| == 1 && |r.groups[tokens[i]]| == 1 {
        PairQuotable(c, Name(p), p.groups[tokens[i]][0], Name(r), r.groups[tokens[i]][0]);
      }
    }
    GatherQuotable(|tokens|, f);
  }

  lemma CompareQuotable(c: Contract, p: ParsedOutput, r: ParsedOutput, le: (Value, Value) -> bool)
    requires AllKeysValid(c.keys) && GroupsQuotable(p) && GroupsQuotable(r)
    requires AllQuotable(p.findings) && AllQuotable(r.findings)
    ensures AllQuotable(Compare(c, p, r, le))
  {
    CoverageQuotable(p, c.keys, le);
    CoverageQuotable(r, c.keys, le);
    AbsentQuotable(p, r, Sort(p.order, le));
    AbsentQuotable(r, p, Sort(r.order, le));
    SharedQuotable(c, p, r, Sort(p.order, le));
  }

  lemma DeservedAreNormal(c: Contract, left: seq<Value>, right: seq<Value>, le: (Value, Value) -> bool)
    requires TotalOrder(le) && ContractHolds(c, le) && Rows(left) && Rows(right)
    ensures Normal(List(Deserved(c, left, right, le)))
  {
    ParseQuotable(c.primary, left);
    ParseQuotable(c.replication, right);
    var findings := Compare(c, Parse(c.primary, left), Parse(c.replication, right), le);
    CompareQuotable(c, Parse(c.primary, left), Parse(c.replication, right), le);
    var documents := Mapped(findings, Document);
    var recorded := Sort(documents, le);
    SortSorts(documents, le);
    forall i | 0 <= i < |recorded| ensures Normal(recorded[i]) {
      SortMembers(documents, le, recorded[i]);
      var j :| 0 <= j < |documents| && documents[j] == recorded[i];
      DocumentIsNormal(findings[j]);
    }
  }

  lemma PayloadKeys(c: Contract, left: seq<Value>, right: seq<Value>, discrepancies: seq<Value>,
                    digest: Value -> string)
    ensures Payload(c, left, right, discrepancies, digest).fields.Keys == EVIDENCE_FIELDS
  {}

  lemma PayloadFields(c: Contract, left: seq<Value>, right: seq<Value>, discrepancies: seq<Value>,
                      digest: Value -> string)
    ensures Payload(c, left, right, discrepancies, digest).fields.Keys == EVIDENCE_FIELDS
    ensures var f := Payload(c, left, right, discrepancies, digest).fields;
      && f["schema_version"] == Whole(2) && f["record_type"] == Text("independent_replication_evidence")
      && f["protocol_hash"] == Text(c.protocolHash) && f["data_snapshot_hash"] == Text(c.dataHash)
      && f["contract_hash"] == Text(digest(ContractPayload(c)))
  {
    PayloadKeys(c, left, right, discrepancies, digest);
  }

  lemma PayloadParts(c: Contract, left: seq<Value>, right: seq<Value>, discrepancies: seq<Value>,
                     digest: Value -> string)
    ensures var f := Payload(c, left, right, discrepancies, digest).fields;
      && f.Keys == EVIDENCE_FIELDS && f["contract"] == ContractPayload(c)
      && f["outputs"] == List([Output(c.primary, left), Output(c.replication, right)])
      && f["discrepancies"] == List(discrepancies) && f["passed"] == Bool(discrepancies == [])
      && f["protocol_hash"] == Text(c.protocolHash) && f["data_snapshot_hash"] == Text(c.dataHash)
      && f["contract_hash"] == Text(digest(ContractPayload(c)))
  {
    PayloadKeys(c, left, right, discrepancies, digest);
  }

  lemma OutputFields(i: Identity, rows: seq<Value>)
    requires Rows(rows)
    ensures Normal(Output(i, rows)) && StoredObservations(Output(i, rows), i) == Done(List(rows))
  {
    var f := Output(i, rows).fields;
    assert f.Keys == OUTPUT_FIELDS;
    assert f["implementation_id"] == Text(i.implementationId) && f["code_hash"] == Text(i.codeHash);
    assert f["observations"] == List(rows);
    assert forall k | k in OUTPUT_FIELDS :: Normal(f[k]);
  }

  lemma EvidenceFieldsAreNormal(f: map<string, Value>)
    requires f.Keys == EVIDENCE_FIELDS
    requires Normal(f["schema_version"]) && Normal(f["record_type"]) && Normal(f["protocol_hash"])
    requires Normal(f["data_snapshot_hash"]) && Normal(f["contract_hash"]) && Normal(f["contract"])
    requires Normal(f["outputs"]) && Normal(f["discrepancies"]) && Normal(f["passed"])
    ensures Normal(Object(f))
  {
    forall k | k in f ensures Normal(f[k]) { assert k in EVIDENCE_FIELDS; }
  }

  /** What is built is in normal form, so writing it down and reading it back is the identity. */
  lemma BuiltIsNormal(c: Contract, left: Value, right: Value, le: (Value, Value) -> bool, digest: Value -> string)
    requires Lawful(le, digest) && ContractHolds(c, le) && Built(c, left, right, le, digest).Done?
    ensures Normal(Built(c, left, right, le, digest).value)
  {
    var l, r := NormalizedObservations(left, le).value, NormalizedObservations(right, le).value;
    CanonicalListIsRows(left, le);
    CanonicalListIsRows(right, le);
    DeservedAreNormal(c, l, r, le);
    ContractPayloadIsNormal(c, le);
    PayloadIsNormal(c, l, r, Deserved(c, l, r, le), digest);
  }

  lemma PayloadIsNormal(c: Contract, l: seq<Value>, r: seq<Value>, discrepancies: seq<Value>, digest: Value -> string)
    requires Normal(ContractPayload(c)) && Rows(l) && Rows(r) && Normal(List(discrepancies))
    ensures Normal(Payload(c, l, r, discrepancies, digest))
  {
    PayloadFields(c, l, r, discrepancies, digest);
    PayloadParts(c, l, r, discrepancies, digest);
    OutputFields(c.primary, l);
    OutputFields(c.replication, r);
    PairIsNormal(Output(c.primary, l), Output(c.replication, r));
    EvidenceFieldsAreNormal(Payload(c, l, r, discrepancies, digest).fields);
  }

  lemma PairIsNormal(a: Value, b: Value)
    requires Normal(a) && Normal(b)
    ensures Normal(List([a, b]))
  {}

  // ----- the replay -----

  /** Rebuilding from the stored outputs gives back the payload they were stored in. */
  lemma RebuiltIsTheSame(c: Contract, left: Value, right: Value, le: (Value, Value) -> bool, digest: Value -> string)
    requires Lawful(le, digest) && Built(c, left, right, le, digest).Done?
    ensures Built(c, List(NormalizedObservations(left, le).value), List(NormalizedObservations(right, le).value), le,
                  digest)
      == Built(c, left, right, le, digest)
  {
    StoredRowsReadBack(left, le);
    StoredRowsReadBack(right, le);
  }

  lemma ReplayAccepts(c: Contract, left: Value, right: Value, le: (Value, Value) -> bool, digest: Value -> string)
    requires Lawful(le, digest) && ContractHolds(c, le) && Built(c, left, right, le, digest).Done?
    ensures var payload := Built(c, left, right, le, digest).value;
      payload.fields.Keys == EVIDENCE_FIELDS
      && Replayed(payload.fields, payload, le, digest) == Done(Artifact(digest(payload), payload))
  {
    var l, r := NormalizedObservations(left, le).value, NormalizedObservations(right, le).value;
    PayloadFields(c, l, r, Deserved(c, l, r, le), digest);
    PayloadParts(c, l, r, Deserved(c, l, r, le), digest);
    CanonicalListIsRows(left, le);
    CanonicalListIsRows(right, le);
    OutputFields(c.primary, l);
    OutputFields(c.replication, r);
    RebuiltIsTheSame(c, left, right, le, digest);
    var payload := Built(c, left, right, le, digest).value;
    ReplayOfFields(c, l, r, payload.fields, payload, le, digest);
  }

  lemma ReplayOfFields(c: Contract, l: seq<Value>, r: seq<Value>, f: map<string, Value>, payload: Value,
                       le: (Value, Value) -> bool, digest: Value -> string)
    requires Lawful(le, digest) && ContractHolds(c, le) && f.Keys == EVIDENCE_FIELDS
    requires f["protocol_hash"] == Text(c.protocolHash) && f["data_snapshot_hash"] == Text(c.dataHash)
    requires f["contract_hash"] == Text(digest(ContractPayload(c))) && f["contract"] == ContractPayload(c)
    requires f["outputs"] == List([Output(c.primary, l), Output(c.replication, r)])
    requires StoredObservations(Output(c.primary, l), c.primary) == Done(List(l))
    requires StoredObservations(Output(c.replication, r), c.replication) == Done(List(r))
    requires Built(c, List(l), List(r), le, digest) == Done(payload)
    ensures Replayed(f, payload, le, digest) == Done(Artifact(digest(payload), payload))
  {
    ContractRoundTrip(c, le);
  }

  lemma DocumentFields(a: Artifact)
    ensures var f := ToDocument(a).fields;
      f.Keys == {"evidence_hash", "evidence"} && f["evidence_hash"] == Text(a.hash) && f["evidence"] == a.payload
  {}

  /** Evidence from `create` is always accepted, unchanged, when its document is read back. */
  lemma CreatedIsAccepted(c: Contract, left: Value, right: Value, le: (Value, Value) -> bool, digest: Value -> string)
    requires Lawful(le, digest) && ContractHolds(c, le) && Create(c, left, right, le, digest).Done?
    ensures FromDocument(ToDocument(Create(c, left, right, le, digest).value), le, digest)
      == Create(c, left, right, le, digest)
  {
    var a := Create(c, left, right, le, digest).value;
    BuiltIsNormal(c, left, right, le, digest);
    ReplayAccepts(c, left, right, le, digest);
    BuiltFields(c, left, right, le, digest);
    DocumentIsAccepted(a, le, digest);
  }

  lemma BuiltFields(c: Contract, left: Value, right: Value, le: (Value, Value) -> bool, digest: Value -> string)
    requires Built(c, left, right, le, digest).Done?
    ensures EvidenceShaped(Built(c, left, right, le, digest).value)
  {
    var l, r := NormalizedObservations(left, le).value, NormalizedObservations(right, le).value;
    PayloadFields(c, l, r, Deserved(c, l, r, le), digest);
    PayloadParts(c, l, r, Deserved(c, l, r, le), digest);
  }

  /** The fields of an evidence payload, with its schema and record type. */
  predicate EvidenceShaped(v: Value) {
    && v.Object? && v.fields.Keys == EVIDENCE_FIELDS && IsSchemaVersion(v.fields["schema_version"])
    && v.fields["record_type"] == Text("independent_replication_evidence")
  }

  /** A document of a normal payload that replays is accepted as it stands. */
  lemma DocumentIsAccepted(a: Artifact, le: (Value, Value) -> bool, digest: Value -> string)
    requires EvidenceShaped(a.payload) && Normal(a.payload) && a.hash == digest(a.payload) && IsDigest(a.hash)
    requires Replayed(a.payload.fields, a.payload, le, digest) == Done(a)
    ensures FromDocument(ToDocument(a), le, digest) == Done(a)
  {
    DocumentFields(a);
    NormalIsAccepted(a.payload);
    DigestReads(a.hash);
    OpenedDocument(ToDocument(a), a, le, digest);
  }

  lemma DigestReads(hash: string)
    requires IsDigest(hash)
    ensures Sha256(Text(hash)) == Done(hash)
  {
  }

  lemma OpenedDocument(v: Value, a: Artifact, le: (Value, Value) -> bool, digest: Value -> string)
    requires v.Object? && v.fields.Keys == {"evidence_hash", "evidence"} && v.fields["evidence"] == a.payload
    requires Sha256(v.fields["evidence_hash"]) == Done(digest(a.payload))
    requires EvidenceShaped(a.payload) && Accepted(a.payload) && Normalized(a.payload) == a.payload
    requires Replayed(a.payload.fields, a.payload, le, digest) == Done(a)
    ensures FromDocument(v, le, digest) == Done(a)
  {
  }

  /** The contract and the two outputs an accepted document was rebuilt from. */
  function StoredContract(v: Value, le: (Value, Value) -> bool): Outcome<Contract> {
    if v.Object? && "contract" in v.fields then ContractFromPayload(v.fields["contract"], le) else IntegrityFault
  }

  function StoredOutput(v: Value, side: nat): Value {
    if v.Object? && "outputs" in v.fields && v.fields["outputs"].List? && side < |v.fields["outputs"].items|
       && v.fields["outputs"].items[side].Object? && "observations" in v.fields["outputs"].items[side].fields
    then v.fields["outputs"].items[side].fields["observations"] else Null
  }

  /** An accepted document tells the truth: its payload is what reconciling its stored outputs under its
      stored contract gives, and its verdict says whether they agree. */
  lemma AcceptedIsTruthful(v: Value, le: (Value, Value) -> bool, digest: Value -> string)
    requires Lawful(le, digest) && FromDocument(v, le, digest).Done?
    ensures var a := FromDocument(v, le, digest).value;
      && a.hash == digest(a.payload)
      && v.Object? && "evidence" in v.fields
      && StoredContract(v.fields["evidence"], le).Done?
      && var c := StoredContract(v.fields["evidence"], le).value;
         var left, right := StoredOutput(v.fields["evidence"], 0), StoredOutput(v.fields["evidence"], 1);
      && ContractHolds(c, le)
      && Create(c, left, right, le, digest) == Done(a)
      && a.payload.Object? && "passed" in a.payload.fields
      && (a.payload.fields["passed"] == Bool(true) <==>
          Reconciled(c, NormalizedObservations(left, le).value, NormalizedObservations(right, le).value))
  {
    var e := v.fields["evidence"];
    var c := StoredContract(e, le).value;
    ContractFromPayloadHolds(e.fields["contract"], le);
    var left, right := StoredOutput(e, 0), StoredOutput(e, 1);
    PassedFlag(c, left, right, le, digest);
  }

  /** The flag `passed` is the verdict. */
  lemma PassedFlag(c: Contract, left: Value, right: Value, le: (Value, Value) -> bool, digest: Value -> string)
    requires Lawful(le, digest) && ContractHolds(c, le) && Built(c, left, right, le, digest).Done?
    ensures var payload := Built(c, left, right, le, digest).value;
      payload.Object? && "passed" in payload.fields
      && (payload.fields["passed"] == Bool(true) <==>
          Reconciled(c, NormalizedObservations(left, le).value, NormalizedObservations(right, le).value))
  {
    var l, r := NormalizedObservations(left, le).value, NormalizedObservations(right, le).value;
    CanonicalListIsRows(left, le);
    CanonicalListIsRows(right, le);
    PayloadFields(c, l, r, Deserved(c, l, r, le), digest);
    PayloadParts(c, l, r, Deserved(c, l, r, le), digest);
    PassedMeansReconciled(c, l, r, le);
    RecordedEmpty(Compare(c, Parse(c.primary, l), Parse(c.replication, r), le), le);
  }

  /** Rearranging either list of observations leaves the evidence as it is. */
  lemma EvidenceIgnoresOrder(c: Contract, p: seq<Value>, p': seq<Value>, r: seq<Value>, r': seq<Value>,
                             le: (Value, Value) -> bool, digest: Value -> string)
    requires Lawful(le, digest) && multiset(p) == multiset(p') && multiset(r) == multiset(r')
    ensures Create(c, List(p), List(r), le, digest) == Create(c, List(p'), List(r'), le, digest)
  {
    OrderOfRowsIsIrrelevant(p, p', le);
    OrderOfRowsIsIrrelevant(r, r', le);
  }
}
