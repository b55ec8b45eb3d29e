/** The evidence store: artifacts published under their digest, and what loading one returns. */
module EvidenceStore {
  import opened Texts
  import opened Documents
  import opened Contracts
  import opened Evidence
  import opened AtomicStore

  /** Documents as bytes on disk. */
  datatype Codec = Codec(encode: Value -> Bytes, decode: Bytes -> Outcome<Value>)

  /** Reading back what was written gives the document. */
  predicate Faithful(codec: Codec, v: Value) { codec.decode(codec.encode(v)) == Done(v) }

  function PathFor(hash: string): string { hash + ".json" }

  lemma PathIsPublic(hash: string)
    requires IsDigest(hash)
    ensures !IsTemporary(PathFor(hash))
  {
    assert PathFor(hash)[0] == hash[0] && IsHex(hash[0]);
  }

  lemma PathsAreDistinct(a: string, b: string)
    requires PathFor(a) == PathFor(b)
    ensures a == b
  {
    assert |PathFor(a)| == |a| + 5 && |PathFor(b)| == |b| + 5;
    assert PathFor(a)[..|a|] == a && PathFor(b)[..|b|] == b;
  }

  /** `persist`: the artifact is read back from its own document before a call to publish it is made. */
  function Persist(a: Artifact, codec: Codec, le: (Value, Value) -> bool, digest: Value -> string)
    : Outcome<(string, Bytes)>
  {
    match FromDocument(ToDocument(a), le, digest)
    case Done(verified) =>
      if verified.hash != a.hash then IntegrityFault
      else Done((PathFor(verified.hash), codec.encode(ToDocument(verified))))
    case IntegrityFault => IntegrityFault
    case _ => TypeFault
  }

  datatype Loaded = Found(artifact: Artifact) | Missing | BadHash | Damaged

  /** `load`. */
  function Load(s: State, hash: Value, codec: Codec, le: (Value, Value) -> bool, digest: Value -> string): Loaded {
    match Sha256(hash)
    case Done(name) =>
      if PathFor(name) !in s.names || s.names[PathFor(name)] !in s.files then Missing
      else (
        match codec.decode(s.files[s.names[PathFor(name)]].visible)
        case Done(document) =>
          (match FromDocument(document, le, digest)
           case Done(a) => if a.hash == name then Found(a) else Damaged
           case _ => Damaged)
        case _ => Damaged)
    case _ => BadHash
  }

  /** Whatever a reconciliation creates is published, under the digest of its payload. */
  lemma CreatedIsPublished(c: Contract, left: Value, right: Value, codec: Codec, le: (Value, Value) -> bool,
                           digest: Value -> string)
    requires Lawful(le, digest) && ContractHolds(c, le) && Create(c, left, right, le, digest).Done?
    ensures var a := Create(c, left, right, le, digest).value;
      Persist(a, codec, le, digest) == Done((digest(a.payload) + ".json", codec.encode(ToDocument(a))))
  {
    var a := Create(c, left, right, le, digest).value;
    CreatedIsAccepted(c, left, right, le, digest);
    AcceptedIsTruthful(ToDocument(a), le, digest);
  }

  /** What a successful call published is what loading its digest returns, at that moment and until the power
      goes, whatever else happens in between. */
  lemma LoadReturnsPersisted(states: seq<State>, steps: seq<Step>, i: nat, j: nat, w: nat, a: Artifact,
                             codec: Codec, le: (Value, Value) -> bool, digest: Value -> string)
    requires Lawful(le, digest) && Faithful(codec, ToDocument(a))
    requires Run(states, steps) && i <= j < |states| && forall k | i <= k < j :: !steps[k].PowerLoss?
    requires w < |states[i].writers| && states[i].writers[w].stage in {Cleaning(Success), Finished(Success)}
    requires FromDocument(ToDocument(a), le, digest) == Done(a)
    requires Persist(a, codec, le, digest) == Done((states[i].writers[w].path, states[i].writers[w].bytes))
    ensures Load(states[j], Text(a.hash), codec, le, digest) == Found(a)
  {
    AcceptedIsTruthful(ToDocument(a), le, digest);
    assert IsDigest(a.hash);
    PathIsPublic(a.hash);
    OutcomeIsTruthful(states, steps, i, w);
    PublishedIsPermanent(states, steps, i, j, PathFor(a.hash), codec.encode(ToDocument(a)));
  }

  /** And whatever loading returns is an artifact of the digest asked for, whose payload has that digest and whose
      verdict is that of the outputs it records. */
  lemma LoadedIsTruthful(s: State, hash: Value, codec: Codec, le: (Value, Value) -> bool, digest: Value -> string)
    requires Lawful(le, digest) && Load(s, hash, codec, le, digest).Found?
    ensures var a := Load(s, hash, codec, le, digest).artifact;
      && Sha256(hash) == Done(a.hash) && a.hash == digest(a.payload)
      && exists c, left, right :: ContractHolds(c, le) && Create(c, left, right, le, digest) == Done(a)
  {
    var document := codec.decode(s.files[s.names[PathFor(Sha256(hash).value)]].visible).value;
    AcceptedIsTruthful(document, le, digest);
  }

  /** Every call publishes some artifact under the digest of its payload. */
  ghost predicate ContentAddressed(s: State, artifacts: seq<Artifact>, codec: Codec, digest: Value -> string) {
    |artifacts| == |s.writers| && forall v | 0 <= v < |s.writers| ::
        Publishes(s.writers[v], artifacts[v], codec, digest)
  }

  predicate Publishes(w: Writer, a: Artifact, codec: Codec, digest: Value -> string) {
    a.hash == digest(a.payload) && w.path == PathFor(a.hash) && w.bytes == codec.encode(ToDocument(a))
  }

  /** If no two payloads share a digest, persisting an artifact is never refused, however calls interleave. */
  lemma PersistIsNeverRefused(states: seq<State>, steps: seq<Step>, i: nat, w: nat, artifacts: seq<Artifact>,
                              codec: Codec, digest: Value -> string)
    requires Run(states, steps) && i < |states| && w < |states[i].writers|
    requires ContentAddressed(states[i], artifacts, codec, digest)
    requires forall v | 0 <= v < |artifacts| ::
      digest(artifacts[v].payload) == digest(artifacts[w].payload) ==> artifacts[v].payload == artifacts[w].payload
    ensures states[i].writers[w].stage != Cleaning(Refused) && states[i].writers[w].stage != Finished(Refused)
  {
    var s := states[i];
    assert Publishes(s.writers[w], artifacts[w], codec, digest);
    forall v | 0 <= v < |s.writers| && s.writers[v].path == s.writers[w].path
      ensures s.writers[v].bytes == s.writers[w].bytes
    {
      assert Publishes(s.writers[v], artifacts[v], codec, digest);
      PathsAreDistinct(artifacts[v].hash, artifacts[w].hash);
    }
    SameBytesNeverRefused(states, steps, i, w);
  }
}
